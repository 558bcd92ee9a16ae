/** Rebuilding the template index behind its alias (src/agents/nuclei_templates.py: rebuild_manifest).

    Each request to the cluster is atomic. It may work, fail, or work without the caller hearing of
    it, as when the reply is lost after the change; the caller sees an exception in both of the last
    two cases. A crash of the caller leaves the cluster in one of the states it went through, so every
    state is recorded. */
module IndexRebuild {
  import opened Options

  datatype Item = Item(path: string, doc: string)

  type Contents = map<string, string>   // documents by id

  // The alias resolves to the indices that hold it; deleting an index takes it off the alias.
  datatype Cluster = Cluster(indices: map<string, Contents>, alias: set<string>)

  datatype Trace = Trace(now: Cluster, visited: seq<Cluster>)

  datatype Reply = Works | Fails | Unheard

  predicate Applied(r: Reply) { !r.Fails? }

  predicate Raises(r: Reply) { !r.Works? }

  datatype Attempt = Attempt(
    create: Reply,
    load: Reply,
    half: Contents,        // what a failing bulk request leaves in the new index
    read: Option<string>,  // what _alias_backing makes of the alias
    swap: Reply,
    cleanup: Reply,        // deleting the new index after a failure
    retire: Reply)         // deleting the old one after the swap

  datatype Outcome = Returned(count: nat) | Raised

  function Started(c: Cluster): Trace { Trace(c, [c]) }

  function To(t: Trace, c: Cluster): Trace { Trace(c, t.visited + [c]) }

  function Loaded(items: seq<Item>): Contents {
    if items == [] then map[] else Loaded(items[..|items| - 1])[items[|items| - 1].path := items[|items| - 1].doc]
  }

  predicate LastOfPath(items: seq<Item>, i: nat) {
    i < |items| && forall j | i < j < |items| :: items[j].path != items[i].path
  }

  /** A document for every path of an item and for no other, which is that of the last such item. */
  ghost predicate Complete(contents: Contents, items: seq<Item>) {
    && (forall p :: p in contents <==> exists i | 0 <= i < |items| :: items[i].path == p)
    && forall i: nat | LastOfPath(items, i) :: items[i].path in contents && contents[items[i].path] == items[i].doc
  }

  lemma {:induction false} LoadedComplete(items: seq<Item>)
    ensures Complete(Loaded(items), items)
  {
    if items != [] {
      var init, last := items[..|items| - 1], items[|items| - 1];
      LoadedComplete(init);
      assert items == init + [last];
      forall i: nat | LastOfPath(items, i)
        ensures items[i].path in Loaded(items) && Loaded(items)[items[i].path] == items[i].doc
      {
        LastKept(init, last, i);
      }
      forall p ensures p in Loaded(items) <==> exists i | 0 <= i < |items| :: items[i].path == p {
        PathAdded(init, last, p);
      }
    }
  }

  lemma LastKept(init: seq<Item>, last: Item, i: nat)
    requires LastOfPath(init + [last], i)
    ensures i < |init| ==> LastOfPath(init, i) && (init + [last])[i] == init[i] && init[i].path != last.path
    ensures i >= |init| ==> (init + [last])[i] == last
  {
    var items := init + [last];
    assert items[|init|] == last;
    assert forall j | 0 <= j < |init| :: items[j] == init[j];
  }

  lemma PathAdded(init: seq<Item>, last: Item, p: string)
    ensures (exists i | 0 <= i < |init + [last]| :: (init + [last])[i].path == p)
      <==> p == last.path || exists i | 0 <= i < |init| :: init[i].path == p
  {
    var items := init + [last];
    if p == last.path { assert items[|init|].path == p; }
    if i :| 0 <= i < |init| && init[i].path == p { assert items[i].path == p; }
    if i :| 0 <= i < |items| && items[i].path == p && i < |init| { assert init[i].path == p; }
  }

  lemma {:induction false} LastExists(items: seq<Item>, i: nat) returns (last: nat)
    requires i < |items|
    ensures LastOfPath(items, last) && items[last].path == items[i].path
    decreases |items| - i
  {
    if j :| i < j < |items| && items[j].path == items[i].path {
      last := LastExists(items, j);
    } else {
      last := i;
    }
  }

  /** The loop over the items makes exactly these contents. */
  lemma LoadedExactly(contents: Contents, items: seq<Item>)
    ensures contents == Loaded(items) <==> Complete(contents, items)
  {
    LoadedComplete(items);
    if Complete(contents, items) {
      forall p | p in contents ensures p in Loaded(items) && contents[p] == Loaded(items)[p] {
        var i :| 0 <= i < |items| && items[i].path == p;
        var last := LastExists(items, i);
      }
      assert contents.Keys == Loaded(items).Keys;
    }
  }

  function Fill(t: Trace, name: string, contents: Contents): Trace {
    To(t, t.now.(indices := t.now.indices[name := contents]))
  }

  function Delete(t: Trace, name: string, r: Reply): Trace {
    if Applied(r) then To(t, Cluster(t.now.indices - {name}, t.now.alias - {name})) else t
  }

  function Retired(read: Option<string>, name: string): set<string> {
    if read.Some? && read.value != name then {read.value} else {}
  }

  function Swap(t: Trace, name: string, read: Option<string>, r: Reply): Trace {
    if Applied(r) then To(t, t.now.(alias := t.now.alias - Retired(read, name) + {name})) else t
  }

  function Rebuild(t: Trace, items: seq<Item>, name: string, a: Attempt): (Trace, Outcome) {
    if items == [] then (t, Returned(0))
    else if name in t.now.indices || a.create.Fails? then (t, Raised)
    else
      var created := Fill(t, name, map[]);
      if a.create.Unheard? then (created, Raised) else LoadAndSwap(created, items, name, a)
  }

  function LoadAndSwap(t: Trace, items: seq<Item>, name: string, a: Attempt): (Trace, Outcome) {
    var loaded := Fill(t, name, if Applied(a.load) then Loaded(items) else a.half);
    if Raises(a.load) then (Delete(loaded, name, a.cleanup), Raised)
    else
      var swapped := Swap(loaded, name, a.read, a.swap);
      if Raises(a.swap) then (Delete(swapped, name, a.cleanup), Raised)
      else if Retired(a.read, name) == {} then (swapped, Returned(|items|))
      else (Delete(swapped, a.read.value, a.retire), if Raises(a.retire) then Raised else Returned(|items|))
  }

  // ----- What a search through the alias finds -----

  // The alias exists and every index behind it is either one that served before, unchanged, or the
  // new one with every item in it.
  ghost predicate Serves(c: Cluster, before: Cluster, name: string, items: seq<Item>) {
    && c.alias != {}
    && forall n | n in c.alias ::
         n in c.indices &&
         ((n in before.alias && n in before.indices && c.indices[n] == before.indices[n])
           || (n == name && Complete(c.indices[n], items)))
  }

  // The cluster is as rebuild_manifest finds it when nobody else is at work on it.
  predicate Ready(c: Cluster, a: Attempt) {
    c.alias <= c.indices.Keys && (a.read.Some? ==> a.read.value in c.alias)
  }

  // The new index is loaded and the alias update is about to be sent.
  predicate Reaches(c: Cluster, items: seq<Item>, name: string, a: Attempt) {
    items != [] && name !in c.indices && a.create.Works? && a.load.Works?
  }

  // The alias update took the last old index off the alias, its reply was lost, and the clean-up
  // deleted the index that had replaced it.
  predicate Stranded(c: Cluster, items: seq<Item>, name: string, a: Attempt) {
    Reaches(c, items, name, a) && a.swap.Unheard? && Applied(a.cleanup) && a.read.Some? && c.alias == {a.read.value}
  }

  ghost predicate AllServe(visited: seq<Cluster>, before: Cluster, name: string, items: seq<Item>) {
    forall i | 0 <= i < |visited| :: Serves(visited[i], before, name, items)
  }

  lemma OneMoreServes(t: Trace, c: Cluster, before: Cluster, name: string, items: seq<Item>)
    ensures AllServe(To(t, c).visited, before, name, items) <==>
      AllServe(t.visited, before, name, items) && Serves(c, before, name, items)
  {
    assert To(t, c).visited[|t.visited|] == c;
    assert forall i | 0 <= i < |t.visited| :: To(t, c).visited[i] == t.visited[i];
  }

  // Nothing that happens to the new index matters before the swap.
  lemma FillServes(t: Trace, c: Cluster, items: seq<Item>, name: string, a: Attempt, contents: Contents)
    requires Ready(c, a) && name !in c.indices && c.alias != {} && AllServe(t.visited, c, name, items)
    requires t.now.alias == c.alias && t.now.indices - {name} == c.indices
    ensures var u := Fill(t, name, contents);
      AllServe(u.visited, c, name, items) && u.now.alias == c.alias && u.now.indices == c.indices[name := contents]
  {
    var next := t.now.(indices := t.now.indices[name := contents]);
    assert next.indices == c.indices[name := contents];
    OneMoreServes(t, next, c, name, items);
  }

  lemma CleanUpServes(t: Trace, c: Cluster, items: seq<Item>, name: string, a: Attempt)
    requires Ready(c, a) && name !in c.indices && c.alias != {} && AllServe(t.visited, c, name, items)
    requires t.now.alias == c.alias && t.now.indices - {name} == c.indices
    ensures AllServe(Delete(t, name, a.cleanup).visited, c, name, items)
  {
    OneMoreServes(t, Cluster(t.now.indices - {name}, t.now.alias - {name}), c, name, items);
  }

  // The new index is loaded, and nothing else has changed.
  predicate LoadedNow(t: Trace, c: Cluster, items: seq<Item>, name: string) {
    t.now == Cluster(c.indices[name := Loaded(items)], c.alias)
  }

  lemma SwappedServes(t: Trace, c: Cluster, items: seq<Item>, name: string, a: Attempt)
    requires Ready(c, a) && name !in c.indices && c.alias != {} && AllServe(t.visited, c, name, items)
    requires LoadedNow(t, c, items, name)
    ensures AllServe(Swap(t, name, a.read, a.swap).visited, c, name, items)
  {
    LoadedComplete(items);
    OneMoreServes(t, t.now.(alias := t.now.alias - Retired(a.read, name) + {name}), c, name, items);
  }

  // Cleaning up after the swap is harmless unless the new index is all there is behind the alias.
  lemma CleanedServes(t: Trace, c: Cluster, items: seq<Item>, name: string, a: Attempt)
    requires Ready(c, a) && name !in c.indices && c.alias != {} && AllServe(t.visited, c, name, items)
    requires LoadedNow(t, c, items, name)
    ensures AllServe(Delete(Swap(t, name, a.read, a.swap), name, a.cleanup).visited, c, name, items) <==>
      !(Applied(a.swap) && Applied(a.cleanup) && a.read.Some? && c.alias == {a.read.value})
  {
    var swapped := Swap(t, name, a.read, a.swap);
    SwappedServes(t, c, items, name, a);
    OneMoreServes(swapped, Cluster(swapped.now.indices - {name}, swapped.now.alias - {name}), c, name, items);
  }

  lemma RetiredServes(t: Trace, c: Cluster, items: seq<Item>, name: string, a: Attempt)
    requires Ready(c, a) && name !in c.indices && c.alias != {} && AllServe(t.visited, c, name, items)
    requires LoadedNow(t, c, items, name) && Applied(a.swap) && a.read.Some?
    ensures AllServe(Delete(Swap(t, name, a.read, a.swap), a.read.value, a.retire).visited, c, name, items)
  {
    var swapped, gone := Swap(t, name, a.read, a.swap), a.read.value;
    SwappedServes(t, c, items, name, a);
    WithoutOldServes(c, items, name, gone);
    assert swapped.now.alias - {gone} == c.alias - {gone} + {name};
    OneMoreServes(swapped, Cluster(swapped.now.indices - {gone}, swapped.now.alias - {gone}), c, name, items);
  }

  lemma WithoutOldServes(c: Cluster, items: seq<Item>, name: string, gone: string)
    requires c.alias <= c.indices.Keys && name !in c.indices && gone in c.alias
    ensures Serves(Cluster(c.indices[name := Loaded(items)] - {gone}, c.alias - {gone} + {name}), c, name, items)
  {
    LoadedComplete(items);
  }

  // The swap and what follows it.
  lemma SwapServes(t: Trace, c: Cluster, items: seq<Item>, name: string, a: Attempt)
    requires Ready(c, a) && name !in c.indices && c.alias != {} && AllServe(t.visited, c, name, items)
    requires LoadedNow(t, c, items, name)
    ensures var swapped := Swap(t, name, a.read, a.swap);
      && AllServe(swapped.visited, c, name, items)
      && (AllServe(Delete(swapped, name, a.cleanup).visited, c, name, items) <==>
            !(Applied(a.swap) && Applied(a.cleanup) && a.read.Some? && c.alias == {a.read.value}))
      && (Applied(a.swap) && a.read.Some? ==> AllServe(Delete(swapped, a.read.value, a.retire).visited, c, name, items))
  {
    SwappedServes(t, c, items, name, a);
    CleanedServes(t, c, items, name, a);
    if Applied(a.swap) && a.read.Some? { RetiredServes(t, c, items, name, a); }
  }

  /** An existing alias resolves, and only to complete indices, at every step, failure and crash,
      exactly when the alias update is not lost on its way back and then cleaned up after. */
  lemma ServesUnlessStranded(c: Cluster, items: seq<Item>, name: string, a: Attempt)
    requires Ready(c, a) && c.alias != {}
    ensures AllServe(Rebuild(Started(c), items, name, a).0.visited, c, name, items) <==> !Stranded(c, items, name, a)
  {
    var t := Started(c);
    assert AllServe(t.visited, c, name, items);
    if items != [] && name !in c.indices && !a.create.Fails? {
      FillServes(t, c, items, name, a, map[]);
      if a.create.Works? {
        var created := Fill(t, name, map[]);
        var contents := if Applied(a.load) then Loaded(items) else a.half;
        FillServes(created, c, items, name, a, contents);
        var loaded := Fill(created, name, contents);
        CleanUpServes(loaded, c, items, name, a);
        if a.load.Works? { SwapServes(loaded, c, items, name, a); }
      }
    }
  }

  // Nothing fails.
  predicate Succeeds(c: Cluster, items: seq<Item>, name: string, a: Attempt) {
    Reaches(c, items, name, a) && a.swap.Works? && (a.read.Some? ==> a.retire.Works?)
  }

  lemma WhenItReturns(c: Cluster, items: seq<Item>, name: string, a: Attempt)
    requires Ready(c, a) && items != []
    ensures Rebuild(Started(c), items, name, a).1 ==
      if Reaches(c, items, name, a) && a.swap.Works? && (a.read.Some? ==> a.retire.Works?) then Returned(|items|)
        else Raised
  {
  }

  lemma Replaced(indices: map<string, Contents>, name: string, gone: set<string>, contents: Contents)
    requires name !in indices && name !in gone
    ensures indices[name := map[]][name := contents] - gone == (indices - gone)[name := contents]
  {
  }

  /** What a call that returns leaves: the new index in place of the one that was read, which is
      exactly the new one if and only if the alias read was accurate. */
  lemma SuccessLeavesNew(c: Cluster, items: seq<Item>, name: string, a: Attempt)
    requires Ready(c, a) && Reaches(c, items, name, a) && a.swap.Works? && (a.read.Some? ==> a.retire.Works?)
    ensures var (t, outcome) := Rebuild(Started(c), items, name, a);
      var unseen := c.alias - Retired(a.read, name);
      && outcome == Returned(|items|)
      && t.now == Cluster((c.indices - Retired(a.read, name))[name := Loaded(items)], unseen + {name})
      && Complete(t.now.indices[name], items)
      && (t.now.alias == {name} <==> unseen == {})
  {
    var gone := Retired(a.read, name);
    LoadedComplete(items);
    Replaced(c.indices, name, gone, Loaded(items));
    WhenItReturns(c, items, name, a);
    AfterSwap(c, items, name, a);
    assert c.alias - gone + {name} - gone == c.alias - gone + {name};
  }

  lemma AfterSwap(c: Cluster, items: seq<Item>, name: string, a: Attempt)
    requires Ready(c, a) && Reaches(c, items, name, a) && a.swap.Works?
    ensures var gone := Retired(a.read, name);
      var swapped := Cluster(c.indices[name := map[]][name := Loaded(items)], c.alias - gone + {name});
      Rebuild(Started(c), items, name, a).0.now ==
        if Applied(a.retire) || a.read.None? then Cluster(swapped.indices - gone, swapped.alias - gone) else swapped
  {
  }

  /** A call that raises leaves the alias where it was, except in two cases: the new index already
      serves and only the deletion of the old one failed, or the alias was updated without a reply. */
  lemma FailureKeepsAlias(c: Cluster, items: seq<Item>, name: string, a: Attempt)
    requires Ready(c, a) && Rebuild(Started(c), items, name, a).1.Raised?
    ensures var end := Rebuild(Started(c), items, name, a).0.now;
      && (end.alias == c.alias <==>
            !Reaches(c, items, name, a) || a.swap.Fails? || (a.swap.Unheard? && Applied(a.cleanup) && a.read.None?))
      && (Reaches(c, items, name, a) && a.swap.Works? ==>
            name in end.alias && name in end.indices && Complete(end.indices[name], items))
  {
    LoadedComplete(items);
  }

  /** The half-built index is gone after a failure exactly when the clean-up took effect. */
  lemma CleanUp(c: Cluster, items: seq<Item>, name: string, a: Attempt)
    requires Ready(c, a) && name !in c.indices && items != [] && a.create.Works? && (Raises(a.load) || Raises(a.swap))
    ensures var (t, outcome) := Rebuild(Started(c), items, name, a);
      outcome.Raised? && (name in t.now.indices <==> !Applied(a.cleanup))
      && (forall n | n in c.indices :: n in t.now.indices && t.now.indices[n] == c.indices[n])
  {
  }

  // A trace that goes on from earlier states.
  function After(pre: seq<Cluster>, t: Trace): Trace { Trace(t.now, pre + t.visited) }

  lemma ToAfter(pre: seq<Cluster>, t: Trace, c: Cluster)
    ensures To(After(pre, t), c) == After(pre, To(t, c))
  {
    assert (pre + t.visited) + [c] == pre + (t.visited + [c]);
  }

  lemma FillAfter(pre: seq<Cluster>, t: Trace, name: string, contents: Contents)
    ensures Fill(After(pre, t), name, contents) == After(pre, Fill(t, name, contents))
  {
    ToAfter(pre, t, t.now.(indices := t.now.indices[name := contents]));
  }

  lemma DeleteAfter(pre: seq<Cluster>, t: Trace, name: string, r: Reply)
    ensures Delete(After(pre, t), name, r) == After(pre, Delete(t, name, r))
  {
    ToAfter(pre, t, Cluster(t.now.indices - {name}, t.now.alias - {name}));
  }

  lemma SwapAfter(pre: seq<Cluster>, t: Trace, name: string, read: Option<string>, r: Reply)
    ensures Swap(After(pre, t), name, read, r) == After(pre, Swap(t, name, read, r))
  {
    ToAfter(pre, t, t.now.(alias := t.now.alias - Retired(read, name) + {name}));
  }

  lemma RebuildAfter(pre: seq<Cluster>, t: Trace, items: seq<Item>, name: string, a: Attempt)
    ensures var (u, outcome) := Rebuild(t, items, name, a);
      Rebuild(After(pre, t), items, name, a) == (After(pre, u), outcome)
  {
    var contents := if Applied(a.load) then Loaded(items) else a.half;
    var created := Fill(t, name, map[]);
    var loaded := Fill(created, name, contents);
    var swapped := Swap(loaded, name, a.read, a.swap);
    FillAfter(pre, t, name, map[]);
    FillAfter(pre, created, name, contents);
    DeleteAfter(pre, loaded, name, a.cleanup);
    SwapAfter(pre, loaded, name, a.read, a.swap);
    DeleteAfter(pre, swapped, name, a.cleanup);
    if a.read.Some? { DeleteAfter(pre, swapped, a.read.value, a.retire); }
  }

  lemma RebuildGoesOn(t: Trace, items: seq<Item>, name: string, a: Attempt)
    ensures var (u, outcome) := Rebuild(t, items, name, a);
      var (v, outcome') := Rebuild(Started(t.now), items, name, a);
      outcome == outcome' && u.now == v.now && v.visited != [] && v.visited[0] == t.now
      && u.visited == t.visited + v.visited[1..]
  {
    var bare := Trace(t.now, []);
    RebuildAfter(t.visited, bare, items, name, a);
    RebuildAfter([t.now], bare, items, name, a);
    assert After(t.visited, bare) == t && After([t.now], bare) == Started(t.now);
  }

  /** What a call adds to the states of the cluster serves throughout exactly when it is not stranded. */
  lemma RebuildServesIff(t: Trace, items: seq<Item>, name: string, a: Attempt)
    requires Ready(t.now, a) && t.now.alias != {}
    ensures var u := Rebuild(t, items, name, a).0;
      t.visited <= u.visited &&
      (AllServe(u.visited[|t.visited|..], t.now, name, items) <==> !Stranded(t.now, items, name, a))
  {
    RebuildGoesOn(t, items, name, a);
    ServesUnlessStranded(t.now, items, name, a);
    var u, v := Rebuild(t, items, name, a).0, Rebuild(Started(t.now), items, name, a).0;
    assert u.visited[|t.visited|..] == v.visited[1..];
    assert v.visited == [t.now] + v.visited[1..];
    assert Serves(t.now, t.now, name, items);
    assert forall i | 0 <= i < |v.visited[1..]| :: v.visited[1..][i] == v.visited[i + 1];
    assert forall i | 1 <= i < |v.visited| :: v.visited[i] == v.visited[1..][i - 1];
  }

  // The same for a cluster at any point of its history.
  lemma RebuildProperties(t: Trace, items: seq<Item>, name: string, a: Attempt)
    requires Ready(t.now, a)
    ensures var (u, outcome) := Rebuild(t, items, name, a);
      && t.visited <= u.visited && u.now.alias <= u.now.indices.Keys
      && (t.now.alias != {} ==>
            (AllServe(u.visited[|t.visited|..], t.now, name, items) <==> !Stranded(t.now, items, name, a)))
      && (outcome.Returned? <==> items == [] || Succeeds(t.now, items, name, a))
      && (items == [] ==> u.now == t.now && outcome == Returned(0))
      && (outcome.Returned? && items != [] ==>
            && outcome.count == |items|
            && name in u.now.indices && Complete(u.now.indices[name], items)
            && u.now.indices - {name} == t.now.indices - Retired(a.read, name)
            && u.now.alias == t.now.alias - Retired(a.read, name) + {name})
      && (outcome.Raised? ==> (u.now.alias == t.now.alias <==>
            || !Reaches(t.now, items, name, a) || a.swap.Fails?
            || (a.swap.Unheard? && Applied(a.cleanup) && a.read.None?)))
  {
    RebuildGoesOn(t, items, name, a);
    if t.now.alias != {} { RebuildServesIff(t, items, name, a); }
    EndProperties(t.now, items, name, a);
    AliasExists(t.now, items, name, a);
  }

  // How a call ends.
  lemma EndProperties(c: Cluster, items: seq<Item>, name: string, a: Attempt)
    requires Ready(c, a)
    ensures var (u, outcome) := Rebuild(Started(c), items, name, a);
      && (outcome.Returned? <==> items == [] || Succeeds(c, items, name, a))
      && (items == [] ==> u.now == c && outcome == Returned(0))
      && (outcome.Returned? && items != [] ==>
            && outcome.count == |items|
            && name in u.now.indices && Complete(u.now.indices[name], items)
            && u.now.indices - {name} == c.indices - Retired(a.read, name)
            && u.now.alias == c.alias - Retired(a.read, name) + {name})
      && (outcome.Raised? ==> (u.now.alias == c.alias <==>
            || !Reaches(c, items, name, a) || a.swap.Fails?
            || (a.swap.Unheard? && Applied(a.cleanup) && a.read.None?)))
  {
    if Rebuild(Started(c), items, name, a).1.Raised? {
      FailureKeepsAlias(c, items, name, a);
    } else if items != [] {
      SuccessLeavesNew(c, items, name, a);
    }
    if items != [] { WhenItReturns(c, items, name, a); }
  }

  lemma AliasExists(c: Cluster, items: seq<Item>, name: string, a: Attempt)
    requires Ready(c, a)
    ensures var end := Rebuild(Started(c), items, name, a).0.now; end.alias <= end.indices.Keys
  {
  }

  // ----- The source's steps -----

  class Elastic {
    var indices: map<string, Contents>
    var alias: set<string>
    var history: seq<Cluster>

    function View(): Trace reads this { Trace(Cluster(indices, alias), history) }

    /** Every index behind the alias exists. */
    predicate Valid() reads this { alias <= indices.Keys }

    constructor (c: Cluster)
      requires c.alias <= c.indices.Keys
      ensures View() == Started(c) && Valid()
    {
      indices, alias, history := c.indices, c.alias, [c];
    }

    method Record()
      modifies this`history
      ensures history == old(history) + [Cluster(indices, alias)]
    {
      history := history + [Cluster(indices, alias)];
    }

    // indices.create; a name that is taken is an error.
    method CreateIndex(name: string, r: Reply) returns (raised: bool)
      modifies this
      ensures raised == (name in old(indices) || Raises(r))
      ensures View() == if name !in old(indices) && Applied(r) then Fill(old(View()), name, map[]) else old(View())
    {
      if name in indices || r.Fails? { return true; }
      indices := indices[name := map[]];
      Record();
      return Raises(r);
    }

    // async_bulk of one document per item, with its path as the id.
    method BulkLoad(name: string, items: seq<Item>, half: Contents, r: Reply) returns (raised: bool)
      modifies this
      ensures raised == Raises(r)
      ensures View() == Fill(old(View()), name, if Applied(r) then Loaded(items) else half)
    {
      var contents := half;
      if Applied(r) {
        contents := map[];
        for i := 0 to |items|
          invariant contents == Loaded(items[..i])
        {
          assert items[..i + 1][..i] == items[..i];
          contents := contents[items[i].path := items[i].doc];
        }
        assert items[..|items|] == items;
      }
      indices := indices[name := contents];
      Record();
      return Raises(r);
    }

    // indices.delete with ignore_unavailable
    method DeleteIndex(name: string, r: Reply) returns (raised: bool)
      modifies this
      ensures raised == Raises(r) && View() == Delete(old(View()), name, r)
    {
      if Applied(r) {
        indices, alias := indices - {name}, alias - {name};
        Record();
      }
      return Raises(r);
    }

    // indices.update_aliases
    method UpdateAliases(remove: set<string>, add: string, r: Reply) returns (raised: bool)
      modifies this
      ensures raised == Raises(r)
      ensures View() == if Applied(r) then To(old(View()), Cluster(old(indices), old(alias) - remove + {add}))
        else old(View())
    {
      if Applied(r) {
        alias := alias - remove + {add};
        Record();
      }
      return Raises(r);
    }

    /** An alias that exists resolves, and only to complete indices, in every state on the way, unless
        the reply to the alias update is lost; a call that returns leaves the new index in place of the
        one that was read; one that raises leaves the alias alone, with the two stated exceptions. */
    method RebuildManifest(items: seq<Item>, name: string, a: Attempt) returns (outcome: Outcome)
      requires Valid() && (a.read.Some? ==> a.read.value in alias)
      modifies this
      ensures Valid() && old(history) <= history
      ensures old(alias) != {} ==>
        var before := old(View()).now;
        AllServe(history[|old(history)|..], before, name, items) <==> !Stranded(before, items, name, a)
      ensures outcome.Returned? <==> items == [] || Succeeds(old(View()).now, items, name, a)
      ensures items == [] ==> indices == old(indices) && alias == old(alias) && outcome == Returned(0)
      ensures outcome.Returned? && items != [] ==>
        && outcome.count == |items| && name in indices && Complete(indices[name], items)
        && indices - {name} == old(indices) - Retired(a.read, name)
        && alias == old(alias) - Retired(a.read, name) + {name}
      ensures outcome.Raised? ==> (alias == old(alias) <==>
        || !Reaches(old(View()).now, items, name, a) || a.swap.Fails?
        || (a.swap.Unheard? && Applied(a.cleanup) && a.read.None?))
    {
      RebuildProperties(View(), items, name, a);
      outcome := CreateAndLoad(items, name, a);
    }

    method CreateAndLoad(items: seq<Item>, name: string, a: Attempt) returns (outcome: Outcome)
      modifies this
      ensures (View(), outcome) == Rebuild(old(View()), items, name, a)
    {
      if items == [] { return Returned(0); }
      var raised := CreateIndex(name, a.create);
      if raised { return Raised; }
      outcome := LoadThenSwap(items, name, a);
    }

    method LoadThenSwap(items: seq<Item>, name: string, a: Attempt) returns (outcome: Outcome)
      modifies this
      ensures (View(), outcome) == LoadAndSwap(old(View()), items, name, a)
    {
      var raised := BulkLoad(name, items, a.half, a.load);
      if raised {
        var _ := DeleteIndex(name, a.cleanup);
        return Raised;
      }
      var remove: set<string> := {};
      if a.read.Some? && a.read.value != name { remove := {a.read.value}; }
      raised := UpdateAliases(remove, name, a.swap);
      if raised {
        var _ := DeleteIndex(name, a.cleanup);
        return Raised;
      }
      if a.read.Some? && a.read.value != name {
        raised := DeleteIndex(a.read.value, a.retire);
        if raised { return Raised; }
      }
      return Returned(|items|);
    }
  }
}
