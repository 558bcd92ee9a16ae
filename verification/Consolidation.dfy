/** Merging duplicate vulnerability records (scripts/migrations/vulnscan_consolidate_20260731.py and
    detected_sort_key in src/agents/store.py). */
module Consolidation {
  import opened Options
  import opened KeyOrder
  import Sorting

  // A parsed ISO-8601 time, as a number. Python refuses to order one with an offset and one without.
  datatype Stamp = Stamp(aware: bool, at: int)

  // str.strip and datetime.fromisoformat.
  datatype Clock = Clock(strip: string -> string, parse: string -> Option<Stamp>)

  datatype SortKey = Parsed(stamp: Stamp) | Lexical(s: string) | Empty

  // rest: every other field. A missing detected_at or scan_history is empty.
  datatype Record = Record(
    id: string, agent: string, cve: Option<string>, name: string, detectedAt: string, history: seq<string>,
      rest: string)

  type Key = (string, string, string)

  // `src.get("cve") or ""`
  function CveText(r: Record): string { if r.cve.Some? then r.cve.value else "" }

  function KeyOf(r: Record): Key { (r.agent, CveText(r), r.name) }

  // The same vulnerability of the same host.
  predicate Duplicates(a: Record, b: Record) { a.agent == b.agent && a.name == b.name && CveText(a) == CveText(b) }

  predicate Blank(cve: Option<string>) { cve.None? || cve.value == "" }

  /** Grouping by key puts together the records with one agent, name and CVE number; a missing number
      reads as an empty one. */
  lemma SameKeyExactly(a: Record, b: Record)
    ensures KeyOf(a) == KeyOf(b) <==> Duplicates(a, b)
    ensures Duplicates(a, b) <==>
      a.agent == b.agent && a.name == b.name && (a.cve == b.cve || (Blank(a.cve) && Blank(b.cve)))
  {
  }

  // ----- detected_sort_key -----

  function DetectedSortKey(clock: Clock, value: string): SortKey {
    var s := clock.strip(value);
    if s == "" then Empty
    else
      var iso := if s[|s| - 1] == 'Z' then s[..|s| - 1] + "+00:00" else s;
      match clock.parse(iso) case Some(stamp) => Parsed(stamp) case None => Lexical(iso)
  }

  function Class(k: SortKey): int { match k case Parsed(_) => 0 case Lexical(_) => 1 case Empty => 2 }

  predicate KeyLess(a: SortKey, b: SortKey) {
    if Class(a) != Class(b) then Class(a) < Class(b)
    else match a
      case Parsed(stamp) => stamp.at < b.stamp.at
      case Lexical(s) => StrLess(s, b.s)
      case Empty => false
  }

  predicate Earlier(clock: Clock, a: string, b: string) {
    KeyLess(DetectedSortKey(clock, a), DetectedSortKey(clock, b))
  }

  // The order of (detected_sort_key(detected_at), finding_id).
  predicate Below(clock: Clock, a: Record, b: Record) {
    Earlier(clock, a.detectedAt, b.detectedAt) || (!Earlier(clock, b.detectedAt, a.detectedAt) && StrLess(a.id, b.id))
  }

  lemma KeyLessWeak(a: SortKey, b: SortKey, c: SortKey)
    ensures !(KeyLess(a, b) && KeyLess(b, a))
    ensures !KeyLess(b, a) && !KeyLess(c, b) ==> !KeyLess(c, a)
  {
    if a.Lexical? && b.Lexical? { LessTotal(a.s, b.s); }
    if a.Lexical? && b.Lexical? && c.Lexical? {
      LessTotal(b.s, c.s);
      LessTotal(c.s, a.s);
      if StrLess(a.s, b.s) && StrLess(b.s, c.s) { LessTransitive(a.s, b.s, c.s); }
    }
  }

  lemma EarlierWeak(clock: Clock)
    ensures Sorting.WeakOrder((a, b) => Earlier(clock, a, b))
  {
    forall a, b, c
      ensures !(Earlier(clock, a, b) && Earlier(clock, b, a))
      ensures !Earlier(clock, b, a) && !Earlier(clock, c, b) ==> !Earlier(clock, c, a)
    {
      KeyLessWeak(DetectedSortKey(clock, a), DetectedSortKey(clock, b), DetectedSortKey(clock, c));
    }
  }

  lemma BelowAsymmetric(clock: Clock, a: Record, b: Record)
    ensures !(Below(clock, a, b) && Below(clock, b, a))
    ensures Below(clock, a, b) || Below(clock, b, a) || a.id == b.id
  {
    KeyLessWeak(DetectedSortKey(clock, a.detectedAt), DetectedSortKey(clock, b.detectedAt), Empty);
    LessTotal(a.id, b.id);
  }

  lemma BelowWeak(clock: Clock, a: Record, b: Record, c: Record)
    requires !Below(clock, b, a) && !Below(clock, c, b)
    ensures !Below(clock, c, a)
  {
    var ka, kb := DetectedSortKey(clock, a.detectedAt), DetectedSortKey(clock, b.detectedAt);
    var kc := DetectedSortKey(clock, c.detectedAt);
    KeyLessWeak(ka, kb, kc);
    KeyLessWeak(kb, kc, ka);
    KeyLessWeak(kc, ka, kb);
    LessTotal(a.id, b.id);
    LessTotal(b.id, c.id);
    LessTotal(c.id, a.id);
    if StrLess(a.id, b.id) && StrLess(b.id, c.id) { LessTransitive(a.id, b.id, c.id); }
  }

  lemma AboveWeak(clock: Clock)
    ensures Sorting.WeakOrder((a, b) => Below(clock, b, a))
  {
    forall a, b ensures !(Below(clock, b, a) && Below(clock, a, b)) { BelowAsymmetric(clock, a, b); }
    forall a, b, c ensures !Below(clock, a, b) && !Below(clock, b, c) ==> !Below(clock, a, c) {
      if !Below(clock, a, b) && !Below(clock, b, c) { BelowWeak(clock, c, b, a); }
    }
  }

  // ----- One group -----

  function Descending(clock: Clock, docs: seq<Record>): (r: seq<Record>)
    ensures multiset(r) == multiset(docs) && |r| == |docs|
  {
    Sorting.Sort(docs, (a, b) => Below(clock, b, a))
  }

  // The detection times of the records to be deleted.
  function Times(docs: seq<Record>): seq<string> {
    if docs == [] then []
    else Times(docs[..|docs| - 1]) + (if docs[|docs| - 1].detectedAt != "" then [docs[|docs| - 1].detectedAt] else [])
  }

  // dict.fromkeys: first occurrences.
  function Dedupe(s: seq<string>): seq<string> {
    if s == [] then []
    else
      var kept := Dedupe(s[..|s| - 1]);
      if s[|s| - 1] in kept then kept else kept + [s[|s| - 1]]
  }

  function MergedTimes(canonical: Record, others: seq<Record>): seq<string> {
    Dedupe(canonical.history + Times(others))
  }

  function MergedHistory(clock: Clock, canonical: Record, others: seq<Record>): seq<string> {
    Sorting.Sort(MergedTimes(canonical, others), (a, b) => Earlier(clock, a, b))
  }

  // The time parses, and has an offset or has none.
  predicate Zoned(clock: Clock, t: string, aware: bool) {
    var k := DetectedSortKey(clock, t);
    k.Parsed? && k.stamp.aware == aware
  }

  predicate SomeZoned(clock: Clock, times: seq<string>, aware: bool) {
    times != [] && (Zoned(clock, times[|times| - 1], aware) || SomeZoned(clock, times[..|times| - 1], aware))
  }

  // Sorting raises a TypeError.
  predicate Mixed(clock: Clock, times: seq<string>) { SomeZoned(clock, times, true) && SomeZoned(clock, times, false) }

  lemma {:induction false} SomeZonedExact(clock: Clock, times: seq<string>, aware: bool)
    ensures SomeZoned(clock, times, aware) <==> exists t :: t in times && Zoned(clock, t, aware)
  {
    if times != [] {
      SomeZonedExact(clock, times[..|times| - 1], aware);
      assert times == times[..|times| - 1] + [times[|times| - 1]];
    }
  }

  function DetectionTimes(docs: seq<Record>): seq<string> {
    seq(|docs|, i requires 0 <= i < |docs| => docs[i].detectedAt)
  }

  predicate Unsortable(clock: Clock, docs: seq<Record>) {
    |docs| > 1 &&
    (Mixed(clock, DetectionTimes(docs))
     || var sorted := Descending(clock, docs); Mixed(clock, MergedTimes(sorted[0], sorted[1..])))
  }

  lemma {:induction false} TimesMembers(docs: seq<Record>, t: string)
    ensures t in Times(docs) <==> exists i | 0 <= i < |docs| :: docs[i].detectedAt == t != ""
  {
    if docs != [] {
      var init := docs[..|docs| - 1];
      TimesMembers(init, t);
      assert forall i | 0 <= i < |init| :: init[i] == docs[i];
    }
  }

  lemma {:induction false} DedupeMembers(s: seq<string>)
    ensures forall t :: t in Dedupe(s) <==> t in s
    ensures Distinct(Dedupe(s))
  {
    if s != [] {
      DedupeMembers(s[..|s| - 1]);
      assert s == s[..|s| - 1] + [s[|s| - 1]];
    }
  }

  /** The merged history is in ascending order, without duplicates, and is the record's own history
      together with the detection times of the records merged into it. */
  lemma MergedHistoryExact(clock: Clock, canonical: Record, others: seq<Record>)
    ensures var h := MergedHistory(clock, canonical, others);
      && (forall i, j | 0 <= i < j < |h| :: !Earlier(clock, h[j], h[i]))
      && Distinct(h)
      && forall t :: t in h
           <==> t in canonical.history || exists i | 0 <= i < |others| :: others[i].detectedAt == t != ""
  {
    var merged := MergedTimes(canonical, others);
    var h := MergedHistory(clock, canonical, others);
    EarlierWeak(clock);
    Sorting.SortAscending(merged, (a, b) => Earlier(clock, a, b));
    DedupeMembers(canonical.history + Times(others));
    PermutationDistinct(merged, h);
    forall t
      ensures t in h <==> t in canonical.history || exists i | 0 <= i < |others| :: others[i].detectedAt == t != ""
    {
      Sorting.SameMembers(h, merged, t);
      TimesMembers(others, t);
    }
  }

  // ----- The whole index -----

  type Store = map<string, Record>

  predicate Twins(store: Store, a: string, b: string)
    requires a in store && b in store
  {
    a != b && Duplicates(store[a], store[b])
  }

  predicate Alone(store: Store, id: string)
    requires id in store
  {
    forall other | other in store :: !Twins(store, id, other)
  }

  // The greatest of its key.
  predicate Greatest(clock: Clock, store: Store, id: string)
    requires id in store
  {
    forall other | other in store && Twins(store, id, other) :: Below(clock, store[other], store[id])
  }

  predicate TwinDetected(store: Store, id: string, t: string)
    requires id in store
  {
    exists other | other in store && Twins(store, id, other) :: store[other].detectedAt == t != ""
  }

  ghost predicate HistoryOf(clock: Clock, store: Store, id: string, h: seq<string>)
    requires id in store
  {
    && (forall i, j | 0 <= i < j < |h| :: !Earlier(clock, h[j], h[i]))
    && Distinct(h)
    && forall t :: t in h <==> t in store[id].history || TwinDetected(store, id, t)
  }

  // What a record becomes; only its history may change.
  ghost predicate Merged(clock: Clock, store: Store, id: string, r: Record)
    requires id in store
  {
    if Alone(store, id) then r == store[id]
    else r == store[id].(history := r.history) && HistoryOf(clock, store, id, r.history)
  }

  // If its key is in done the record has been consolidated, otherwise it is untouched.
  ghost predicate PartlyAt(clock: Clock, store: Store, done: set<Key>, after: Store, id: string) {
    if id !in store then id !in after
    else if KeyOf(store[id]) in done then
      (id in after <==> Greatest(clock, store, id)) && (id in after ==> Merged(clock, store, id, after[id]))
    else id in after && after[id] == store[id]
  }

  ghost predicate Partly(clock: Clock, store: Store, done: set<Key>, after: Store) {
    forall id :: PartlyAt(clock, store, done, after, id)
  }

  /** The outcome: of every key the greatest record is left, with the merged history. */
  ghost predicate Consolidated(clock: Clock, store: Store, after: Store) {
    && (forall id :: id in after <==> id in store && Greatest(clock, store, id))
    && forall id | id in after :: Merged(clock, store, id, after[id])
  }

  // docs holds every document of the index once.
  predicate Scans(docs: seq<Record>, store: Store) {
    && (forall i | 0 <= i < |docs| :: docs[i].id in store && store[docs[i].id] == docs[i])
    && (forall id | id in store :: store[id].id == id && store[id] in docs)
    && forall i, j | 0 <= i < j < |docs| :: docs[i].id != docs[j].id
  }

  function Members(docs: seq<Record>, k: Key): seq<Record> {
    if docs == [] then []
    else
      var last := docs[|docs| - 1];
      Members(docs[..|docs| - 1], k) + (if KeyOf(last) == k then [last] else [])
  }

  lemma {:induction false} MembersExact(docs: seq<Record>, k: Key, r: Record)
    ensures r in Members(docs, k) <==> r in docs && KeyOf(r) == k
  {
    if docs != [] {
      MembersExact(docs[..|docs| - 1], k, r);
      assert docs == docs[..|docs| - 1] + [docs[|docs| - 1]];
    }
  }

  // A document occurs once in its group.
  lemma {:induction false} MembersOnce(docs: seq<Record>, k: Key, r: Record)
    requires forall i, j | 0 <= i < j < |docs| :: docs[i].id != docs[j].id
    ensures multiset(Members(docs, k))[r] <= 1
  {
    if docs != [] {
      var init, last := docs[..|docs| - 1], docs[|docs| - 1];
      MembersOnce(init, k, r);
      MembersExact(init, k, r);
      if r == last { assert r !in init; }
    }
  }

  lemma GroupMembers(clock: Clock, docs: seq<Record>, k: Key, r: Record)
    ensures r in Descending(clock, Members(docs, k)) <==> r in docs && KeyOf(r) == k
  {
    Sorting.SameMembers(Descending(clock, Members(docs, k)), Members(docs, k), r);
    MembersExact(docs, k, r);
  }

  lemma HeadOnce(clock: Clock, docs: seq<Record>, k: Key)
    requires (forall i, j | 0 <= i < j < |docs| :: docs[i].id != docs[j].id) && Members(docs, k) != []
    ensures var sorted := Descending(clock, Members(docs, k)); sorted[0] !in sorted[1..]
  {
    var sorted := Descending(clock, Members(docs, k));
    if sorted[0] in sorted[1..] {
      var j :| 0 <= j < |sorted[1..]| && sorted[1..][j] == sorted[0];
      assert sorted[j + 1] == sorted[0];
      Sorting.CountsTwice(sorted, 0, j + 1);
      MembersOnce(docs, k, sorted[0]);
    }
  }

  lemma HeadGreatest(clock: Clock, group: seq<Record>, i: nat)
    requires 0 < i < |group| && Descending(clock, group)[i].id != Descending(clock, group)[0].id
    ensures Below(clock, Descending(clock, group)[i], Descending(clock, group)[0])
  {
    AboveWeak(clock);
    Sorting.SortAscending(group, (a, b) => Below(clock, b, a));
    BelowAsymmetric(clock, Descending(clock, group)[i], Descending(clock, group)[0]);
  }

  // The head of the sorted group is its greatest record and the rest are the other ones.
  lemma GroupSorted(clock: Clock, docs: seq<Record>, store: Store, k: Key, r: Record)
    requires Scans(docs, store) && Members(docs, k) != []
    ensures var sorted := Descending(clock, Members(docs, k));
      && sorted[0] in docs && KeyOf(sorted[0]) == k
      && (r in sorted[1..] <==> r in docs && KeyOf(r) == k && r.id != sorted[0].id)
      && (r in sorted[1..] ==> Below(clock, r, sorted[0]))
  {
    var sorted := Descending(clock, Members(docs, k));
    GroupMembers(clock, docs, k, sorted[0]);
    GroupMembers(clock, docs, k, r);
    HeadOnce(clock, docs, k);
    assert sorted == [sorted[0]] + sorted[1..];
    if r in docs && r.id == sorted[0].id { assert r == store[r.id] == sorted[0]; }
    if r in sorted[1..] {
      var i :| 0 <= i < |sorted[1..]| && sorted[1..][i] == r;
      HeadGreatest(clock, Members(docs, k), i + 1);
    }
  }

  function Ids(docs: seq<Record>): set<string> { set r | r in docs :: r.id }

  // The sorted group in terms of the index.
  lemma GroupInStore(clock: Clock, docs: seq<Record>, store: Store, k: Key, id: string)
    requires Scans(docs, store) && Members(docs, k) != []
    ensures var sorted := Descending(clock, Members(docs, k));
      && sorted[0].id in store && store[sorted[0].id] == sorted[0] && KeyOf(sorted[0]) == k
      && (id in Ids(sorted[1..]) <==> id in store && KeyOf(store[id]) == k && id != sorted[0].id)
      && (id in Ids(sorted[1..]) ==> Below(clock, store[id], sorted[0]))
  {
    var sorted := Descending(clock, Members(docs, k));
    GroupSorted(clock, docs, store, k, sorted[0]);
    if id in Ids(sorted[1..]) {
      var r :| r in sorted[1..] && r.id == id;
      GroupSorted(clock, docs, store, k, r);
    }
    if id in store { GroupSorted(clock, docs, store, k, store[id]); }
  }

  lemma HeadIsGreatest(clock: Clock, docs: seq<Record>, store: Store, k: Key, id: string)
    requires Scans(docs, store) && id in store && KeyOf(store[id]) == k && Members(docs, k) != []
    ensures Greatest(clock, store, id) <==> id == Descending(clock, Members(docs, k))[0].id
  {
    var head := Descending(clock, Members(docs, k))[0];
    GroupInStore(clock, docs, store, k, id);
    if id == head.id {
      forall other | other in store && Twins(store, id, other) ensures Below(clock, store[other], store[id]) {
        GroupInStore(clock, docs, store, k, other);
      }
    } else {
      assert Twins(store, id, head.id);
      BelowAsymmetric(clock, store[id], head);
    }
  }

  lemma HeadAlone(clock: Clock, docs: seq<Record>, store: Store, k: Key)
    requires Scans(docs, store) && Members(docs, k) != []
    ensures var sorted := Descending(clock, Members(docs, k));
      sorted[0].id in store && (Alone(store, sorted[0].id) <==> |sorted| == 1)
  {
    var sorted := Descending(clock, Members(docs, k));
    GroupInStore(clock, docs, store, k, sorted[0].id);
    if |sorted| == 1 {
      forall other | other in store ensures !Twins(store, sorted[0].id, other) {
        GroupInStore(clock, docs, store, k, other);
      }
    } else {
      assert sorted[1] == sorted[1..][0];
      GroupInStore(clock, docs, store, k, sorted[1].id);
      assert Twins(store, sorted[0].id, sorted[1].id);
    }
  }

  lemma HeadHistory(clock: Clock, docs: seq<Record>, store: Store, k: Key)
    requires Scans(docs, store) && Members(docs, k) != []
    ensures var sorted := Descending(clock, Members(docs, k));
      sorted[0].id in store && HistoryOf(clock, store, sorted[0].id, MergedHistory(clock, sorted[0], sorted[1..]))
  {
    var sorted := Descending(clock, Members(docs, k));
    var others := sorted[1..];
    var id := sorted[0].id;
    GroupInStore(clock, docs, store, k, id);
    MergedHistoryExact(clock, sorted[0], others);
    forall t ensures (exists i | 0 <= i < |others| :: others[i].detectedAt == t != "") <==> TwinDetected(store, id, t) {
      if i :| 0 <= i < |others| && others[i].detectedAt == t != "" {
        GroupSorted(clock, docs, store, k, others[i]);
        assert Twins(store, id, others[i].id);
      }
      if TwinDetected(store, id, t) {
        var other :| other in store && Twins(store, id, other) && store[other].detectedAt == t != "";
        GroupSorted(clock, docs, store, k, store[other]);
      }
    }
  }

  lemma StepSingle(clock: Clock, docs: seq<Record>, store: Store, k: Key, done: set<Key>, after: Store)
    requires Scans(docs, store) && |Members(docs, k)| == 1 && k !in done && Partly(clock, store, done, after)
    ensures Partly(clock, store, done + {k}, after)
  {
    HeadAlone(clock, docs, store, k);
    forall id ensures PartlyAt(clock, store, done + {k}, after, id) {
      assert PartlyAt(clock, store, done, after, id);
      if id in store && KeyOf(store[id]) == k {
        GroupInStore(clock, docs, store, k, id);
        HeadIsGreatest(clock, docs, store, k, id);
      }
    }
  }

  lemma StepGroupAt(clock: Clock, docs: seq<Record>, store: Store, k: Key, done: set<Key>, after: Store, id: string)
    requires Scans(docs, store) && |Members(docs, k)| > 1 && k !in done && PartlyAt(clock, store, done, after, id)
    ensures var sorted := Descending(clock, Members(docs, k));
      var merged := sorted[0].(history := MergedHistory(clock, sorted[0], sorted[1..]));
      && (id == sorted[0].id ==> id in after && after[id] == sorted[0])
      && PartlyAt(clock, store, done + {k}, after[sorted[0].id := merged] - Ids(sorted[1..]), id)
  {
    var sorted := Descending(clock, Members(docs, k));
    GroupInStore(clock, docs, store, k, id);
    if id in store && KeyOf(store[id]) == k {
      HeadIsGreatest(clock, docs, store, k, id);
      if id == sorted[0].id {
        HeadAlone(clock, docs, store, k);
        HeadHistory(clock, docs, store, k);
      }
    }
  }

  lemma StepGroup(clock: Clock, docs: seq<Record>, store: Store, k: Key, done: set<Key>, after: Store)
    requires Scans(docs, store) && |Members(docs, k)| > 1 && k !in done && Partly(clock, store, done, after)
    ensures var sorted := Descending(clock, Members(docs, k));
      var merged := sorted[0].(history := MergedHistory(clock, sorted[0], sorted[1..]));
      && sorted[0].id in after && after[sorted[0].id] == sorted[0]
      && Partly(clock, store, done + {k}, after[sorted[0].id := merged] - Ids(sorted[1..]))
  {
    var sorted := Descending(clock, Members(docs, k));
    assert PartlyAt(clock, store, done, after, sorted[0].id);
    StepGroupAt(clock, docs, store, k, done, after, sorted[0].id);
    var merged := sorted[0].(history := MergedHistory(clock, sorted[0], sorted[1..]));
    var now := after[sorted[0].id := merged] - Ids(sorted[1..]);
    forall id ensures PartlyAt(clock, store, done + {k}, now, id) {
      assert PartlyAt(clock, store, done, after, id);
      StepGroupAt(clock, docs, store, k, done, after, id);
    }
  }

  lemma AllDone(clock: Clock, store: Store, done: set<Key>, after: Store)
    requires Partly(clock, store, done, after) && forall id | id in store :: KeyOf(store[id]) in done
    ensures Consolidated(clock, store, after)
  {
    forall id
      ensures id in after <==> id in store && Greatest(clock, store, id)
      ensures id in after ==> Merged(clock, store, id, after[id])
    {
      assert PartlyAt(clock, store, done, after, id);
    }
  }

  // ----- The plan and the bulk request -----

  datatype Update = Update(id: string, history: seq<string>)

  function ApplyUpdates(store: Store, updates: seq<Update>): Store {
    if updates == [] then store
    else
      var before := ApplyUpdates(store, updates[..|updates| - 1]);
      var u := updates[|updates| - 1];
      if u.id in before then before[u.id := before[u.id].(history := u.history)] else before
  }

  // All updates, then all deletes.
  function Bulk(store: Store, updates: seq<Update>, deletes: seq<string>): Store {
    ApplyUpdates(store, updates) - Elements(deletes)
  }

  lemma BulkAppend(store: Store, updates: seq<Update>, deletes: seq<string>, u: Update, docs: seq<Record>)
    requires u.id in Bulk(store, updates, deletes)
    ensures var before := Bulk(store, updates, deletes);
      Bulk(store, updates + [u], deletes + IdList(docs))
        == before[u.id := before[u.id].(history := u.history)] - Ids(docs)
  {
    assert (updates + [u])[..|updates|] == updates;
    IdListElements(docs);
    assert Elements(deletes + IdList(docs)) == Elements(deletes) + Elements(IdList(docs));
  }

  function IdList(docs: seq<Record>): seq<string> { seq(|docs|, i requires 0 <= i < |docs| => docs[i].id) }

  lemma IdListElements(docs: seq<Record>)
    ensures Elements(IdList(docs)) == Ids(docs)
  {
    forall r | r in docs ensures r.id in IdList(docs) {
      var i :| 0 <= i < |docs| && docs[i] == r;
      assert IdList(docs)[i] == r.id;
    }
  }

  // ----- main -----

  predicate GroupedAt(docs: seq<Record>, order: seq<Key>, groups: map<Key, seq<Record>>, k: Key) {
    && (k in groups <==> Members(docs, k) != [])
    && (k in groups ==> groups[k] == Members(docs, k))
    && (k in order <==> k in groups)
  }

  lemma GroupedStep(docs: seq<Record>, i: nat, order: seq<Key>, groups: map<Key, seq<Record>>, k: Key)
    requires i < |docs| && GroupedAt(docs[..i], order, groups, k) && GroupedAt(docs[..i], order, groups, KeyOf(docs[i]))
    ensures var key := KeyOf(docs[i]);
      var order' := if key in groups then order else order + [key];
      var groups' := groups[key := (if key in groups then groups[key] else []) + [docs[i]]];
      GroupedAt(docs[..i + 1], order', groups', k)
  {
    assert docs[..i + 1][..i] == docs[..i];
  }

  predicate InGroup(groups: map<Key, seq<Record>>, k: Key, r: Record) { k in groups && r in groups[k] }

  // Every document is in a group, and with its duplicates.
  ghost predicate GroupsDuplicates(docs: seq<Record>, groups: map<Key, seq<Record>>) {
    && (forall r | r in docs :: exists k :: InGroup(groups, k, r))
    && forall k, a, b | InGroup(groups, k, a) && b in docs :: InGroup(groups, k, b) <==> Duplicates(a, b)
  }

  lemma GroupedDuplicates(docs: seq<Record>, order: seq<Key>, groups: map<Key, seq<Record>>)
    requires forall k :: GroupedAt(docs, order, groups, k)
    ensures GroupsDuplicates(docs, groups)
  {
    forall r | r in docs ensures exists k :: InGroup(groups, k, r) {
      MembersExact(docs, KeyOf(r), r);
      assert GroupedAt(docs, order, groups, KeyOf(r));
      assert InGroup(groups, KeyOf(r), r);
    }
    forall k, a, b | InGroup(groups, k, a) && b in docs ensures InGroup(groups, k, b) <==> Duplicates(a, b) {
      assert GroupedAt(docs, order, groups, k);
      MembersExact(docs, k, a);
      MembersExact(docs, k, b);
      SameKeyExactly(a, b);
    }
  }

  method GroupDocs(docs: seq<Record>) returns (order: seq<Key>, groups: map<Key, seq<Record>>)
    ensures GroupsDuplicates(docs, groups)
    ensures forall k :: GroupedAt(docs, order, groups, k)
    ensures forall i, j | 0 <= i < j < |order| :: order[i] != order[j]
  {
    order, groups := [], map[];
    for i := 0 to |docs|
      invariant forall k :: GroupedAt(docs[..i], order, groups, k)
      invariant forall a, b | 0 <= a < b < |order| :: order[a] != order[b]
    {
      var key := KeyOf(docs[i]);
      ghost var was, had := order, groups;
      assert GroupedAt(docs[..i], was, had, key);
      if key !in groups {
        order := order + [key];
        groups := groups[key := []];
      }
      groups := groups[key := groups[key] + [docs[i]]];
      assert groups == had[key := (if key in had then had[key] else []) + [docs[i]]];
      ghost var seen := docs[..i + 1];
      forall k ensures GroupedAt(seen, order, groups, k) {
        assert GroupedAt(docs[..i], was, had, k);
        GroupedStep(docs, i, was, had, k);
      }
    }
    assert docs[..|docs|] == docs;
    GroupedDuplicates(docs, order, groups);
  }

  method CollectTimes(canonical: Record, others: seq<Record>) returns (hist: seq<string>)
    ensures hist == canonical.history + Times(others)
  {
    hist := canonical.history;
    for i := 0 to |others|
      invariant hist == canonical.history + Times(others[..i])
    {
      assert others[..i + 1][..i] == others[..i];
      if others[i].detectedAt != "" { hist := hist + [others[i].detectedAt]; }
    }
    assert others[..|others|] == others;
  }

  datatype Result<T> = Ok(value: T) | TypeError

  method MergeGroup(clock: Clock, docs: seq<Record>) returns (r: Result<(Update, seq<Record>)>)
    requires |docs| > 1
    ensures r.TypeError? <==> Unsortable(clock, docs)
    ensures r.Ok? ==> var sorted := Descending(clock, docs);
      r.value == (Update(sorted[0].id, MergedHistory(clock, sorted[0], sorted[1..])), sorted[1..])
  {
    if Mixed(clock, DetectionTimes(docs)) { return TypeError; }
    var sorted := Descending(clock, docs);
    var canonical, others := sorted[0], sorted[1..];
    var hist := CollectTimes(canonical, others);
    hist := Dedupe(hist);
    if Mixed(clock, hist) { return TypeError; }
    hist := Sorting.Sort(hist, (a, b) => Earlier(clock, a, b));
    return Ok((Update(canonical.id, hist), others));
  }

  lemma EveryKeyDone(docs: seq<Record>, store: Store, order: seq<Key>, groups: map<Key, seq<Record>>, done: set<Key>)
    requires Scans(docs, store) && (forall k :: GroupedAt(docs, order, groups, k)) && done == set k | k in order
    ensures forall k :: Members(docs, k) == [] || k in done
    ensures forall id | id in store :: KeyOf(store[id]) in done
  {
    forall k ensures Members(docs, k) == [] || k in done { assert GroupedAt(docs, order, groups, k); }
    forall id | id in store ensures KeyOf(store[id]) in done { MembersExact(docs, KeyOf(store[id]), store[id]); }
  }

  // The plan after one more group.
  function MoreUpdates(clock: Clock, group: seq<Record>, updates: seq<Update>): seq<Update> {
    if |group| <= 1 then updates
    else
      var sorted := Descending(clock, group);
      updates + [Update(sorted[0].id, MergedHistory(clock, sorted[0], sorted[1..]))]
  }

  function MoreDeletes(clock: Clock, group: seq<Record>, deletes: seq<string>): seq<string> {
    if |group| <= 1 then deletes else deletes + IdList(Descending(clock, group)[1..])
  }

  lemma PlanStep(clock: Clock, docs: seq<Record>, store: Store, k: Key, done: set<Key>,
                 updates: seq<Update>, deletes: seq<string>)
    requires Scans(docs, store) && Members(docs, k) != [] && k !in done
    requires Partly(clock, store, done, Bulk(store, updates, deletes))
    ensures var group := Members(docs, k);
      Partly(clock, store, done + {k},
        Bulk(store, MoreUpdates(clock, group, updates), MoreDeletes(clock, group, deletes)))
  {
    var now := Bulk(store, updates, deletes);
    if |Members(docs, k)| == 1 {
      StepSingle(clock, docs, store, k, done, now);
    } else {
      var sorted := Descending(clock, Members(docs, k));
      StepGroup(clock, docs, store, k, done, now);
      BulkAppend(store, updates, deletes, Update(sorted[0].id, MergedHistory(clock, sorted[0], sorted[1..])),
        sorted[1..]);
    }
  }

  method PlanGroup(clock: Clock, group: seq<Record>, updates: seq<Update>, deletes: seq<string>)
    returns (r: Result<(seq<Update>, seq<string>)>)
    ensures r.TypeError? <==> Unsortable(clock, group)
    ensures r.Ok? ==> r.value == (MoreUpdates(clock, group, updates), MoreDeletes(clock, group, deletes))
  {
    if |group| <= 1 { return Ok((updates, deletes)); }
    var merged := MergeGroup(clock, group);
    if merged.TypeError? { return TypeError; }
    var (update, others) := merged.value;
    return Ok((updates + [update], deletes + IdList(others)));
  }

  // The plan for the groups of some keys.
  function UpdatesOver(clock: Clock, docs: seq<Record>, keys: seq<Key>): seq<Update> {
    if keys == [] then []
    else MoreUpdates(clock, Members(docs, keys[|keys| - 1]), UpdatesOver(clock, docs, keys[..|keys| - 1]))
  }

  function DeletesOver(clock: Clock, docs: seq<Record>, keys: seq<Key>): seq<string> {
    if keys == [] then []
    else MoreDeletes(clock, Members(docs, keys[|keys| - 1]), DeletesOver(clock, docs, keys[..|keys| - 1]))
  }

  function KeySet(keys: seq<Key>): set<Key> { set k | k in keys }

  lemma {:induction false} PlanOverPartly(clock: Clock, docs: seq<Record>, store: Store, keys: seq<Key>)
    requires Scans(docs, store) && (forall i | 0 <= i < |keys| :: Members(docs, keys[i]) != [])
    requires forall i, j | 0 <= i < j < |keys| :: keys[i] != keys[j]
    ensures Partly(clock, store, KeySet(keys),
      Bulk(store, UpdatesOver(clock, docs, keys), DeletesOver(clock, docs, keys)))
  {
    if keys == [] {
      assert Bulk(store, [], []) == store;
    } else {
      var init, last := keys[..|keys| - 1], keys[|keys| - 1];
      PlanOverPartly(clock, docs, store, init);
      assert KeySet(keys) == KeySet(init) + {last};
      assert last !in KeySet(init);
      PlanStep(clock, docs, store, last, KeySet(init), UpdatesOver(clock, docs, init), DeletesOver(clock, docs, init));
    }
  }

  lemma PlanWhole(clock: Clock, docs: seq<Record>, store: Store, order: seq<Key>, groups: map<Key, seq<Record>>)
    requires Scans(docs, store) && (forall k :: GroupedAt(docs, order, groups, k))
    requires forall i, j | 0 <= i < j < |order| :: order[i] != order[j]
    ensures Consolidated(clock, store, Bulk(store, UpdatesOver(clock, docs, order), DeletesOver(clock, docs, order)))
  {
    forall i | 0 <= i < |order| ensures Members(docs, order[i]) != [] {
      assert GroupedAt(docs, order, groups, order[i]);
    }
    PlanOverPartly(clock, docs, store, order);
    EveryKeyDone(docs, store, order, groups, KeySet(order));
    AllDone(clock, store, KeySet(order), Bulk(store, UpdatesOver(clock, docs, order), DeletesOver(clock, docs, order)));
  }

  // One of the groups is bad: it cannot be sorted.
  predicate Fails(docs: seq<Record>, keys: seq<Key>, bad: seq<Record> -> bool) {
    keys != [] && (bad(Members(docs, keys[|keys| - 1])) || Fails(docs, keys[..|keys| - 1], bad))
  }

  lemma {:induction false} FailsExact(docs: seq<Record>, keys: seq<Key>, bad: seq<Record> -> bool)
    ensures Fails(docs, keys, bad) <==> exists k :: k in keys && bad(Members(docs, k))
  {
    if keys != [] {
      var init, last := keys[..|keys| - 1], keys[|keys| - 1];
      FailsExact(docs, init, bad);
      assert keys == init + [last];
      if k :| k in init && bad(Members(docs, k)) { assert k in keys; }
      if bad(Members(docs, last)) { assert last in keys; }
      if k :| k in keys && bad(Members(docs, k)) { assert k == last || k in init; }
    }
  }

  lemma {:induction false} FailsMore(docs: seq<Record>, keys: seq<Key>, n: nat, bad: seq<Record> -> bool)
    requires n <= |keys| && Fails(docs, keys[..n], bad)
    ensures Fails(docs, keys, bad)
  {
    if n == |keys| {
      assert keys[..n] == keys;
    } else {
      assert keys[..|keys| - 1][..n] == keys[..n];
      FailsMore(docs, keys[..|keys| - 1], n, bad);
    }
  }

  ghost predicate SomeGroup(docs: seq<Record>, bad: seq<Record> -> bool) { exists k :: bad(Members(docs, k)) }

  function UnsortableBy(clock: Clock): seq<Record> -> bool { group => Unsortable(clock, group) }

  // Only the groups that exist can be bad.
  lemma FailsSomewhere(docs: seq<Record>, order: seq<Key>, groups: map<Key, seq<Record>>, bad: seq<Record> -> bool)
    requires (forall k :: GroupedAt(docs, order, groups, k)) && !bad([])
    ensures Fails(docs, order, bad) <==> SomeGroup(docs, bad)
  {
    FailsExact(docs, order, bad);
    if SomeGroup(docs, bad) {
      var k :| bad(Members(docs, k));
      assert GroupedAt(docs, order, groups, k);
      assert k in order && bad(Members(docs, k));
    }
    if Fails(docs, order, bad) {
      var k :| k in order && bad(Members(docs, k));
      assert bad(Members(docs, k));
    }
  }

  // The loop over the groups; a TypeError ends it.
  method PlanGroups(clock: Clock, ghost docs: seq<Record>, order: seq<Key>, groups: map<Key, seq<Record>>,
                    ghost bad: seq<Record> -> bool)
    returns (r: Result<(seq<Update>, seq<string>)>)
    requires (forall k :: GroupedAt(docs, order, groups, k)) && forall group :: bad(group) == Unsortable(clock, group)
    ensures r.TypeError? <==> Fails(docs, order, bad)
    ensures r.Ok? ==> r.value == (UpdatesOver(clock, docs, order), DeletesOver(clock, docs, order))
  {
    r := Ok(([], []));
    for i := 0 to |order|
      invariant r.Ok? && !Fails(docs, order[..i], bad)
      invariant r.value == (UpdatesOver(clock, docs, order[..i]), DeletesOver(clock, docs, order[..i]))
    {
      GroupFound(docs, order, groups, i);
      ghost var was := r.value;
      r := PlanGroup(clock, groups[order[i]], r.value.0, r.value.1);
      PlanOneMore(clock, docs, order, i, bad);
      if r.TypeError? {
        FailsMore(docs, order, i + 1, bad);
        return;
      }
    }
    assert order[..|order|] == order;
  }

  lemma GroupFound(docs: seq<Record>, order: seq<Key>, groups: map<Key, seq<Record>>, i: nat)
    requires i < |order| && forall k :: GroupedAt(docs, order, groups, k)
    ensures order[i] in groups && groups[order[i]] == Members(docs, order[i])
  {
    assert GroupedAt(docs, order, groups, order[i]);
  }

  lemma PlanOneMore(clock: Clock, docs: seq<Record>, order: seq<Key>, i: nat, bad: seq<Record> -> bool)
    requires i < |order|
    ensures var group, before := Members(docs, order[i]), order[..i];
      && Fails(docs, order[..i + 1], bad) == (bad(group) || Fails(docs, before, bad))
      && UpdatesOver(clock, docs, order[..i + 1]) == MoreUpdates(clock, group, UpdatesOver(clock, docs, before))
      && DeletesOver(clock, docs, order[..i + 1]) == MoreDeletes(clock, group, DeletesOver(clock, docs, before))
  {
    assert order[..i + 1][..i] == order[..i];
  }

  /** main: there is a plan exactly when every group can be sorted, and carrying it out consolidates
      the index. */
  method Plan(clock: Clock, docs: seq<Record>, ghost store: Store) returns (r: Result<(seq<Update>, seq<string>)>)
    requires Scans(docs, store)
    ensures r.TypeError? <==> SomeGroup(docs, UnsortableBy(clock))
    ensures r.Ok? ==> Consolidated(clock, store, Bulk(store, r.value.0, r.value.1))
  {
    var order, groups := GroupDocs(docs);
    PlanWhole(clock, docs, store, order, groups);
    FailsSomewhere(docs, order, groups, UnsortableBy(clock));
    r := PlanGroups(clock, docs, order, groups, UnsortableBy(clock));
  }

  // ----- What consolidation means -----

  // Indexed by finding id.
  predicate Indexed(store: Store) { forall id | id in store :: store[id].id == id }

  lemma {:induction false} GreatestExists(clock: Clock, store: Store, ids: set<string>, id: string)
      returns (left: string)
    requires Indexed(store) && id in ids && ids <= store.Keys
    ensures left in ids && forall i | i in ids && i != left :: Below(clock, store[i], store[left])
    decreases |ids|
  {
    if other :| other in ids && other != id {
      var best := GreatestExists(clock, store, ids - {other}, id);
      BelowAsymmetric(clock, store[best], store[other]);
      left := if Below(clock, store[best], store[other]) then other else best;
      forall i | i in ids && i != left ensures Below(clock, store[i], store[left]) {
        if left == other && i != best { BelowTransitive(clock, store[i], store[best], store[other]); }
      }
    } else {
      left := id;
    }
  }

  lemma BelowTransitive(clock: Clock, a: Record, b: Record, c: Record)
    requires Below(clock, a, b) && Below(clock, b, c)
    ensures Below(clock, a, c)
  {
    var ka, kb := DetectedSortKey(clock, a.detectedAt), DetectedSortKey(clock, b.detectedAt);
    var kc := DetectedSortKey(clock, c.detectedAt);
    KeyLessWeak(ka, kb, kc);
    KeyLessWeak(kb, kc, ka);
    KeyLessWeak(kc, ka, kb);
    if StrLess(a.id, b.id) && StrLess(b.id, c.id) { LessTransitive(a.id, b.id, c.id); }
  }

  lemma NotGreatest(clock: Clock, store: Store, id: string, other: string)
    requires id in store && other in store && Twins(store, id, other) && Below(clock, store[id], store[other])
    ensures !Greatest(clock, store, id)
  {
    BelowAsymmetric(clock, store[id], store[other]);
  }

  lemma GreatestIf(clock: Clock, store: Store, left: string, ids: set<string>)
    requires left in store && ids <= store.Keys
      && (forall i | i in store && KeyOf(store[i]) == KeyOf(store[left]) :: i in ids)
    requires forall i | i in ids && i != left :: Below(clock, store[i], store[left])
    ensures Greatest(clock, store, left)
  {
  }

  lemma GreatestTwin(clock: Clock, store: Store, id: string) returns (left: string)
    requires Indexed(store) && id in store
    ensures left in store && KeyOf(store[left]) == KeyOf(store[id]) && Greatest(clock, store, left)
  {
    var twins := set i | i in store && KeyOf(store[i]) == KeyOf(store[id]);
    left := GreatestExists(clock, store, twins, id);
    GreatestIf(clock, store, left, twins);
  }

  /** Of the records with one agent, name and CVE number a record is left: the greatest by
      (detected_sort_key, finding_id), with nothing but its history changed. */
  lemma OneIsLeft(clock: Clock, store: Store, after: Store, id: string) returns (left: string)
    requires Indexed(store) && Consolidated(clock, store, after) && id in store
    ensures left in after && left in store && Greatest(clock, store, left)
    ensures after[left] == store[left].(history := after[left].history)
    ensures after[left].agent == store[id].agent && after[left].name == store[id].name
    ensures after[left].cve == store[id].cve || (Blank(after[left].cve) && Blank(store[id].cve))
  {
    left := GreatestTwin(clock, store, id);
    assert Merged(clock, store, left, after[left]);
    SameKeyExactly(store[left], store[id]);
  }

  /** And no two of them are left. */
  lemma NoTwinsAreLeft(clock: Clock, store: Store, after: Store, id: string)
    requires Consolidated(clock, store, after) && id in after
    ensures Alone(after, id)
    ensures forall other | other in after && other != id ::
      || after[other].agent != after[id].agent || after[other].name != after[id].name
      || (after[other].cve != after[id].cve && !(Blank(after[other].cve) && Blank(after[id].cve)))
  {
    assert Merged(clock, store, id, after[id]);
    forall other | other in after ensures !Twins(after, id, other) {
      assert Merged(clock, store, other, after[other]);
      if Twins(after, id, other) {
        assert Twins(store, id, other);
        NotGreatest(clock, store, other, id);
      }
    }
    forall other | other in after && other != id ensures !Duplicates(after[other], after[id]) {
      SameKeyExactly(after[other], after[id]);
      assert !Twins(after, id, other);
    }
  }

  /** A record that differs from every other one in its agent, its name or its CVE number is left as
      it was. */
  lemma DistinctRecordStays(clock: Clock, store: Store, after: Store, id: string)
    requires Consolidated(clock, store, after) && id in store
    requires forall other | other in store && other != id ::
      || store[other].agent != store[id].agent || store[other].name != store[id].name
      || (store[other].cve != store[id].cve && !(Blank(store[other].cve) && Blank(store[id].cve)))
    ensures id in after && after[id] == store[id]
  {
    forall other | other in store && other != id ensures !Duplicates(store[other], store[id]) {
      SameKeyExactly(store[other], store[id]);
    }
    AloneIf(store, id);
    AloneStays(clock, store, after, id);
  }

  lemma AloneIf(store: Store, id: string)
    requires id in store && forall other | other in store && other != id :: !Duplicates(store[other], store[id])
    ensures Alone(store, id)
  {
    forall other | other in store ensures !Twins(store, id, other) {
      SameKeyExactly(store[other], store[id]);
    }
  }

  lemma AloneStays(clock: Clock, store: Store, after: Store, id: string)
    requires Consolidated(clock, store, after) && id in store && Alone(store, id)
    ensures id in after && after[id] == store[id]
  {
    assert Greatest(clock, store, id);
    assert Merged(clock, store, id, after[id]);
  }

  /** A record is deleted only in favour of one with its agent, name and CVE number that is above it. */
  lemma DeletedForDuplicate(clock: Clock, store: Store, after: Store, id: string) returns (left: string)
    requires Indexed(store) && Consolidated(clock, store, after) && id in store && id !in after
    ensures left in after && left in store && left != id
    ensures Duplicates(store[left], store[id]) && Below(clock, store[id], store[left])
  {
    left := GreatestTwin(clock, store, id);
    SameKeyExactly(store[left], store[id]);
    assert Twins(store, left, id);
  }

  /** Running the migration again changes nothing. */
  lemma SecondRunChangesNothing(clock: Clock, store: Store, after: Store, again: Store)
    requires Consolidated(clock, store, after) && Consolidated(clock, after, again)
    ensures again == after
  {
    forall id | id in after
      ensures id in again && again[id] == after[id]
    {
      NoTwinsAreLeft(clock, store, after, id);
      assert Greatest(clock, after, id);
    }
  }

  /** Nor can it fail. */
  lemma SecondRunHasAPlan(clock: Clock, store: Store, after: Store, docs: seq<Record>, k: Key)
    requires Consolidated(clock, store, after) && Scans(docs, after)
    ensures !Unsortable(clock, Members(docs, k))
  {
    if Members(docs, k) != [] {
      var head := Descending(clock, Members(docs, k))[0];
      GroupInStore(clock, docs, after, k, head.id);
      NoTwinsAreLeft(clock, store, after, head.id);
      HeadAlone(clock, docs, after, k);
    }
  }

  // The record's detection time parses.
  predicate Dated(clock: Clock, r: Record) { DetectedSortKey(clock, r.detectedAt).Parsed? }

  // The record is dated, and no dated record of its key is later.
  predicate Latest(clock: Clock, store: Store, id: string)
    requires id in store
  {
    && Dated(clock, store[id])
    && forall other | other in store && Twins(store, id, other) && Dated(clock, store[other]) ::
         DetectedSortKey(clock, store[other].detectedAt).stamp.at
         <= DetectedSortKey(clock, store[id].detectedAt).stamp.at
  }

  predicate AllDated(clock: Clock, store: Store, id: string)
    requires id in store
  {
    Dated(clock, store[id]) && forall other | other in store && Twins(store, id, other) :: Dated(clock, store[other])
  }

  lemma HigherClass(clock: Clock, low: Record, high: Record)
    requires Class(DetectedSortKey(clock, low.detectedAt)) < Class(DetectedSortKey(clock, high.detectedAt))
    ensures Below(clock, low, high)
  {
  }

  // A record whose time does not parse is above every dated one.
  lemma UndatedAbove(clock: Clock, undated: Record, dated: Record)
    requires !Dated(clock, undated) && Dated(clock, dated)
    ensures Below(clock, dated, undated)
  {
  }

  /** The survivor of a key is the latest scan if and only if every detection time of the key parses:
      empty times and times that do not parse are above all others. */
  lemma LatestSurvivesIff(clock: Clock, store: Store, after: Store, id: string)
    requires Consolidated(clock, store, after) && id in after
    ensures Latest(clock, store, id) <==> AllDated(clock, store, id)
  {
    forall other | other in store && Twins(store, id, other)
      ensures Below(clock, store[other], store[id])
      ensures Dated(clock, store[id]) ==> Dated(clock, store[other])
    {
      if Dated(clock, store[id]) && !Dated(clock, store[other]) {
        UndatedAbove(clock, store[other], store[id]);
        NotGreatest(clock, store, id, other);
      }
    }
  }

  // The key of the record has dated records and others.
  predicate MixedKey(clock: Clock, store: Store, id: string)
    requires id in store
  {
    exists a, b | a in store && b in store ::
      && KeyOf(store[a]) == KeyOf(store[id]) && Dated(clock, store[a])
      && KeyOf(store[b]) == KeyOf(store[id]) && !Dated(clock, store[b])
  }

  /** A dated record is deleted in favour of one without a date exactly when the key has both. */
  lemma DatedLostIff(clock: Clock, store: Store, after: Store, id: string)
    requires Consolidated(clock, store, after) && id in after
    ensures (!Dated(clock, store[id]) && exists other | other in store && Twins(store, id, other) ::
        Dated(clock, store[other]))
      <==> MixedKey(clock, store, id)
  {
    LatestSurvivesIff(clock, store, after, id);
    if MixedKey(clock, store, id) {
      var a, b :| a in store && b in store
        && KeyOf(store[a]) == KeyOf(store[id]) && Dated(clock, store[a])
        && KeyOf(store[b]) == KeyOf(store[id]) && !Dated(clock, store[b]);
      assert b == id || Twins(store, id, b);
      if Dated(clock, store[id]) {
        UndatedAbove(clock, store[b], store[id]);
        NotGreatest(clock, store, id, b);
      }
      assert a != id && Twins(store, id, a);
    }
  }

  // ----- The order of records, by their texts -----

  /** The key of a time is read from its text without white space around it: empty, parsed, or the
      text itself; a final Z stands for +00:00. */
  lemma SortKeyExactly(clock: Clock, value: string, s: string)
    requires s == clock.strip(value)
    ensures s == "" ==> DetectedSortKey(clock, value) == Empty
    ensures forall t: string | s == t + "Z" && s != "" ::
      DetectedSortKey(clock, value) == match clock.parse(t + "+00:00")
                                       case Some(stamp) => Parsed(stamp)
                                       case None => Lexical(t + "+00:00")
    ensures s != "" && s[|s| - 1] != 'Z' ==>
      DetectedSortKey(clock, value) == match clock.parse(s) case Some(stamp) => Parsed(stamp) case None => Lexical(s)
  {
    forall t: string | s == t + "Z" ensures s[..|s| - 1] == t && s[|s| - 1] == 'Z' {
    }
  }

  /** Parsed times come first, in the order of time, then texts in their own order, then nothing; and
      records with the same key go by their ids. */
  lemma BelowExactly(clock: Clock, a: Record, b: Record)
    ensures var x, y := DetectedSortKey(clock, a.detectedAt), DetectedSortKey(clock, b.detectedAt);
      && (x.Parsed? && y.Parsed? && x.stamp.at != y.stamp.at ==> (Below(clock, a, b) <==> x.stamp.at < y.stamp.at))
      && (x.Parsed? && !y.Parsed? ==> Below(clock, a, b) && !Below(clock, b, a))
      && (x.Lexical? && y.Empty? ==> Below(clock, a, b) && !Below(clock, b, a))
      && (x.Lexical? && y.Lexical? && x != y ==> (Below(clock, a, b) <==> TextBelow(x.s, y.s)))
      && (x == y ==> (Below(clock, a, b) <==> TextBelow(a.id, b.id)))
  {
    var x, y := DetectedSortKey(clock, a.detectedAt), DetectedSortKey(clock, b.detectedAt);
    LessExactly(a.id, b.id);
    if x.Lexical? && y.Lexical? {
      LessExactly(x.s, y.s);
      LessTotal(x.s, y.s);
    }
  }

  // ----- When there is no plan -----

  // Two duplicates of the index, one with a time with an offset and one with a time without.
  predicate Clash(clock: Clock, docs: seq<Record>, i: nat, j: nat) {
    && i < |docs| && j < |docs| && Duplicates(docs[i], docs[j])
    && Zoned(clock, docs[i].detectedAt, true) && Zoned(clock, docs[j].detectedAt, false)
  }

  /** Python cannot order two such times, so there is no plan. */
  lemma ClashFails(clock: Clock, docs: seq<Record>, i: nat, j: nat)
    requires Clash(clock, docs, i, j)
    ensures SomeGroup(docs, UnsortableBy(clock))
  {
    SameKeyExactly(docs[i], docs[j]);
    var k := KeyOf(docs[i]);
    var group := Members(docs, k);
    MembersExact(docs, k, docs[i]);
    MembersExact(docs, k, docs[j]);
    assert docs[i] != docs[j];
    var a :| 0 <= a < |group| && group[a] == docs[i];
    var b :| 0 <= b < |group| && group[b] == docs[j];
    var times := DetectionTimes(group);
    assert times[a] == docs[i].detectedAt && times[b] == docs[j].detectedAt;
    SomeZonedExact(clock, times, true);
    SomeZonedExact(clock, times, false);
    assert Unsortable(clock, group);
    assert UnsortableBy(clock)(group);
  }

  // No time of the index, in a record or in a history, has an offset, or none is without.
  predicate Uniform(clock: Clock, docs: seq<Record>, aware: bool) {
    forall i | 0 <= i < |docs| ::
      && !Zoned(clock, docs[i].detectedAt, !aware)
      && forall t | t in docs[i].history :: !Zoned(clock, t, !aware)
  }

  /** If all times of the index that parse have an offset, or none has, there is a plan. */
  lemma UniformPlans(clock: Clock, docs: seq<Record>, aware: bool)
    requires Uniform(clock, docs, aware)
    ensures !SomeGroup(docs, UnsortableBy(clock))
  {
    forall k ensures !Unsortable(clock, Members(docs, k)) { UniformGroup(clock, docs, k, aware); }
  }

  lemma UniformGroup(clock: Clock, docs: seq<Record>, k: Key, aware: bool)
    requires Uniform(clock, docs, aware)
    ensures !Unsortable(clock, Members(docs, k))
  {
    var group := Members(docs, k);
    if |group| > 1 {
      var sorted := Descending(clock, group);
      forall r | r in group || r in sorted ensures r in docs {
        MembersExact(docs, k, r);
        GroupMembers(clock, docs, k, r);
      }
      UniformTimes(clock, docs, DetectionTimes(group), aware);
      MergedUniform(clock, docs, sorted[0], sorted[1..], aware);
    }
  }

  lemma UniformTimes(clock: Clock, docs: seq<Record>, times: seq<string>, aware: bool)
    requires Uniform(clock, docs, aware)
    requires forall i | 0 <= i < |times| :: exists r | r in docs :: r.detectedAt == times[i] || times[i] in r.history
    ensures !Mixed(clock, times)
  {
    SomeZonedExact(clock, times, !aware);
    forall t | t in times ensures !Zoned(clock, t, !aware) {
      var i :| 0 <= i < |times| && times[i] == t;
      var r :| r in docs && (r.detectedAt == times[i] || times[i] in r.history);
      var n :| 0 <= n < |docs| && docs[n] == r;
    }
  }

  lemma MergedUniform(clock: Clock, docs: seq<Record>, canonical: Record, others: seq<Record>, aware: bool)
    requires Uniform(clock, docs, aware) && canonical in docs && forall r | r in others :: r in docs
    ensures !Mixed(clock, MergedTimes(canonical, others))
  {
    var times := MergedTimes(canonical, others);
    DedupeMembers(canonical.history + Times(others));
    forall i | 0 <= i < |times| ensures exists r | r in docs :: r.detectedAt == times[i] || times[i] in r.history {
      assert times[i] in canonical.history + Times(others);
      if times[i] !in canonical.history {
        TimesMembers(others, times[i]);
        var n :| 0 <= n < |others| && others[n].detectedAt == times[i] != "";
        assert others[n] in docs;
      }
    }
    UniformTimes(clock, docs, times, aware);
  }

  /** Of two dated records of a key the later survives. */
  lemma LatestSurvives(clock: Clock, store: Store, after: Store, id: string, other: string)
    requires Consolidated(clock, store, after) && id in after && other in store && Twins(store, id, other)
    requires Dated(clock, store[id]) && Dated(clock, store[other])
    ensures DetectedSortKey(clock, store[other].detectedAt).stamp.at
      <= DetectedSortKey(clock, store[id].detectedAt).stamp.at
  {
    assert Below(clock, store[other], store[id]);
  }

  // Its time is empty where the other one's is not, or does not parse where the other one's does.
  predicate Outranks(clock: Clock, r: Record, other: Record) {
    Class(DetectedSortKey(clock, other.detectedAt)) < Class(DetectedSortKey(clock, r.detectedAt))
  }

  lemma OutrankedNotGreatest(clock: Clock, store: Store, id: string, other: string)
    requires id in store && other in store && Twins(store, other, id) && Outranks(clock, store[id], store[other])
    ensures !Greatest(clock, store, other)
  {
    HigherClass(clock, store[other], store[id]);
    NotGreatest(clock, store, other, id);
  }

  /** A record without a detection time outlives every one that has some text for it, and one whose
      text does not parse outlives every dated one. */
  lemma UndatedSurvives(clock: Clock, store: Store, after: Store, id: string, other: string)
    requires Consolidated(clock, store, after) && id in store && other in store && Twins(store, id, other)
    requires Outranks(clock, store[id], store[other])
    ensures other !in after
  {
    assert Twins(store, other, id);
    OutrankedNotGreatest(clock, store, id, other);
  }
}
