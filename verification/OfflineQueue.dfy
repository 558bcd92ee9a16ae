/** Sending, queueing and replaying messages (agent/internal/comm/client.go,
    agent/internal/queue/queue.go).

    `send`, `sendEphemeral`, `Push` and `PopAll` each run under a lock, so each is one step; the
    replay of popped messages is one step per message and interleaves with everything else. Whether
    a write or an insert works is decided by the environment. */
module OfflineQueue {

  datatype Msg = Msg(id: nat, ephemeral: bool)

  // Broken: the peer is gone but c.conn is still set, as after a read timeout.
  datatype Conn = Down | Live | Broken

  datatype Cause = WriteError | PushFailed | NoQueue | RowUnread | Unreadable | CrashDuringReplay

  datatype Loss = Loss(m: Msg, cause: Cause)

  // The environment's part in one call of send.
  datatype Luck = Luck(write: bool, push: bool)

  datatype State = State(
    conn: Conn,
    hasQueue: bool,
    sent: seq<Msg>,            // given to send by its callers
    written: seq<Msg>,         // WriteJSON reported success
    outbox: seq<Msg>,          // rows of the table, by id
    replays: seq<seq<Msg>>,    // popped by a processQueue that has not come to them yet
    lost: seq<Loss>,
    metrics: seq<Msg>,         // given to sendEphemeral
    metricsWritten: seq<Msg>,
    metricsDropped: seq<Msg>)

  datatype Step =
    | Send(m: Msg, luck: Luck)
    | SendEphemeral(m: Msg, write: bool)
    | Dial                      // a connection is established
    | Break                     // it fails, unnoticed
    | Hangup                    // the read loop ends and clears c.conn
    | PopAll(commits: bool, read: nat)
    | Replay(worker: nat, readable: bool, luck: Luck)
    | Crash                     // the process ends; the table stays

  // What send does with a message, whoever gave it.
  function Deliver(s: State, m: Msg, luck: Luck): State {
    if s.conn.Down? then
      if !s.hasQueue then s.(lost := s.lost + [Loss(m, NoQueue)])
      else if luck.push then s.(outbox := s.outbox + [m])
      else s.(lost := s.lost + [Loss(m, PushFailed)])
    else if s.conn.Live? && luck.write then s.(written := s.written + [m])
    else s.(lost := s.lost + [Loss(m, WriteError)])
  }

  predicate Enabled(s: State, a: Step) {
    match a
    case Send(m, _) => !m.ephemeral
    case SendEphemeral(m, _) => m.ephemeral
    case PopAll(_, read) => s.hasQueue && read <= |s.outbox|
    case Replay(worker, _, _) => worker < |s.replays| && s.replays[worker] != []
    case _ => true
  }

  function Next(s: State, a: Step): State
    requires Enabled(s, a)
  {
    match a
    case Send(m, luck) => Deliver(s.(sent := s.sent + [m]), m, luck)
    case SendEphemeral(m, write) => StepEphemeral(s, m, write)
    case Dial => s.(conn := Live)
    case Break => if s.conn.Live? then s.(conn := Broken) else s
    case Hangup => s.(conn := Down)
    case PopAll(commits, read) => Drain(s, commits, read)
    case Replay(worker, readable, luck) => ReplayOne(s, worker, readable, luck)
    case Crash => s.(conn := Down, replays := [], lost := s.lost + LostTo(Flatten(s.replays), CrashDuringReplay))
  }

  function StepEphemeral(s: State, m: Msg, write: bool): State {
    var t := s.(metrics := s.metrics + [m]);
    if s.conn.Live? && write then t.(metricsWritten := t.metricsWritten + [m])
    else t.(metricsDropped := t.metricsDropped + [m])
  }

  // PopAll never asks the row iterator why it stopped: it deletes the whole table when it has read
  // at least one row.
  function Drain(s: State, commits: bool, read: nat): State
    requires read <= |s.outbox|
  {
    if !commits || read == 0 then s
    else
      s.(outbox := [], replays := s.replays + [s.outbox[..read]], lost := s.lost + LostTo(s.outbox[read..], RowUnread))
  }

  function ReplayOne(s: State, worker: nat, readable: bool, luck: Luck): State
    requires worker < |s.replays| && s.replays[worker] != []
  {
    var m := s.replays[worker][0];
    var t := s.(replays := s.replays[worker := s.replays[worker][1..]]);
    if readable then Deliver(t, m, luck) else t.(lost := t.lost + [Loss(m, Unreadable)])
  }

  function Flatten(replays: seq<seq<Msg>>): seq<Msg> {
    if replays == [] then [] else replays[0] + Flatten(replays[1..])
  }

  function LostTo(ms: seq<Msg>, cause: Cause): seq<Loss> { seq(|ms|, i requires 0 <= i < |ms| => Loss(ms[i], cause)) }

  function LostMessages(losses: seq<Loss>): seq<Msg> {
    seq(|losses|, i requires 0 <= i < |losses| => losses[i].m)
  }

  // ----- Conservation -----

  ghost function Held(s: State): multiset<Msg> {
    multiset(s.written) + multiset(s.outbox) + multiset(LostMessages(s.lost))
  }

  // Every message is in one place, as often as it was sent.
  ghost predicate Conserved(s: State) {
    multiset(s.sent) == Held(s) + multiset(Flatten(s.replays))
  }

  // Ephemeral messages have a path of their own.
  ghost predicate Separate(s: State) {
    && (forall i | 0 <= i < |s.sent| :: !s.sent[i].ephemeral)
    && multiset(s.metrics) == multiset(s.metricsWritten) + multiset(s.metricsDropped)
  }

  lemma LostAppend(a: seq<Loss>, ms: seq<Msg>, cause: Cause)
    ensures LostMessages(a + LostTo(ms, cause)) == LostMessages(a) + ms
  {
  }

  lemma LoseOne(s: State, m: Msg, cause: Cause)
    ensures LostMessages(s.lost + [Loss(m, cause)]) == LostMessages(s.lost) + [m]
  {
  }

  lemma {:induction false} FlattenAppend(a: seq<seq<Msg>>, b: seq<Msg>)
    ensures Flatten(a + [b]) == Flatten(a) + b
  {
    if a == [] {
      assert [b][1..] == [];
    } else {
      assert (a + [b])[1..] == a[1..] + [b];
      FlattenAppend(a[1..], b);
    }
  }

  // Taking the head of one batch.
  lemma {:induction false} FlattenHead(a: seq<seq<Msg>>, i: nat)
    requires i < |a| && a[i] != []
    ensures multiset(Flatten(a)) == multiset{a[i][0]} + multiset(Flatten(a[i := a[i][1..]]))
  {
    var b := a[i := a[i][1..]];
    if i == 0 {
      assert a[0] == [a[0][0]] + a[0][1..];
      assert b[1..] == a[1..];
      assert Flatten(a) == [a[0][0]] + Flatten(b);
    } else {
      assert b[1..] == a[1..][i - 1 := a[i][1..]];
      FlattenHead(a[1..], i - 1);
    }
  }

  // send puts a message in exactly one place.
  lemma DeliverPlaces(s: State, m: Msg, luck: Luck)
    ensures Held(Deliver(s, m, luck)) == Held(s) + multiset{m}
  {
    LoseOne(s, m, NoQueue);
    LoseOne(s, m, PushFailed);
    LoseOne(s, m, WriteError);
  }

  lemma SendConserves(s: State, m: Msg, luck: Luck)
    requires Conserved(s) && !m.ephemeral
    ensures Conserved(Next(s, Send(m, luck)))
  {
    DeliverPlaces(s.(sent := s.sent + [m]), m, luck);
  }

  lemma DrainConserves(s: State, commits: bool, read: nat)
    requires read <= |s.outbox| && Conserved(s)
    ensures Conserved(Drain(s, commits, read))
  {
    FlattenAppend(s.replays, s.outbox[..read]);
    LostAppend(s.lost, s.outbox[read..], RowUnread);
    assert s.outbox == s.outbox[..read] + s.outbox[read..];
  }

  lemma Moved<T>(all: multiset<T>, held: multiset<T>, held': multiset<T>, rest: multiset<T>, rest': multiset<T>, m: T)
    requires all == held + rest && rest == multiset{m} + rest' && held' == held + multiset{m}
    ensures all == held' + rest'
  {
  }

  lemma ReplayPlaces(s: State, worker: nat, readable: bool, luck: Luck)
    requires worker < |s.replays| && s.replays[worker] != []
    ensures var t := ReplayOne(s, worker, readable, luck);
      && t.sent == s.sent && t.replays == s.replays[worker := s.replays[worker][1..]]
      && Held(t) == Held(s) + multiset{s.replays[worker][0]}
  {
    var m := s.replays[worker][0];
    var t := s.(replays := s.replays[worker := s.replays[worker][1..]]);
    if readable { DeliverPlaces(t, m, luck); } else { LoseOne(t, m, Unreadable); }
  }

  lemma ReplayConserves(s: State, worker: nat, readable: bool, luck: Luck)
    requires worker < |s.replays| && s.replays[worker] != [] && Conserved(s)
    ensures Conserved(ReplayOne(s, worker, readable, luck))
  {
    FlattenHead(s.replays, worker);
    ReplayPlaces(s, worker, readable, luck);
    var t := ReplayOne(s, worker, readable, luck);
    Moved(multiset(s.sent), Held(s), Held(t), multiset(Flatten(s.replays)), multiset(Flatten(t.replays)),
      s.replays[worker][0]);
  }

  lemma CrashConserves(s: State)
    requires Conserved(s)
    ensures Conserved(Next(s, Crash))
  {
    LostAppend(s.lost, Flatten(s.replays), CrashDuringReplay);
  }

  lemma StepConserves(s: State, a: Step)
    requires Enabled(s, a) && Conserved(s)
    ensures Conserved(Next(s, a))
  {
    match a {
      case Send(m, luck) => SendConserves(s, m, luck);
      case PopAll(commits, read) => DrainConserves(s, commits, read);
      case Replay(worker, readable, luck) => ReplayConserves(s, worker, readable, luck);
      case Crash => CrashConserves(s);
      case _ => assert Held(Next(s, a)) == Held(s);
    }
  }

  lemma EphemeralSeparates(s: State, m: Msg, write: bool)
    requires m.ephemeral && Separate(s)
    ensures Separate(Next(s, SendEphemeral(m, write)))
  {
  }

  lemma EphemeralStep(s: State, m: Msg, write: bool)
    requires m.ephemeral && Conserved(s) && Separate(s)
    ensures var t := StepEphemeral(s, m, write); Conserved(t) && Separate(t)
  {
    EphemeralSeparates(s, m, write);
    assert Held(StepEphemeral(s, m, write)) == Held(s);
  }

  lemma CrashStep(s: State)
    requires Conserved(s) && Separate(s)
    ensures var t := Next(s, Crash);
      Conserved(t) && Separate(t) && LostMessages(t.lost) == LostMessages(s.lost) + Flatten(s.replays)
  {
    CrashConserves(s);
    LostAppend(s.lost, Flatten(s.replays), CrashDuringReplay);
  }

  lemma StepSeparates(s: State, a: Step)
    requires Enabled(s, a) && Separate(s)
    ensures Separate(Next(s, a))
  {
    var t := Next(s, a);
    if a.SendEphemeral? {
      EphemeralSeparates(s, a.m, a.write);
    } else {
      assert t.metrics == s.metrics && t.metricsWritten == s.metricsWritten && t.metricsDropped == s.metricsDropped;
      assert t.sent == if a.Send? then s.sent + [a.m] else s.sent;
    }
  }

  function Initial(conn: Conn, hasQueue: bool): State { State(conn, hasQueue, [], [], [], [], [], [], [], []) }

  ghost predicate Reachable(s: State, steps: seq<Step>, from: State)
    decreases |steps|
  {
    if steps == [] then s == from
    else Enabled(from, steps[0]) && Reachable(s, steps[1..], Next(from, steps[0]))
  }

  /** In every reachable state each message given to send is in exactly one place: written, in the
      outbox, popped and awaiting replay, or lost to a named cause; ephemeral ones never get there. */
  lemma {:induction false} MessagesConserved(s: State, steps: seq<Step>, from: State)
    requires Conserved(from) && Separate(from) && Reachable(s, steps, from)
    ensures Conserved(s) && Separate(s)
    decreases |steps|
  {
    if steps != [] {
      StepConserves(from, steps[0]);
      StepSeparates(from, steps[0]);
      MessagesConserved(s, steps[1..], Next(from, steps[0]));
    }
  }

  lemma ExactlyOnePlace(s: State, steps: seq<Step>, conn: Conn, hasQueue: bool, m: Msg)
    requires Reachable(s, steps, Initial(conn, hasQueue))
    ensures multiset(s.written)[m] + multiset(s.outbox)[m] + multiset(Flatten(s.replays))[m]
      + multiset(LostMessages(s.lost))[m]
         == multiset(s.sent)[m]
    ensures m.ephemeral ==> m !in s.outbox && m !in Flatten(s.replays)
  {
    MessagesConserved(s, steps, Initial(conn, hasQueue));
    if m.ephemeral { assert multiset(s.sent)[m] == 0; }
  }

  // ----- When nothing is lost -----

  // send writes the message or queues it.
  predicate Saves(s: State, luck: Luck) {
    (s.conn.Live? && luck.write) || (s.conn.Down? && s.hasQueue && luck.push)
  }

  predicate Harmless(s: State, a: Step)
    requires Enabled(s, a)
  {
    match a
    case Send(_, luck) => Saves(s, luck)
    case Replay(_, readable, luck) => readable && Saves(s, luck)
    case PopAll(commits, read) => commits && read > 0 ==> read == |s.outbox|
    case Crash => forall i | 0 <= i < |s.replays| :: s.replays[i] == []
    case _ => true
  }

  // Every step of the run is harmless where it is taken.
  ghost predicate AllHarmless(steps: seq<Step>, from: State)
    decreases |steps|
  {
    steps != [] && Enabled(from, steps[0]) ==> Harmless(from, steps[0]) && AllHarmless(steps[1..], Next(from, steps[0]))
  }

  lemma {:induction false} FlattenEmpty(replays: seq<seq<Msg>>)
    ensures Flatten(replays) == [] <==> forall i | 0 <= i < |replays| :: replays[i] == []
  {
    if replays != [] {
      FlattenEmpty(replays[1..]);
      assert forall i | 1 <= i < |replays| :: replays[i] == replays[1..][i - 1];
      assert forall i | 0 <= i < |replays[1..]| :: replays[1..][i] == replays[i + 1];
    }
  }

  lemma StepLosesIff(s: State, a: Step)
    requires Enabled(s, a)
    ensures s.lost <= Next(s, a).lost && (Next(s, a).lost == s.lost <==> Harmless(s, a))
  {
    if a.Crash? {
      FlattenEmpty(s.replays);
      assert |LostTo(Flatten(s.replays), CrashDuringReplay)| == |Flatten(s.replays)|;
    } else if a.PopAll? && a.commits && a.read > 0 {
      assert |LostTo(s.outbox[a.read..], RowUnread)| == |s.outbox| - a.read;
    }
  }

  /** A run loses nothing if and only if each step is harmless: a message is only sent or replayed
      when it can be written, or queued; PopAll reads all rows or none; and there is no crash while
      messages await replay. */
  lemma {:induction false} NothingLostIff(s: State, steps: seq<Step>, from: State)
    requires Reachable(s, steps, from)
    ensures from.lost <= s.lost && (s.lost == from.lost <==> AllHarmless(steps, from))
    decreases |steps|
  {
    if steps != [] {
      StepLosesIff(from, steps[0]);
      NothingLostIff(s, steps[1..], Next(from, steps[0]));
    }
  }

  // Every write, insert and row decode works.
  predicate Lucky(steps: seq<Step>) {
    forall i | 0 <= i < |steps| ::
      && (steps[i].Send? ==> steps[i].luck == Luck(true, true))
      && (steps[i].Replay? ==> steps[i].luck == Luck(true, true) && steps[i].readable)
  }

  // No message is sent or replayed on a dead connection, no table is emptied half read, and no crash
  // comes while messages await replay.
  ghost predicate Calm(steps: seq<Step>, from: State)
    decreases |steps|
  {
    steps != [] && Enabled(from, steps[0]) ==>
      && (steps[0].Send? || steps[0].Replay? ==> !from.conn.Broken?)
      && (steps[0].PopAll? && steps[0].commits ==> steps[0].read == 0 || steps[0].read == |from.outbox|)
      && (steps[0].Crash? ==> forall i | 0 <= i < |from.replays| :: from.replays[i] == [])
      && Calm(steps[1..], Next(from, steps[0]))
  }

  lemma {:induction false} LuckyHarmless(s: State, steps: seq<Step>, from: State)
    requires Reachable(s, steps, from) && Lucky(steps) && from.hasQueue
    ensures AllHarmless(steps, from) <==> Calm(steps, from)
    decreases |steps|
  {
    if steps != [] { LuckyHarmless(s, steps[1..], Next(from, steps[0])); }
  }

  /** With a queue, and as long as every write, insert and decode works, messages are lost exactly
      through a dead connection, a half-read table, or a crash during a replay. */
  lemma LossExactly(s: State, steps: seq<Step>, conn: Conn)
    requires Reachable(s, steps, Initial(conn, true)) && Lucky(steps)
    ensures s.lost == [] <==> Calm(steps, Initial(conn, true))
  {
    NothingLostIff(s, steps, Initial(conn, true));
    LuckyHarmless(s, steps, Initial(conn, true));
  }

  predicate NoConnectionChange(steps: seq<Step>) {
    forall i | 0 <= i < |steps| :: !steps[i].Dial? && !steps[i].Hangup? && !steps[i].Crash?
  }

  /** The package comment of queue.go says that messages are queued when the connection drops. After
      a read timeout they are not: until the next dial succeeds, however many fail, everything given
      to send is lost, whatever the luck of its writes and inserts. */
  lemma {:induction false} BrokenLosesEverySend(s: State, steps: seq<Step>, from: State)
    requires from.conn.Broken? && NoConnectionChange(steps) && Reachable(s, steps, from)
    ensures s.conn.Broken? && s.written == from.written && (s.outbox == from.outbox || s.outbox == [])
    ensures from.sent <= s.sent && from.lost <= s.lost
    ensures forall i | |from.sent| <= i < |s.sent| :: Loss(s.sent[i], WriteError) in s.lost
    decreases |steps|
  {
    if steps != [] {
      var t := Next(from, steps[0]);
      BrokenLosesEverySend(s, steps[1..], t);
      if steps[0].Send? {
        assert s.sent[|from.sent|] == t.sent[|from.sent|] == steps[0].m;
        assert t.lost[|from.lost|] == Loss(steps[0].m, WriteError) == s.lost[|from.lost|];
      }
    }
  }

  const LUCK: Luck := Luck(true, true)

  /** From the start: connect, let the read time out, send. The message is lost with every write and
      insert working. */
  lemma TimeoutLosesMessage(m: Msg) returns (s: State, steps: seq<Step>)
    requires !m.ephemeral
    ensures steps == [Dial, Break, Send(m, LUCK)] && Lucky(steps)
    ensures Reachable(s, steps, Initial(Down, true)) && s.lost == [Loss(m, WriteError)] && s.outbox == []
  {
    var s0 := Initial(Down, true);
    var s1 := Next(s0, Dial);
    var s2 := Next(s1, Break);
    s := Next(s2, Send(m, LUCK));
    var last: seq<Step> := [Send(m, LUCK)];
    var two: seq<Step> := [Break, Send(m, LUCK)];
    steps := [Dial, Break, Send(m, LUCK)];
    assert last[1..] == [] && two[1..] == last && steps[1..] == two;
    assert Reachable(s, last, s2) && Reachable(s, two, s1);
  }

  /** Two messages queued, one row read: the other one is deleted unread. */
  lemma UnreadRowLost(m: Msg, n: Msg) returns (s: State, steps: seq<Step>)
    requires !m.ephemeral && !n.ephemeral
    ensures steps == [Send(m, LUCK), Send(n, LUCK), PopAll(true, 1)] && Lucky(steps)
    ensures Reachable(s, steps, Initial(Down, true)) && s.lost == [Loss(n, RowUnread)] && s.replays == [[m]]
  {
    var s0 := Initial(Down, true);
    var s1 := Next(s0, Send(m, LUCK));
    var s2 := Next(s1, Send(n, LUCK));
    assert s2.outbox == [m, n] && s2.outbox[..1] == [m] && s2.outbox[1..] == [n];
    s := Next(s2, PopAll(true, 1));
    assert LostTo([n], RowUnread) == [Loss(n, RowUnread)];
    var last: seq<Step> := [PopAll(true, 1)];
    var two: seq<Step> := [Send(n, LUCK), PopAll(true, 1)];
    steps := [Send(m, LUCK), Send(n, LUCK), PopAll(true, 1)];
    assert last[1..] == [] && two[1..] == last && steps[1..] == two;
    assert Reachable(s, last, s2) && Reachable(s, two, s1);
  }

  // ----- processQueue, when nothing else runs in between -----

  predicate Sized(s: State, readable: seq<bool>, luck: seq<Luck>) {
    s.replays != [] && |s.replays[|s.replays| - 1]| == |readable| == |luck|
  }

  // The last batch is replayed to its end.
  function ReplayBatch(s: State, readable: seq<bool>, luck: seq<Luck>): State
    requires Sized(s, readable, luck)
    decreases |luck|
  {
    if luck == [] then s
    else ReplayBatch(ReplayOne(s, |s.replays| - 1, readable[0], luck[0]), readable[1..], luck[1..])
  }

  function Process(s: State, commits: bool, read: nat, readable: seq<bool>, luck: seq<Luck>): State
    requires read <= |s.outbox| && |readable| == |luck| == read
  {
    if !s.hasQueue || !commits || read == 0 then s else ReplayBatch(Drain(s, true, read), readable, luck)
  }

  lemma {:induction false} BatchRuns(s: State, readable: seq<bool>, luck: seq<Luck>) returns (steps: seq<Step>)
    requires Sized(s, readable, luck)
    ensures Reachable(ReplayBatch(s, readable, luck), steps, s)
    decreases |luck|
  {
    if luck == [] {
      steps := [];
    } else {
      var a := Replay(|s.replays| - 1, readable[0], luck[0]);
      var rest := BatchRuns(Next(s, a), readable[1..], luck[1..]);
      steps := [a] + rest;
      assert steps[1..] == rest;
    }
  }

  /** processQueue on its own is a run of the steps above, whatever fails: nothing it pops is
      duplicated or goes missing without a cause. */
  lemma ProcessRuns(s: State, commits: bool, read: nat, readable: seq<bool>, luck: seq<Luck>) returns (steps: seq<Step>)
    requires read <= |s.outbox| && |readable| == |luck| == read
    ensures Reachable(Process(s, commits, read, readable, luck), steps, s)
  {
    if !s.hasQueue || !commits || read == 0 {
      steps := [];
    } else {
      var rest := BatchRuns(Drain(s, true, read), readable, luck);
      steps := [PopAll(true, read)] + rest;
      assert steps[1..] == rest;
    }
  }

  predicate Smooth(readable: seq<bool>, luck: seq<Luck>) {
    (forall i | 0 <= i < |readable| :: readable[i]) && forall i | 0 <= i < |luck| :: luck[i] == Luck(true, true)
  }

  lemma {:induction false} BatchInOrder(s: State, readable: seq<bool>, luck: seq<Luck>)
    requires Sized(s, readable, luck) && Smooth(readable, luck) && s.hasQueue && !s.conn.Broken?
    ensures var ms := s.replays[|s.replays| - 1];
      var done := s.(replays := s.replays[|s.replays| - 1 := []]);
      ReplayBatch(s, readable, luck) == if s.conn.Live? then done.(written := s.written + ms)
        else done.(outbox := s.outbox + ms)
    decreases |luck|
  {
    var worker := |s.replays| - 1;
    var ms := s.replays[worker];
    if ms == [] {
      assert s.replays[worker := []] == s.replays;
      assert s.written + ms == s.written && s.outbox + ms == s.outbox;
    } else {
      var t := ReplayOne(s, worker, readable[0], luck[0]);
      BatchInOrder(t, readable[1..], luck[1..]);
      assert t.replays[worker := []] == s.replays[worker := []];
      assert s.conn.Live? ==> (s.written + [ms[0]]) + ms[1..] == s.written + ms;
      assert s.conn.Down? ==> (s.outbox + [ms[0]]) + ms[1..] == s.outbox + ms;
    }
  }

  /** When nothing fails, the outbox is written in the order it was queued; if the client is offline
      by then, the outbox is put back exactly as it was. */
  lemma ReplayInOrder(s: State, readable: seq<bool>, luck: seq<Luck>)
    requires s.hasQueue && !s.conn.Broken? && |readable| == |luck| == |s.outbox| && Smooth(readable, luck)
    ensures var t := Process(s, true, |s.outbox|, readable, luck);
      && (s.conn.Live? ==> t.written == s.written + s.outbox && t.outbox == [] && t.lost == s.lost)
      && (s.conn.Down? ==> t.written == s.written && t.outbox == s.outbox && t.lost == s.lost)
  {
    if s.outbox != [] {
      var t := Drain(s, true, |s.outbox|);
      BatchInOrder(t, readable, luck);
      assert t.lost == s.lost && t.replays[|t.replays| - 1] == s.outbox;
    }
  }

  lemma ConnectionStep(s: State, c: Conn)
    requires Conserved(s) && Separate(s)
    ensures Conserved(s.(conn := c)) && Separate(s.(conn := c))
  {
  }

  // ----- The methods of the client and of its queue -----

  class Client {
    var conn: Conn
    const hasQueue: bool
    var outbox: seq<Msg>
    var replays: seq<seq<Msg>>
    ghost var sent: seq<Msg>
    ghost var lost: seq<Loss>
    var written: seq<Msg>
    ghost var metrics: seq<Msg>
    var metricsWritten: seq<Msg>
    ghost var metricsDropped: seq<Msg>
    ghost var entered: seq<Msg>   // every row ever inserted into the table, in order
    ghost var left: seq<Msg>      // every row ever deleted from it, in order

    ghost function View(): State
      reads this
    {
      State(conn, hasQueue, sent, written, outbox, replays, lost, metrics, metricsWritten, metricsDropped)
    }

    // The table is a queue: first in, first out.
    ghost predicate Fifo()
      reads this
    {
      entered == left + outbox
    }

    /** No message is duplicated, and none is missing without a cause; ephemeral ones stay apart. */
    ghost predicate Valid()
      reads this
    {
      Fifo() && Conserved(View()) && Separate(View())
    }

    constructor (hasQueue: bool)
      ensures View() == Initial(Down, hasQueue) && Valid()
    {
      this.hasQueue := hasQueue;
      conn, outbox, replays, sent, lost, written := Down, [], [], [], [], [];
      metrics, metricsWritten, metricsDropped, entered, left := [], [], [], [], [];
    }

    /** Queue.Push: the row goes in last, or not at all. */
    method Push(m: Msg, works: bool) returns (ok: bool)
      requires Fifo()
      modifies this`outbox, this`entered
      ensures Fifo() && entered == old(entered) + (if ok then [m] else [])
      ensures ok == works && outbox == old(outbox) + (if ok then [m] else [])
    {
      if works {
        outbox := outbox + [m];
        entered := entered + [m];
      }
      return works;
    }

    /** Queue.PopAll: select and delete in one transaction. The read ends after the given number of
        rows; the rows returned are the first of those that leave the table. */
    method PopRows(commits: bool, read: nat) returns (items: seq<Msg>)
      requires hasQueue && read <= |outbox| && Fifo()
      modifies this`outbox, this`lost, this`left
      ensures Fifo() && old(left) + items <= left && (left != old(left) ==> outbox == [] && items != [])
      ensures items == if commits then old(outbox)[..read] else []
      ensures outbox == Drain(old(View()), commits, read).outbox && lost == Drain(old(View()), commits, read).lost
    {
      if !commits { return []; }
      items := [];
      for i := 0 to read
        invariant items == outbox[..i]
      {
        items := items + [outbox[i]];
      }
      if |items| > 0 {
        lost := lost + LostTo(outbox[read..], RowUnread);
        left := left + outbox;
        outbox := [];
        assert old(outbox)[..read] + old(outbox)[read..] == old(outbox);
        assert (old(left) + items) + old(outbox)[read..] == left;
      }
    }

    /** The body of send, after it has taken the lock: the message ends up in exactly one place. */
    method Transmit(m: Msg, luck: Luck)
      requires Fifo()
      modifies this`outbox, this`written, this`lost, this`entered
      ensures Fifo() && View() == Deliver(old(View()), m, luck)
      ensures Held(View()) == Held(old(View())) + multiset{m}
      ensures lost == old(lost) <==> Saves(old(View()), luck)
    {
      DeliverPlaces(View(), m, luck);
      if conn.Down? {
        if !hasQueue { lost := lost + [Loss(m, NoQueue)]; return; }
        var ok := Push(m, luck.push);
        if !ok { lost := lost + [Loss(m, PushFailed)]; }
        return;
      }
      if conn.Live? && luck.write { written := written + [m]; } else { lost := lost + [Loss(m, WriteError)]; }
    }

    /** send, for a message of its callers: it is lost exactly when it can neither be written nor queued. */
    method SendMessage(m: Msg, luck: Luck)
      requires !m.ephemeral && Valid()
      modifies this
      ensures Valid() && View() == Next(old(View()), Send(m, luck))
      ensures lost == old(lost) <==> Saves(old(View()), luck)
    {
      SendConserves(View(), m, luck);
      StepSeparates(View(), Send(m, luck));
      sent := sent + [m];
      Transmit(m, luck);
    }

    // The body of sendEphemeral, after it has taken the lock.
    method WriteOrDrop(m: Msg, write: bool)
      modifies this`metrics, this`metricsWritten, this`metricsDropped
      ensures View() == StepEphemeral(old(View()), m, write)
    {
      metrics := metrics + [m];
      if conn.Down? { metricsDropped := metricsDropped + [m]; return; }
      if conn.Live? && write { metricsWritten := metricsWritten + [m]; }
      else { metricsDropped := metricsDropped + [m]; }
    }

    /** sendEphemeral: the sample is written or dropped, and neither the queue nor any other message is
        touched. */
    method SendMetrics(m: Msg, write: bool)
      requires m.ephemeral && Valid()
      modifies this`metrics, this`metricsWritten, this`metricsDropped
      ensures Valid() && metrics == old(metrics) + [m]
      ensures write && conn.Live? <==> metricsDropped == old(metricsDropped)
    {
      EphemeralStep(View(), m, write);
      WriteOrDrop(m, write);
    }

    // The body of processQueue's loop: json.Unmarshal, then send.
    method ReplayNext(worker: nat, readable: bool, luck: Luck)
      requires worker < |replays| && replays[worker] != [] && Fifo()
      modifies this
      ensures Fifo() && View() == Next(old(View()), Replay(worker, readable, luck))
    {
      var m := replays[worker][0];
      replays := replays[worker := replays[worker][1..]];
      if !readable { lost := lost + [Loss(m, Unreadable)]; return; }
      Transmit(m, luck);
    }

    method ReplayItems(readable: seq<bool>, luck: seq<Luck>)
      requires Sized(View(), readable, luck) && Fifo()
      modifies this
      ensures Fifo() && View() == ReplayBatch(old(View()), readable, luck)
    {
      var ok, dice := readable, luck;
      while dice != []
        invariant Sized(View(), ok, dice) && Fifo()
        invariant ReplayBatch(View(), ok, dice) == ReplayBatch(old(View()), readable, luck)
        decreases |dice|
      {
        ReplayNext(|replays| - 1, ok[0], dice[0]);
        ok, dice := ok[1..], dice[1..];
      }
    }

    method PopAndReplay(commits: bool, read: nat, readable: seq<bool>, luck: seq<Luck>)
      requires read <= |outbox| && |readable| == |luck| == read && Fifo()
      modifies this
      ensures Fifo() && View() == Process(old(View()), commits, read, readable, luck)
    {
      if !hasQueue { return; }
      var items := PopRows(commits, read);
      if items == [] { return; }
      replays := replays + [items];
      ReplayItems(readable, luck);
    }

    /** processQueue, when nothing else runs in between: whatever fails, every message stays accounted
        for. */
    method ProcessQueue(commits: bool, read: nat, readable: seq<bool>, luck: seq<Luck>)
      requires read <= |outbox| && |readable| == |luck| == read && Valid()
      modifies this
      ensures Valid() && View() == Process(old(View()), commits, read, readable, luck)
    {
      ghost var steps := ProcessRuns(View(), commits, read, readable, luck);
      MessagesConserved(Process(View(), commits, read, readable, luck), steps, View());
      PopAndReplay(commits, read, readable, luck);
    }

    /** Connect after a successful dial: if nothing fails, what was queued is written in its order, and
        the outbox is empty. */
    method Reconnect(commits: bool, read: nat, readable: seq<bool>, luck: seq<Luck>)
      requires read <= |outbox| && |readable| == |luck| == read && Valid()
      modifies this
      ensures Valid() && View() == Process(old(View()).(conn := Live), commits, read, readable, luck)
      ensures hasQueue && commits && read == old(|outbox|) && Smooth(readable, luck) ==>
        written == old(written) + old(outbox) && outbox == [] && lost == old(lost)
    {
      ghost var s := View().(conn := Live);
      conn := Live;
      if hasQueue && read == |outbox| && Smooth(readable, luck) { ReplayInOrder(s, readable, luck); }
      ProcessQueue(commits, read, readable, luck);
    }

    /** The end of the read loop. Only a timeout leaves the dead connection in place. */
    method Disconnect(timeout: bool)
      requires conn.Live? && Valid()
      modifies this`conn
      ensures Valid() && View() == Next(old(View()), if timeout then Break else Hangup)
      ensures forall luck :: Saves(View(), luck) <==> !timeout && hasQueue && luck.push
    {
      ConnectionStep(View(), if timeout then Broken else Down);
      conn := if timeout then Broken else Down;
    }

    method StartOver()
      modifies this`conn, this`lost, this`replays
      ensures View() == Next(old(View()), Crash)
    {
      conn := Down;
      lost := lost + LostTo(Flatten(replays), CrashDuringReplay);
      replays := [];
    }

    /** A new process on the same table: the outbox survives, what awaited replay does not. */
    method Restart()
      requires Valid()
      modifies this`conn, this`lost, this`replays
      ensures Valid() && replays == [] && LostMessages(lost) == old(LostMessages(lost) + Flatten(replays))
    {
      CrashStep(View());
      StartOver();
    }
  }
}
