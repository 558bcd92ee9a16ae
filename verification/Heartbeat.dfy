/** Changing the heartbeat interval while heartbeat loops run (agent/internal/comm/client.go).

    ApplyHeartbeatInterval stores the interval under a mutex and then posts to a channel of one slot,
    dropping the post if the slot is full; a loop takes the post, re-reads the interval under the
    mutex and resets its ticker. Each of these is one step, in any interleaving. A loop leaves when
    the channel c.done it is waiting on has been closed; c.done is replaced at each read error, and a
    loop evaluates it anew each time it enters its select. */
module Heartbeat {

  // Select: waiting, on the done channel of that generation. Woken: about to read the interval.
  datatype Phase = Select(watching: nat) | Woken | Holding(seconds: int) | Sending

  // ticker is 0 until the loop has made its ticker.
  datatype Loop = Loop(ticker: int, phase: Phase)

  datatype State = State(
    current: int,      // currentHeartbeatSec
    pending: bool,     // heartbeatReset holds a post
    updaters: nat,     // calls that have stored an interval but not posted yet
    loops: seq<Loop>,
    done: nat,         // generation of c.done: earlier ones are closed
    online: bool)      // the read loop is running

  datatype Step =
    | Set(seconds: int)
    | Post
    | Receive(i: nat)
    | Read(i: nat)
    | Reset(i: nat)
    | Tick(i: nat)
    | Sent(i: nat)
    | Quit(i: nat)
    | Dial
    | Timeout          // goto reconnect
    | ReadError        // close(c.done), make a new one

  predicate Enabled(s: State, a: Step) {
    match a
    case Set(seconds) => seconds > 0
    case Post => s.updaters > 0
    case Receive(i) => i < |s.loops| && s.loops[i].phase.Select? && s.pending
    case Read(i) => i < |s.loops| && s.loops[i].phase.Woken?
    case Reset(i) => i < |s.loops| && s.loops[i].phase.Holding?
    case Tick(i) => i < |s.loops| && s.loops[i].phase.Select?
    case Sent(i) => i < |s.loops| && s.loops[i].phase.Sending?
    case Quit(i) => i < |s.loops| && s.loops[i].phase.Select? && s.loops[i].phase.watching < s.done
    case Dial => !s.online
    case Timeout => s.online
    case ReadError => s.online
  }

  function Next(s: State, a: Step): State
    requires Enabled(s, a)
  {
    match a
    case Set(seconds) => s.(current := seconds, updaters := s.updaters + 1)
    case Post => s.(pending := true, updaters := s.updaters - 1)
    case Receive(i) => s.(pending := false, loops := s.loops[i := s.loops[i].(phase := Woken)])
    case Read(i) => s.(loops := s.loops[i := s.loops[i].(phase := Holding(s.current))])
    case Reset(i) =>
      var seconds := s.loops[i].phase.seconds;
      s.(loops := s.loops[i := Loop(if seconds > 0 then seconds else s.loops[i].ticker, Select(s.done))])
    case Tick(i) => s.(loops := s.loops[i := s.loops[i].(phase := Sending)])
    case Sent(i) => s.(loops := s.loops[i := s.loops[i].(phase := Select(s.done))])
    case Quit(i) => s.(loops := s.loops[..i] + s.loops[i + 1..])
    case Dial => s.(online := true, loops := s.loops + [Loop(0, Woken)])
    case Timeout => s.(online := false)
    case ReadError => s.(online := false, done := s.done + 1)
  }

  function Initial(seconds: int): State { State(seconds, false, 0, [], 0, false) }

  ghost predicate Run(s: State, steps: seq<Step>, from: State)
    decreases |steps|
  {
    if steps == [] then s == from
    else Enabled(from, steps[0]) && Run(s, steps[1..], Next(from, steps[0]))
  }

  // A new connection is only made when no loop of an earlier one is left.
  ghost predicate OneAtATime(steps: seq<Step>, from: State)
    decreases |steps|
  {
    steps != [] && Enabled(from, steps[0]) ==>
      (steps[0].Dial? ==> from.loops == []) && OneAtATime(steps[1..], Next(from, steps[0]))
  }

  // No update and no re-read is under way and the channel is empty.
  predicate Quiet(s: State) {
    && s.updaters == 0 && !s.pending
    && forall i | 0 <= i < |s.loops| :: s.loops[i].phase.Select? || s.loops[i].phase.Sending?
  }

  predicate UpToDate(s: State) { forall i | 0 <= i < |s.loops| :: s.loops[i].ticker == s.current }

  // ----- One loop: no update is lost -----

  predicate Fresh(l: Loop, current: int) {
    match l.phase
    case Woken => true
    case Holding(seconds) => seconds == current
    case _ => l.ticker == current
  }

  // An interval that nobody is about to post and that is not posted has reached the loop.
  predicate Delivered(s: State) {
    && s.current > 0 && |s.loops| <= 1
    && (s.updaters == 0 && !s.pending && s.loops != [] ==> Fresh(s.loops[0], s.current))
  }

  lemma StepDelivers(s: State, a: Step)
    requires Delivered(s) && Enabled(s, a) && (a.Dial? ==> s.loops == [])
    ensures Delivered(Next(s, a))
  {
  }

  /** While loops do not overlap, whenever nothing is under way the ticker has the last interval
      requested, in every interleaving. */
  lemma {:induction false} NoLostUpdate(s: State, steps: seq<Step>, from: State)
    requires Delivered(from) && Run(s, steps, from) && OneAtATime(steps, from)
    ensures Delivered(s) && (Quiet(s) ==> UpToDate(s))
    decreases |steps|
  {
    if steps != [] {
      StepDelivers(from, steps[0]);
      NoLostUpdate(s, steps[1..], Next(from, steps[0]));
    }
  }

  // Steps that remain until everything is quiet, if no more updates come.
  function Work(s: State): nat
    requires |s.loops| == 1
  {
    4 * s.updaters + (if s.pending then 3 else 0) +
    match s.loops[0].phase { case Woken => 2 case Holding(_) => 1 case Sending => 1 case Select(_) => 0 }
  }

  /** A requested interval does reach the ticker: with one loop, a quiet state with the interval in
      force can always be reached. */
  lemma {:induction false} Settles(s: State) returns (end: State, steps: seq<Step>)
    requires Delivered(s) && |s.loops| == 1
    ensures Run(end, steps, s) && Quiet(end) && |end.loops| == 1 && end.loops[0].ticker == end.current == s.current
    decreases Work(s)
  {
    if Quiet(s) {
      end, steps := s, [];
    } else {
      var a := if s.updaters > 0 then Post else match s.loops[0].phase
        case Woken => Read(0)
        case Holding(_) => Reset(0)
        case Sending => Sent(0)
        case Select(_) => Receive(0);
      StepDelivers(s, a);
      var rest;
      end, rest := Settles(Next(s, a));
      steps := [a] + rest;
      assert steps[1..] == rest;
    }
  }

  // ----- Two loops: an update can be lost -----

  predicate NoDial(steps: seq<Step>) { forall i | 0 <= i < |steps| :: !steps[i].Dial? }

  lemma {:induction false} NoDialIsOneAtATime(steps: seq<Step>, from: State)
    requires NoDial(steps)
    ensures OneAtATime(steps, from)
    decreases |steps|
  {
    if steps != [] && Enabled(from, steps[0]) {
      NoDialIsOneAtATime(steps[1..], Next(from, steps[0]));
    }
  }

  lemma {:induction false} RunThen(s: State, steps: seq<Step>, from: State, a: Step)
    requires Run(s, steps, from) && Enabled(s, a)
    ensures Run(Next(s, a), steps + [a], from)
    decreases |steps|
  {
    if steps == [] {
      assert [a][1..] == [];
    } else {
      assert (steps + [a])[1..] == steps[1..] + [a];
      RunThen(s, steps[1..], Next(from, steps[0]), a);
    }
  }

  // A run from there, without new loops, at whose end nothing is under way but a ticker is wrong.
  ghost predicate Loses(from: State, s: State, steps: seq<Step>) {
    NoDial(steps) && Run(s, steps, from) && Quiet(s) && !UpToDate(s)
  }

  // Loop 0 takes the post that loop 1 needs.
  lemma Stolen(from: State) returns (s: State, steps: seq<Step>)
    requires Quiet(from) && UpToDate(from) && from.current > 0 && |from.loops| >= 2
    ensures Loses(from, s, steps)
  {
    var s0 := from;
    steps := [];
    if from.loops[0].phase.Sending? {
      RunThen(s0, steps, from, Sent(0));
      s0, steps := Next(s0, Sent(0)), steps + [Sent(0)];
    }
    s, steps := StolenFrom(s0, steps, from);
  }

  lemma StolenFrom(s0: State, steps: seq<Step>, from: State) returns (s: State, more: seq<Step>)
    requires Quiet(s0) && UpToDate(s0) && s0.current > 0 && |s0.loops| >= 2 && s0.loops[0].phase.Select?
    requires NoDial(steps) && Run(s0, steps, from)
    ensures Loses(from, s, more)
  {
    var s2, steps2 := Posted(s0, steps, from);
    s, more := TakenByFirst(s2, steps2, from);
    assert s.loops[1] == s0.loops[1];
  }

  lemma Extended(s: State, steps: seq<Step>, from: State, a: Step)
    requires NoDial(steps) && Run(s, steps, from) && Enabled(s, a) && !a.Dial?
    ensures NoDial(steps + [a]) && Run(Next(s, a), steps + [a], from)
  {
    RunThen(s, steps, from, a);
  }

  // The interval changes, and the change is posted.
  lemma Posted(s0: State, steps: seq<Step>, from: State) returns (s: State, more: seq<Step>)
    requires Quiet(s0) && s0.current > 0 && NoDial(steps) && Run(s0, steps, from)
    ensures NoDial(more) && Run(s, more, from) && s == s0.(current := s0.current + 1, pending := true)
  {
    var a := Set(s0.current + 1);
    Extended(s0, steps, from, a);
    Extended(Next(s0, a), steps + [a], from, Post);
    s, more := Next(Next(s0, a), Post), steps + [a] + [Post];
  }

  // Loop 0 receives the post and takes the interval over.
  lemma TakenByFirst(s0: State, steps: seq<Step>, from: State) returns (s: State, more: seq<Step>)
    requires s0.pending && s0.current > 0 && s0.loops != [] && s0.loops[0].phase.Select?
    requires NoDial(steps) && Run(s0, steps, from)
    ensures NoDial(more) && Run(s, more, from)
    ensures s == s0.(pending := false, loops := s0.loops[0 := Loop(s0.current, Select(s0.done))])
  {
    Extended(s0, steps, from, Receive(0));
    var s1 := Next(s0, Receive(0));
    Extended(s1, steps + [Receive(0)], from, Read(0));
    var s2 := Next(s1, Read(0));
    Extended(s2, steps + [Receive(0)] + [Read(0)], from, Reset(0));
    s, more := Next(s2, Reset(0)), steps + [Receive(0)] + [Read(0)] + [Reset(0)];
  }

  lemma OneLoopLosesNothing(from: State, s: State, steps: seq<Step>)
    requires Delivered(from)
    ensures !Loses(from, s, steps)
  {
    if Loses(from, s, steps) {
      NoDialIsOneAtATime(steps, from);
      NoLostUpdate(s, steps, from);
    }
  }

  /** From a quiet, up-to-date state, and as long as no further loop is started, some interleaving
      loses an update exactly when more than one loop is running. */
  lemma LossIffTwoLoops(from: State)
    requires Quiet(from) && UpToDate(from) && from.current > 0
    ensures (exists s, steps :: Loses(from, s, steps)) <==> |from.loops| >= 2
  {
    if |from.loops| >= 2 {
      var s, steps := Stolen(from);
    } else {
      forall s, steps ensures !Loses(from, s, steps) { OneLoopLosesNothing(from, s, steps); }
    }
  }

  // The first connection, and its loop's first ticker.
  lemma FirstLoop(seconds: int) returns (s: State, steps: seq<Step>)
    requires seconds > 0
    ensures s == State(seconds, false, 0, [Loop(seconds, Select(0))], 0, true)
    ensures steps == [Dial, Read(0), Reset(0)] && Run(s, steps, Initial(seconds))
  {
    var s0 := Initial(seconds);
    var s1 := Next(s0, Dial);
    var s2 := Next(s1, Read(0));
    s := Next(s2, Reset(0));
    RunThen(s0, [], s0, Dial);
    RunThen(s1, [Dial], s0, Read(0));
    RunThen(s2, [Dial, Read(0)], s0, Reset(0));
    steps := [Dial] + [Read(0)] + [Reset(0)];
  }

  lemma Redial(s: State, steps: seq<Step>, from: State) returns (t: State, more: seq<Step>)
    requires Run(s, steps, from) && !s.online && s.current > 0
    ensures Run(t, more, from) && more == steps + [Dial, Read(|s.loops|), Reset(|s.loops|)]
    ensures t == s.(online := true, loops := s.loops + [Loop(s.current, Select(s.done))])
  {
    var n := |s.loops|;
    var s1 := Next(s, Dial);
    var s2 := Next(s1, Read(n));
    t := Next(s2, Reset(n));
    RunThen(s, steps, from, Dial);
    RunThen(s1, steps + [Dial], from, Read(n));
    RunThen(s2, steps + [Dial] + [Read(n)], from, Reset(n));
    more := steps + [Dial] + [Read(n)] + [Reset(n)];
    assert t.loops == s.loops + [Loop(s.current, Select(s.done))];
  }

  /** The reconnect after a read timeout does not close c.done, so it leaves the old loop running
      beside the new one, and from there an update can be lost. */
  lemma TimeoutLosesUpdate(seconds: int) returns (s: State, steps: seq<Step>)
    requires seconds > 0
    ensures Run(s, steps, Initial(seconds)) && Quiet(s) && UpToDate(s) && s.online && |s.loops| == 2 && s.done == 0
    ensures exists t, more :: Loses(s, t, more)
  {
    var first, start := FirstLoop(seconds);
    RunThen(first, start, Initial(seconds), Timeout);
    s, steps := Redial(Next(first, Timeout), start + [Timeout], Initial(seconds));
    LossIffTwoLoops(s);
  }

  /** So can the reconnect after a read error: a loop that is sending a heartbeat while c.done is
      closed and replaced waits on the new channel, and does not leave. */
  lemma BusyLoopSurvives(seconds: int) returns (s: State, steps: seq<Step>)
    requires seconds > 0
    ensures Run(s, steps, Initial(seconds)) && Quiet(s) && UpToDate(s) && s.online && |s.loops| == 2
    ensures forall i | 0 <= i < |s.loops| :: !Enabled(s, Quit(i))
    ensures Timeout !in steps
  {
    var first, start := FirstLoop(seconds);
    var from := Initial(seconds);
    var s1 := Next(first, Tick(0));
    var s2 := Next(s1, ReadError);
    var s3 := Next(s2, Sent(0));
    RunThen(first, start, from, Tick(0));
    RunThen(s1, start + [Tick(0)], from, ReadError);
    RunThen(s2, start + [Tick(0)] + [ReadError], from, Sent(0));
    s, steps := Redial(s3, start + [Tick(0)] + [ReadError] + [Sent(0)], from);
    assert steps == [Dial, Read(0), Reset(0), Tick(0), ReadError, Sent(0), Dial, Read(1), Reset(1)];
  }

  // ----- The methods of the client -----

  class Client {
    var current: int
    var pending: bool
    var updaters: nat
    var loops: seq<Loop>
    var done: nat
    var online: bool

    ghost function View(): State
      reads this
    {
      State(current, pending, updaters, loops, done, online)
    }

    constructor (seconds: int)
      ensures View() == Initial(seconds)
    {
      current, pending, updaters, loops, done, online := seconds, false, 0, [], 0, false;
    }

    // The part under heartbeatMu.
    method Store(seconds: int)
      requires seconds > 0
      modifies this
      ensures View() == Next(old(View()), Set(seconds))
    {
      current := seconds;
      updaters := updaters + 1;
    }

    // The select with a default branch.
    method PostReset()
      requires updaters > 0
      modifies this
      ensures View() == Next(old(View()), Post)
    {
      if !pending { pending := true; }
      updaters := updaters - 1;
    }

    /** ApplyHeartbeatInterval, uninterrupted: a single loop is left up to date, or with a post to read. */
    method ApplyHeartbeatInterval(seconds: int)
      modifies this
      ensures Delivered(old(View())) ==> Delivered(View())
      ensures View() == if seconds <= 0 then old(View()) else old(View()).(current := seconds, pending := true)
    {
      if seconds <= 0 { return; }
      Store(seconds);
      PostReset();
    }

    method ReRead(i: nat)
      requires Enabled(View(), Read(i))
      modifies this
      ensures View() == Next(old(View()), Read(i))
    {
      loops := loops[i := loops[i].(phase := Holding(current))];
    }

    method ResetTicker(i: nat)
      requires Enabled(View(), Reset(i))
      modifies this
      ensures View() == Next(old(View()), Reset(i))
    {
      var newInterval := loops[i].phase.seconds;
      if newInterval > 0 { loops := loops[i := loops[i].(ticker := newInterval)]; }
      loops := loops[i := loops[i].(phase := Select(done))];
    }

    /** The heartbeatReset branch of the select, uninterrupted: a single loop is left up to date. */
    method HandleReset(i: nat)
      requires Enabled(View(), Receive(i)) && current > 0
      modifies this
      ensures Delivered(old(View())) ==> Delivered(View()) && UpToDate(View())
      ensures View() == old(View()).(pending := false, loops := old(loops)[i := Loop(current, Select(done))])
    {
      pending := false;
      loops := loops[i := loops[i].(phase := Woken)];
      ReRead(i);
      ResetTicker(i);
    }
  }
}
