/** Scan runs among the cancellations that arrive while they go on (agent/internal/scan/engine.go,
    agent/internal/scan/nuclei/runner.go).

    What happens around a run is a `Setting`; its timeline of signals decides at which points the run
    finds its context cancelled, and module ScanRun what it then tells the console. A fallback enters
    Execute a second time: it has a setting of its own, and a context of its own. The class at the end
    is the source's control flow over the real registry; it is shown to emit the same events. */
module ScanEngine {
  import opened Options
  import opened ScanContexts
  import opened ScanRun
  import opened NucleiStream
  import Matcher

  // ----- What happens around a run -----

  // items is what is collected, unless that fails; heeds: the collector looks at the context before
  // it is done, and gives up.
  datatype Collector = Collector(items: Option<seq<Matcher.Item>>, heeds: bool)

  datatype Setting = Setting(
    pressure: Option<string>,      // why the host should not be scanned now
    signals: Timeline,
    sys: Collector,
    throttling: bool,
    baseline: Collector,
    nuclei: Option<Scan>,          // None: the launch fails
    sysRules: seq<Matcher.Rule>,
    baselineRules: seq<Matcher.Rule>)

  datatype World = World(outer: Setting, inner: Setting, nucleiInstalled: bool, matcher: MatchFn)

  // ----- What the run finds, given its contexts and its handle -----

  function DoneAt(s: Setting, c: Contexts, h: nat, k: nat): bool { Done(At(c, s.signals, k), h) }

  function Outcome(c: Collector, done: bool): Collection {
    if done && c.heeds then CollectCancelled
    else if c.items.Some? then Collected(c.items.value) else CollectFailed
  }

  function Seen(s: Setting, c: Contexts, h: nat): Frame {
    Frame((k: nat) => DoneAt(s, c, h, k), Outcome(s.sys, DoneAt(s, c, h, DURING_SYS)), s.throttling,
          Outcome(s.baseline, DoneAt(s, c, h, DURING_BASELINE)), s.sysRules, s.baselineRules)
  }

  function SeenNuclei(s: Setting, c: Contexts, h: nat): NucleiRun {
    match s.nuclei
    case None => LaunchFailed
    case Some(p) =>
      var fs := Received(p);
      Streamed(seq(|fs|, i requires 0 <= i < |fs| => Arrival(fs[i], DoneAt(s, c, h, i))), DoneAt(s, c, h, |fs|))
  }

  // ----- Execute -----

  // Execute of the matcher; the run registers itself first.
  function MatcherExecution(cmd: Command, s: Setting, m: MatchFn, c: Contexts): seq<Event> {
    [Ack(true, "")] +
    if s.pressure.Some? then Paused(s.pressure.value)
    else MatcherRun(cmd, Seen(s, Register(c, cmd.taskId), c.next), m)
  }

  // runNuclei, under the given contexts. A fallback is an Execute of its own after the first signals.
  function NucleiBody(cmd: Command, w: World, c: Contexts, h: nat): seq<Event> {
    if w.nucleiInstalled then NucleiEvents(SeenNuclei(w.outer, c, h))
    else
      var again := MatcherExecution(cmd.(engine := ""), w.inner, w.matcher, Pass(c, w.outer.signals(0)));
      [Step("nuclei", "skipped")] + again
  }

  function Body(cmd: Command, w: World, c: Contexts, h: nat): seq<Event> {
    if w.outer.pressure.Some? then Paused(w.outer.pressure.value)
    else if cmd.engine == "nuclei" then NucleiBody(cmd, w, c, h)
    else MatcherRun(cmd, Seen(w.outer, c, h), w.matcher)
  }

  function Execution(cmd: Command, w: World, c: Contexts): seq<Event> {
    [Ack(true, "")] + Body(cmd, w, Register(c, cmd.taskId), c.next)
  }

  // ----- The run that decides what is reported -----

  // The setting, contexts and handle of the innermost run, and whether it is a nuclei run.
  datatype Deciding = Deciding(setting: Setting, contexts: Contexts, handle: nat, nuclei: bool)

  predicate FallsBack(cmd: Command, w: World) {
    cmd.engine == "nuclei" && w.outer.pressure.None? && !w.nucleiInstalled
  }

  function DecidingRun(cmd: Command, w: World, c: Contexts): Deciding {
    var c0 := Register(c, cmd.taskId);
    if FallsBack(cmd, w) then
      var c1 := Pass(c0, w.outer.signals(0));
      Deciding(w.inner, Register(c1, cmd.taskId), c1.next, false)
    else Deciding(w.outer, c0, c.next, cmd.engine == "nuclei")
  }

  predicate Unpaused(cmd: Command, w: World) {
    w.outer.pressure.None? && (FallsBack(cmd, w) ==> w.inner.pressure.None?)
  }

  // The coverage the run reports.
  function Claim(cmd: Command, w: World, c: Contexts): seq<string> {
    var d := DecidingRun(cmd, w, c);
    if !Unpaused(cmd, w) then []
    else if d.nuclei then
      var run := SeenNuclei(d.setting, d.contexts, d.handle);
      if run.Streamed? && !StreamCancelled(run.arrivals, run.cancelledAtEnd) then ["nuclei"] else []
    else
      var f := Seen(d.setting, d.contexts, d.handle);
      if CancelSeen(cmd, f) then [] else CoveredList(cmd, f)
  }

  lemma MatcherExecutionReports(cmd: Command, s: Setting, m: MatchFn, c: Contexts)
    ensures var es := MatcherExecution(cmd, s, m, c);
      var f := Seen(s, Register(c, cmd.taskId), c.next);
      && WellReported(es)
      && (Stopped(es) <==> s.pressure.None? && CancelSeen(cmd, f))
      && Coverage(es) == (if s.pressure.Some? || CancelSeen(cmd, f) then [] else CoveredList(cmd, f))
      && (Coverage(es) != [] ==> CoverageBacked(es))
  {
    if s.pressure.Some? {
      PausedReports(s.pressure.value);
      PrefixReports([Ack(true, "")], Paused(s.pressure.value));
    } else {
      var f := Seen(s, Register(c, cmd.taskId), c.next);
      MatcherRunReports(cmd, f, m);
      PrefixReports([Ack(true, "")], MatcherRun(cmd, f, m));
    }
  }

  // What is decided by the run's own context.
  predicate SeesCancel(cmd: Command, d: Deciding) {
    if d.nuclei then
      var run := SeenNuclei(d.setting, d.contexts, d.handle);
      run.Streamed? && StreamCancelled(run.arrivals, run.cancelledAtEnd)
    else CancelSeen(cmd, Seen(d.setting, d.contexts, d.handle))
  }

  lemma FallbackClaim(cmd: Command, w: World, c: Contexts)
    requires FallsBack(cmd, w)
    ensures var demoted := cmd.(engine := "");
      var c1 := Pass(Register(c, cmd.taskId), w.outer.signals(0));
      var f := Seen(w.inner, Register(c1, cmd.taskId), c1.next);
      && Claim(cmd, w, c) == (if w.inner.pressure.Some? || CancelSeen(demoted, f) then [] else CoveredList(demoted, f))
      && SeesCancel(cmd, DecidingRun(cmd, w, c)) == CancelSeen(demoted, f)
  {
    var c1 := Pass(Register(c, cmd.taskId), w.outer.signals(0));
    DemotedClaim(cmd, Seen(w.inner, Register(c1, cmd.taskId), c1.next));
  }

  lemma FallbackReports(cmd: Command, w: World, c: Contexts)
    requires FallsBack(cmd, w)
    ensures var es := Execution(cmd, w, c);
      && WellReported(es) && Coverage(es) == Claim(cmd, w, c)
      && (Claim(cmd, w, c) != [] ==> CoverageBacked(es))
      && (Stopped(es) <==> Unpaused(cmd, w) && SeesCancel(cmd, DecidingRun(cmd, w, c)))
  {
    var demoted := cmd.(engine := "");
    var c1 := Pass(Register(c, cmd.taskId), w.outer.signals(0));
    var inner := MatcherExecution(demoted, w.inner, w.matcher, c1);
    assert Execution(cmd, w, c) == [Ack(true, "")] + ([Step("nuclei", "skipped")] + inner);
    MatcherExecutionReports(demoted, w.inner, w.matcher, c1);
    SkippedReports(inner);
    FallbackClaim(cmd, w, c);
  }

  /** Every run emits exactly one final result, as its last event, after batches numbered from 1, and
      reports a cancellation exactly when it sees one. The final result of a matcher run lists the
      categories that were requested, collected and matched, each backed by its batch. */
  lemma EveryRunReports(cmd: Command, w: World, c: Contexts)
    ensures var es := Execution(cmd, w, c);
      && WellReported(es) && Coverage(es) == Claim(cmd, w, c)
      && (Claim(cmd, w, c) != [] && !DecidingRun(cmd, w, c).nuclei ==> CoverageBacked(es))
      && (Stopped(es) <==> Unpaused(cmd, w) && SeesCancel(cmd, DecidingRun(cmd, w, c)))
  {
    var ack := [Ack(true, "")];
    if cmd.engine != "nuclei" {
      MatcherExecutionReports(cmd, w.outer, w.matcher, c);
    } else if w.outer.pressure.Some? {
      PausedReports(w.outer.pressure.value);
      PrefixReports(ack, Paused(w.outer.pressure.value));
    } else if w.nucleiInstalled {
      var run := SeenNuclei(w.outer, Register(c, cmd.taskId), c.next);
      NucleiReports(run);
      PrefixReports(ack, NucleiEvents(run));
    } else {
      FallbackReports(cmd, w, c);
    }
  }

  // ----- What the run reports to have found -----

  // The run's own findings: none if it was paused, those that arrive from nuclei, or the matcher's.
  predicate SendsFindings(rs: seq<Report>, cmd: Command, w: World, c: Contexts) {
    var d := DecidingRun(cmd, w, c);
    var f := Seen(d.setting, d.contexts, d.handle);
    if !Unpaused(cmd, w) then |rs| == 1 && rs[0].findings == []
    else if d.nuclei then NucleiSends(rs, SeenNuclei(d.setting, d.contexts, d.handle))
    else Sends(rs, cmd, f, w.matcher,
               Matched(cmd, "sys_vuln", f.sys, f.sysRules) && !f.done(BEFORE_SYS),
               Matched(cmd, "baseline", f.baseline, f.baselineRules) && !CancelSeen(cmd, f))
  }

  lemma PausedSends(reason: string)
    ensures var rs := Results(Paused(reason)); |rs| == 1 && rs[0].findings == []
  {
    var es := Paused(reason);
    OneResult(es[1], es[2]);
    PrefixReports([es[0]], [es[1], es[2]]);
    assert es == [es[0]] + [es[1], es[2]];
  }

  lemma MatcherExecutionSends(cmd: Command, s: Setting, m: MatchFn, c: Contexts)
    ensures var rs := Results(MatcherExecution(cmd, s, m, c));
      var f := Seen(s, Register(c, cmd.taskId), c.next);
      if s.pressure.Some? then |rs| == 1 && rs[0].findings == []
      else Sends(rs, cmd, f, m, Matched(cmd, "sys_vuln", f.sys, f.sysRules) && !f.done(BEFORE_SYS),
                 Matched(cmd, "baseline", f.baseline, f.baselineRules) && !CancelSeen(cmd, f))
  {
    if s.pressure.Some? {
      PausedSends(s.pressure.value);
      PausedReports(s.pressure.value);
      PrefixReports([Ack(true, "")], Paused(s.pressure.value));
    } else {
      var f := Seen(s, Register(c, cmd.taskId), c.next);
      MatcherRunSends(cmd, f, m);
      MatcherRunReports(cmd, f, m);
      PrefixReports([Ack(true, "")], MatcherRun(cmd, f, m));
    }
  }

  lemma FallbackSends(cmd: Command, w: World, c: Contexts)
    requires FallsBack(cmd, w)
    ensures SendsFindings(Results(Execution(cmd, w, c)), cmd, w, c)
  {
    var demoted := cmd.(engine := "");
    var c1 := Pass(Register(c, cmd.taskId), w.outer.signals(0));
    var inner := MatcherExecution(demoted, w.inner, w.matcher, c1);
    var f := Seen(w.inner, Register(c1, cmd.taskId), c1.next);
    assert Execution(cmd, w, c) == [Ack(true, "")] + ([Step("nuclei", "skipped")] + inner);
    MatcherExecutionSends(demoted, w.inner, w.matcher, c1);
    MatcherExecutionReports(demoted, w.inner, w.matcher, c1);
    PrefixReports([Step("nuclei", "skipped")], inner);
    PrefixReports([Ack(true, "")], [Step("nuclei", "skipped")] + inner);
    DemotedClaim(cmd, f);
  }

  /** Every run sends exactly its findings: the matcher's result for each module that was matched, as
      far as the run came, or a batch for each finding that nuclei delivers before a cancellation. */
  lemma EveryRunSends(cmd: Command, w: World, c: Contexts)
    ensures SendsFindings(Results(Execution(cmd, w, c)), cmd, w, c)
  {
    var ack := [Ack(true, "")];
    if cmd.engine != "nuclei" {
      MatcherExecutionSends(cmd, w.outer, w.matcher, c);
    } else if w.outer.pressure.Some? {
      PausedSends(w.outer.pressure.value);
      PausedReports(w.outer.pressure.value);
      PrefixReports(ack, Paused(w.outer.pressure.value));
    } else if w.nucleiInstalled {
      var run := SeenNuclei(w.outer, Register(c, cmd.taskId), c.next);
      NucleiRunSends(run);
      NucleiReports(run);
      PrefixReports(ack, NucleiEvents(run));
    } else {
      FallbackSends(cmd, w, c);
    }
  }

  // ----- What the run acknowledges -----

  // The run is accepted, and then put off if the host should not be scanned.
  function RunAcks(s: Setting): seq<Event> {
    if s.pressure.Some? then [Ack(true, ""), Ack(false, s.pressure.value)] else [Ack(true, "")]
  }

  lemma PausedAcks(reason: string)
    ensures Acks(Paused(reason)) == [Ack(false, reason)]
  {
    var es := Paused(reason);
    assert es[1..] == [Ack(false, reason), Send([], 1, true, [])];
    assert es[1..][1..] == [Send([], 1, true, [])] && Acks(es[1..][1..]) == [];
  }

  lemma MatcherExecutionAcks(cmd: Command, s: Setting, m: MatchFn, c: Contexts)
    ensures Acks(MatcherExecution(cmd, s, m, c)) == RunAcks(s)
  {
    var ack := [Ack(true, "")];
    assert Acks(ack) == ack;
    if s.pressure.Some? {
      PausedAcks(s.pressure.value);
      AcksAppend(ack, Paused(s.pressure.value));
    } else {
      var f := Seen(s, Register(c, cmd.taskId), c.next);
      MatcherRunNoAcks(cmd, f, m);
      AcksAppend(ack, MatcherRun(cmd, f, m));
    }
  }

  /** Every run is acknowledged once, and a run that is put off a second time with the reason; a fallback
      acknowledges again. */
  lemma AcksExactly(cmd: Command, w: World, c: Contexts)
    ensures Acks(Execution(cmd, w, c)) == RunAcks(w.outer) + (if FallsBack(cmd, w) then RunAcks(w.inner) else [])
  {
    var ack := [Ack(true, "")];
    assert Acks(ack) == ack;
    if cmd.engine != "nuclei" || w.outer.pressure.Some? {
      MatcherExecutionAcks(cmd, w.outer, w.matcher, c);
    } else if w.nucleiInstalled {
      var run := SeenNuclei(w.outer, Register(c, cmd.taskId), c.next);
      NucleiNoAcks(run);
      AcksAppend(ack, NucleiEvents(run));
    } else {
      var c1 := Pass(Register(c, cmd.taskId), w.outer.signals(0));
      var inner := MatcherExecution(cmd.(engine := ""), w.inner, w.matcher, c1);
      MatcherExecutionAcks(cmd.(engine := ""), w.inner, w.matcher, c1);
      assert Acks([Step("nuclei", "skipped")]) == [];
      AcksAppend([Step("nuclei", "skipped")], inner);
      AcksAppend(ack, [Step("nuclei", "skipped")] + inner);
    }
  }

  // ----- When a cancellation stops the run -----

  // The run looks at its context at the k-th point, unless it has been stopped before.
  predicate LooksAt(cmd: Command, d: Deciding, k: nat) {
    if d.nuclei then d.setting.nuclei.Some? && k <= |Received(d.setting.nuclei.value)|
    else
      || (Requested(cmd, "sys_vuln") && (k == BEFORE_SYS || (k == DURING_SYS && d.setting.sys.heeds)))
      || (d.setting.throttling && k == DURING_THROTTLE)
      || (Requested(cmd, "baseline") && (k == BEFORE_BASELINE || (k == DURING_BASELINE && d.setting.baseline.heeds)))
  }

  ghost predicate FindsDone(cmd: Command, d: Deciding) {
    exists k: nat :: LooksAt(cmd, d, k) && DoneAt(d.setting, d.contexts, d.handle, k)
  }

  lemma SeesIffFindsDone(cmd: Command, d: Deciding)
    ensures SeesCancel(cmd, d) <==> FindsDone(cmd, d)
  {
    if d.nuclei {
      var run := SeenNuclei(d.setting, d.contexts, d.handle);
      if d.setting.nuclei.Some? {
        var n := |Received(d.setting.nuclei.value)|;
        if SeesCancel(cmd, d) {
          if run.cancelledAtEnd { assert LooksAt(cmd, d, n); }
          else {
            var i :| 0 <= i < n && run.arrivals[i].cancelled;
            assert LooksAt(cmd, d, i);
          }
        }
        if FindsDone(cmd, d) {
          var k: nat :| LooksAt(cmd, d, k) && DoneAt(d.setting, d.contexts, d.handle, k);
          assert k < n ==> run.arrivals[k].cancelled;
        }
      }
    } else if SeesCancel(cmd, d) {
      MatcherFindsDone(cmd, d);
    }
  }

  lemma MatcherFindsDone(cmd: Command, d: Deciding)
    requires !d.nuclei && SeesCancel(cmd, d)
    ensures FindsDone(cmd, d)
  {
    var f := Seen(d.setting, d.contexts, d.handle);
    if Requested(cmd, "sys_vuln") && f.done(BEFORE_SYS) { assert LooksAt(cmd, d, BEFORE_SYS); }
    else if Requested(cmd, "sys_vuln") && f.sys.CollectCancelled? { assert LooksAt(cmd, d, DURING_SYS); }
    else if f.throttling && f.done(DURING_THROTTLE) { assert LooksAt(cmd, d, DURING_THROTTLE); }
    else if f.done(BEFORE_BASELINE) { assert LooksAt(cmd, d, BEFORE_BASELINE); }
    else { assert LooksAt(cmd, d, DURING_BASELINE); }
  }

  // A signal has hit the run's context, or the root, by the k-th point.
  ghost predicate Struck(d: Deciding, k: nat) {
    exists j: nat, i: nat | j <= k :: Strikes(d.contexts, d.setting.signals, d.handle, j, i)
  }

  lemma DecidingIsFresh(cmd: Command, w: World, c: Contexts)
    requires Sound(c)
    ensures var d := DecidingRun(cmd, w, c);
      && (Done(d.contexts, d.handle) <==> d.contexts.root)
      && (!FallsBack(cmd, w) ==> d.contexts.root == c.root)
  {
    FreshHandle(c, cmd.taskId);
    if FallsBack(cmd, w) {
      PassSound(Register(c, cmd.taskId), w.outer.signals(0));
      FreshHandle(Pass(Register(c, cmd.taskId), w.outer.signals(0)), cmd.taskId);
    }
  }

  /** A run is stopped if and only if a signal hits the context of the run that is under way, or its
      parent, and a point at which the run looks follows; or if the root was cancelled before. */
  lemma StoppedExactly(cmd: Command, w: World, c: Contexts)
    requires Sound(c)
    ensures var d := DecidingRun(cmd, w, c);
      Stopped(Execution(cmd, w, c)) <==>
        Unpaused(cmd, w) && exists k: nat :: LooksAt(cmd, d, k) && (d.contexts.root || Struck(d, k))
  {
    var d := DecidingRun(cmd, w, c);
    EveryRunReports(cmd, w, c);
    SeesIffFindsDone(cmd, d);
    DecidingIsFresh(cmd, w, c);
    forall k: nat ensures DoneAt(d.setting, d.contexts, d.handle, k) <==> d.contexts.root || Struck(d, k) {
      DoneExactly(d.contexts, d.setting.signals, d.handle, k);
    }
  }

  lemma {:induction false} PassRoot(c: Contexts, ss: seq<Signal>)
    ensures Pass(c, ss).root <==> c.root || CancelRoot in ss
  {
    if ss != [] {
      PassRoot(c, ss[..|ss| - 1]);
      assert ss == ss[..|ss| - 1] + [ss[|ss| - 1]];
    }
  }

  /** Of the signals that arrive before a fallback only a cancellation of the root stops the run: a
      scan_cancel has hit the first context, and the second Execute makes a new one. */
  lemma FallbackForgetsCancel(cmd: Command, w: World, c: Contexts)
    requires Sound(c) && FallsBack(cmd, w) && w.inner.pressure.None?
    ensures var d := DecidingRun(cmd, w, c);
      Stopped(Execution(cmd, w, c)) <==>
        exists k: nat :: LooksAt(cmd, d, k) && (c.root || CancelRoot in w.outer.signals(0) || Struck(d, k))
  {
    StoppedExactly(cmd, w, c);
    PassRoot(Register(c, cmd.taskId), w.outer.signals(0));
  }

  /** So a scan_cancel for the task, between its start and its fallback, cancels the context that is
      registered for it, and yet the run goes on to its end. */
  lemma ForgottenCancel(cmd: Command, w: World, c: Contexts)
    requires Sound(c) && !c.root && FallsBack(cmd, w) && w.inner.pressure.None?
    requires w.outer.signals(0) == [CancelTask(cmd.taskId)] && forall k: nat :: w.inner.signals(k) == []
    ensures DoneAt(w.outer, Register(c, cmd.taskId), c.next, 0) && !Stopped(Execution(cmd, w, c))
  {
    var c0 := Register(c, cmd.taskId);
    var ss := w.outer.signals(0);
    assert ss[..0] == [] && Pass(c0, []) == c0;
    assert Pass(c0, ss) == Apply(c0, CancelTask(cmd.taskId));
    FallbackForgetsCancel(cmd, w, c);
  }

  // ----- When the coverage of a nuclei run is earned -----

  function AllFindings(rs: seq<Report>): seq<Matcher.Finding> {
    if rs == [] then [] else rs[0].findings + AllFindings(rs[1..])
  }

  /** The final result names nuclei exactly when nuclei was launched, by a run that was not paused,
      and no cancellation was found; how the process ended plays no part. */
  lemma NucleiClaimedExactly(cmd: Command, w: World, c: Contexts)
    ensures var d := DecidingRun(cmd, w, c);
      WellReported(Execution(cmd, w, c)) &&
      ("nuclei" in Coverage(Execution(cmd, w, c)) <==>
        d.nuclei && Unpaused(cmd, w) && d.setting.nuclei.Some? && !FindsDone(cmd, d))
  {
    var d := DecidingRun(cmd, w, c);
    EveryRunReports(cmd, w, c);
    SeesIffFindsDone(cmd, d);
    NotNuclei(cmd, Seen(d.setting, d.contexts, d.handle));
    assert ["nuclei"][0] == "nuclei";
  }

  lemma NotNuclei(cmd: Command, f: Frame)
    ensures "nuclei" !in CoveredList(cmd, f)
  {
    var l := CoveredList(cmd, f);
    assert forall i | 0 <= i < |l| :: l[i] == "sys_vuln" || l[i] == "baseline";
    assert "sys_vuln"[0] == 's' && "baseline"[0] == 'b' && "nuclei"[0] == 'n';
  }

  lemma {:induction false} StreamFindings(arrivals: seq<Arrival>, fs: seq<Matcher.Finding>, batch: nat)
    requires |arrivals| == |fs| && forall i | 0 <= i < |fs| :: arrivals[i] == Arrival(fs[i], false)
    ensures AllFindings(Results(Stream(arrivals, false, batch))) == Stamp(fs, "nuclei")
  {
    if fs == [] {
      OneResult(Step("nuclei", "done"), Send([], batch, true, ["nuclei"]));
    } else {
      StreamFindings(arrivals[1..], fs[1..], batch + 1);
      var e := Send([fs[0].(category := "nuclei")], batch, false, []);
      var rest := Stream(arrivals[1..], false, batch + 1);
      assert ([e] + rest)[1..] == rest;
      assert Results([e] + rest) == [e.r] + Results(rest);
      assert ([e.r] + Results(rest))[1..] == Results(rest);
      assert Stamp(fs, "nuclei") == [fs[0].(category := "nuclei")] + Stamp(fs[1..], "nuclei");
    }
  }

  // What a nuclei run reports when nobody cancels it.
  lemma NucleiFindings(cmd: Command, w: World, c: Contexts)
    requires var d := DecidingRun(cmd, w, c);
      d.nuclei && Unpaused(cmd, w) && d.setting.nuclei.Some? && !FindsDone(cmd, d)
    ensures AllFindings(Results(Execution(cmd, w, c))) == Stamp(Received(w.outer.nuclei.value), "nuclei")
  {
    var d := DecidingRun(cmd, w, c);
    var run := SeenNuclei(w.outer, d.contexts, d.handle);
    SeesIffFindsDone(cmd, d);
    StreamFindings(run.arrivals, Received(w.outer.nuclei.value), 1);
    StreamReports(run.arrivals, false, 1);
    PrefixReports([Step("nuclei", "running")], Stream(run.arrivals, false, 1));
    PrefixReports([Ack(true, "")], NucleiEvents(run));
  }

  lemma WholeScan(p: Scan)
    ensures Stamp(Received(p), "nuclei") == Stamp(Whole(p), "nuclei") <==> Finished(p)
  {
    ReceivedExactly(p);
    if !Finished(p) {
      assert |Stamp(Received(p), "nuclei")| < |Stamp(Whole(p), "nuclei")|;
    }
  }

  /** A nuclei run whose final result names nuclei has reported every finding of a whole scan if and
      only if the process wrote them all, the reader stopped before none of them and the runner drained
      none. That the process completed is not enough. */
  lemma NucleiEarnedIff(cmd: Command, w: World, c: Contexts)
    requires var d := DecidingRun(cmd, w, c);
      d.nuclei && Unpaused(cmd, w) && d.setting.nuclei.Some? && !FindsDone(cmd, d)
    ensures var p := w.outer.nuclei.value;
      && (AllFindings(Results(Execution(cmd, w, c))) == Stamp(Whole(p), "nuclei") <==> Finished(p))
      && (ScanOk(p) && p.end.Completed? && (forall k | 0 <= k < |p.lines| :: !Cuts(p, k)) && p.taken == {} ==>
            Finished(p))
  {
    NucleiFindings(cmd, w, c);
    WholeScan(w.outer.nuclei.value);
  }

  // A nuclei run with the given process, and no signal at all.
  ghost predicate QuietRun(cmd: Command, w: World, c: Contexts, p: Scan) {
    Sound(c) && !c.root && cmd.engine == "nuclei" && w.nucleiInstalled && w.outer.pressure.None?
    && w.outer.nuclei == Some(p) && forall k: nat :: w.outer.signals(k) == []
  }

  lemma QuietRunReports(cmd: Command, w: World, c: Contexts, p: Scan)
    requires QuietRun(cmd, w, c, p)
    ensures var es := Execution(cmd, w, c);
      WellReported(es) && Coverage(es) == ["nuclei"] && AllFindings(Results(es)) == Stamp(Received(p), "nuclei")
  {
    var d := DecidingRun(cmd, w, c);
    DecidingIsFresh(cmd, w, c);
    forall k: nat ensures !DoneAt(d.setting, d.contexts, d.handle, k) {
      DoneExactly(d.contexts, d.setting.signals, d.handle, k);
    }
    EveryRunReports(cmd, w, c);
    SeesIffFindsDone(cmd, d);
    NucleiFindings(cmd, w, c);
  }

  /** A process that is killed at the time limit, or that fails, before it has written anything yields
      the same report as one that found nothing: nuclei covered, no findings. */
  lemma TimedOutStillClaims(cmd: Command, w: World, c: Contexts, p: Scan)
    requires QuietRun(cmd, w, c, p) && p.lines == [] && p.unwritten != [] && !p.end.Completed?
    ensures var es := Execution(cmd, w, c);
      WellReported(es) && Coverage(es) == ["nuclei"] && AllFindings(Results(es)) == []
  {
    QuietRunReports(cmd, w, c, p);
  }

  /** A process that completes, and whose last finding the reader drops because the limit passes before
      it is read, or because its line is too long, is reported without that finding, as covered too. */
  lemma DroppedLineStillClaims(cmd: Command, w: World, c: Contexts, p: Scan, last: nat)
    requires QuietRun(cmd, w, c, p) && p.end.Completed? && ScanOk(p) && p.taken == {}
    requires |p.lines| == last + 1 && p.lines[last].finding.Some? && Cuts(p, last)
    requires forall j | 0 <= j < last :: !Cuts(p, j)
    ensures var es, rest := Execution(cmd, w, c), FindingsOf(p.lines[..last]);
      && WellReported(es) && Coverage(es) == ["nuclei"]
      && AllFindings(Results(es)) == Stamp(rest, "nuclei") && Whole(p) == rest + [p.lines[last].finding.value]
  {
    QuietRunReports(cmd, w, c, p);
    LastDropped(p, last);
  }

  // ----- The control flow of the source -----

  class Engine {
    var root: bool                  // the root context is cancelled
    var cancelled: set<nat>         // handles whose cancel function has been called
    var cancels: map<string, nat>   // task id -> handle
    var nextHandle: nat
    var trace: seq<Event>           // everything the callbacks of this run were given

    function View(): Contexts reads this { Contexts(root, cancelled, cancels, nextHandle) }

    constructor ()
      ensures View() == Contexts(false, {}, map[], 0) && Sound(View()) && trace == []
    {
      root, cancelled, cancels, nextHandle, trace := false, {}, map[], 0, [];
    }

    /** Cancels what is registered for the task, and nothing else; an unknown task is left alone. */
    method CancelScan(taskId: string)
      modifies this`cancelled
      ensures View() == Apply(old(View()), CancelTask(taskId))
      ensures forall h :: Done(View(), h) <==> Done(old(View()), h) || (taskId in cancels && cancels[taskId] == h)
    {
      if taskId in cancels { cancelled := cancelled + {cancels[taskId]}; }
    }

    // What comes in between two points of a run.
    method Receive(ss: seq<Signal>)
      modifies this`root, this`cancelled, this`cancels, this`nextHandle
      ensures View() == Pass(old(View()), ss)
    {
      for i := 0 to |ss|
        invariant View() == Pass(old(View()), ss[..i])
      {
        assert ss[..i + 1][..i] == ss[..i];
        match ss[i] {
          case CancelTask(t) => CancelScan(t);
          case CancelRoot => root := true;
          case OtherStarts(t) =>
            cancels := cancels[t := nextHandle];
            nextHandle := nextHandle + 1;
          case OtherEnds(t) => cancels := cancels - {t};
        }
      }
      assert ss[..|ss|] == ss;
    }

    method Emit(e: Event)
      modifies this`trace
      ensures trace == old(trace) + [e]
    {
      trace := trace + [e];
    }

    method SendCancelled(batch: nat)
      modifies this`trace
      ensures trace == old(trace) + Cancelled(batch)
    {
      Emit(Step("scan_cancelled", "done"));
      Emit(Send([], batch, true, []));
    }

    /** The run tells the console what is specified, in numbered batches that end with its one final
        result; on return its task id is no longer registered and its context is cancelled. */
    method Execute(cmd: Command, w: World)
      modifies this
      ensures trace == old(trace) + Execution(cmd, w, old(View()))
      ensures WellReported(trace[|old(trace)|..])
      ensures SendsFindings(Results(trace[|old(trace)|..]), cmd, w, old(View()))
      ensures cmd.taskId !in cancels && Done(View(), old(nextHandle))
      decreases if cmd.engine == "nuclei" then 1 else 0, 2
    {
      var handle := nextHandle;
      nextHandle := nextHandle + 1;
      cancels := cancels[cmd.taskId := handle];
      assert View() == Register(old(View()), cmd.taskId);
      Run(cmd, w, handle);
      cancelled := cancelled + {handle};
      cancels := cancels - {cmd.taskId};
      EveryRunReports(cmd, w, old(View()));
      EveryRunSends(cmd, w, old(View()));
      assert trace[|old(trace)|..] == Execution(cmd, w, old(View()));
    }

    method Run(cmd: Command, w: World, handle: nat)
      modifies this
      ensures trace == old(trace) + ([Ack(true, "")] + Body(cmd, w, old(View()), handle))
      decreases if cmd.engine == "nuclei" then 1 else 0, 1
    {
      Chain(trace, [Ack(true, "")], Body(cmd, w, View(), handle));
      Emit(Ack(true, ""));
      if w.outer.pressure.Some? {
        SendPaused(w.outer.pressure.value);
      } else if cmd.engine == "nuclei" {
        RunNuclei(cmd, w, handle);
      } else {
        RunMatcher(cmd, w.outer, w.matcher, handle);
      }
    }

    method SendPaused(reason: string)
      modifies this`trace
      ensures trace == old(trace) + Paused(reason)
    {
      Emit(Step("protect", "paused"));
      Emit(Ack(false, reason));
      Emit(Send([], 1, true, []));
    }

    method RunNuclei(cmd: Command, w: World, handle: nat)
      requires cmd.engine == "nuclei"
      modifies this
      ensures trace == old(trace) + NucleiBody(cmd, w, old(View()), handle)
      decreases 1, 0
    {
      if !w.nucleiInstalled {
        var demoted, again := cmd.(engine := ""), w.(outer := w.inner);
        Chain(trace, [Step("nuclei", "skipped")], Execution(demoted, again, Pass(View(), w.outer.signals(0))));
        Emit(Step("nuclei", "skipped"));
        Receive(w.outer.signals(0));
        Execute(demoted, again);
      } else {
        LaunchNuclei(w.outer, handle);
      }
    }

    method LaunchNuclei(s: Setting, handle: nat)
      modifies this
      ensures trace == old(trace) + NucleiEvents(SeenNuclei(s, old(View()), handle))
    {
      ghost var c := View();
      Emit(Step("nuclei", "running"));
      if s.nuclei.None? {
        Emit(Step("nuclei", "failed"));
        Emit(Send([], 1, true, []));
      } else {
        var passed := ReadLines(s.nuclei.value);
        ReadFindings(s, Untaken(passed, s.nuclei.value.taken), handle);
      }
    }

    // The loop over the findings channel.
    method ReadFindings(s: Setting, findings: seq<Matcher.Finding>, handle: nat)
      requires s.nuclei.Some? && findings == Received(s.nuclei.value)
      modifies this
      ensures var run := SeenNuclei(s, old(View()), handle);
        trace == old(trace) + Stream(run.arrivals, run.cancelledAtEnd, 1)
    {
      ghost var run := SeenNuclei(s, View(), handle);
      var batch := 1;
      for i := 0 to |findings|
        invariant batch == i + 1
        invariant View() == Before(old(View()), s.signals, i)
        invariant old(trace) + Stream(run.arrivals, run.cancelledAtEnd, 1)
               == trace + Stream(run.arrivals[i..], run.cancelledAtEnd, batch)
      {
        assert run.arrivals[i..][1..] == run.arrivals[i + 1..];
        Receive(s.signals(i));
        if root || handle in cancelled {
          SendCancelled(batch);
          return;
        }
        var r := Send([findings[i].(category := "nuclei")], batch, false, []);
        Chain(trace, [r], Stream(run.arrivals[i + 1..], run.cancelledAtEnd, batch + 1));
        Emit(r);
        batch := batch + 1;
      }
      Receive(s.signals(|findings|));
      if root || handle in cancelled {
        SendCancelled(batch);
        return;
      }
      Emit(Step("nuclei", "done"));
      Emit(Send([], batch, true, ["nuclei"]));
    }

    method RunMatcher(cmd: Command, s: Setting, m: MatchFn, handle: nat)
      modifies this
      ensures trace == old(trace) + MatcherRun(cmd, Seen(s, old(View()), handle), m)
    {
      ghost var c := View();
      RunsAfter(cmd, Seen(s, c, handle), m, trace);
      var batch, scanned := 1, [];
      var ended: bool;
      ended, batch, scanned := CollectSysVuln(cmd, s, m, handle, batch, scanned);
      if ended { return; }
      ended := Throttle(s, handle, batch, scanned, c);
      if ended { return; }
      ended, batch, scanned := CollectBaseline(cmd, s, m, handle, batch, scanned, c);
      if ended { return; }
      Emit(Step("report", "done"));
      Emit(Send([], batch, true, scanned));
    }

    method CollectSysVuln(cmd: Command, s: Setting, m: MatchFn, handle: nat, batch0: nat, scanned0: seq<string>)
      returns (ended: bool, batch: nat, scanned: seq<string>)
      modifies this
      ensures SysPhase(cmd, Seen(s, old(View()), handle), m, Running(old(trace), batch0, scanned0))
           == if ended then Ended(trace) else Running(trace, batch, scanned)
      ensures !ended ==> View() == At(old(View()), s.signals, DURING_SYS)
    {
      ended, batch, scanned := false, batch0, scanned0;
      Receive(s.signals(BEFORE_SYS));
      if Requested(cmd, "sys_vuln") {
        if root || handle in cancelled { SendCancelled(batch); ended := true; return; }
        Emit(Step("collect_packages", "running"));
        Receive(s.signals(DURING_SYS));
        var sys := Outcome(s.sys, root || handle in cancelled);
        if sys.CollectCancelled? { SendCancelled(batch); ended := true; return; }
        if sys.CollectFailed? {
          Emit(Step("collect_packages", "failed"));
        } else {
          batch, scanned := MatchPackages(sys.items, Rules(cmd, s.sysRules), m, batch, scanned);
        }
      } else {
        Receive(s.signals(DURING_SYS));
      }
    }

    // The collector has returned.
    method MatchPackages(items: seq<Matcher.Item>, rules: seq<Matcher.Rule>, m: MatchFn, batch0: nat,
        scanned0: seq<string>)
      returns (batch: nat, scanned: seq<string>)
      modifies this`trace
      ensures var r := Running(old(trace), batch0, scanned0).Emit([Step("collect_packages", "done")]);
        Running(trace, batch, scanned) ==
          if rules == [] then r
          else r.Emit([Step("match_cve", "running"), Step("match_cve", "done")]).Batch(m(items, rules), "sys_vuln")
    {
      batch, scanned := batch0, scanned0;
      Emit(Step("collect_packages", "done"));
      if |rules| > 0 {
        Emit(Step("match_cve", "running"));
        var findings := Stamp(m(items, rules), "sys_vuln");
        Emit(Step("match_cve", "done"));
        Emit(Send(findings, batch, false, []));
        batch := batch + 1;
        scanned := scanned + ["sys_vuln"];
      }
    }

    method Throttle(s: Setting, handle: nat, batch: nat, scanned: seq<string>, ghost c: Contexts) returns (ended: bool)
      requires View() == At(c, s.signals, DURING_SYS)
      modifies this
      ensures ThrottlePhase(Seen(s, c, handle), Running(old(trace), batch, scanned))
           == if ended then Ended(trace) else Running(trace, batch, scanned)
      ensures View() == At(c, s.signals, DURING_THROTTLE)
    {
      ended := false;
      Receive(s.signals(DURING_THROTTLE));
      if s.throttling {
        Emit(Step("throttle", "running"));
        if root || handle in cancelled { SendCancelled(batch); ended := true; }
      }
    }

    method CollectBaseline(cmd: Command, s: Setting, m: MatchFn, handle: nat, batch0: nat, scanned0: seq<string>,
                           ghost c: Contexts)
      returns (ended: bool, batch: nat, scanned: seq<string>)
      requires View() == At(c, s.signals, DURING_THROTTLE)
      modifies this
      ensures BaselinePhase(cmd, Seen(s, c, handle), m, Running(old(trace), batch0, scanned0))
           == if ended then Ended(trace) else Running(trace, batch, scanned)
    {
      ended, batch, scanned := false, batch0, scanned0;
      Receive(s.signals(BEFORE_BASELINE));
      if Requested(cmd, "baseline") {
        if root || handle in cancelled { SendCancelled(batch); ended := true; return; }
        Emit(Step("baseline_check", "running"));
        Receive(s.signals(DURING_BASELINE));
        var baseline := Outcome(s.baseline, root || handle in cancelled);
        if baseline.CollectCancelled? { SendCancelled(batch); ended := true; return; }
        if baseline.CollectFailed? {
          Emit(Step("baseline_check", "failed"));
        } else {
          var rules := Rules(cmd, s.baselineRules);
          if |rules| > 0 {
            Emit(Send(Stamp(m(baseline.items, rules), "baseline"), batch, false, []));
            batch := batch + 1;
            scanned := scanned + ["baseline"];
          }
          Emit(Step("baseline_check", "done"));
        }
      }
    }
  }
}
