/** The events of one scan run (agent/internal/scan/engine.go), from what the run finds on its way.

    The matcher run is built from phases, the nuclei run from the findings as they arrive. What the
    surroundings decide is in the `Frame` and the `NucleiRun`; in particular they say at which points
    the run finds its context cancelled. Module ScanEngine says how that comes about. */
module ScanRun {
  import opened Matcher

  // ----- What a run is given -----

  datatype Command = Command(taskId: string, modules: seq<string>, rules: seq<Rule>, engine: string)

  type MatchFn = (seq<Item>, seq<Rule>) -> seq<Finding>

  // How a collector returns; CollectCancelled is context.Canceled.
  datatype Collection = Collected(items: seq<Item>) | CollectCancelled | CollectFailed

  // One finding read from the nuclei process, and whether the context was cancelled by then.
  datatype Arrival = Arrival(finding: Finding, cancelled: bool)

  datatype NucleiRun = LaunchFailed | Streamed(arrivals: seq<Arrival>, cancelledAtEnd: bool)

  // Points at which the matcher run looks at its context. The collectors look while they work.
  const BEFORE_SYS: nat := 0
  const DURING_SYS: nat := 1
  const DURING_THROTTLE: nat := 2
  const BEFORE_BASELINE: nat := 3
  const DURING_BASELINE: nat := 4

  datatype Frame = Frame(
    done: nat -> bool,             // the context is cancelled at that point
    sys: Collection,
    throttling: bool,
    baseline: Collection,
    sysRules: seq<Rule>,           // the cached rules when the phase asks for them
    baselineRules: seq<Rule>)

  // ----- What a run emits -----

  datatype Event =
    | Ack(accepted: bool, reason: string)
    | Step(step: string, status: string)
    | Result(r: Report)

  // One call of OnResult.
  datatype Report = Report(findings: seq<Finding>, batch: nat, final: bool, categories: seq<string>)

  function Send(findings: seq<Finding>, batch: nat, final: bool, categories: seq<string>): Event {
    Result(Report(findings, batch, final, categories))
  }

  const CANCELLED: Event := Step("scan_cancelled", "done")

  function Cancelled(batch: nat): seq<Event> { [CANCELLED, Send([], batch, true, [])] }

  // The run reports that it was cancelled.
  predicate Stopped(es: seq<Event>) { exists i | 0 <= i < |es| :: es[i] == CANCELLED }

  function Stamp(findings: seq<Finding>, category: string): seq<Finding> {
    seq(|findings|, i requires 0 <= i < |findings| => findings[i].(category := category))
  }

  predicate Requested(cmd: Command, category: string) {
    if cmd.modules == [] then category == "sys_vuln" || category == "baseline" else category in cmd.modules
  }

  // Rules on the command go before cached ones.
  function Rules(cmd: Command, cached: seq<Rule>): seq<Rule> { if cmd.rules != [] then cmd.rules else cached }

  // ----- The matcher run, phase by phase -----

  datatype Progress =
    | Running(out: seq<Event>, batch: nat, scanned: seq<string>)
    | Ended(out: seq<Event>)
  {
    function Emit(events: seq<Event>): Progress
      requires Running?
    {
      this.(out := out + events)
    }

    function Cancel(): Progress
      requires Running?
    {
      Ended(out + Cancelled(batch))
    }

    // A batch of findings, and the category counts as scanned.
    function Batch(findings: seq<Finding>, category: string): Progress
      requires Running?
    {
      Running(out + [Send(Stamp(findings, category), batch, false, [])], batch + 1, scanned + [category])
    }
  }

  function SysPhase(cmd: Command, f: Frame, m: MatchFn, p: Progress): Progress {
    if p.Ended? || !Requested(cmd, "sys_vuln") then p
    else if f.done(BEFORE_SYS) then p.Cancel()
    else
      var q := p.Emit([Step("collect_packages", "running")]);
      match f.sys
      case CollectCancelled => q.Cancel()
      case CollectFailed => q.Emit([Step("collect_packages", "failed")])
      case Collected(items) =>
        var r := q.Emit([Step("collect_packages", "done")]);
        if Rules(cmd, f.sysRules) == [] then r
        else
          r.Emit([Step("match_cve", "running"), Step("match_cve", "done")])
           .Batch(m(items, Rules(cmd, f.sysRules)), "sys_vuln")
  }

  function ThrottlePhase(f: Frame, p: Progress): Progress {
    if p.Ended? || !f.throttling then p
    else
      var q := p.Emit([Step("throttle", "running")]);
      if f.done(DURING_THROTTLE) then q.Cancel() else q
  }

  function BaselinePhase(cmd: Command, f: Frame, m: MatchFn, p: Progress): Progress {
    if p.Ended? || !Requested(cmd, "baseline") then p
    else if f.done(BEFORE_BASELINE) then p.Cancel()
    else
      var q := p.Emit([Step("baseline_check", "running")]);
      match f.baseline
      case CollectCancelled => q.Cancel()
      case CollectFailed => q.Emit([Step("baseline_check", "failed")])
      case Collected(items) =>
        var r := if Rules(cmd, f.baselineRules) == [] then q
          else q.Batch(m(items, Rules(cmd, f.baselineRules)), "baseline");
        r.Emit([Step("baseline_check", "done")])
  }

  function Close(p: Progress): seq<Event> {
    match p
    case Ended(out) => out
    case Running(out, batch, scanned) => out + [Step("report", "done"), Send([], batch, true, scanned)]
  }

  function MatcherRun(cmd: Command, f: Frame, m: MatchFn): seq<Event> {
    Close(BaselinePhase(cmd, f, m, ThrottlePhase(f, SysPhase(cmd, f, m, Running([], 1, [])))))
  }

  // ----- The nuclei run -----

  function Stream(arrivals: seq<Arrival>, cancelledAtEnd: bool, batch: nat): seq<Event> {
    if arrivals == [] then
      if cancelledAtEnd then Cancelled(batch)
      else [Step("nuclei", "done"), Send([], batch, true, ["nuclei"])]
    else if arrivals[0].cancelled then Cancelled(batch)
    else
      [Send([arrivals[0].finding.(category := "nuclei")], batch, false, [])]
      + Stream(arrivals[1..], cancelledAtEnd, batch + 1)
  }

  function NucleiEvents(run: NucleiRun): seq<Event> {
    [Step("nuclei", "running")] +
    match run
    case LaunchFailed => [Step("nuclei", "failed"), Send([], 1, true, [])]
    case Streamed(arrivals, cancelledAtEnd) => Stream(arrivals, cancelledAtEnd, 1)
  }

  // The host is under pressure.
  function Paused(reason: string): seq<Event> {
    [Step("protect", "paused"), Ack(false, reason), Send([], 1, true, [])]
  }

  // ----- What the console may rely on -----

  function Results(es: seq<Event>): seq<Report> {
    if es == [] then []
    else if es[0].Result? then [es[0].r] + Results(es[1..])
    else Results(es[1..])
  }

  // Batches numbered from `first`, none of them final.
  predicate Numbered(rs: seq<Report>, first: nat)
  {
    forall i | 0 <= i < |rs| :: rs[i].batch == first + i && !rs[i].final && rs[i].categories == []
  }

  // Results rs from batch `first` on: all but the last are plain batches, the last is final.
  predicate Reports(rs: seq<Report>, first: nat)
  {
    && rs != []
    && Numbered(rs[..|rs| - 1], first)
    && rs[|rs| - 1].batch == first + |rs| - 1 && rs[|rs| - 1].final
  }

  // Nothing follows the last result.
  predicate EndsWithResult(es: seq<Event>) {
    var rs := Results(es);
    es != [] && rs != [] && es[|es| - 1] == Result(rs[|rs| - 1])
  }

  /** Batches are numbered 1 to n, exactly the last result is final, and nothing follows it. */
  predicate WellReported(es: seq<Event>) { EndsWithResult(es) && Reports(Results(es), 1) }

  // The categories of the final result.
  function Coverage(es: seq<Event>): seq<string>
    requires EndsWithResult(es)
  {
    es[|es| - 1].r.categories
  }

  // The i-th result holds findings of the i-th category.
  predicate Backed(rs: seq<Report>, categories: seq<string>)
  {
    && |categories| <= |rs|
    && forall i | 0 <= i < |categories| :: forall j | 0 <= j < |rs[i].findings| ::
         rs[i].findings[j].category == categories[i]
  }

  /** Every covered category had its own batch, in the same order, holding its findings. */
  predicate CoverageBacked(es: seq<Event>) {
    && EndsWithResult(es)
    && |Coverage(es)| == |Results(es)| - 1
    && Backed(Results(es), Coverage(es))
  }

  lemma {:induction false} ResultsAppend(a: seq<Event>, b: seq<Event>)
    ensures Results(a + b) == Results(a) + Results(b)
  {
    if a == [] {
      assert a + b == b;
    } else {
      assert (a + b)[1..] == a[1..] + b;
      ResultsAppend(a[1..], b);
    }
  }

  lemma StoppedAppend(a: seq<Event>, b: seq<Event>)
    ensures Stopped(a + b) <==> Stopped(a) || Stopped(b)
  {
    assert forall i | 0 <= i < |a| :: (a + b)[i] == a[i];
    assert forall i | 0 <= i < |b| :: (a + b)[|a| + i] == b[i];
  }

  // ----- Phases keep the reports in order -----

  // Until the end: numbered batches, one for each scanned category.
  predicate InOrder(p: Progress) {
    match p
    case Ended(out) => WellReported(out) && Coverage(out) == [] && Stopped(out)
    case Running(out, batch, scanned) =>
      var rs := Results(out);
      !Stopped(out) && Numbered(rs, 1) && batch == |rs| + 1 && |scanned| == |rs| && Backed(rs, scanned)
  }

  lemma EmitKeeps(p: Progress, events: seq<Event>)
    requires p.Running? && InOrder(p) && (forall i | 0 <= i < |events| :: !events[i].Result?) && !Stopped(events)
    ensures InOrder(p.Emit(events))
  {
    StoppedAppend(p.out, events);
    NoResults(events);
    ResultsAppend(p.out, events);
  }

  lemma {:induction false} NoResults(events: seq<Event>)
    requires forall i | 0 <= i < |events| :: !events[i].Result?
    ensures Results(events) == []
  {
    if events != [] { NoResults(events[1..]); }
  }

  lemma BatchKeeps(p: Progress, findings: seq<Finding>, category: string)
    requires p.Running? && InOrder(p)
    ensures InOrder(p.Batch(findings, category))
  {
    var r := Send(Stamp(findings, category), p.batch, false, []);
    StoppedAppend(p.out, [r]);
    ResultsAppend(p.out, [r]);
    assert Results([r]) == [r.r];
  }

  // A final result after one step event.
  lemma FinishKeeps(p: Progress, step: Event, categories: seq<string>)
    requires p.Running? && InOrder(p) && step.Step?
    ensures var es := p.out + [step, Send([], p.batch, true, categories)];
      && WellReported(es) && Coverage(es) == categories && (categories == p.scanned ==> CoverageBacked(es))
      && (Stopped(es) <==> step == CANCELLED)
  {
    var r := Send([], p.batch, true, categories);
    StoppedAppend(p.out, [step, r]);
    assert [step, r][0] == step;
    ResultsAppend(p.out, [step, r]);
    OneResult(step, r);
    var rs := Results(p.out) + [r.r];
    assert rs[..|rs| - 1] == Results(p.out);
    assert Backed(Results(p.out), p.scanned) ==> Backed(rs, p.scanned);
  }

  lemma OneResult(step: Event, r: Event)
    requires !step.Result? && r.Result?
    ensures Results([step, r]) == [r.r]
  {
    assert [step, r][1..] == [r] && Results([r]) == [r.r];
  }

  lemma CancelKeeps(p: Progress)
    requires p.Running? && InOrder(p)
    ensures InOrder(p.Cancel())
  {
    FinishKeeps(p, CANCELLED, []);
  }

  // What a phase leaves: the order of the reports, and the list of scanned categories.
  predicate Leaves(p: Progress, scanned: seq<string>, cancelled: bool) {
    InOrder(p) && p.Ended? == cancelled && (p.Running? ==> p.scanned == scanned)
  }

  predicate Covered(cmd: Command, category: string, c: Collection, cached: seq<Rule>) {
    Requested(cmd, category) && c.Collected? && Rules(cmd, cached) != []
  }

  // The context was found cancelled on the way.
  predicate CancelSeen(cmd: Command, f: Frame) {
    || (Requested(cmd, "sys_vuln") && (f.done(BEFORE_SYS) || f.sys.CollectCancelled?))
    || (f.throttling && f.done(DURING_THROTTLE))
    || (Requested(cmd, "baseline") && (f.done(BEFORE_BASELINE) || f.baseline.CollectCancelled?))
  }

  /** The categories a matcher run covers: requested or defaulted, collected, and with rules. */
  function CoveredList(cmd: Command, f: Frame): seq<string> {
    (if Covered(cmd, "sys_vuln", f.sys, f.sysRules) then ["sys_vuln"] else [])
    + (if Covered(cmd, "baseline", f.baseline, f.baselineRules) then ["baseline"] else [])
  }

  // The collector has returned.
  lemma SysCollected(cmd: Command, f: Frame, m: MatchFn, q: Progress)
    requires q.Running? && InOrder(q) && f.sys.Collected?
    ensures var r := q.Emit([Step("collect_packages", "done")]);
      && InOrder(r)
      && InOrder(r.Emit([Step("match_cve", "running"), Step("match_cve", "done")])
                  .Batch(m(f.sys.items, Rules(cmd, f.sysRules)), "sys_vuln"))
  {
    EmitKeeps(q, [Step("collect_packages", "done")]);
    var r := q.Emit([Step("collect_packages", "done")]);
    var steps := [Step("match_cve", "running"), Step("match_cve", "done")];
    EmitKeeps(r, steps);
    BatchKeeps(r.Emit(steps), m(f.sys.items, Rules(cmd, f.sysRules)), "sys_vuln");
  }

  lemma SysLeaves(cmd: Command, f: Frame, m: MatchFn)
    ensures Leaves(SysPhase(cmd, f, m, Running([], 1, [])),
                   if Covered(cmd, "sys_vuln", f.sys, f.sysRules) then ["sys_vuln"] else [],
                   Requested(cmd, "sys_vuln") && (f.done(BEFORE_SYS) || f.sys.CollectCancelled?))
  {
    var p := Running([], 1, []);
    if Requested(cmd, "sys_vuln") {
      if f.done(BEFORE_SYS) {
        CancelKeeps(p);
      } else {
        EmitKeeps(p, [Step("collect_packages", "running")]);
        var q := p.Emit([Step("collect_packages", "running")]);
        match f.sys {
          case CollectCancelled => CancelKeeps(q);
          case CollectFailed => EmitKeeps(q, [Step("collect_packages", "failed")]);
          case Collected(_) => SysCollected(cmd, f, m, q);
        }
      }
    }
  }

  lemma ThrottleLeaves(f: Frame, p: Progress)
    requires p.Running? && InOrder(p)
    ensures Leaves(ThrottlePhase(f, p), p.scanned, f.throttling && f.done(DURING_THROTTLE))
  {
    EmitKeeps(p, [Step("throttle", "running")]);
    CancelKeeps(p.Emit([Step("throttle", "running")]));
  }

  lemma BaselineLeaves(cmd: Command, f: Frame, m: MatchFn, p: Progress)
    requires p.Running? && InOrder(p)
    ensures Leaves(BaselinePhase(cmd, f, m, p),
                   p.scanned + (if Covered(cmd, "baseline", f.baseline, f.baselineRules) then ["baseline"] else []),
                   Requested(cmd, "baseline") && (f.done(BEFORE_BASELINE) || f.baseline.CollectCancelled?))
  {
    CancelKeeps(p);
    if Requested(cmd, "baseline") {
      EmitKeeps(p, [Step("baseline_check", "running")]);
      var q := p.Emit([Step("baseline_check", "running")]);
      CancelKeeps(q);
      EmitKeeps(q, [Step("baseline_check", "failed")]);
      EmitKeeps(q, [Step("baseline_check", "done")]);
      if f.baseline.Collected? {
        var findings := m(f.baseline.items, Rules(cmd, f.baselineRules));
        BatchKeeps(q, findings, "baseline");
        EmitKeeps(q.Batch(findings, "baseline"), [Step("baseline_check", "done")]);
      }
    }
  }

  /** A matcher run reports in order, and its coverage is exactly the covered categories, each
      backed by its batch; a cancelled run covers nothing. */
  lemma MatcherRunReports(cmd: Command, f: Frame, m: MatchFn)
    ensures var es := MatcherRun(cmd, f, m);
      && WellReported(es)
      && (Stopped(es) <==> CancelSeen(cmd, f))
      && (CancelSeen(cmd, f) ==> Coverage(es) == [])
      && (!CancelSeen(cmd, f) ==> Coverage(es) == CoveredList(cmd, f) && CoverageBacked(es))
  {
    SysLeaves(cmd, f, m);
    var p := SysPhase(cmd, f, m, Running([], 1, []));
    if p.Running? {
      ThrottleLeaves(f, p);
      var q := ThrottlePhase(f, p);
      if q.Running? {
        BaselineLeaves(cmd, f, m, q);
        var r := BaselinePhase(cmd, f, m, q);
        if r.Running? {
          FinishKeeps(r, Step("report", "done"), r.scanned);
          assert r.scanned == CoveredList(cmd, f);
        }
      }
    }
  }

  // ----- What the batches hold -----

  // The same findings, filed under the category.
  predicate Filed(sent: seq<Finding>, found: seq<Finding>, category: string) {
    |sent| == |found| && forall i | 0 <= i < |found| :: sent[i] == found[i].(category := category)
  }

  // The module is asked for, by name or by naming none; its items were collected; there are rules.
  predicate Matched(cmd: Command, category: string, c: Collection, cached: seq<Rule>) {
    (cmd.modules == [] || category in cmd.modules) && c.Collected? && (cmd.rules != [] || cached != [])
  }

  // The first batch is what the matcher finds among the packages, and the last is what it finds among
  // the baseline items; a batch that was not reached is not sent. Then comes the final result.
  predicate Sends(rs: seq<Report>, cmd: Command, f: Frame, m: MatchFn, sys: bool, baseline: bool) {
    && |rs| == (if sys then 1 else 0) + (if baseline then 1 else 0) + 1
    && (sys ==> HoldsMatches(rs[0], f.sys, if cmd.rules != [] then cmd.rules else f.sysRules, m, "sys_vuln"))
    && (baseline ==>
          HoldsMatches(rs[|rs| - 2], f.baseline, if cmd.rules != [] then cmd.rules else f.baselineRules, m, "baseline"))
    && rs[|rs| - 1].findings == []
  }

  predicate HoldsMatches(r: Report, c: Collection, rules: seq<Rule>, m: MatchFn, category: string) {
    c.Collected? && Filed(r.findings, m(c.items, rules), category)
  }

  // What has been sent by the end of a phase.
  predicate Sent(p: Progress, cmd: Command, f: Frame, m: MatchFn, sys: bool, baseline: bool) {
    if p.Ended? then Sends(Results(p.out), cmd, f, m, sys, baseline)
    else Sends(Results(p.out) + [Report([], p.batch, true, [])], cmd, f, m, sys, baseline)
  }

  lemma NothingSent(cmd: Command, f: Frame, m: MatchFn)
    ensures Sent(Running([], 1, []), cmd, f, m, false, false)
  {
  }

  lemma EmitSends(p: Progress, events: seq<Event>, cmd: Command, f: Frame, m: MatchFn, sys: bool, baseline: bool)
    requires p.Running? && Sent(p, cmd, f, m, sys, baseline)
    requires forall i | 0 <= i < |events| :: !events[i].Result?
    ensures Sent(p.Emit(events), cmd, f, m, sys, baseline)
  {
    NoResults(events);
    ResultsAppend(p.out, events);
    assert Results(p.out) + [] == Results(p.out);
  }

  lemma CancelSends(p: Progress, cmd: Command, f: Frame, m: MatchFn, sys: bool, baseline: bool)
    requires p.Running? && Sent(p, cmd, f, m, sys, baseline)
    ensures Sent(p.Cancel(), cmd, f, m, sys, baseline)
  {
    OneResult(CANCELLED, Send([], p.batch, true, []));
    ResultsAppend(p.out, Cancelled(p.batch));
  }

  lemma BatchResults(p: Progress, findings: seq<Finding>, category: string)
    requires p.Running?
    ensures var q := p.Batch(findings, category);
      Results(q.out) == Results(p.out) + [Report(Stamp(findings, category), p.batch, false, [])]
  {
    var e := Send(Stamp(findings, category), p.batch, false, []);
    ResultsAppend(p.out, [e]);
    assert Results([e]) == [e.r];
  }

  lemma SysSends(cmd: Command, f: Frame, m: MatchFn)
    ensures Sent(SysPhase(cmd, f, m, Running([], 1, [])), cmd, f, m,
                 Matched(cmd, "sys_vuln", f.sys, f.sysRules) && !f.done(BEFORE_SYS), false)
  {
    var p := Running([], 1, []);
    NothingSent(cmd, f, m);
    if Requested(cmd, "sys_vuln") {
      CancelSends(p, cmd, f, m, false, false);
      var q := p.Emit([Step("collect_packages", "running")]);
      EmitSends(p, [Step("collect_packages", "running")], cmd, f, m, false, false);
      CancelSends(q, cmd, f, m, false, false);
      EmitSends(q, [Step("collect_packages", "failed")], cmd, f, m, false, false);
      if f.sys.Collected? && !f.done(BEFORE_SYS) { SysBatchSends(cmd, f, m, q); }
    }
  }

  lemma SysBatchSends(cmd: Command, f: Frame, m: MatchFn, q: Progress)
    requires q.Running? && Results(q.out) == [] && f.sys.Collected?
    ensures var r := q.Emit([Step("collect_packages", "done")]);
      var s := r.Emit([Step("match_cve", "running"), Step("match_cve", "done")]);
      && Sent(r, cmd, f, m, false, false)
      && Sent(s.Batch(m(f.sys.items, Rules(cmd, f.sysRules)), "sys_vuln"), cmd, f, m, true, false)
  {
    EmitSends(q, [Step("collect_packages", "done")], cmd, f, m, false, false);
    var r := q.Emit([Step("collect_packages", "done")]);
    var steps := [Step("match_cve", "running"), Step("match_cve", "done")];
    EmitSends(r, steps, cmd, f, m, false, false);
    assert Results(r.Emit(steps).out) == [];
    BatchResults(r.Emit(steps), m(f.sys.items, Rules(cmd, f.sysRules)), "sys_vuln");
  }

  lemma BaselineSends(cmd: Command, f: Frame, m: MatchFn, p: Progress, sys: bool)
    requires p.Running? && Sent(p, cmd, f, m, sys, false)
    ensures Sent(BaselinePhase(cmd, f, m, p), cmd, f, m, sys,
                 Matched(cmd, "baseline", f.baseline, f.baselineRules) && !f.done(BEFORE_BASELINE))
  {
    if Requested(cmd, "baseline") {
      CancelSends(p, cmd, f, m, sys, false);
      EmitSends(p, [Step("baseline_check", "running")], cmd, f, m, sys, false);
      var q := p.Emit([Step("baseline_check", "running")]);
      CancelSends(q, cmd, f, m, sys, false);
      EmitSends(q, [Step("baseline_check", "failed")], cmd, f, m, sys, false);
      EmitSends(q, [Step("baseline_check", "done")], cmd, f, m, sys, false);
      if f.baseline.Collected? { BaselineBatchSends(cmd, f, m, q, sys); }
    }
  }

  lemma BaselineBatchSends(cmd: Command, f: Frame, m: MatchFn, q: Progress, sys: bool)
    requires q.Running? && Sent(q, cmd, f, m, sys, false) && f.baseline.Collected?
    ensures var r := q.Batch(m(f.baseline.items, Rules(cmd, f.baselineRules)), "baseline");
      Sent(r.Emit([Step("baseline_check", "done")]), cmd, f, m, sys, true)
  {
    var found := m(f.baseline.items, Rules(cmd, f.baselineRules));
    BatchResults(q, found, "baseline");
    var r := q.Batch(found, "baseline");
    var rs := Results(r.out) + [Report([], r.batch, true, [])];
    assert rs[|rs| - 2] == Report(Stamp(found, "baseline"), q.batch, false, []);
    EmitSends(r, [Step("baseline_check", "done")], cmd, f, m, sys, true);
  }

  lemma ThrottleSends(cmd: Command, f: Frame, m: MatchFn, p: Progress, sys: bool)
    requires p.Running? && Sent(p, cmd, f, m, sys, false)
    ensures Sent(ThrottlePhase(f, p), cmd, f, m, sys, false)
  {
    EmitSends(p, [Step("throttle", "running")], cmd, f, m, sys, false);
    CancelSends(p.Emit([Step("throttle", "running")]), cmd, f, m, sys, false);
  }

  /** A matcher run sends what the matcher finds, module by module: all of it if the run sees no
      cancellation, and otherwise the packages' part if it was reached. */
  lemma MatcherRunSends(cmd: Command, f: Frame, m: MatchFn)
    ensures Sends(Results(MatcherRun(cmd, f, m)), cmd, f, m,
                  Matched(cmd, "sys_vuln", f.sys, f.sysRules) && !f.done(BEFORE_SYS),
                  Matched(cmd, "baseline", f.baseline, f.baselineRules) && !CancelSeen(cmd, f))
  {
    SysSends(cmd, f, m);
    SysLeaves(cmd, f, m);
    var sys := Matched(cmd, "sys_vuln", f.sys, f.sysRules) && !f.done(BEFORE_SYS);
    var p := SysPhase(cmd, f, m, Running([], 1, []));
    if p.Running? {
      ThrottleSends(cmd, f, m, p, sys);
      ThrottleLeaves(f, p);
      var t := ThrottlePhase(f, p);
      if t.Running? {
        BaselineSends(cmd, f, m, t, sys);
        BaselineLeaves(cmd, f, m, t);
        CloseSends(BaselinePhase(cmd, f, m, t), cmd, f, m, sys,
                   Matched(cmd, "baseline", f.baseline, f.baselineRules) && !f.done(BEFORE_BASELINE));
      }
    }
  }

  lemma CloseSends(p: Progress, cmd: Command, f: Frame, m: MatchFn, sys: bool, baseline: bool)
    requires Sent(p, cmd, f, m, sys, baseline)
    ensures Sends(Results(Close(p)), cmd, f, m, sys, baseline)
  {
    if p.Running? {
      var r := Send([], p.batch, true, p.scanned);
      OneResult(Step("report", "done"), r);
      ResultsAppend(p.out, [Step("report", "done"), r]);
    }
  }

  // ----- The steps that are announced -----

  // The events that are not results.
  function Steps(es: seq<Event>): seq<Event> {
    if es == [] then [] else (if es[0].Result? then [] else [es[0]]) + Steps(es[1..])
  }

  lemma {:induction false} StepsAppend(a: seq<Event>, b: seq<Event>)
    ensures Steps(a + b) == Steps(a) + Steps(b)
  {
    if a == [] {
      assert a + b == b;
    } else {
      assert (a + b)[1..] == a[1..] + b;
      StepsAppend(a[1..], b);
    }
  }

  lemma {:induction false} AllSteps(es: seq<Event>)
    requires forall i | 0 <= i < |es| :: !es[i].Result?
    ensures Steps(es) == es
  {
    if es != [] { AllSteps(es[1..]); }
  }

  // A module is announced, and then that it is done or has failed; in between come its own steps.
  function ModuleSteps(cmd: Command, category: string, step: string, c: Collection): seq<Event> {
    if cmd.modules != [] && category !in cmd.modules then []
    else [Step(step, "running"), Step(step, if c.Collected? then "done" else "failed")]
  }

  function MatchSteps(cmd: Command, f: Frame): seq<Event> {
    if Matched(cmd, "sys_vuln", f.sys, f.sysRules) then [Step("match_cve", "running"), Step("match_cve", "done")]
    else []
  }

  function ThrottleSteps(f: Frame): seq<Event> { if f.throttling then [Step("throttle", "running")] else [] }

  lemma EmitSteps(p: Progress, events: seq<Event>)
    requires p.Running? && forall i | 0 <= i < |events| :: !events[i].Result?
    ensures Steps(p.Emit(events).out) == Steps(p.out) + events
  {
    AllSteps(events);
    StepsAppend(p.out, events);
  }

  lemma BatchSteps(p: Progress, findings: seq<Finding>, category: string)
    requires p.Running?
    ensures Steps(p.Batch(findings, category).out) == Steps(p.out)
  {
    var e := Send(Stamp(findings, category), p.batch, false, []);
    StepsAppend(p.out, [e]);
    assert Steps([e]) == [];
  }

  lemma SysSteps(cmd: Command, f: Frame, m: MatchFn)
    requires !CancelSeen(cmd, f)
    ensures var p := SysPhase(cmd, f, m, Running([], 1, []));
      p.Running? && Steps(p.out) == ModuleSteps(cmd, "sys_vuln", "collect_packages", f.sys) + MatchSteps(cmd, f)
  {
    if Requested(cmd, "sys_vuln") {
      var p := Running([], 1, []);
      var q := p.Emit([Step("collect_packages", "running")]);
      EmitSteps(p, [Step("collect_packages", "running")]);
      EmitSteps(q, [Step("collect_packages", "failed")]);
      EmitSteps(q, [Step("collect_packages", "done")]);
      if f.sys.Collected? {
        var r := q.Emit([Step("collect_packages", "done")]);
        var steps := [Step("match_cve", "running"), Step("match_cve", "done")];
        EmitSteps(r, steps);
        BatchSteps(r.Emit(steps), m(f.sys.items, Rules(cmd, f.sysRules)), "sys_vuln");
      }
    }
  }

  lemma BaselineSteps(cmd: Command, f: Frame, m: MatchFn, p: Progress)
    requires p.Running? && !CancelSeen(cmd, f)
    ensures var q := BaselinePhase(cmd, f, m, p);
      q.Running? && Steps(q.out) == Steps(p.out) + ModuleSteps(cmd, "baseline", "baseline_check", f.baseline)
  {
    if Requested(cmd, "baseline") {
      var q := p.Emit([Step("baseline_check", "running")]);
      EmitSteps(p, [Step("baseline_check", "running")]);
      EmitSteps(q, [Step("baseline_check", "failed")]);
      EmitSteps(q, [Step("baseline_check", "done")]);
      if f.baseline.Collected? {
        var found := m(f.baseline.items, Rules(cmd, f.baselineRules));
        BatchSteps(q, found, "baseline");
        EmitSteps(q.Batch(found, "baseline"), [Step("baseline_check", "done")]);
      }
    }
  }

  /** A matcher run that sees no cancellation announces each requested module and how its collection
      ended, the matching of the packages, a throttled host, and the end. */
  lemma MatcherRunSteps(cmd: Command, f: Frame, m: MatchFn)
    requires !CancelSeen(cmd, f)
    ensures Steps(MatcherRun(cmd, f, m)) ==
      ModuleSteps(cmd, "sys_vuln", "collect_packages", f.sys) + MatchSteps(cmd, f) + ThrottleSteps(f)
      + ModuleSteps(cmd, "baseline", "baseline_check", f.baseline) + [Step("report", "done")]
  {
    SysSteps(cmd, f, m);
    var p := SysPhase(cmd, f, m, Running([], 1, []));
    EmitSteps(p, [Step("throttle", "running")]);
    var t := ThrottlePhase(f, p);
    BaselineSteps(cmd, f, m, t);
    CloseSteps(BaselinePhase(cmd, f, m, t));
  }

  lemma CloseSteps(p: Progress)
    requires p.Running?
    ensures Steps(Close(p)) == Steps(p.out) + [Step("report", "done")]
  {
    var e, r := Step("report", "done"), Send([], p.batch, true, p.scanned);
    StepsAppend(p.out, [e, r]);
    assert [e, r][1..] == [r] && Steps([r]) == [];
  }

  // ----- Acknowledgements -----

  function Acks(es: seq<Event>): seq<Event> {
    if es == [] then [] else (if es[0].Ack? then [es[0]] else []) + Acks(es[1..])
  }

  lemma {:induction false} AcksAppend(a: seq<Event>, b: seq<Event>)
    ensures Acks(a + b) == Acks(a) + Acks(b)
  {
    if a == [] {
      assert a + b == b;
    } else {
      assert (a + b)[1..] == a[1..] + b;
      AcksAppend(a[1..], b);
    }
  }

  lemma {:induction false} NoAcks(es: seq<Event>)
    requires forall i | 0 <= i < |es| :: !es[i].Ack?
    ensures Acks(es) == []
  {
    if es != [] { NoAcks(es[1..]); }
  }

  lemma EmitNoAcks(p: Progress, events: seq<Event>)
    requires p.Running? && Acks(p.out) == [] && forall i | 0 <= i < |events| :: !events[i].Ack?
    ensures Acks(p.Emit(events).out) == []
  {
    NoAcks(events);
    AcksAppend(p.out, events);
  }

  lemma OtherNoAcks(p: Progress, findings: seq<Finding>, category: string)
    requires p.Running? && Acks(p.out) == []
    ensures Acks(p.Cancel().out) == [] && Acks(p.Batch(findings, category).out) == []
  {
    var e := Send(Stamp(findings, category), p.batch, false, []);
    NoAcks(Cancelled(p.batch));
    AcksAppend(p.out, Cancelled(p.batch));
    NoAcks([e]);
    AcksAppend(p.out, [e]);
  }

  lemma SysNoAcks(cmd: Command, f: Frame, m: MatchFn)
    ensures Acks(SysPhase(cmd, f, m, Running([], 1, [])).out) == []
  {
    var p := Running([], 1, []);
    var q := p.Emit([Step("collect_packages", "running")]);
    OtherNoAcks(p, [], "");
    EmitNoAcks(p, [Step("collect_packages", "running")]);
    OtherNoAcks(q, [], "");
    EmitNoAcks(q, [Step("collect_packages", "failed")]);
    EmitNoAcks(q, [Step("collect_packages", "done")]);
    if f.sys.Collected? {
      var r := q.Emit([Step("collect_packages", "done")]);
      var steps := [Step("match_cve", "running"), Step("match_cve", "done")];
      EmitNoAcks(r, steps);
      OtherNoAcks(r.Emit(steps), m(f.sys.items, Rules(cmd, f.sysRules)), "sys_vuln");
    }
  }

  lemma BaselineNoAcks(cmd: Command, f: Frame, m: MatchFn, p: Progress)
    requires Acks(p.out) == []
    ensures Acks(BaselinePhase(cmd, f, m, p).out) == []
  {
    if p.Running? {
      var q := p.Emit([Step("baseline_check", "running")]);
      OtherNoAcks(p, [], "");
      EmitNoAcks(p, [Step("baseline_check", "running")]);
      OtherNoAcks(q, [], "");
      EmitNoAcks(q, [Step("baseline_check", "failed")]);
      EmitNoAcks(q, [Step("baseline_check", "done")]);
      if f.baseline.Collected? {
        var found := m(f.baseline.items, Rules(cmd, f.baselineRules));
        OtherNoAcks(q, found, "baseline");
        EmitNoAcks(q.Batch(found, "baseline"), [Step("baseline_check", "done")]);
      }
    }
  }

  lemma MatcherRunNoAcks(cmd: Command, f: Frame, m: MatchFn)
    ensures Acks(MatcherRun(cmd, f, m)) == []
  {
    SysNoAcks(cmd, f, m);
    var p := SysPhase(cmd, f, m, Running([], 1, []));
    var t := ThrottlePhase(f, p);
    if p.Running? {
      EmitNoAcks(p, [Step("throttle", "running")]);
      OtherNoAcks(p.Emit([Step("throttle", "running")]), [], "");
    }
    BaselineNoAcks(cmd, f, m, t);
    var q := BaselinePhase(cmd, f, m, t);
    if q.Running? {
      var last := [Step("report", "done"), Send([], q.batch, true, q.scanned)];
      NoAcks(last);
      AcksAppend(q.out, last);
    }
  }

  lemma {:induction false} StreamNoAcks(arrivals: seq<Arrival>, cancelledAtEnd: bool, batch: nat)
    ensures Acks(Stream(arrivals, cancelledAtEnd, batch)) == []
  {
    var es := Stream(arrivals, cancelledAtEnd, batch);
    if arrivals == [] || arrivals[0].cancelled {
      NoAcks(es);
    } else {
      StreamNoAcks(arrivals[1..], cancelledAtEnd, batch + 1);
      assert es[1..] == Stream(arrivals[1..], cancelledAtEnd, batch + 1);
    }
  }

  lemma NucleiNoAcks(run: NucleiRun)
    ensures Acks(NucleiEvents(run)) == []
  {
    match run {
      case LaunchFailed => NoAcks(NucleiEvents(run));
      case Streamed(arrivals, cancelledAtEnd) =>
        StreamNoAcks(arrivals, cancelledAtEnd, 1);
        assert NucleiEvents(run)[1..] == Stream(arrivals, cancelledAtEnd, 1);
    }
  }

  // ----- The nuclei run reports in order -----

  predicate StreamCancelled(arrivals: seq<Arrival>, cancelledAtEnd: bool) {
    cancelledAtEnd || exists i | 0 <= i < |arrivals| :: arrivals[i].cancelled
  }

  // A plain batch in front of a report.
  lemma ReportsCons(e: Event, es: seq<Event>, batch: nat)
    requires e.Result? && e.r.batch == batch && !e.r.final && e.r.categories == []
    requires EndsWithResult(es) && Reports(Results(es), batch + 1)
    ensures EndsWithResult([e] + es) && Reports(Results([e] + es), batch) && Coverage([e] + es) == Coverage(es)
    ensures |Results([e] + es)| == |Results(es)| + 1
  {
    var ts := Results(es);
    assert ([e] + es)[1..] == es;
    var rs := [e.r] + ts;
    assert Results([e] + es) == rs;
    assert rs[..|rs| - 1] == [e.r] + ts[..|ts| - 1];
  }

  lemma CancelledCons(arrivals: seq<Arrival>, cancelledAtEnd: bool)
    requires arrivals != [] && !arrivals[0].cancelled
    ensures StreamCancelled(arrivals, cancelledAtEnd) <==> StreamCancelled(arrivals[1..], cancelledAtEnd)
  {
    if i :| 0 <= i < |arrivals| && arrivals[i].cancelled { assert arrivals[1..][i - 1].cancelled; }
    if i :| 0 <= i < |arrivals[1..]| && arrivals[1..][i].cancelled { assert arrivals[i + 1].cancelled; }
  }

  lemma {:induction false} StreamReports(arrivals: seq<Arrival>, cancelledAtEnd: bool, batch: nat)
    ensures var es := Stream(arrivals, cancelledAtEnd, batch);
      && EndsWithResult(es) && Reports(Results(es), batch)
      && Coverage(es) == (if StreamCancelled(arrivals, cancelledAtEnd) then [] else ["nuclei"])
      && (!StreamCancelled(arrivals, cancelledAtEnd) ==> |Results(es)| == |arrivals| + 1)
      && (Stopped(es) <==> StreamCancelled(arrivals, cancelledAtEnd))
  {
    var es := Stream(arrivals, cancelledAtEnd, batch);
    if arrivals == [] || arrivals[0].cancelled {
      OneResult(es[0], es[1]);
      assert es[0] == CANCELLED <==> StreamCancelled(arrivals, cancelledAtEnd);
    } else {
      StoppedAppend([es[0]], Stream(arrivals[1..], cancelledAtEnd, batch + 1));
      StreamReports(arrivals[1..], cancelledAtEnd, batch + 1);
      CancelledCons(arrivals, cancelledAtEnd);
      ReportsCons(es[0], Stream(arrivals[1..], cancelledAtEnd, batch + 1), batch);
    }
  }

  // A batch for each finding up to the first at which the context is cancelled, and the final result.
  predicate SendsArrivals(rs: seq<Report>, arrivals: seq<Arrival>) {
    && 0 < |rs| <= |arrivals| + 1 && rs[|rs| - 1].findings == []
    && (forall i | 0 <= i < |rs| - 1 ::
          !arrivals[i].cancelled && rs[i].findings == [arrivals[i].finding.(category := "nuclei")])
    && (|rs| <= |arrivals| ==> arrivals[|rs| - 1].cancelled)
  }

  predicate NucleiSends(rs: seq<Report>, run: NucleiRun) {
    match run
    case LaunchFailed => |rs| == 1 && rs[0].findings == []
    case Streamed(arrivals, _) => SendsArrivals(rs, arrivals)
  }

  lemma {:induction false} StreamSends(arrivals: seq<Arrival>, cancelledAtEnd: bool, batch: nat)
    ensures SendsArrivals(Results(Stream(arrivals, cancelledAtEnd, batch)), arrivals)
  {
    var es := Stream(arrivals, cancelledAtEnd, batch);
    if arrivals == [] || arrivals[0].cancelled {
      OneResult(es[0], es[1]);
    } else {
      StreamSends(arrivals[1..], cancelledAtEnd, batch + 1);
      var rest := Stream(arrivals[1..], cancelledAtEnd, batch + 1);
      assert es[1..] == rest;
      assert Results(es) == [es[0].r] + Results(rest);
    }
  }

  lemma NucleiRunSends(run: NucleiRun)
    ensures NucleiSends(Results(NucleiEvents(run)), run)
  {
    match run {
      case LaunchFailed =>
        var step, failed, r := Step("nuclei", "running"), Step("nuclei", "failed"), Send([], 1, true, []);
        OneResult(failed, r);
        PrefixReports([step], [failed, r]);
        assert NucleiEvents(LaunchFailed) == [step] + [failed, r];
      case Streamed(arrivals, cancelledAtEnd) =>
        StreamReports(arrivals, cancelledAtEnd, 1);
        StreamSends(arrivals, cancelledAtEnd, 1);
        PrefixReports([Step("nuclei", "running")], Stream(arrivals, cancelledAtEnd, 1));
    }
  }

  // Other events in front change nothing.
  lemma PrefixReports(pre: seq<Event>, es: seq<Event>)
    requires EndsWithResult(es) && (forall i | 0 <= i < |pre| :: !pre[i].Result?) && !Stopped(pre)
    ensures Results(pre + es) == Results(es) && EndsWithResult(pre + es) && Coverage(pre + es) == Coverage(es)
    ensures Stopped(pre + es) <==> Stopped(es)
  {
    StoppedAppend(pre, es);
    NoResults(pre);
    ResultsAppend(pre, es);
  }

  lemma PausedReports(reason: string)
    ensures WellReported(Paused(reason)) && Coverage(Paused(reason)) == [] && !Stopped(Paused(reason))
  {
    var es := Paused(reason);
    OneResult(es[1], es[2]);
    PrefixReports([es[0]], [es[1], es[2]]);
    assert es == [es[0]] + [es[1], es[2]];
  }

  lemma LaunchFailedReports()
    ensures var es := NucleiEvents(LaunchFailed); WellReported(es) && Coverage(es) == [] && !Stopped(es)
  {
    var step, failed, r := Step("nuclei", "running"), Step("nuclei", "failed"), Send([], 1, true, []);
    OneResult(failed, r);
    PrefixReports([step], [failed, r]);
    assert NucleiEvents(LaunchFailed) == [step] + [failed, r];
  }

  lemma NucleiReports(run: NucleiRun)
    ensures var es := NucleiEvents(run);
      && WellReported(es)
      && (Stopped(es) <==> run.Streamed? && StreamCancelled(run.arrivals, run.cancelledAtEnd))
      && Coverage(es) == if run.Streamed? && !StreamCancelled(run.arrivals, run.cancelledAtEnd) then ["nuclei"] else []
  {
    match run {
      case LaunchFailed => LaunchFailedReports();
      case Streamed(arrivals, cancelledAtEnd) =>
        StreamReports(arrivals, cancelledAtEnd, 1);
        PrefixReports([Step("nuclei", "running")], Stream(arrivals, cancelledAtEnd, 1));
    }
  }

  // The engine plays no part in what a matcher run covers.
  lemma DemotedClaim(cmd: Command, f: Frame)
    ensures var demoted := cmd.(engine := "");
      CoveredList(demoted, f) == CoveredList(cmd, f) && CancelSeen(demoted, f) == CancelSeen(cmd, f)
  {
    var demoted := cmd.(engine := "");
    assert forall c :: Requested(demoted, c) == Requested(cmd, c);
    assert forall cached :: Rules(demoted, cached) == Rules(cmd, cached);
  }

  lemma SkippedReports(es: seq<Event>)
    requires WellReported(es)
    ensures var all := [Ack(true, "")] + ([Step("nuclei", "skipped")] + es);
      && WellReported(all) && Coverage(all) == Coverage(es) && (CoverageBacked(es) ==> CoverageBacked(all))
      && (Stopped(all) <==> Stopped(es))
  {
    PrefixReports([Step("nuclei", "skipped")], es);
    PrefixReports([Ack(true, "")], [Step("nuclei", "skipped")] + es);
  }

  lemma Chain(t: seq<Event>, a: seq<Event>, b: seq<Event>)
    ensures t + (a + b) == (t + a) + b
  {
  }

  // ----- A run after earlier events -----

  function After(pre: seq<Event>, p: Progress): Progress { p.(out := pre + p.out) }

  lemma AfterEmit(pre: seq<Event>, p: Progress, events: seq<Event>)
    requires p.Running?
    ensures After(pre, p).Emit(events) == After(pre, p.Emit(events))
  {
    assert (pre + p.out) + events == pre + (p.out + events);
  }

  lemma AfterCancel(pre: seq<Event>, p: Progress)
    requires p.Running?
    ensures After(pre, p).Cancel() == After(pre, p.Cancel())
  {
    assert (pre + p.out) + Cancelled(p.batch) == pre + (p.out + Cancelled(p.batch));
  }

  lemma AfterBatch(pre: seq<Event>, p: Progress, findings: seq<Finding>, category: string)
    requires p.Running?
    ensures After(pre, p).Batch(findings, category) == After(pre, p.Batch(findings, category))
  {
    var r := [Send(Stamp(findings, category), p.batch, false, [])];
    assert (pre + p.out) + r == pre + (p.out + r);
  }

  lemma SysAfter(cmd: Command, f: Frame, m: MatchFn, pre: seq<Event>, p: Progress)
    ensures SysPhase(cmd, f, m, After(pre, p)) == After(pre, SysPhase(cmd, f, m, p))
  {
    if p.Running? && Requested(cmd, "sys_vuln") {
      AfterCancel(pre, p);
      var q := p.Emit([Step("collect_packages", "running")]);
      AfterEmit(pre, p, [Step("collect_packages", "running")]);
      AfterCancel(pre, q);
      AfterEmit(pre, q, [Step("collect_packages", "failed")]);
      if f.sys.Collected? { SysCollectedAfter(cmd, f, m, pre, q); }
    }
  }

  lemma SysCollectedAfter(cmd: Command, f: Frame, m: MatchFn, pre: seq<Event>, q: Progress)
    requires q.Running? && f.sys.Collected?
    ensures var done := [Step("collect_packages", "done")];
      var steps := [Step("match_cve", "running"), Step("match_cve", "done")];
      var findings := m(f.sys.items, Rules(cmd, f.sysRules));
      && After(pre, q).Emit(done) == After(pre, q.Emit(done))
      && After(pre, q).Emit(done).Emit(steps).Batch(findings, "sys_vuln")
         == After(pre, q.Emit(done).Emit(steps).Batch(findings, "sys_vuln"))
  {
    var done, steps := [Step("collect_packages", "done")], [Step("match_cve", "running"), Step("match_cve", "done")];
    AfterEmit(pre, q, done);
    AfterEmit(pre, q.Emit(done), steps);
    AfterBatch(pre, q.Emit(done).Emit(steps), m(f.sys.items, Rules(cmd, f.sysRules)), "sys_vuln");
  }

  lemma ThrottleAfter(f: Frame, pre: seq<Event>, p: Progress)
    ensures ThrottlePhase(f, After(pre, p)) == After(pre, ThrottlePhase(f, p))
  {
    if p.Running? {
      AfterEmit(pre, p, [Step("throttle", "running")]);
      AfterCancel(pre, p.Emit([Step("throttle", "running")]));
    }
  }

  lemma BaselineAfter(cmd: Command, f: Frame, m: MatchFn, pre: seq<Event>, p: Progress)
    ensures BaselinePhase(cmd, f, m, After(pre, p)) == After(pre, BaselinePhase(cmd, f, m, p))
  {
    if p.Running? && Requested(cmd, "baseline") {
      AfterCancel(pre, p);
      var q := p.Emit([Step("baseline_check", "running")]);
      AfterEmit(pre, p, [Step("baseline_check", "running")]);
      AfterCancel(pre, q);
      AfterEmit(pre, q, [Step("baseline_check", "failed")]);
      AfterEmit(pre, q, [Step("baseline_check", "done")]);
      if f.baseline.Collected? {
        var findings := m(f.baseline.items, Rules(cmd, f.baselineRules));
        AfterBatch(pre, q, findings, "baseline");
        AfterEmit(pre, q.Batch(findings, "baseline"), [Step("baseline_check", "done")]);
      }
    }
  }

  // The phases started on a trace extend it by the matcher run.
  lemma RunsAfter(cmd: Command, f: Frame, m: MatchFn, pre: seq<Event>)
    ensures Close(BaselinePhase(cmd, f, m, ThrottlePhase(f, SysPhase(cmd, f, m, Running(pre, 1, [])))))
         == pre + MatcherRun(cmd, f, m)
  {
    var p := Running([], 1, []);
    assert After(pre, p) == Running(pre, 1, []) by { assert pre + [] == pre; }
    SysAfter(cmd, f, m, pre, p);
    var p1 := SysPhase(cmd, f, m, p);
    ThrottleAfter(f, pre, p1);
    var p2 := ThrottlePhase(f, p1);
    BaselineAfter(cmd, f, m, pre, p2);
    var p3 := BaselinePhase(cmd, f, m, p2);
    assert Close(After(pre, p3)) == pre + Close(p3);
  }
}
