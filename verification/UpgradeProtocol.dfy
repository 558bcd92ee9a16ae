/** The controlled upgrade of one agent, both ends and what lies between them
    (src/agents/upgrade.py, src/api/routers/agents.py, agent/cmd/agent/main.go).

    The server keeps a status record that dispatches, acks, heartbeats and expiry drive; each
    handler call is one step. Messages may be lost, repeated, delayed and reordered. The agent may
    crash at any point of an upgrade or a rollback. */
module UpgradeProtocol {
  import opened Options
  import opened BinaryUpgrade

  // ----- The status record -----

  datatype State = Absent | Sent | Restarting | Failure | Confirmed

  // A missing target reads as "".
  datatype Record = Record(state: State, target: string, ackReceived: bool, current: string)

  const NO_RECORD: Record := Record(Absent, "", false, "")

  datatype Event =
    | Dispatched(version: string)
    | Acked(version: string, ok: bool)
    | Beat(version: string)
    | Expired

  function Handle(r: Record, e: Event): Record {
    match e
    case Dispatched(v) => r.(state := Sent, target := v)
    case Acked(v, ok) => if v != r.target then r
      else r.(state := if ok then Restarting else Failure, ackReceived := true)
    case Beat(v) =>
      if r.state != Restarting || !r.ackReceived then r
      else if v != "" && v == r.target then r.(current := v, state := Confirmed)
      else r.(current := v)
    case Expired => NO_RECORD
  }

  function After(events: seq<Event>): Record {
    if events == [] then NO_RECORD else Handle(After(events[..|events| - 1]), events[|events| - 1])
  }

  // ----- When the record says confirmed -----

  // The version asked for last, unless the record has expired since.
  function TargetAfter(events: seq<Event>): string {
    if events == [] then ""
    else
      match events[|events| - 1]
      case Dispatched(v) => v
      case Expired => ""
      case _ => TargetAfter(events[..|events| - 1])
  }

  // The events that take the record out of the progress made by an ok ack of version v.
  predicate Resets(e: Event, v: string) {
    match e
    case Dispatched(_) => true
    case Acked(u, _) => u == v
    case Beat(_) => false
    case Expired => true
  }

  // At i an ack of the current target v arrives, and nothing resets the record afterwards.
  ghost predicate JudgedAt(events: seq<Event>, i: nat, v: string, ok: bool) {
    && i < |events|
    && events[i] == Acked(v, ok) && TargetAfter(events[..i]) == v
    && forall k | i < k < |events| :: !Resets(events[k], v)
  }

  ghost predicate AckedAt(events: seq<Event>, i: nat, v: string) { JudgedAt(events, i, v, true) }

  // ... and at j, later, a heartbeat of that version.
  ghost predicate ConfirmedBy(events: seq<Event>, i: nat, j: nat) {
    && i < j < |events|
    && events[j].Beat? && events[j].version != ""
    && AckedAt(events, i, events[j].version)
  }

  ghost predicate EverConfirmed(events: seq<Event>) { exists i: nat, j: nat :: ConfirmedBy(events, i, j) }

  ghost predicate AckPending(events: seq<Event>) { exists i: nat, v :: AckedAt(events, i, v) }

  lemma {:induction false} TargetIsLast(events: seq<Event>)
    ensures After(events).target == TargetAfter(events)
  {
    if events != [] { TargetIsLast(events[..|events| - 1]); }
  }

  lemma AckStays(events: seq<Event>, e: Event, i: nat, v: string, ok: bool)
    requires JudgedAt(events, i, v, ok)
    ensures Resets(e, v) <==> !JudgedAt(events + [e], i, v, ok)
  {
    var all := events + [e];
    assert all[..i] == events[..i];
    assert all[|events|] == e;
    assert forall k | 0 <= k < |events| :: all[k] == events[k];
  }

  lemma AckDrops(events: seq<Event>, e: Event, i: nat, v: string, ok: bool)
    requires i < |events| && JudgedAt(events + [e], i, v, ok)
    ensures JudgedAt(events, i, v, ok)
  {
    var all := events + [e];
    assert all[..i] == events[..i];
    assert forall k | 0 <= k < |events| :: all[k] == events[k];
  }

  // The ack that counts is of the current target.
  lemma {:induction false} AckedTarget(events: seq<Event>, i: nat, v: string, ok: bool)
    requires JudgedAt(events, i, v, ok)
    ensures TargetAfter(events) == v
    decreases |events|
  {
    var before := events[..|events| - 1];
    if i < |events| - 1 {
      assert before + [events[|events| - 1]] == events;
      AckDrops(before, events[|events| - 1], i, v, ok);
      AckedTarget(before, i, v, ok);
    } else {
      assert events[..i] == before;
    }
  }

  // What the record's state says about the events so far.
  ghost predicate StateExplained(events: seq<Event>) {
    var r := After(events);
    && (r.state in {Restarting, Confirmed} <==> AckPending(events))
    && (r.state == Confirmed <==> EverConfirmed(events))
    && (r.state in {Restarting, Confirmed} ==> r.ackReceived)
  }

  lemma ExplainReset(events: seq<Event>, e: Event)
    requires e.Dispatched? || e.Expired? || (e.Acked? && !e.ok && e.version == TargetAfter(events))
    ensures StateExplained(events + [e])
  {
    var all := events + [e];
    assert all[..|all| - 1] == events;
    TargetIsLast(events);
    if i: nat, v: string :| AckedAt(all, i, v) {
      assert all[|events|] == e;
      AckDrops(events, e, i, v, true);
      AckedTarget(events, i, v, true);
    }
  }

  lemma ExplainAck(events: seq<Event>, v: string)
    requires v == TargetAfter(events)
    ensures StateExplained(events + [Acked(v, true)])
  {
    var all := events + [Acked(v, true)];
    assert all[..|all| - 1] == events && all[..|events|] == events;
    TargetIsLast(events);
    assert AckedAt(all, |events|, v);
    if i: nat, j: nat :| ConfirmedBy(all, i, j) {
      var u := all[j].version;
      assert all[|events|] == Acked(v, true);
      assert i < |events|;
      AckDrops(events, Acked(v, true), i, u, true);
      AckedTarget(events, i, u, true);
    }
  }

  // A heartbeat, or an ack of some other version.
  predicate Quiet(events: seq<Event>, e: Event) { e.Beat? || (e.Acked? && e.version != TargetAfter(events)) }

  lemma PendingKept(events: seq<Event>, e: Event)
    requires Quiet(events, e)
    ensures AckPending(events + [e]) <==> AckPending(events)
  {
    if i: nat, v: string :| AckedAt(events, i, v) {
      AckedTarget(events, i, v, true);
      AckStays(events, e, i, v, true);
      assert AckedAt(events + [e], i, v);
    }
    if i: nat, v: string :| AckedAt(events + [e], i, v) {
      QuietAck(events, e, i, v);
    }
  }

  lemma ConfirmedBefore(events: seq<Event>, e: Event)
    requires Quiet(events, e) && EverConfirmed(events)
    ensures EverConfirmed(events + [e])
  {
    var i: nat, j: nat :| ConfirmedBy(events, i, j);
    AckedTarget(events, i, events[j].version, true);
    AckStays(events, e, i, events[j].version, true);
    assert ConfirmedBy(events + [e], i, j);
  }

  // It is confirmed by the heartbeat of the target that comes last, or was before.
  lemma ConfirmedNow(events: seq<Event>, e: Event)
    requires Quiet(events, e)
    ensures e.Beat? && e.version != "" && e.version == TargetAfter(events) && AckPending(events) ==>
              EverConfirmed(events + [e])
    ensures EverConfirmed(events + [e]) && !EverConfirmed(events) ==>
              e.Beat? && e.version != "" && e.version == TargetAfter(events) && AckPending(events)
  {
    var all := events + [e];
    if e.Beat? && e.version != "" && e.version == TargetAfter(events) {
      if i: nat, v: string :| AckedAt(events, i, v) {
        AckedTarget(events, i, v, true);
        AckStays(events, e, i, v, true);
        assert ConfirmedBy(all, i, |events|);
      }
    }
    if i: nat, j: nat :| ConfirmedBy(all, i, j) {
      var v := all[j].version;
      QuietAck(events, e, i, v);
      AckedTarget(events, i, v, true);
      if j < |events| { assert ConfirmedBy(events, i, j); }
    }
  }

  lemma ExplainQuiet(events: seq<Event>, e: Event)
    requires StateExplained(events) && Quiet(events, e)
    ensures StateExplained(events + [e])
  {
    var all := events + [e];
    assert all[..|all| - 1] == events;
    TargetIsLast(events);
    PendingKept(events, e);
    ConfirmedNow(events, e);
    if EverConfirmed(events) { ConfirmedBefore(events, e); }
  }

  lemma QuietAck(events: seq<Event>, e: Event, i: nat, v: string)
    requires Quiet(events, e) && AckedAt(events + [e], i, v)
    ensures AckedAt(events, i, v)
  {
    var all := events + [e];
    assert all[|events|] == e && all[..|events|] == events;
    AckDrops(events, e, i, v, true);
  }

  lemma {:induction false} EventsExplain(events: seq<Event>)
    ensures StateExplained(events)
  {
    if events != [] {
      var before, e := events[..|events| - 1], events[|events| - 1];
      assert before + [e] == events;
      EventsExplain(before);
      match e {
        case Dispatched(_) => ExplainReset(before, e);
        case Expired => ExplainReset(before, e);
        case Beat(_) => ExplainQuiet(before, e);
        case Acked(v, ok) =>
          if v != TargetAfter(before) { ExplainQuiet(before, e); }
          else if ok { ExplainAck(before, v); }
          else { ExplainReset(before, e); }
      }
    }
  }

  /** Confirmed exactly when an ok ack of the current target was followed by a heartbeat of that
      version, with no dispatch, expiry or further ack of the target since the first of the two. */
  lemma ConfirmedExactly(events: seq<Event>)
    ensures After(events).state == Confirmed <==> exists i: nat, j: nat :: ConfirmedBy(events, i, j)
  {
    EventsExplain(events);
  }

  // The last of dispatches and expiries is a dispatch.
  predicate Asked(events: seq<Event>) {
    events != [] &&
    var e := events[|events| - 1];
    e.Dispatched? || (!e.Expired? && Asked(events[..|events| - 1]))
  }

  ghost predicate Refused(events: seq<Event>) { exists i: nat, v :: JudgedAt(events, i, v, false) }

  lemma RefusedStep(events: seq<Event>, e: Event)
    requires After(events).state == Failure <==> Refused(events)
    ensures After(events + [e]).state == Failure <==> Refused(events + [e])
  {
    var all := events + [e];
    assert all[..|all| - 1] == events && all[..|events|] == events && all[|events|] == e;
    TargetIsLast(events);
    if i: nat, v: string :| JudgedAt(events, i, v, false) {
      AckedTarget(events, i, v, false);
      AckStays(events, e, i, v, false);
    }
    if i: nat, v: string :| JudgedAt(all, i, v, false) && i < |events| {
      AckDrops(events, e, i, v, false);
      AckedTarget(events, i, v, false);
      AckStays(events, e, i, v, false);
    }
    if e.Acked? && !e.ok && e.version == TargetAfter(events) {
      assert JudgedAt(all, |events|, e.version, false);
    }
  }

  lemma {:induction false} RefusedExactly(events: seq<Event>)
    ensures After(events).state == Failure <==> Refused(events)
    ensures After(events).state == Sent ==> Asked(events)
    ensures After(events).state == Absent ==> !Asked(events)
  {
    if events != [] {
      var before, e := events[..|events| - 1], events[|events| - 1];
      assert before + [e] == events;
      RefusedExactly(before);
      RefusedStep(before, e);
    }
  }

  /** What the operator is shown: failed if and only if the last ack of the current target that counts
      was not ok, restarting if it was ok and no heartbeat of the target has come since, confirmed if one
      has, and otherwise sent, or nothing. */
  lemma StateExactly(events: seq<Event>)
    ensures After(events).state == match (Refused(events), AckPending(events), EverConfirmed(events), Asked(events))
                                   case (true, _, _, _) => Failure
                                   case (_, true, true, _) => Confirmed
                                   case (_, true, false, _) => Restarting
                                   case (_, _, _, true) => Sent
                                   case (_, _, _, false) => Absent
  {
    EventsExplain(events);
    RefusedExactly(events);
  }

  /** And once it is confirmed the version shown is the target. */
  lemma {:induction false} ConfirmedShowsTarget(events: seq<Event>)
    ensures After(events).state == Confirmed ==> After(events).current == After(events).target
  {
    if events != [] { ConfirmedShowsTarget(events[..|events| - 1]); }
  }

  predicate LastOkAck(events: seq<Event>, i: nat, v: string) {
    i < |events| && events[i] == Acked(v, true) && forall l | i < l < |events| :: events[l] != Acked(v, true)
  }

  /** A restart that came back with some other version never confirms the upgrade: nothing but a
      heartbeat of the target after its last ok ack does. */
  lemma OtherVersionsNeverConfirm(events: seq<Event>, target: string)
    requires TargetAfter(events) == target
    requires forall i: nat, k | LastOkAck(events, i, target) && i < k < |events| :: events[k] != Beat(target)
    ensures After(events).state != Confirmed
  {
    EventsExplain(events);
    if i: nat, j: nat :| ConfirmedBy(events, i, j) {
      AckedTarget(events, i, events[j].version, true);
      assert LastOkAck(events, i, target) by {
        forall l | i < l < |events| ensures events[l] != Acked(target, true) { assert !Resets(events[l], target); }
      }
    }
  }

  /** The record in Redis, updated field by field as the handlers do. It always is what the events so
      far make it, and so says confirmed exactly when they do. */
  class StatusRecord {
    var state: State
    var target: string
    var ackReceived: bool
    var current: string
    ghost var events: seq<Event>

    function View(): Record reads this { Record(state, target, ackReceived, current) }

    ghost predicate Valid()
      reads this
    {
      View() == After(events)
    }

    constructor ()
      ensures Valid() && events == []
    {
      state, target, ackReceived, current, events := Absent, "", false, "", [];
    }

    // Any handler is done.
    ghost method Happened(e: Event)
      requires View() == Handle(After(events), e)
      modifies this`events
      ensures Valid() && events == old(events) + [e]
      ensures state == Confirmed <==> EverConfirmed(events)
      ensures state in {Restarting, Confirmed} <==> AckPending(events)
    {
      events := events + [e];
      assert events[..|events| - 1] == old(events);
      EventsExplain(events);
    }

    /** api_upgrade_agent: whatever was known of an earlier upgrade, this one is neither restarting nor
        confirmed. */
    method Dispatch(version: string)
      requires Valid()
      modifies this
      ensures Valid() && events == old(events) + [Dispatched(version)]
      ensures target == version && !AckPending(events) && !EverConfirmed(events)
    {
      state, target := Sent, version;
      Happened(Dispatched(version));
    }

    /** record_upgrade_ack, for kind == "agent": an ack never confirms, and one of another version
        changes nothing. */
    method RecordUpgradeAck(version: string, ok: bool)
      requires Valid()
      modifies this
      ensures Valid() && events == old(events) + [Acked(version, ok)]
      ensures state == Confirmed <==> EverConfirmed(events)
      ensures version == old(target) ==>
        state == (if ok then Restarting else Failure) && (AckPending(events) <==> ok)
      ensures version != old(target) ==> View() == old(View())
    {
      if version == target {
        state := if ok then Restarting else Failure;
        ackReceived := true;
      }
      Happened(Acked(version, ok));
    }

    /** confirm_upgrade_from_heartbeat: confirmed afterwards if and only if some ok ack of the target
        has been followed by a heartbeat of that version. */
    method ConfirmUpgradeFromHeartbeat(version: string)
      requires Valid()
      modifies this
      ensures Valid() && events == old(events) + [Beat(version)]
      ensures state == Confirmed <==> EverConfirmed(events)
      ensures AckPending(events) <==> old(AckPending(events))
    {
      EventsExplain(events);
      if state == Restarting && ackReceived {
        current := version;
        if version != "" && version == target { state := Confirmed; }
      }
      Happened(Beat(version));
    }

    /** The time to live of the Redis key runs out, and everything is forgotten. */
    method Expire()
      requires Valid()
      modifies this
      ensures Valid() && events == old(events) + [Expired]
      ensures View() == NO_RECORD && !AckPending(events) && !EverConfirmed(events)
    {
      state, target, ackReceived, current := Absent, "", false, "";
      Happened(Expired);
    }
  }

  // ----- Server, agent, disk and messages together -----

  datatype Message = Ack(version: string, ok: bool) | Heartbeat(version: string)

  // running is the binary of the live agent process, if there is one.
  datatype System = System(events: seq<Event>, commands: set<string>, messages: set<Message>, disk: Files,
      running: Option<Binary>)

  datatype Action =
    | DispatchUpgrade(version: string)
    | ReceiveUpgrade(version: string, attempt: Attempt)                // runs to its end and acks
    | CrashInUpgrade(version: string, attempt: Attempt, at: nat)       // cut after some disk state
    | RestartFails(remove: bool, rename: bool)                         // ApplyStagedAndRestart rolls back
    | CrashInRollback(remove: bool, rename: bool, at: nat)
    | Stop                                                             // restart or crash
    | Boot
    | SendHeartbeat
    | Deliver(m: Message)                                              // any message, any number of times
    | Expire

  predicate Enabled(s: System, a: Action, genuine: Binary -> bool) {
    match a
    case DispatchUpgrade(_) => true
    case ReceiveUpgrade(v, _) => s.running.Some? && v in s.commands
    case CrashInUpgrade(v, attempt, at) =>
      s.running.Some? && v in s.commands && at < |Upgrade(Started(s.disk), attempt, genuine).0.visited|
    case RestartFails(_, _) => s.running.Some?
    case CrashInRollback(remove, rename, at) => s.running.Some?
      && at < |Rollback(Started(s.disk), remove, rename).0.visited|
    case Stop => s.running.Some?
    case Boot => s.running.None? && Exec in s.disk
    case SendHeartbeat => s.running.Some?
    case Deliver(m) => m in s.messages
    case Expire => true
  }

  function Next(s: System, a: Action, genuine: Binary -> bool): System
    requires Enabled(s, a, genuine)
  {
    match a
    case DispatchUpgrade(v) => s.(commands := s.commands + {v}, events := s.events + [Dispatched(v)])
    case ReceiveUpgrade(v, attempt) =>
      var (t, outcome) := Upgrade(Started(s.disk), attempt, genuine);
      s.(disk := t.now, messages := s.messages + {Ack(v, outcome == Ok)})
    case CrashInUpgrade(_, attempt, at) =>
      s.(disk := Upgrade(Started(s.disk), attempt, genuine).0.visited[at], running := None)
    case RestartFails(remove, rename) => s.(disk := Rollback(Started(s.disk), remove, rename).0.now)
    case CrashInRollback(remove, rename, at) =>
      s.(disk := Rollback(Started(s.disk), remove, rename).0.visited[at], running := None)
    case Stop => s.(running := None)
    case Boot => s.(running := Some(s.disk[Exec]))
    case SendHeartbeat => s.(messages := s.messages + {Heartbeat(s.running.value.version)})
    case Deliver(Ack(v, ok)) => s.(events := s.events + [Acked(v, ok)])
    case Deliver(Heartbeat(v)) => s.(events := s.events + [Beat(v)])
    case Expire => s.(events := s.events + [Expired])
  }

  // At the start only verified binaries are installed, and nothing has been sent.
  ghost predicate Initial(s: System, genuine: Binary -> bool) {
    && s.events == [] && s.commands == {} && s.messages == {}
    && BinariesGenuine(s, genuine)
  }

  ghost predicate BinariesGenuine(s: System, genuine: Binary -> bool) {
    && DiskGenuine(s.disk, genuine)
    && (s.running.Some? ==> genuine(s.running.value))
  }

  // Every step of a run is an enabled action.
  ghost predicate IsRun(run: seq<System>, actions: seq<Action>, genuine: Binary -> bool) {
    && |run| == |actions| + 1
    && Initial(run[0], genuine)
    && forall k | 0 <= k < |actions| :: Enabled(run[k], actions[k], genuine)
         && run[k + 1] == Next(run[k], actions[k], genuine)
  }

  lemma IsRunPrefix(run: seq<System>, actions: seq<Action>, genuine: Binary -> bool)
    requires IsRun(run, actions, genuine) && actions != []
    ensures IsRun(run[..|actions|], actions[..|actions| - 1], genuine)
  {
  }

  // ----- Only verified binaries are ever run -----

  predicate DiskGenuine(d: Files, genuine: Binary -> bool) {
    (Exec in d ==> genuine(d[Exec])) && (Old in d ==> genuine(d[Old]))
  }

  // A disk that is genuine now and was at every earlier point.
  predicate TraceGenuine(t: Trace, genuine: Binary -> bool) {
    && DiskGenuine(t.now, genuine)
    && t.visited != [] && t.visited[|t.visited| - 1] == t.now
    && forall i | 0 <= i < |t.visited| :: DiskGenuine(t.visited[i], genuine)
  }

  lemma RenameGenuine(t: Trace, from: Path, to: Path, genuine: Binary -> bool)
    requires TraceGenuine(t, genuine) && from in t.now && from != to && genuine(t.now[from])
    ensures TraceGenuine(Rename(t, from, to), genuine)
  {
  }

  lemma RemoveGenuine(t: Trace, p: Path, genuine: Binary -> bool)
    requires TraceGenuine(t, genuine)
    ensures TraceGenuine(Remove(t, p), genuine)
  {
  }

  lemma UpgradeKeepsGenuine(d: Files, a: Attempt, genuine: Binary -> bool)
    requires DiskGenuine(d, genuine)
    ensures TraceGenuine(Upgrade(Started(d), a, genuine).0, genuine)
  {
    if a.accepted && a.created {
      var s := Put(Started(d), Tmp, a.body);
      assert TraceGenuine(s, genuine);
      RemoveGenuine(s, Tmp, genuine);
      if a.copied && a.decodes && genuine(a.body) && a.chmod {
        SwapKeepsGenuine(s, a, genuine);
        RemoveGenuine(Swap(s, a).0, Tmp, genuine);
      }
    }
  }

  lemma SwapKeepsGenuine(s: Trace, a: Attempt, genuine: Binary -> bool)
    requires TraceGenuine(s, genuine) && Tmp in s.now && genuine(s.now[Tmp])
    ensures TraceGenuine(Swap(s, a).0, genuine)
  {
    if Old !in s.now || a.removeOld {
      RemoveGenuine(s, Old, genuine);
      var u := Remove(s, Old);
      if Exec in u.now && a.backup {
        RenameGenuine(u, Exec, Old, genuine);
        var v := Rename(u, Exec, Old);
        RenameGenuine(v, Tmp, Exec, genuine);
        RenameGenuine(v, Old, Exec, genuine);
      }
    }
  }

  lemma RollbackKeepsGenuine(d: Files, remove: bool, rename: bool, genuine: Binary -> bool)
    requires DiskGenuine(d, genuine)
    ensures TraceGenuine(Rollback(Started(d), remove, rename).0, genuine)
  {
    if Old in d {
      RemoveGenuine(Started(d), Exec, genuine);
      RenameGenuine(Remove(Started(d), Exec), Old, Exec, genuine);
    }
  }

  lemma StepKeepsGenuine(s: System, a: Action, genuine: Binary -> bool)
    requires Enabled(s, a, genuine) && BinariesGenuine(s, genuine)
    ensures BinariesGenuine(Next(s, a, genuine), genuine)
  {
    match a {
      case ReceiveUpgrade(_, attempt) =>
        UpgradeKeepsGenuine(s.disk, attempt, genuine);
      case CrashInUpgrade(_, attempt, _) => UpgradeKeepsGenuine(s.disk, attempt, genuine);
      case RestartFails(remove, rename) => RollbackKeepsGenuine(s.disk, remove, rename, genuine);
      case CrashInRollback(remove, rename, _) => RollbackKeepsGenuine(s.disk, remove, rename, genuine);
      case _ =>
    }
  }

  lemma {:induction false} RunsGenuine(run: seq<System>, actions: seq<Action>, genuine: Binary -> bool)
    requires IsRun(run, actions, genuine)
    ensures forall k | 0 <= k < |run| :: BinariesGenuine(run[k], genuine)
    decreases |actions|
  {
    if actions != [] {
      IsRunPrefix(run, actions, genuine);
      var n := |actions| - 1;
      RunsGenuine(run[..n + 1], actions[..n], genuine);
      assert run[..n + 1][n] == run[n];
      StepKeepsGenuine(run[n], actions[n], genuine);
      assert forall k | 0 <= k <= n :: run[k] == run[..n + 1][k];
    }
  }

  // ----- Where messages and events come from -----

  // Step k is an upgrade that ended Ok and left its verified download at the executable path.
  ghost predicate Installed(run: seq<System>, actions: seq<Action>, k: nat, version: string, genuine: Binary -> bool)
    requires IsRun(run, actions, genuine)
  {
    && k < |actions|
    && actions[k].ReceiveUpgrade? && actions[k].version == version
    && genuine(actions[k].attempt.body)
    && Holds(run[k + 1].disk, Exec, actions[k].attempt.body)
  }

  // At k the agent process runs a binary of that version.
  ghost predicate RunsVersion(run: seq<System>, k: nat, version: string) {
    k < |run| && run[k].running.Some? && run[k].running.value.version == version
  }

  // Whatever the server has received, the agent has sent.
  ghost predicate EventsSent(s: System) {
    && (forall v, ok | Acked(v, ok) in s.events :: Ack(v, ok) in s.messages)
    && (forall v | Beat(v) in s.events :: Heartbeat(v) in s.messages)
  }

  ghost predicate OriginsKnown(run: seq<System>, actions: seq<Action>, genuine: Binary -> bool)
    requires IsRun(run, actions, genuine)
  {
    var s := run[|actions|];
    && (forall v | Ack(v, true) in s.messages :: exists k: nat :: Installed(run, actions, k, v, genuine))
    && (forall v | Heartbeat(v) in s.messages :: exists k: nat :: RunsVersion(run, k, v))
    && EventsSent(s)
  }

  lemma AckOrigin(run: seq<System>, actions: seq<Action>, v: string, genuine: Binary -> bool)
    requires IsRun(run, actions, genuine) && actions != [] && IsRun(run[..|actions|], actions[..|actions| - 1], genuine)
    requires OriginsKnown(run[..|actions|], actions[..|actions| - 1], genuine)
    requires Ack(v, true) in run[|actions|].messages
    ensures exists k: nat :: Installed(run, actions, k, v, genuine)
  {
    var n := |actions| - 1;
    if Ack(v, true) in run[n].messages {
      var k: nat :| Installed(run[..n + 1], actions[..n], k, v, genuine);
      assert Installed(run, actions, k, v, genuine);
    } else {
      UpgradeOutcome(Started(run[n].disk), actions[n].attempt, genuine);
      assert Installed(run, actions, n, v, genuine);
    }
  }

  lemma HeartbeatOrigin(run: seq<System>, actions: seq<Action>, v: string, genuine: Binary -> bool)
    requires IsRun(run, actions, genuine) && actions != [] && IsRun(run[..|actions|], actions[..|actions| - 1], genuine)
    requires OriginsKnown(run[..|actions|], actions[..|actions| - 1], genuine)
    requires Heartbeat(v) in run[|actions|].messages
    ensures exists k: nat :: RunsVersion(run, k, v)
  {
    var n := |actions| - 1;
    if Heartbeat(v) in run[n].messages {
      var k: nat :| RunsVersion(run[..n + 1], k, v);
      assert RunsVersion(run, k, v);
    } else {
      assert RunsVersion(run, n, v);
    }
  }

  lemma EventOrigins(s: System, a: Action, genuine: Binary -> bool)
    requires Enabled(s, a, genuine)
    requires EventsSent(s)
    ensures EventsSent(Next(s, a, genuine))
  {
  }

  lemma {:induction false} OriginsOfRuns(run: seq<System>, actions: seq<Action>, genuine: Binary -> bool)
    requires IsRun(run, actions, genuine)
    ensures OriginsKnown(run, actions, genuine)
    decreases |actions|
  {
    if actions != [] {
      IsRunPrefix(run, actions, genuine);
      var n := |actions| - 1;
      OriginsOfRuns(run[..n + 1], actions[..n], genuine);
      EventOrigins(run[n], actions[n], genuine);
      forall v | Ack(v, true) in run[n + 1].messages ensures exists k: nat :: Installed(run, actions, k, v, genuine) {
        AckOrigin(run, actions, v, genuine);
      }
      forall v | Heartbeat(v) in run[n + 1].messages ensures exists k: nat :: RunsVersion(run, k, v) {
        HeartbeatOrigin(run, actions, v, genuine);
      }
    }
  }

  /** In every run, once the record says confirmed: an ok ack of the current target arrived and a
      heartbeat of that version after it; a verified download for that version had been put at the
      executable path, and the agent had been running a verified binary of that version. */
  lemma ConfirmedMeansUpgraded(run: seq<System>, actions: seq<Action>, genuine: Binary -> bool)
    requires IsRun(run, actions, genuine)
    ensures var s := run[|actions|];
      After(s.events).state == Confirmed ==>
        var v := TargetAfter(s.events);
        && (exists i: nat, j: nat :: ConfirmedBy(s.events, i, j) && s.events[j] == Beat(v))
        && (exists k: nat :: Installed(run, actions, k, v, genuine))
        && (exists k: nat :: RunsVersion(run, k, v) && genuine(run[k].running.value))
  {
    var s := run[|actions|];
    if After(s.events).state == Confirmed {
      EventsExplain(s.events);
      var i: nat, j: nat :| ConfirmedBy(s.events, i, j);
      var v := s.events[j].version;
      AckedTarget(s.events, i, v, true);
      OriginsOfRuns(run, actions, genuine);
      RunsGenuine(run, actions, genuine);
      assert Acked(v, true) in s.events && Beat(v) in s.events;
      var k: nat :| RunsVersion(run, k, v);
      assert genuine(run[k].running.value);
    }
  }
}
