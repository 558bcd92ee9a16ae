/** Replacing the agent's binary on disk (agent/internal/updater/upgrade.go).

    The disk is a map from paths to contents. Removing and renaming are atomic and may fail; a crash
    leaves the disk in one of the states it went through, so every state is recorded. Whether the
    request's Ed25519 signature matches a content is the parameter `genuine`. */
module BinaryUpgrade {

  datatype Path = Exec | Old | Tmp   // Old is Exec + ".old", Tmp the staged download

  datatype Binary = Binary(version: string, id: nat)

  type Files = map<Path, Binary>

  // The disk now, and every state since the start, the present one last.
  datatype Trace = Trace(now: Files, visited: seq<Files>)

  function Started(d: Files): Trace { Trace(d, [d]) }

  function To(t: Trace, d: Files): Trace { Trace(d, t.visited + [d]) }

  function Put(t: Trace, p: Path, b: Binary): Trace { To(t, t.now[p := b]) }

  function Remove(t: Trace, p: Path): Trace { if p in t.now then To(t, t.now - {p}) else t }

  function Renamed(d: Files, from: Path, to: Path): Files
    requires from in d && from != to
  {
    (d - {from})[to := d[from]]
  }

  function Rename(t: Trace, from: Path, to: Path): Trace
    requires from in t.now && from != to
  {
    To(t, Renamed(t.now, from, to))
  }

  // What the surroundings make of one upgrade command.
  datatype Attempt = Attempt(
    accepted: bool,      // signature and key present, path found, download answered with 200
    created: bool,       // the staged file could be created
    body: Binary,        // what ends up in it
    copied: bool,        // ... completely, within the size limit, and closed
    decodes: bool,       // the signature is valid base64
    chmod: bool,
    removeOld: bool,
    backup: bool,        // rename Exec to Old
    install: bool,       // rename Tmp to Exec
    rollback: bool)      // rename Old back to Exec

  datatype Outcome = Ok | Failed | RollbackFailed

  // ----- HandleUpgrade and rollbackBinary -----

  function Upgrade(t: Trace, a: Attempt, genuine: Binary -> bool): (Trace, Outcome) {
    if !a.accepted || !a.created then (t, Failed)
    else
      var s := Put(t, Tmp, a.body);
      if !a.copied || !a.decodes || !genuine(a.body) || !a.chmod then (Remove(s, Tmp), Failed)
      else
        var (u, outcome) := Swap(s, a);
        (Remove(u, Tmp), outcome)
  }

  // The part after everything has been validated; the staged file is removed by the caller.
  function Swap(s: Trace, a: Attempt): (Trace, Outcome)
    requires Tmp in s.now
  {
    if Old in s.now && !a.removeOld then (s, Failed)
    else
      var u := Remove(s, Old);
      if Exec !in u.now || !a.backup then (u, Failed)
      else
        var v := Rename(u, Exec, Old);
        if a.install then (Rename(v, Tmp, Exec), Ok)
        else if a.rollback then (Rename(v, Old, Exec), Failed)
        else (v, RollbackFailed)
  }

  function Rollback(t: Trace, remove: bool, rename: bool): (Trace, bool) {
    if Old !in t.now then (t, true)
    else if Exec in t.now && !remove then (t, false)
    else
      var u := Remove(t, Exec);
      if rename then (Rename(u, Old, Exec), true) else (u, false)
  }

  // ----- The swap of nuclei and of its templates -----

  // damage: what the old backup becomes while it is being removed, if it is a directory.
  datatype Installation = Installation(damage: seq<Binary>, removeOld: bool, backup: bool, install: bool,
      rollback: bool)

  function Damage(t: Trace, damage: seq<Binary>): Trace
    decreases |damage|
  {
    if damage == [] then t else Damage(Put(t, Old, damage[0]), damage[1..])
  }

  // os.RemoveAll of the old backup, which is best effort.
  function ClearOld(t: Trace, a: Installation): Trace {
    if Old !in t.now then t
    else
      var u := Damage(t, a.damage);
      if a.removeOld then Remove(u, Old) else u
  }

  // Exec is the binary or directory to replace, Tmp its staged successor. A missing Exec is no error.
  function Install(t: Trace, a: Installation): (Trace, bool)
    requires Tmp in t.now
  {
    var u := ClearOld(t, a);
    ClearOldKeeps(t, a);
    if Exec in u.now && !a.backup then (u, false)
    else
      var v := if Exec in u.now then Rename(u, Exec, Old) else u;
      if a.install then (Rename(v, Tmp, Exec), true)
      else if Old in v.now && a.rollback then (Rename(v, Old, Exec), false)
      else (v, false)
  }

  // Only the old backup is touched.
  predicate OldOnly(t: Trace, u: Trace) {
    && t.visited <= u.visited && u.now - {Old} == t.now - {Old}
    && forall i | |t.visited| <= i < |u.visited| :: u.visited[i] - {Old} == t.now - {Old}
  }

  lemma {:induction false} DamageKeeps(t: Trace, damage: seq<Binary>)
    requires Old in t.now
    ensures OldOnly(t, Damage(t, damage)) && Old in Damage(t, damage).now
    decreases |damage|
  {
    if damage != [] { DamageKeeps(Put(t, Old, damage[0]), damage[1..]); }
  }

  lemma ClearOldKeeps(t: Trace, a: Installation)
    ensures OldOnly(t, ClearOld(t, a)) && (Old in ClearOld(t, a).now <==> Old in t.now && !a.removeOld)
    ensures forall p: Path :: p != Old ==>
      (p in ClearOld(t, a).now <==> p in t.now) && (p in t.now ==> ClearOld(t, a).now[p] == t.now[p])
  {
    if Old in t.now { DamageKeeps(t, a.damage); }
    var u := ClearOld(t, a);
    forall p: Path | p != Old ensures (p in u.now <==> p in t.now) && (p in t.now ==> u.now[p] == t.now[p]) {
      assert p in u.now - {Old} <==> p in t.now - {Old};
      if p in t.now { assert (u.now - {Old})[p] == (t.now - {Old})[p]; }
    }
  }

  // ----- What holds at every moment -----

  predicate Holds(d: Files, p: Path, b: Binary) { p in d && d[p] == b }

  predicate Kept(d: Files, prior: Binary) { Holds(d, Exec, prior) || Holds(d, Old, prior) }

  // Whatever is run from here is the prior binary or a verified download.
  predicate Trusted(d: Files, prior: Binary, body: Binary, genuine: Binary -> bool) {
    Exec in d ==> d[Exec] == prior || (d[Exec] == body && genuine(body))
  }

  predicate SameAt(d: Files, e: Files, p: Path) { (p in e <==> p in d) && (p in d ==> e[p] == d[p]) }

  // The states a trace has gained since another one are safe, and so is the present one.
  predicate SafeSince(t: Trace, u: Trace, prior: Binary, body: Binary, genuine: Binary -> bool) {
    && t.visited <= u.visited && Kept(u.now, prior) && Trusted(u.now, prior, body, genuine)
    && forall i | |t.visited| <= i < |u.visited| ::
         Kept(u.visited[i], prior) && Trusted(u.visited[i], prior, body, genuine)
  }

  lemma SwapIsSafe(s: Trace, a: Attempt, genuine: Binary -> bool)
    requires Exec in s.now && Holds(s.now, Tmp, a.body) && genuine(a.body)
    ensures SafeSince(s, Swap(s, a).0, s.now[Exec], a.body, genuine)
  {
  }

  /** At every point of an upgrade, and so after a crash anywhere, the prior binary is at its path or
      at the backup path and nothing unverified is at the executable path. */
  lemma UpgradeIsSafe(t: Trace, a: Attempt, genuine: Binary -> bool)
    ensures var (u, _) := Upgrade(t, a, genuine);
      && t.visited <= u.visited
      && (Exec in t.now ==> forall i | |t.visited| <= i < |u.visited| ::
            Kept(u.visited[i], t.now[Exec]) && Trusted(u.visited[i], t.now[Exec], a.body, genuine))
  {
    var s := Put(t, Tmp, a.body);
    if Exec in t.now && a.accepted && a.created && genuine(a.body) { SwapIsSafe(s, a, genuine); }
  }

  // The download has been made, verified and staged.
  predicate Validated(a: Attempt, genuine: Binary -> bool) {
    a.accepted && a.created && a.copied && a.decodes && genuine(a.body) && a.chmod
  }

  // The old backup is out of the way and the executable has become the backup.
  predicate BackedUp(d: Files, a: Attempt) { (Old in d ==> a.removeOld) && Exec in d && a.backup }

  /** An upgrade is ok exactly when each of its steps works, and its rollback fails exactly when the
      installation and the way back both do; before everything has been validated only the staged file
      is touched. */
  lemma UpgradeSucceedsIff(t: Trace, a: Attempt, genuine: Binary -> bool)
    ensures var (u, outcome) := Upgrade(t, a, genuine);
      && (outcome == Ok <==> Validated(a, genuine) && BackedUp(t.now, a) && a.install)
      && (outcome == RollbackFailed <==> Validated(a, genuine) && BackedUp(t.now, a) && !a.install && !a.rollback)
      && (!Validated(a, genuine) ==> SameAt(t.now, u.now, Exec) && SameAt(t.now, u.now, Old))
      && (a.accepted && a.created ==> Tmp !in u.now)
  {
  }

  /** Ok leaves the verified download at the executable path and the prior binary behind it; an
      error leaves the executable path as it was, unless the rollback itself failed. */
  lemma UpgradeOutcome(t: Trace, a: Attempt, genuine: Binary -> bool)
    ensures var (u, outcome) := Upgrade(t, a, genuine);
      && (t.visited != [] && t.visited[|t.visited| - 1] == t.now ==> u.visited[|u.visited| - 1] == u.now)
      && (outcome == Ok ==>
            genuine(a.body) && Exec in t.now
              && u.now == t.now - {Exec, Old, Tmp} + map[Exec := a.body, Old := t.now[Exec]])
      && (outcome == Failed ==> SameAt(t.now, u.now, Exec))
      && (outcome == RollbackFailed ==> Exec in t.now && Exec !in u.now && Holds(u.now, Old, t.now[Exec]))
  {
  }

  /** A rollback never loses the backup, and puts it back if it succeeds. */
  lemma RollbackRestores(t: Trace, remove: bool, rename: bool)
    ensures var (u, ok) := Rollback(t, remove, rename);
      && t.visited <= u.visited
      && (Old !in t.now ==> ok && u == t)
      && (Old in t.now ==>
            && (ok <==> (Exec in t.now ==> remove) && rename)
            && (ok ==> u.now == t.now - {Old} + map[Exec := t.now[Old]])
            && forall i | |t.visited| <= i < |u.visited| :: Kept(u.visited[i], t.now[Old]))
  {
  }

  /** Replacing nuclei or its templates keeps the prior one, at its path or at the backup path, at
      every point; success puts the staged one in its place. */
  lemma InstallKeepsPrior(t: Trace, a: Installation)
    requires Tmp in t.now
    ensures var (u, ok) := Install(t, a);
      && t.visited <= u.visited
      && (Exec in t.now ==> forall i | |t.visited| <= i < |u.visited| :: Kept(u.visited[i], t.now[Exec]))
      && (Exec in t.now && ok ==> u.now == t.now - {Tmp} + map[Exec := t.now[Tmp], Old := t.now[Exec]])
      && (ok ==> Holds(u.now, Exec, t.now[Tmp]) && Tmp !in u.now)
      && (ok <==> (Exec in t.now ==> a.backup) && a.install)
  {
    ClearOldKeeps(t, a);
    var c := ClearOld(t, a);
    if Exec in t.now {
      forall i | |t.visited| <= i < |c.visited| ensures Holds(c.visited[i], Exec, t.now[Exec]) {
        assert Exec in t.now - {Old} && (c.visited[i] - {Old})[Exec] == t.now[Exec];
      }
    }
  }

  /** An error leaves what was there exactly when the rollback of an existing one works; and when
      there was none, exactly when no stale backup is rolled forward in its place. */
  lemma InstallErrorKeepsIff(t: Trace, a: Installation)
    requires Tmp in t.now && !Install(t, a).1
    ensures SameAt(t.now, Install(t, a).0.now, Exec) <==>
      if Exec in t.now then !a.backup || a.rollback else !(Old in t.now && !a.removeOld && a.rollback)
  {
    ClearOldKeeps(t, a);
  }

  // ----- The source's steps -----

  class Disk {
    var files: Files
    var history: seq<Files>

    function View(): Trace reads this { Trace(files, history) }

    constructor (d: Files)
      ensures View() == Started(d)
    {
      files, history := d, [d];
    }

    method Write(p: Path, b: Binary)
      modifies this
      ensures View() == Put(old(View()), p, b)
    {
      files := files[p := b];
      history := history + [files];
    }

    // os.Remove; a missing file counts as removed.
    method Delete(p: Path, works: bool) returns (done: bool)
      modifies this
      ensures done == (p !in old(files) || works)
      ensures View() == if done then Remove(old(View()), p) else old(View())
    {
      if p !in files { return true; }
      if !works { return false; }
      files := files - {p};
      history := history + [files];
      return true;
    }

    // os.Rename
    method Move(from: Path, to: Path, works: bool) returns (done: bool)
      requires from != to
      modifies this
      ensures done == (from in old(files) && works)
      ensures done ==> from in old(files) && View() == Rename(old(View()), from, to)
      ensures !done ==> View() == old(View())
    {
      if from !in files || !works { return false; }
      files := (files - {from})[to := files[from]];
      history := history + [files];
      return true;
    }

    /** At every point from here on the prior binary is kept and only trusted content is installed; ok
        means that the verified download has taken its place, and an error that nothing has, unless the
        rollback failed as well. */
    method HandleUpgrade(a: Attempt, genuine: Binary -> bool) returns (outcome: Outcome)
      modifies this
      ensures (View(), outcome) == Upgrade(old(View()), a, genuine)
      ensures old(history) <= history
      ensures Exec in old(files) ==> forall i | |old(history)| <= i < |history| ::
        Kept(history[i], old(files)[Exec]) && Trusted(history[i], old(files)[Exec], a.body, genuine)
      ensures outcome == Ok <==> Validated(a, genuine) && BackedUp(old(files), a) && a.install
      ensures outcome == RollbackFailed <==>
        Validated(a, genuine) && BackedUp(old(files), a) && !a.install && !a.rollback
      ensures !Validated(a, genuine) ==> SameAt(old(files), files, Old)
      ensures outcome == Ok ==> files == old(files) - {Exec, Old, Tmp} + map[Exec := a.body, Old := old(files)[Exec]]
      ensures outcome == Failed ==> SameAt(old(files), files, Exec)
      ensures outcome == RollbackFailed ==> Exec in old(files) && Exec !in files && Holds(files, Old, old(files)[Exec])
    {
      UpgradeIsSafe(View(), a, genuine);
      UpgradeOutcome(View(), a, genuine);
      UpgradeSucceedsIff(View(), a, genuine);
      outcome := ValidateAndSwap(a, genuine);
    }

    method ValidateAndSwap(a: Attempt, genuine: Binary -> bool) returns (outcome: Outcome)
      modifies this
      ensures (View(), outcome) == Upgrade(old(View()), a, genuine)
    {
      if !a.accepted { return Failed; }
      if !a.created { return Failed; }
      Write(Tmp, a.body);
      if !a.copied || !a.decodes || !genuine(a.body) || !a.chmod {
        var _ := Delete(Tmp, true);
        return Failed;
      }
      outcome := SwapIn(a);
      var _ := Delete(Tmp, true);
    }

    method SwapIn(a: Attempt) returns (outcome: Outcome)
      requires Tmp in files
      modifies this
      ensures (View(), outcome) == Swap(old(View()), a)
    {
      var done := Delete(Old, a.removeOld);
      if !done { return Failed; }
      done := Move(Exec, Old, a.backup);
      if !done { return Failed; }
      done := Move(Tmp, Exec, a.install);
      if !done {
        var restored := Move(Old, Exec, a.rollback);
        return if restored then Failed else RollbackFailed;
      }
      return Ok;
    }

    /** The ends of extractNucleiBinary and swapTemplatesZip: what was there is kept throughout; it is
        replaced on success, and on an error left in place exactly when the rollback of an existing one
        works, or when no stale backup is rolled forward. */
    method InstallStaged(a: Installation) returns (ok: bool)
      requires Tmp in files
      modifies this
      ensures old(history) <= history
      ensures Exec in old(files) ==> forall i | |old(history)| <= i < |history| :: Kept(history[i], old(files)[Exec])
      ensures ok <==> (Exec in old(files) ==> a.backup) && a.install
      ensures ok ==> Holds(files, Exec, old(files)[Tmp])
      ensures ok && Exec in old(files) ==>
        files == old(files) - {Tmp} + map[Exec := old(files)[Tmp], Old := old(files)[Exec]]
      ensures !ok ==> (SameAt(old(files), files, Exec) <==>
        if Exec in old(files) then !a.backup || a.rollback else !(Old in old(files) && !a.removeOld && a.rollback))
    {
      InstallKeepsPrior(View(), a);
      if !Install(View(), a).1 { InstallErrorKeepsIff(View(), a); }
      ok := SwapStaged(a);
    }

    method RemoveAllOld(a: Installation)
      modifies this
      ensures View() == ClearOld(old(View()), a)
    {
      if Old in files {
        var rest := a.damage;
        DamageKeeps(View(), a.damage);
        while rest != []
          invariant Damage(View(), rest) == Damage(old(View()), a.damage)
          decreases |rest|
        {
          Write(Old, rest[0]);
          rest := rest[1..];
        }
        var _ := Delete(Old, a.removeOld);
      }
    }

    method SwapStaged(a: Installation) returns (ok: bool)
      requires Tmp in files
      modifies this
      ensures (View(), ok) == Install(old(View()), a)
    {
      RemoveAllOld(a);
      ClearOldKeeps(old(View()), a);
      if Exec in files {
        ok := Move(Exec, Old, a.backup);
        if !ok { return false; }
      }
      ok := Move(Tmp, Exec, a.install);
      if !ok && Old in files { var _ := Move(Old, Exec, a.rollback); }
    }

    /** The backup is never lost on the way, and success puts it back. */
    method RollbackBinary(remove: bool, rename: bool) returns (ok: bool)
      modifies this
      ensures old(history) <= history
      ensures Old !in old(files) ==> ok && files == old(files)
      ensures Old in old(files) ==> (ok <==> (Exec in old(files) ==> remove) && rename)
      ensures Old in old(files) && ok ==> files == old(files) - {Old} + map[Exec := old(files)[Old]]
      ensures Old in old(files) ==> forall i | |old(history)| <= i < |history| :: Kept(history[i], old(files)[Old])
    {
      RollbackRestores(View(), remove, rename);
      ok := RestoreOld(remove, rename);
    }

    method RestoreOld(remove: bool, rename: bool) returns (ok: bool)
      modifies this
      ensures (View(), ok) == Rollback(old(View()), remove, rename)
    {
      if Old !in files { return true; }
      var done := Delete(Exec, remove);
      if !done { return false; }
      done := Move(Old, Exec, rename);
      return done;
    }
  }

  /** An upgrade followed by a rollback that succeeds is the identity on the executable path, and the
      prior binary survives every point of the rollback. */
  lemma RollbackUndoes(d: Files, a: Attempt, genuine: Binary -> bool, remove: bool, rename: bool)
    requires Exec in d && Upgrade(Started(d), a, genuine).1 == Ok
    ensures var swapped := Upgrade(Started(d), a, genuine).0.now;
      var (t, ok) := Rollback(Started(swapped), remove, rename);
      && (ok <==> remove && rename)
      && (ok ==> t.now == d - {Old, Tmp})
      && (forall i | 0 <= i < |t.visited| :: Kept(t.visited[i], d[Exec]))
  {
    UpgradeOutcome(Started(d), a, genuine);
    RollbackRestores(Started(Upgrade(Started(d), a, genuine).0.now), remove, rename);
  }

  // The binary an upgrade must not lose.
  function Prior(d: Files): Binary
    requires Exec in d || Old in d
  {
    if Exec in d then d[Exec] else d[Old]
  }

  /** No command loses the binary if and only if there is one at the executable path: after a failed
      rollback the next command deletes the only copy before it notices (upgrade.go:165-171). */
  lemma NothingLostIffInstalled(d: Files, genuine: Binary -> bool, body: Binary)
    requires (Exec in d || Old in d) && genuine(body)
    ensures Exec in d
      <==> forall a: Attempt, i ::
             0 <= i < |Upgrade(Started(d), a, genuine).0.visited| ==>
               Kept(Upgrade(Started(d), a, genuine).0.visited[i], Prior(d))
  {
    if Exec in d {
      forall a: Attempt, i | 0 <= i < |Upgrade(Started(d), a, genuine).0.visited|
        ensures Kept(Upgrade(Started(d), a, genuine).0.visited[i], Prior(d))
      {
        UpgradeIsSafe(Started(d), a, genuine);
      }
    } else {
      var a := Attempt(true, true, body, true, true, true, true, true, true, true);
      var t := Upgrade(Started(d), a, genuine).0;
      UpgradeOutcome(Started(d), a, genuine);
      assert !Kept(t.now, d[Old]);
      assert !Kept(t.visited[|t.visited| - 1], Prior(d));
    }
  }
}
