/** The contexts of running scans and the registry that scan_cancel looks them up in
    (agent/internal/scan/engine.go).

    Every run makes a context of its own below the engine's root context and registers its cancel
    function under the task id. While it goes on, cancellations and other runs come and go: these are
    the signals. A run has numbered points at which it may look at its context; the timeline says
    which signals come between one point and the next. */
module ScanContexts {

  datatype Signal =
    | CancelTask(taskId: string)    // scan_cancel
    | CancelRoot                    // agent_shutdown, or a signal to the process
    | OtherStarts(taskId: string)   // another run registers itself, under whatever task id
    | OtherEnds(taskId: string)     // ... and removes what is registered there

  // A handle stands for a context together with its cancel function.
  datatype Contexts = Contexts(root: bool, cancelled: set<nat>, registry: map<string, nat>, next: nat)

  type Timeline = nat -> seq<Signal>

  // Handles are made in order.
  predicate Sound(c: Contexts) {
    (forall h | h in c.cancelled :: h < c.next) && forall t | t in c.registry :: c.registry[t] < c.next
  }

  // ctx.Err() != nil
  predicate Done(c: Contexts, h: nat) { c.root || h in c.cancelled }

  function Register(c: Contexts, taskId: string): Contexts {
    c.(registry := c.registry[taskId := c.next], next := c.next + 1)
  }

  function Apply(c: Contexts, s: Signal): Contexts {
    match s
    case CancelTask(t) => if t in c.registry then c.(cancelled := c.cancelled + {c.registry[t]}) else c
    case CancelRoot => c.(root := true)
    case OtherStarts(t) => Register(c, t)
    case OtherEnds(t) => c.(registry := c.registry - {t})
  }

  function Pass(c: Contexts, ss: seq<Signal>): Contexts {
    if ss == [] then c else Apply(Pass(c, ss[..|ss| - 1]), ss[|ss| - 1])
  }

  // The contexts at the k-th point, and before the signals that come ahead of it.
  function At(c: Contexts, tl: Timeline, k: nat): Contexts
    decreases k, 1
  {
    Pass(Before(c, tl, k), tl(k))
  }

  function Before(c: Contexts, tl: Timeline, k: nat): Contexts
    decreases k, 0
  {
    if k == 0 then c else At(c, tl, k - 1)
  }

  // The signal hits the handle's context or its parent.
  predicate Hits(c: Contexts, s: Signal, h: nat) {
    s.CancelRoot? || (s.CancelTask? && s.taskId in c.registry && c.registry[s.taskId] == h)
  }

  // The i-th of some signals hits the handle.
  predicate HitAt(c: Contexts, ss: seq<Signal>, h: nat, i: nat) { i < |ss| && Hits(Pass(c, ss[..i]), ss[i], h) }

  // The i-th signal ahead of the j-th point does.
  predicate Strikes(c: Contexts, tl: Timeline, h: nat, j: nat, i: nat) {
    HitAt(Before(c, tl, j), tl(j), h, i)
  }

  lemma {:induction false} PassSound(c: Contexts, ss: seq<Signal>)
    requires Sound(c)
    ensures Sound(Pass(c, ss)) && c.next <= Pass(c, ss).next && (c.root ==> Pass(c, ss).root)
      && c.cancelled <= Pass(c, ss).cancelled
  {
    if ss != [] { PassSound(c, ss[..|ss| - 1]); }
  }

  lemma ApplyDone(c: Contexts, s: Signal, h: nat)
    ensures Done(Apply(c, s), h) <==> Done(c, h) || Hits(c, s, h)
  {
  }

  lemma {:induction false} PassDone(c: Contexts, ss: seq<Signal>, h: nat)
    ensures Done(Pass(c, ss), h) <==> Done(c, h) || exists i: nat :: HitAt(c, ss, h, i)
  {
    if ss != [] {
      var n := |ss| - 1;
      PassDone(c, ss[..n], h);
      ApplyDone(Pass(c, ss[..n]), ss[n], h);
      if i: nat :| HitAt(c, ss[..n], h, i) {
        assert ss[..n][..i] == ss[..i];
        assert HitAt(c, ss, h, i);
      }
      if Hits(Pass(c, ss[..n]), ss[n], h) { assert HitAt(c, ss, h, n); }
      if i: nat :| HitAt(c, ss, h, i) {
        if i < n {
          assert ss[..n][..i] == ss[..i];
          assert HitAt(c, ss[..n], h, i);
        }
      }
    }
  }

  /** A context is cancelled at a point exactly when a signal has hit it or the root by then: a
      scan_cancel hits it if it is what the task id is registered for at that moment. */
  lemma {:induction false} DoneExactly(c: Contexts, tl: Timeline, h: nat, k: nat)
    ensures Done(At(c, tl, k), h) <==> Done(c, h) || exists j: nat, i: nat | j <= k :: Strikes(c, tl, h, j, i)
  {
    PassDone(Before(c, tl, k), tl(k), h);
    if k > 0 { DoneExactly(c, tl, h, k - 1); }
    if i: nat :| HitAt(Before(c, tl, k), tl(k), h, i) { assert Strikes(c, tl, h, k, i); }
  }

  lemma {:induction false} StaysDone(c: Contexts, tl: Timeline, h: nat, j: nat, k: nat)
    requires j <= k && Done(At(c, tl, j), h)
    ensures Done(At(c, tl, k), h)
    decreases k
  {
    if j < k {
      StaysDone(c, tl, h, j, k - 1);
      PassDone(Before(c, tl, k), tl(k), h);
    }
  }

  // A context that has just been made.
  lemma FreshHandle(c: Contexts, taskId: string)
    requires Sound(c)
    ensures Sound(Register(c, taskId)) && (Done(Register(c, taskId), c.next) <==> c.root)
  {
  }
}
