/**
 * The pod phase graph of src/pod/status.rs. Each phase is a marker type in
 * the source, and an edge exists only where a `From<Status<A>> for
 * Status<B>` impl is written; all eight of them rebuild the status with the
 * new tag around the old `inner`.
 */
module PodStatus {
  import opened Wrappers
  import PhaseGraph

  /** The pod phases of the graph (not necessarily those of Kubernetes). */
  datatype Phase = Registered | Pending | Running | Error | CrashLoopBackoff | Completed

  type Status<K> = PhaseGraph.Status<Phase, K>

  /**
   * The conversion of `s` into a status of phase `target`: one case per
   * written impl; every other request has no impl and is refused.
   */
  function Transition<K>(s: Status<K>, target: Phase): (r: Option<Status<K>>)
    ensures r.Some? ==> r.value.state == target && r.value.inner == s.inner
  {
    match (s.state, target)
    case (Registered, Pending) => Some(PhaseGraph.Status(Pending, s.inner))
    case (Pending, Running) => Some(PhaseGraph.Status(Running, s.inner))
    case (Pending, Error) => Some(PhaseGraph.Status(Error, s.inner))
    case (Running, Completed) => Some(PhaseGraph.Status(Completed, s.inner))
    case (Running, Error) => Some(PhaseGraph.Status(Error, s.inner))
    case (CrashLoopBackoff, Error) => Some(PhaseGraph.Status(Error, s.inner))
    case (Error, Pending) => Some(PhaseGraph.Status(Pending, s.inner))
    case (Error, CrashLoopBackoff) => Some(PhaseGraph.Status(CrashLoopBackoff, s.inner))
    case _ => None
  }

  /** The edge table, written out as the set of (from, to) pairs. */
  const Edges: set<(Phase, Phase)> :=
    {(Registered, Pending), (Pending, Running), (Pending, Error), (Running, Completed),
     (Running, Error), (CrashLoopBackoff, Error), (Error, Pending), (Error, CrashLoopBackoff)}

  function Walk<K>(s: Status<K>, targets: seq<Phase>): Option<Status<K>> {
    PhaseGraph.Walk(Transition, s, targets)
  }

  /** A transition is granted exactly for the pairs of the edge table. */
  lemma TransitionMatchesEdges<K>(s: Status<K>, target: Phase)
    ensures Transition(s, target).Some? <==> (s.state, target) in Edges
  {
  }

  /** The out-edges of every phase. */
  lemma OutgoingEdges<K>(s: Status<K>, t: Phase)
    ensures s.state == Registered ==> (Transition(s, t).Some? <==> t == Pending)
    ensures s.state == Pending ==> (Transition(s, t).Some? <==> t in {Running, Error})
    ensures s.state == Running ==> (Transition(s, t).Some? <==> t in {Completed, Error})
    ensures s.state == Error ==> (Transition(s, t).Some? <==> t in {Pending, CrashLoopBackoff})
    ensures s.state == CrashLoopBackoff ==> (Transition(s, t).Some? <==> t == Error)
  {
  }

  /** The table has eight edges. */
  lemma EdgeCount()
    ensures |Edges| == 8
  {
  }

  /** Completed is terminal and no edge enters Registered. */
  lemma CompletedTerminalRegisteredInitial<K>(s: Status<K>, target: Phase)
    ensures s.state == Completed ==> Transition(s, target).None?
    ensures target == Registered ==> Transition(s, target).None?
  {
  }

  /** Every walk keeps `inner` and changes only the phase tag. */
  lemma WalkKeepsInner<K(!new)>(s: Status<K>, targets: seq<Phase>)
    ensures Walk(s, targets).Some? ==>
              Walk(s, targets).value == PhaseGraph.Status(PhaseGraph.EndPhase(s.state, targets), s.inner)
  {
    PhaseGraph.WalkKeepsInner(Transition, s, targets);
  }

  /** Once a pod has left Registered it never returns to it, and nothing leaves Completed. */
  lemma {:induction false} NoWayBack<K(!new)>(s: Status<K>, targets: seq<Phase>)
    requires targets != []
    ensures Walk(s, targets).Some? ==> Walk(s, targets).value.state != Registered
    ensures s.state == Completed ==> Walk(s, targets).None?
    decreases |targets|
  {
    var step := Transition(s, targets[0]);
    CompletedTerminalRegisteredInitial(s, targets[0]);
    if step.Some? {
      if |targets| == 1 {
        assert Walk(step.value, targets[1..]) == Some(step.value);
      } else {
        NoWayBack(step.value, targets[1..]);
      }
      assert Walk(s, targets) == Walk(step.value, targets[1..]);
    }
  }

  /** A shortest path from Registered to each phase. */
  function PathFromRegistered(p: Phase): seq<Phase> {
    match p
    case Registered => []
    case Pending => [Pending]
    case Running => [Pending, Running]
    case Error => [Pending, Error]
    case CrashLoopBackoff => [Pending, Error, CrashLoopBackoff]
    case Completed => [Pending, Running, Completed]
  }

  /** Every phase, Completed among them, is reachable from Registered. */
  lemma EveryPhaseReachable<K>(inner: K, p: Phase)
    ensures Walk(PhaseGraph.Status(Registered, inner), PathFromRegistered(p)) == Some(PhaseGraph.Status(p, inner))
  {
    var pending := PhaseGraph.Status(Pending, inner);
    var running := PhaseGraph.Status(Running, inner);
    var error := PhaseGraph.Status(Error, inner);
    var registered := PhaseGraph.Status(Registered, inner);
    match p
    case Registered =>
    case Pending =>
      assert Walk(pending, []) == Some(pending);
      assert Walk(registered, [Pending]) == Some(pending);
    case Running =>
      assert Walk(running, []) == Some(running);
      assert Walk(pending, [Running]) == Some(running);
      assert Walk(registered, [Pending, Running]) == Some(running);
    case Error =>
      assert Walk(error, []) == Some(error);
      assert Walk(pending, [Error]) == Some(error);
      assert Walk(registered, [Pending, Error]) == Some(error);
    case CrashLoopBackoff =>
      var backoff := PhaseGraph.Status(CrashLoopBackoff, inner);
      assert Walk(backoff, []) == Some(backoff);
      assert Walk(error, [CrashLoopBackoff]) == Some(backoff);
      assert Walk(pending, [Error, CrashLoopBackoff]) == Some(backoff);
      assert Walk(registered, [Pending, Error, CrashLoopBackoff]) == Some(backoff);
    case Completed =>
      var completed := PhaseGraph.Status(Completed, inner);
      assert Walk(completed, []) == Some(completed);
      assert Walk(running, [Completed]) == Some(completed);
      assert Walk(pending, [Running, Completed]) == Some(completed);
      assert Walk(registered, [Pending, Running, Completed]) == Some(completed);
  }
}
