/**
 * The reduced three-phase container graph of src/container/status.rs:
 * `StatusWrapper` is the tagged union of `Status<Waiting>`,
 * `Status<Running>` and `Status<Terminated>`, `StatusWrapper::new` starts
 * every container in Waiting, and the `edge!` macro writes the only two
 * conversions, Waiting to Running and Running to Terminated. Each keeps
 * `inner` and sets the state to the target's `Default` value, which for
 * these unit marker types is the target phase itself.
 */
module ContainerStatus {
  import opened Wrappers
  import PhaseGraph

  datatype Phase = Waiting | Running | Terminated

  /** `StatusWrapper`: the variant is the phase tag of the status it holds. */
  type StatusWrapper<K> = PhaseGraph.Status<Phase, K>

  /** `StatusWrapper::new`: Waiting around the default Kubernetes status; the container is not consulted. */
  function New<C, K>(container: C, defaultStatus: K): (r: StatusWrapper<K>)
    ensures r.state == Order[0] && r.inner == defaultStatus
    ensures forall t :: Transition(r, t).Some? <==> t == Running
  {
    PhaseGraph.Status(Waiting, defaultStatus)
  }

  /** The two `edge!` instances. */
  function Transition<K>(s: StatusWrapper<K>, target: Phase): (r: Option<StatusWrapper<K>>)
    ensures r.Some? ==> r.value.state == target && r.value.inner == s.inner
  {
    match (s.state, target)
    case (Waiting, Running) => Some(PhaseGraph.Status(Running, s.inner))
    case (Running, Terminated) => Some(PhaseGraph.Status(Terminated, s.inner))
    case _ => None
  }

  function Walk<K>(s: StatusWrapper<K>, targets: seq<Phase>): Option<StatusWrapper<K>> {
    PhaseGraph.Walk(Transition, s, targets)
  }

  /** The phases in the order the edges visit them. */
  const Order: seq<Phase> := [Waiting, Running, Terminated]

  /** The position of a phase in Order. */
  function Rank(p: Phase): nat {
    match p
    case Waiting => 0
    case Running => 1
    case Terminated => 2
  }

  /** The only edges are Waiting to Running and Running to Terminated: Terminated is terminal and nothing enters Waiting. */
  lemma OnlyTwoEdges<K>(s: StatusWrapper<K>, target: Phase)
    ensures Transition(s, target).Some? <==>
              (s.state == Waiting && target == Running) || (s.state == Running && target == Terminated)
    ensures s.state == Terminated ==> Transition(s, target).None?
    ensures target == Waiting ==> Transition(s, target).None?
  {
  }

  /**
   * A walk moves one step along Order per target: the targets are the
   * phases that follow the start phase in Order, in that order.
   */
  lemma {:induction false} WalkFollowsOrder<K>(s: StatusWrapper<K>, targets: seq<Phase>)
    ensures var w := Walk(s, targets);
            w.Some? ==>
              && Rank(w.value.state) == Rank(s.state) + |targets|
              && targets == Order[Rank(s.state) + 1 .. Rank(s.state) + 1 + |targets|]
              && w.value.inner == s.inner
    decreases |targets|
  {
    if targets != [] {
      var step := Transition(s, targets[0]);
      if step.Some? {
        WalkFollowsOrder(step.value, targets[1..]);
        assert Walk(s, targets) == Walk(step.value, targets[1..]);
        var k := Rank(s.state);
        if Walk(s, targets).Some? {
          assert Rank(step.value.state) == k + 1;
          assert targets == [targets[0]] + targets[1..];
          assert Order[k + 1 .. k + 1 + |targets|] == [Order[k + 1]] + Order[k + 2 .. k + 2 + |targets[1..]|];
        }
      }
    }
  }

  /**
   * From `new`, at most two transitions can be taken, they visit Running
   * and then Terminated, and the default `inner` is carried throughout.
   */
  lemma FromNew<C, K>(container: C, defaultStatus: K, targets: seq<Phase>)
    ensures var w := Walk(New(container, defaultStatus), targets);
            w.Some? ==>
              && |targets| <= 2
              && targets == [Running, Terminated][..|targets|]
              && w.value == PhaseGraph.Status(Order[|targets|], defaultStatus)
  {
    WalkFollowsOrder(New(container, defaultStatus), targets);
    var w := Walk(New(container, defaultStatus), targets);
    if w.Some? {
      assert Rank(w.value.state) == |targets|;
    }
  }

  /** Both transitions from `new` are granted, ending in Terminated. */
  lemma NewRunsToTerminated<C, K>(container: C, defaultStatus: K)
    ensures Walk(New(container, defaultStatus), [Running, Terminated]) == Some(PhaseGraph.Status(Terminated, defaultStatus))
  {
    var running := PhaseGraph.Status(Running, defaultStatus);
    var terminated := PhaseGraph.Status(Terminated, defaultStatus);
    assert Walk(terminated, []) == Some(terminated);
    assert Walk(running, [Terminated]) == Some(terminated);
  }
}
