/**
 * What the three typed phase graphs have in common: a status pairs a phase
 * tag with an opaque Kubernetes status (`inner`), and a transition either
 * builds the status of the requested target phase or refuses the request.
 * In the source an edge is a conversion written for one source type only;
 * here a graph is a function from a status and a target phase to an
 * optional new status, `None` standing for "no such impl".
 */
module PhaseGraph {
  import opened Wrappers

  /** `Status<S> { state: S, inner: KubeStatus }` with the phase tag as a value. */
  datatype Status<P, K> = Status(state: P, inner: K)

  /** Applies the transitions to `targets` one after another, from `s`. */
  function Walk<P, K>(transition: (Status<P, K>, P) -> Option<Status<P, K>>,
                      s: Status<P, K>, targets: seq<P>): Option<Status<P, K>>
    decreases |targets|
  {
    if targets == [] then Some(s)
    else
      match transition(s, targets[0])
      case None => None
      case Some(next) => Walk(transition, next, targets[1..])
  }

  /** The phase a walk over `targets` ends in when it succeeds. */
  function EndPhase<P>(start: P, targets: seq<P>): P {
    if targets == [] then start else targets[|targets| - 1]
  }

  /** Every edge builds the target's status around the unchanged `inner`. */
  ghost predicate KeepsInner<P(!new), K(!new)>(transition: (Status<P, K>, P) -> Option<Status<P, K>>) {
    forall s: Status<P, K>, t: P :: transition(s, t).Some? ==> transition(s, t).value == Status(t, s.inner)
  }

  /** No edge leaves the set of phases `within`. */
  ghost predicate ClosedUnder<P(!new), K(!new)>(transition: (Status<P, K>, P) -> Option<Status<P, K>>, within: set<P>) {
    forall s: Status<P, K>, t: P :: s.state in within && transition(s, t).Some? ==> transition(s, t).value.state in within
  }

  /** A walk along edges that keep `inner` ends in the last target, still holding the original `inner`. */
  lemma {:induction false} WalkKeepsInner<P(!new), K(!new)>(transition: (Status<P, K>, P) -> Option<Status<P, K>>,
                                                s: Status<P, K>, targets: seq<P>)
    requires KeepsInner(transition)
    ensures Walk(transition, s, targets).Some? ==>
              Walk(transition, s, targets).value == Status(EndPhase(s.state, targets), s.inner)
    decreases |targets|
  {
    if targets != [] {
      var step := transition(s, targets[0]);
      if step.Some? {
        WalkKeepsInner(transition, step.value, targets[1..]);
        if |targets| > 1 {
          assert targets[1..][|targets[1..]| - 1] == targets[|targets| - 1];
        }
      }
    }
  }

  /** A walk that starts inside a closed set of phases never leaves it. */
  lemma {:induction false} WalkStaysWithin<P(!new), K(!new)>(transition: (Status<P, K>, P) -> Option<Status<P, K>>,
                                                 within: set<P>, s: Status<P, K>, targets: seq<P>)
    requires ClosedUnder(transition, within)
    requires s.state in within
    ensures Walk(transition, s, targets).Some? ==> Walk(transition, s, targets).value.state in within
    decreases |targets|
  {
    if targets != [] {
      var step := transition(s, targets[0]);
      if step.Some? {
        WalkStaysWithin(transition, within, step.value, targets[1..]);
      }
    }
  }
}
