/**
 * The fine-grained container phase graph of src/container.rs. Each phase
 * is a marker type and each edge an `into_*` method on `Status<S>` that
 * consumes the status and returns one of the target phase with the same
 * `inner`. VolumeError, Starting and Completed have no `impl` block, so no
 * edge leaves them.
 */
module Container {
  import opened Wrappers
  import PhaseGraph

  datatype Phase =
    | Registered | ImagePull | ImagePullError | ImagePullBackoff | Volume | VolumeError
    | Starting | Running | Error | CrashLoopBackoff | Completed

  type Status<K> = PhaseGraph.Status<Phase, K>

  /** The `into_*` methods: one case per method, everything else refused. */
  function Transition<K>(s: Status<K>, target: Phase): (r: Option<Status<K>>)
    ensures r.Some? ==> r.value.state == target && r.value.inner == s.inner
  {
    match (s.state, target)
    case (Registered, ImagePull) => Some(PhaseGraph.Status(ImagePull, s.inner))        // into_image_pull
    case (ImagePull, ImagePullError) => Some(PhaseGraph.Status(ImagePullError, s.inner)) // into_image_pull_error
    case (ImagePull, Volume) => Some(PhaseGraph.Status(Volume, s.inner))               // into_volume
    case (ImagePullError, ImagePull) => Some(PhaseGraph.Status(ImagePull, s.inner))    // into_image_pull
    case (ImagePullError, ImagePullBackoff) => Some(PhaseGraph.Status(ImagePullBackoff, s.inner))
    case (ImagePullBackoff, ImagePull) => Some(PhaseGraph.Status(ImagePull, s.inner))
    case (Volume, VolumeError) => Some(PhaseGraph.Status(VolumeError, s.inner))        // into_volume_error
    case (Volume, Starting) => Some(PhaseGraph.Status(Starting, s.inner))              // into_starting
    case (Running, Error) => Some(PhaseGraph.Status(Error, s.inner))                   // into_error
    case (Running, Completed) => Some(PhaseGraph.Status(Completed, s.inner))           // into_completed
    case (Error, Starting) => Some(PhaseGraph.Status(Starting, s.inner))
    case (Error, CrashLoopBackoff) => Some(PhaseGraph.Status(CrashLoopBackoff, s.inner))
    case (CrashLoopBackoff, Starting) => Some(PhaseGraph.Status(Starting, s.inner))
    case _ => None
  }

  const Edges: set<(Phase, Phase)> :=
    {(Registered, ImagePull),
     (ImagePull, ImagePullError), (ImagePull, Volume),
     (ImagePullError, ImagePull), (ImagePullError, ImagePullBackoff),
     (ImagePullBackoff, ImagePull),
     (Volume, VolumeError), (Volume, Starting),
     (Running, Error), (Running, Completed),
     (Error, Starting), (Error, CrashLoopBackoff),
     (CrashLoopBackoff, Starting)}

  function Walk<K>(s: Status<K>, targets: seq<Phase>): Option<Status<K>> {
    PhaseGraph.Walk(Transition, s, targets)
  }

  /** A transition is granted exactly for the pairs of the edge table. */
  lemma TransitionMatchesEdges<K>(s: Status<K>, target: Phase)
    ensures Transition(s, target).Some? <==> (s.state, target) in Edges
  {
  }

  /** The out-edges of every phase; VolumeError, Starting and Completed have none. */
  lemma OutgoingEdges<K>(s: Status<K>, t: Phase)
    ensures s.state == Registered ==> (Transition(s, t).Some? <==> t == ImagePull)
    ensures s.state == ImagePull ==> (Transition(s, t).Some? <==> t in {ImagePullError, Volume})
    ensures s.state == ImagePullError ==> (Transition(s, t).Some? <==> t in {ImagePull, ImagePullBackoff})
    ensures s.state == ImagePullBackoff ==> (Transition(s, t).Some? <==> t == ImagePull)
    ensures s.state == Volume ==> (Transition(s, t).Some? <==> t in {VolumeError, Starting})
    ensures s.state == Running ==> (Transition(s, t).Some? <==> t in {Error, Completed})
    ensures s.state == Error ==> (Transition(s, t).Some? <==> t in {Starting, CrashLoopBackoff})
    ensures s.state == CrashLoopBackoff ==> (Transition(s, t).Some? <==> t == Starting)
    ensures s.state in {VolumeError, Starting, Completed} ==> Transition(s, t).None?
  {
  }

  /** The table has thirteen edges. */
  lemma EdgeCount()
    ensures |Edges| == 13
  {
  }

  /** Every walk keeps `inner` and changes only the phase tag. */
  lemma WalkKeepsInner<K(!new)>(s: Status<K>, targets: seq<Phase>)
    ensures Walk(s, targets).Some? ==>
              Walk(s, targets).value == PhaseGraph.Status(PhaseGraph.EndPhase(s.state, targets), s.inner)
  {
    PhaseGraph.WalkKeepsInner(Transition, s, targets);
  }

  /** The phases a container can reach from Registered. */
  const Provisioning: set<Phase> :=
    {Registered, ImagePull, ImagePullError, ImagePullBackoff, Volume, VolumeError, Starting}

  /**
   * Because Starting has no outgoing edge, a container that starts in
   * Registered never reaches Running, Error, CrashLoopBackoff or Completed.
   */
  lemma RunningUnreachable<K(!new)>(inner: K, targets: seq<Phase>)
    ensures var w := Walk(PhaseGraph.Status(Registered, inner), targets);
            w.Some? ==> w.value.state in Provisioning && w.value.state !in {Running, Error, CrashLoopBackoff, Completed}
  {
    assert PhaseGraph.ClosedUnder(Transition<K>, Provisioning);
    PhaseGraph.WalkStaysWithin(Transition, Provisioning, PhaseGraph.Status(Registered, inner), targets);
  }

  /** A path from Registered to each phase of Provisioning. */
  function PathFromRegistered(p: Phase): seq<Phase>
    requires p in Provisioning
  {
    match p
    case Registered => []
    case ImagePull => [ImagePull]
    case ImagePullError => [ImagePull, ImagePullError]
    case ImagePullBackoff => [ImagePull, ImagePullError, ImagePullBackoff]
    case Volume => [ImagePull, Volume]
    case VolumeError => [ImagePull, Volume, VolumeError]
    case Starting => [ImagePull, Volume, Starting]
  }

  /** Every phase of Provisioning is reachable, so Provisioning is exactly the reachable set. */
  lemma ProvisioningReachable<K>(inner: K, p: Phase)
    requires p in Provisioning
    ensures Walk(PhaseGraph.Status(Registered, inner), PathFromRegistered(p)) == Some(PhaseGraph.Status(p, inner))
  {
    var registered := PhaseGraph.Status(Registered, inner);
    var pull := PhaseGraph.Status(ImagePull, inner);
    var pullError := PhaseGraph.Status(ImagePullError, inner);
    var volume := PhaseGraph.Status(Volume, inner);
    var target := PhaseGraph.Status(p, inner);
    assert Walk(target, []) == Some(target);
    match p
    case Registered =>
    case ImagePull =>
      assert Walk(registered, [ImagePull]) == Some(target);
    case ImagePullError =>
      assert Walk(pull, [ImagePullError]) == Some(target);
      assert Walk(registered, [ImagePull, ImagePullError]) == Some(target);
    case ImagePullBackoff =>
      assert Walk(pullError, [ImagePullBackoff]) == Some(target);
      assert Walk(pull, [ImagePullError, ImagePullBackoff]) == Some(target);
      assert Walk(registered, [ImagePull, ImagePullError, ImagePullBackoff]) == Some(target);
    case Volume =>
      assert Walk(pull, [Volume]) == Some(target);
      assert Walk(registered, [ImagePull, Volume]) == Some(target);
    case VolumeError =>
      assert Walk(volume, [VolumeError]) == Some(target);
      assert Walk(pull, [Volume, VolumeError]) == Some(target);
      assert Walk(registered, [ImagePull, Volume, VolumeError]) == Some(target);
    case Starting =>
      assert Walk(volume, [Starting]) == Some(target);
      assert Walk(pull, [Volume, Starting]) == Some(target);
      assert Walk(registered, [ImagePull, Volume, Starting]) == Some(target);
  }
}
