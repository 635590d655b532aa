/**
 * `StateMachineTest::run_to_completion` of src/concrete_state_machine.rs:
 * pull the image of every container, then mount every volume of every
 * container, each operation in a retry loop with a failure counter, a
 * backoff call once the counter exceeds 3, and an immediate abort on a
 * fatal provider error; then advance the pod through Starting, Running and
 * Completed.
 *
 * The provider is a script of replies consumed one per call, in call order.
 * For `image_pull` and `volume_mount`, Success stands for `Ok(Either::Left)`,
 * Retryable for `Ok(Either::Right)` and Fatal for `Err`; for the two
 * backoff calls Fatal stands for `Err` and the other replies for `Ok(())`.
 * The source's loop runs for as long as the provider keeps answering
 * Retryable; when the script runs out the model stops with the result
 * Unfinished, which says only that the run has not ended yet.
 */
module ConcreteStateMachine {
  import Wrappers

  /** The counter has to exceed this value before a backoff is inserted. */
  const Threshold: nat := 3

  datatype Reply = Success | Retryable | Fatal

  /** The opaque Kubernetes values the driver reads. */
  datatype KubeVolumeMount = KubeVolumeMount(name: string, mountPath: string)
  datatype KubeContainer = KubeContainer(name: string, image: Wrappers.Option<string>,
                                         volumeMounts: Wrappers.Option<seq<KubeVolumeMount>>)
  datatype PodSpec = PodSpec(containers: seq<KubeContainer>)
  datatype KubePod = KubePod(spec: Wrappers.Option<PodSpec>)

  /** The provider methods the driver calls. */
  datatype Call = Pull(image: string) | PullBackoff | Mount(mount: KubeVolumeMount) | MountBackoff

  predicate IsBackoff(c: Call) {
    c.PullBackoff? || c.MountBackoff?
  }

  /** One provider call and the reply it got. */
  datatype Exchange = Exchange(call: Call, reply: Reply)

  /** How a retry loop, or a sequence of them, ended. */
  datatype LoopStatus = Done | Aborted | OutOfReplies

  /** The end of a stage: its status, the exchanges it made and the first reply it left unused. */
  datatype Stage = Stage(status: LoopStatus, log: seq<Exchange>, next: nat)

  /** The pod phases the driver moves through; Error is what `to_error` sets. */
  datatype Phase = Registered | ImagePull | VolumeMount | Starting | Running | Completed | Error

  /** `Result<(), ()>` of `run_to_completion`, or Unfinished when the script ran out first. */
  datatype RunResult = Ok | Err | Unfinished

  datatype Outcome = Outcome(result: RunResult, log: seq<Exchange>, phases: seq<Phase>)

  /** The phases of a run that succeeds. */
  const Lifecycle: seq<Phase> := [Registered, ImagePull, VolumeMount, Starting, Running, Completed]

  function Prepend(log: seq<Exchange>, s: Stage): Stage {
    s.(log := log + s.log)
  }

  lemma PrependTwice(a: seq<Exchange>, b: seq<Exchange>, s: Stage)
    ensures Prepend(a + b, s) == Prepend(a, Prepend(b, s))
  {
    assert (a + b) + s.log == a + (b + s.log);
  }

  /** The exchanges of `log` got the replies of the script from `pos` on, one each, in order. */
  predicate Answers(log: seq<Exchange>, replies: seq<Reply>, pos: nat) {
    pos + |log| <= |replies| && forall i :: 0 <= i < |log| ==> log[i].reply == replies[pos + i]
  }

  /** The counter after a call that did not end the loop: one more retryable attempt, or reset by a backoff. */
  function Bump(failures: nat): nat {
    if failures > Threshold then 0 else failures + 1
  }

  /**
   * The retry loop around one operation `op`, one provider call at a time,
   * from reply `pos` with the counter at `failures`: while the counter is
   * at most Threshold the call is an attempt of `op`, which ends the loop on
   * Success and counts a Retryable; once the counter exceeds Threshold the
   * call is `backoff`, which resets the counter. A Fatal reply to either
   * aborts.
   */
  function Retry(op: Call, backoff: Call, replies: seq<Reply>, pos: nat, failures: nat): (r: Stage)
    requires pos <= |replies| && failures <= Threshold + 1
    ensures pos <= r.next <= |replies|
    ensures r.status == OutOfReplies ==> r.next == |replies|
    decreases |replies| - pos
  {
    if pos == |replies| then Stage(OutOfReplies, [], pos)
    else
      var e := Exchange(if failures > Threshold then backoff else op, replies[pos]);
      if replies[pos] == Fatal then Stage(Aborted, [e], pos + 1)
      else if failures <= Threshold && replies[pos] == Success then Stage(Done, [e], pos + 1)
      else Prepend([e], Retry(op, backoff, replies, pos + 1, Bump(failures)))
  }

  /** The retry loop applied to each operation of `ops` in turn, stopping at the first that does not succeed. */
  function RetryEach(ops: seq<Call>, backoff: Call, replies: seq<Reply>, pos: nat): (r: Stage)
    requires pos <= |replies|
    ensures pos <= r.next <= |replies|
    ensures r.status == OutOfReplies ==> r.next == |replies|
    decreases |ops|
  {
    if ops == [] then Stage(Done, [], pos)
    else
      var first := Retry(ops[0], backoff, replies, pos, 0);
      if first.status != Done then first
      else Prepend(first.log, RetryEach(ops[1..], backoff, replies, first.next))
  }

  /** The pod names an image for each container, as the `unwrap`s of the source require. */
  predicate Runnable(pod: KubePod) {
    pod.spec.Some? && forall c :: c in pod.spec.value.containers ==> c.image.Some?
  }

  /** The image pulls, one per container, in container order. */
  function PullOps(cs: seq<KubeContainer>): (ops: seq<Call>)
    requires forall c :: c in cs ==> c.image.Some?
    ensures |ops| == |cs|
    ensures forall i :: 0 <= i < |cs| ==> ops[i] == Pull(cs[i].image.value)
  {
    if cs == [] then [] else [Pull(cs[0].image.value)] + PullOps(cs[1..])
  }

  /** `volume_mounts.unwrap_or_else(|| vec![])`. */
  function MountsOf(c: KubeContainer): seq<KubeVolumeMount> {
    if c.volumeMounts.Some? then c.volumeMounts.value else []
  }

  /** The mounts of one container, in order. */
  function ContainerMountOps(ms: seq<KubeVolumeMount>): (ops: seq<Call>)
    ensures |ops| == |ms|
    ensures forall i :: 0 <= i < |ms| ==> ops[i] == Mount(ms[i])
  {
    if ms == [] then [] else [Mount(ms[0])] + ContainerMountOps(ms[1..])
  }

  /**
   * All mounts, container by container and mount by mount: only mount
   * calls, and one for every volume mount of every container.
   * MountOpsOnlyContainers gives the converse and MountOpsAppend the order.
   */
  function MountOps(cs: seq<KubeContainer>): (ops: seq<Call>)
    ensures forall op :: op in ops ==> op.Mount?
    ensures forall c, m :: c in cs && m in MountsOf(c) ==> Mount(m) in ops
  {
    if cs == [] then [] else ContainerMountOps(MountsOf(cs[0])) + MountOps(cs[1..])
  }

  /** Every call of the mount stage is the mount of a volume mount of some container. */
  lemma {:induction false} MountOpsOnlyContainers(cs: seq<KubeContainer>)
    ensures forall op :: op in MountOps(cs) ==> exists c, m :: c in cs && m in MountsOf(c) && op == Mount(m)
    decreases |cs|
  {
    if cs != [] {
      MountOpsOnlyContainers(cs[1..]);
      var first := ContainerMountOps(MountsOf(cs[0]));
      forall op | op in MountOps(cs)
        ensures exists c, m :: c in cs && m in MountsOf(c) && op == Mount(m)
      {
        if op in first {
          var i :| 0 <= i < |first| && first[i] == op;
          assert MountsOf(cs[0])[i] in MountsOf(cs[0]);
        } else {
          assert op in MountOps(cs[1..]);
          var c, m :| c in cs[1..] && m in MountsOf(c) && op == Mount(m);
          assert c in cs;
        }
      }
    }
  }

  /**
   * The mount stage over `a + b` is the mounts of `a` followed by those of
   * `b`: the calls follow the containers in order.
   */
  lemma {:induction false} MountOpsAppend(a: seq<KubeContainer>, b: seq<KubeContainer>)
    ensures MountOps(a + b) == MountOps(a) + MountOps(b)
    decreases |a|
  {
    if a == [] {
      assert a + b == b;
    } else {
      assert (a + b)[1..] == a[1..] + b;
      MountOpsAppend(a[1..], b);
      assert (a + b)[0] == a[0];
      calc {
        MountOps(a + b);
        ContainerMountOps(MountsOf(a[0])) + MountOps(a[1..] + b);
        ContainerMountOps(MountsOf(a[0])) + (MountOps(a[1..]) + MountOps(b));
      }
    }
  }

  /** A single container contributes its own mounts, in order. */
  lemma MountOpsSingle(c: KubeContainer)
    ensures MountOps([c]) == ContainerMountOps(MountsOf(c))
  {
    assert [c][1..] == [];
  }

  /**
   * What `run_to_completion` does with `pod` against the script `replies`.
   * The phases follow the lifecycle in order: all of it on Ok, a prefix of
   * it on an unfinished run, and a prefix followed by Error on Err.
   */
  function Drive(pod: KubePod, replies: seq<Reply>): (o: Outcome)
    requires Runnable(pod)
    ensures o.result == Ok <==> o.phases == Lifecycle
    ensures o.result == Err ==> 3 <= |o.phases| <= 4 && o.phases == Lifecycle[..|o.phases| - 1] + [Error]
    ensures o.result == Unfinished ==> 2 <= |o.phases| <= 3 && o.phases == Lifecycle[..|o.phases|]
  {
    var cs := pod.spec.value.containers;
    var pulls := RetryEach(PullOps(cs), PullBackoff, replies, 0);
    if pulls.status == Aborted then Outcome(Err, pulls.log, [Registered, ImagePull, Error])
    else if pulls.status == OutOfReplies then Outcome(Unfinished, pulls.log, [Registered, ImagePull])
    else
      var mounts := RetryEach(MountOps(cs), MountBackoff, replies, pulls.next);
      var log := pulls.log + mounts.log;
      if mounts.status == Aborted then Outcome(Err, log, [Registered, ImagePull, VolumeMount, Error])
      else if mounts.status == OutOfReplies then Outcome(Unfinished, log, [Registered, ImagePull, VolumeMount])
      else Outcome(Ok, log, Lifecycle)
  }

  /**
   * One trip through the body of the retry loop at reply `pos` with the
   * counter at `failures`: an attempt of `op`, and a backoff when the
   * attempt pushed the counter past Threshold.
   */
  method RetryOnce(op: Call, backoff: Call, replies: seq<Reply>, pos: nat, failures: nat)
    returns (status: LoopStatus, log: seq<Exchange>, failures': nat, looping: bool)
    requires pos < |replies| && failures <= Threshold
    ensures 1 <= |log| <= 2 && pos + |log| <= |replies|
    ensures looping ==> failures' <= Threshold
    ensures looping ==> Retry(op, backoff, replies, pos, failures) == Prepend(log, Retry(op, backoff, replies, pos + |log|, failures'))
    ensures !looping ==> Retry(op, backoff, replies, pos, failures) == Stage(status, log, pos + |log|)
  {
    var reply := replies[pos];
    log, failures', looping := [Exchange(op, reply)], failures, true;
    status := OutOfReplies;
    match reply {
      case Success =>
        status, looping := Done, false;
      case Fatal =>
        status, looping := Aborted, false;
      case Retryable =>
        failures' := failures + 1;
    }
    if looping && failures' > Threshold {
      if pos + 1 == |replies| {
        looping := false;
      } else {
        var cooldown := replies[pos + 1];
        log := log + [Exchange(backoff, cooldown)];
        if cooldown == Fatal {
          status, looping := Aborted, false;
        } else {
          failures' := 0;
        }
        assert Retry(op, backoff, replies, pos + 1, Threshold + 1)
                 == if cooldown == Fatal then Stage(Aborted, [Exchange(backoff, cooldown)], pos + 2)
                    else Prepend([Exchange(backoff, cooldown)], Retry(op, backoff, replies, pos + 2, 0));
      }
    }
    if looping {
      PrependTwice([Exchange(op, reply)], log[1..], Retry(op, backoff, replies, pos + |log|, failures'));
    }
  }

  /**
   * The retry loop of one operation: call `op`; leave on Success, abort on
   * Fatal, count a Retryable; once the counter exceeds Threshold call
   * `backoff`, abort if it fails, otherwise reset the counter.
   */
  method RetryLoop(op: Call, backoff: Call, replies: seq<Reply>, pos: nat)
    returns (status: LoopStatus, log: seq<Exchange>, next: nat)
    requires pos <= |replies|
    ensures Stage(status, log, next) == Retry(op, backoff, replies, pos, 0)
  {
    var failures: nat := 0;
    status, log, next := OutOfReplies, [], pos;
    var looping := true;
    while looping
      invariant pos <= next <= |replies|
      invariant looping ==> failures <= Threshold
      invariant looping ==> Retry(op, backoff, replies, pos, 0) == Prepend(log, Retry(op, backoff, replies, next, failures))
      invariant !looping ==> Stage(status, log, next) == Retry(op, backoff, replies, pos, 0)
      decreases looping, |replies| - next
    {
      if next == |replies| {
        status, looping := OutOfReplies, false;
      } else {
        var s, l, f;
        s, l, f, looping := RetryOnce(op, backoff, replies, next, failures);
        if looping {
          PrependTwice(log, l, Retry(op, backoff, replies, next + |l|, f));
        }
        status, log, next, failures := s, log + l, next + |l|, f;
      }
    }
  }

  /** Runs the retry loop for each operation of `ops` in turn. */
  method RetryEachLoop(ops: seq<Call>, backoff: Call, replies: seq<Reply>, pos: nat)
    returns (status: LoopStatus, log: seq<Exchange>, next: nat)
    requires pos <= |replies|
    ensures Stage(status, log, next) == RetryEach(ops, backoff, replies, pos)
  {
    status, log, next := Done, [], pos;
    for i := 0 to |ops|
      invariant pos <= next <= |replies|
      invariant RetryEach(ops, backoff, replies, pos) == Prepend(log, RetryEach(ops[i..], backoff, replies, next))
    {
      RetryEachStep(ops, i, backoff, replies, next);
      var s, l, n := RetryLoop(ops[i], backoff, replies, next);
      PrependTwice(log, l, RetryEach(ops[i + 1..], backoff, replies, n));
      if s != Done {
        status, log, next := s, log + l, n;
        return;
      }
      log, next := log + l, n;
    }
    assert ops[|ops|..] == [];
  }

  /** The volume-mount stage: for every container, for every mount, the retry loop. */
  method MountVolumes(containers: seq<KubeContainer>, replies: seq<Reply>, pos: nat)
    returns (status: LoopStatus, log: seq<Exchange>, next: nat)
    requires pos <= |replies|
    ensures Stage(status, log, next) == RetryEach(MountOps(containers), MountBackoff, replies, pos)
  {
    status, log, next := Done, [], pos;
    for i := 0 to |containers|
      invariant pos <= next <= |replies|
      invariant RetryEach(MountOps(containers), MountBackoff, replies, pos)
                  == Prepend(log, RetryEach(MountOps(containers[i..]), MountBackoff, replies, next))
    {
      assert containers[i..][1..] == containers[i + 1..];
      var ops := ContainerMountOps(MountsOf(containers[i]));
      RetryEachAppend(ops, MountOps(containers[i + 1..]), MountBackoff, replies, next);
      var s, l, n := RetryEachLoop(ops, MountBackoff, replies, next);
      PrependTwice(log, l, RetryEach(MountOps(containers[i + 1..]), MountBackoff, replies, n));
      if s != Done {
        status, log, next := s, log + l, n;
        return;
      }
      log, next := log + l, n;
    }
    assert containers[|containers|..] == [];
  }

  /** `run_to_completion`: image pulls, then volume mounts, then the remaining phases. */
  method RunToCompletion(pod: KubePod, replies: seq<Reply>)
    returns (result: RunResult, log: seq<Exchange>, phases: seq<Phase>)
    requires Runnable(pod)
    ensures Outcome(result, log, phases) == Drive(pod, replies)
  {
    var containers := pod.spec.value.containers;
    phases := [Registered];
    phases := phases + [ImagePull];
    var status, pullLog, next := RetryEachLoop(PullOps(containers), PullBackoff, replies, 0);
    log := pullLog;
    if status == Aborted {
      phases, result := phases + [Error], Err;
      return;
    } else if status == OutOfReplies {
      result := Unfinished;
      return;
    }
    phases := phases + [VolumeMount];
    var mountStatus, mountLog, _ := MountVolumes(containers, replies, next);
    log := pullLog + mountLog;
    if mountStatus == Aborted {
      phases, result := phases + [Error], Err;
      return;
    } else if mountStatus == OutOfReplies {
      result := Unfinished;
      return;
    }
    phases := phases + [Starting];
    phases := phases + [Running];
    phases := phases + [Completed];
    result := Ok;
  }

  /** One unfolding of RetryEach at the suffix `ops[i..]`. */
  lemma RetryEachStep(ops: seq<Call>, i: nat, backoff: Call, replies: seq<Reply>, pos: nat)
    requires i < |ops| && pos <= |replies|
    ensures var first := Retry(ops[i], backoff, replies, pos, 0);
            RetryEach(ops[i..], backoff, replies, pos)
              == if first.status != Done then first else Prepend(first.log, RetryEach(ops[i + 1..], backoff, replies, first.next))
  {
    assert ops[i..][0] == ops[i];
    assert ops[i..][1..] == ops[i + 1..];
  }

  /** Retrying a concatenation of operations is retrying the first part, then, if it succeeded, the second. */
  lemma {:induction false} RetryEachAppend(a: seq<Call>, b: seq<Call>, backoff: Call, replies: seq<Reply>, pos: nat)
    requires pos <= |replies|
    ensures var x := RetryEach(a, backoff, replies, pos);
            RetryEach(a + b, backoff, replies, pos)
              == if x.status != Done then x else Prepend(x.log, RetryEach(b, backoff, replies, x.next))
    decreases |a|
  {
    if a == [] {
      assert a + b == b;
    } else {
      var first := Retry(a[0], backoff, replies, pos, 0);
      assert (a + b)[0] == a[0];
      assert (a + b)[1..] == a[1..] + b;
      assert RetryEach(a + b, backoff, replies, pos)
               == if first.status != Done then first
                  else Prepend(first.log, RetryEach(a[1..] + b, backoff, replies, first.next));
      if first.status == Done {
        var rest := RetryEach(a[1..], backoff, replies, first.next);
        assert RetryEach(a, backoff, replies, pos) == Prepend(first.log, rest);
        RetryEachAppend(a[1..], b, backoff, replies, first.next);
        if rest.status == Done {
          PrependTwice(first.log, rest.log, RetryEach(b, backoff, replies, rest.next));
        }
      }
    }
  }

  /**
   * Whether the `i`-th call of a retry loop entered with the counter at
   * `failures` is an attempt of the operation: Threshold + 1 attempts, then
   * one backoff, and so on.
   */
  predicate IsAttempt(failures: nat, i: nat) {
    (i + failures) % (Threshold + 2) != Threshold + 1
  }

  /** The `i`-th call of a retry loop entered with the counter at `failures`. */
  function CallAt(op: Call, backoff: Call, failures: nat, i: nat): Call {
    if IsAttempt(failures, i) then op else backoff
  }

  /** The `i`-th reply ends the loop: a fatal error, or a successful attempt. */
  predicate Final(failures: nat, i: nat, reply: Reply) {
    reply == Fatal || (IsAttempt(failures, i) && reply == Success)
  }

  /** One call later the pattern is where a loop entered with the bumped counter starts. */
  lemma AttemptNext(failures: nat, i: nat)
    requires failures <= Threshold + 1
    ensures IsAttempt(failures, 0) == (failures <= Threshold)
    ensures IsAttempt(failures, i + 1) == IsAttempt(Bump(failures), i)
  {
    if failures > Threshold {
      assert i + 1 + failures == i + (Threshold + 2);
    } else {
      assert i + 1 + failures == i + Bump(failures);
    }
  }

  /** The retry loop resumes the script just after the exchanges it made. */
  lemma {:induction false} RetryNext(op: Call, backoff: Call, replies: seq<Reply>, pos: nat, failures: nat)
    requires pos <= |replies| && failures <= Threshold + 1
    ensures var r := Retry(op, backoff, replies, pos, failures);
            r.next == pos + |r.log|
    decreases |replies| - pos
  {
    if pos < |replies| && replies[pos] != Fatal && !(failures <= Threshold && replies[pos] == Success) {
      RetryNext(op, backoff, replies, pos + 1, Bump(failures));
    }
  }

  /**
   * The `i`-th exchange of the retry loop is the `i`-th call of the pattern,
   * answered by the `i`-th reply from `pos`; unless it is the last exchange,
   * it neither failed fatally nor was a successful attempt.
   */
  lemma {:induction false} RetryExchangeAt(op: Call, backoff: Call, replies: seq<Reply>, pos: nat, failures: nat, i: nat)
    requires pos <= |replies| && failures <= Threshold + 1
    requires i < |Retry(op, backoff, replies, pos, failures).log|
    ensures var r := Retry(op, backoff, replies, pos, failures);
            pos + i < |replies| &&
            r.log[i] == Exchange(CallAt(op, backoff, failures, i), replies[pos + i]) &&
            (i < |r.log| - 1 ==> !Final(failures, i, r.log[i].reply))
    decreases |replies| - pos
  {
    var r := Retry(op, backoff, replies, pos, failures);
    AttemptNext(failures, if i == 0 then 0 else i - 1);
    if 1 < |r.log| {
      var rest := Retry(op, backoff, replies, pos + 1, Bump(failures));
      assert r.log == [r.log[0]] + rest.log;
      if 0 < i {
        RetryExchangeAt(op, backoff, replies, pos + 1, Bump(failures), i - 1);
        assert r.log[i] == rest.log[i - 1];
      }
    }
  }

  /** The retry loop ends with Done exactly when its last exchange is an attempt that got Success. */
  lemma {:induction false} RetryDoneAt(op: Call, backoff: Call, replies: seq<Reply>, pos: nat, failures: nat)
    requires pos <= |replies| && failures <= Threshold + 1
    ensures var r := Retry(op, backoff, replies, pos, failures);
            var last := |r.log| - 1;
            r.status == Done <==> r.log != [] && IsAttempt(failures, last) && r.log[last].reply == Success
    decreases |replies| - pos
  {
    var r := Retry(op, backoff, replies, pos, failures);
    AttemptNext(failures, if |r.log| < 2 then 0 else |r.log| - 2);
    if 1 < |r.log| {
      var rest := Retry(op, backoff, replies, pos + 1, Bump(failures));
      RetryDoneAt(op, backoff, replies, pos + 1, Bump(failures));
      assert r.log == [r.log[0]] + rest.log;
      assert r.log[|r.log| - 1] == rest.log[|rest.log| - 1];
    }
  }

  /** The retry loop ends with Aborted exactly when its last exchange got Fatal. */
  lemma {:induction false} RetryAbortedAt(op: Call, backoff: Call, replies: seq<Reply>, pos: nat, failures: nat)
    requires pos <= |replies| && failures <= Threshold + 1
    ensures var r := Retry(op, backoff, replies, pos, failures);
            r.status == Aborted <==> r.log != [] && r.log[|r.log| - 1].reply == Fatal
    decreases |replies| - pos
  {
    var r := Retry(op, backoff, replies, pos, failures);
    if 1 < |r.log| {
      var rest := Retry(op, backoff, replies, pos + 1, Bump(failures));
      RetryAbortedAt(op, backoff, replies, pos + 1, Bump(failures));
      assert r.log == [r.log[0]] + rest.log;
      assert r.log[|r.log| - 1] == rest.log[|rest.log| - 1];
    }
  }

  /**
   * The retry loop ends with OutOfReplies exactly when it used the whole
   * script and its last exchange, if any, did not end the loop.
   */
  lemma {:induction false} RetryOutAt(op: Call, backoff: Call, replies: seq<Reply>, pos: nat, failures: nat)
    requires pos <= |replies| && failures <= Threshold + 1
    ensures var r := Retry(op, backoff, replies, pos, failures);
            var last := |r.log| - 1;
            r.status == OutOfReplies <==> r.next == |replies| && (r.log == [] || !Final(failures, last, r.log[last].reply))
    decreases |replies| - pos
  {
    var r := Retry(op, backoff, replies, pos, failures);
    RetryNext(op, backoff, replies, pos, failures);
    AttemptNext(failures, if |r.log| < 2 then 0 else |r.log| - 2);
    if 1 < |r.log| {
      var rest := Retry(op, backoff, replies, pos + 1, Bump(failures));
      RetryOutAt(op, backoff, replies, pos + 1, Bump(failures));
      assert r.log == [r.log[0]] + rest.log;
      assert r.log[|r.log| - 1] == rest.log[|rest.log| - 1];
    }
  }

  /** How the retry loop ended, read off its last exchange. */
  lemma RetryStatus(op: Call, backoff: Call, replies: seq<Reply>, pos: nat, failures: nat)
    requires pos <= |replies| && failures <= Threshold + 1
    ensures var r := Retry(op, backoff, replies, pos, failures);
            var last := |r.log| - 1;
            (r.status == Done <==> r.log != [] && IsAttempt(failures, last) && r.log[last].reply == Success) &&
            (r.status == Aborted <==> r.log != [] && r.log[last].reply == Fatal) &&
            (r.status == OutOfReplies <==> r.next == |replies| && (r.log == [] || !Final(failures, last, r.log[last].reply)))
  {
    RetryDoneAt(op, backoff, replies, pos, failures);
    RetryAbortedAt(op, backoff, replies, pos, failures);
    RetryOutAt(op, backoff, replies, pos, failures);
  }

  /** The exchanges of the retry loop got the replies of the script from `pos`, in order. */
  lemma RetryAnswers(op: Call, backoff: Call, replies: seq<Reply>, pos: nat, failures: nat)
    requires pos <= |replies| && failures <= Threshold + 1
    ensures var r := Retry(op, backoff, replies, pos, failures);
            r.next == pos + |r.log| && Answers(r.log, replies, pos)
  {
    var r := Retry(op, backoff, replies, pos, failures);
    RetryNext(op, backoff, replies, pos, failures);
    forall i | 0 <= i < |r.log| ensures r.log[i].reply == replies[pos + i] {
      RetryExchangeAt(op, backoff, replies, pos, failures, i);
    }
  }

  /** The retry loop makes the calls of its fixed pattern. */
  lemma RetryCalls(op: Call, backoff: Call, replies: seq<Reply>, pos: nat, failures: nat)
    requires pos <= |replies| && failures <= Threshold + 1
    ensures var r := Retry(op, backoff, replies, pos, failures);
            forall i :: 0 <= i < |r.log| ==> r.log[i].call == CallAt(op, backoff, failures, i)
  {
    var r := Retry(op, backoff, replies, pos, failures);
    forall i | 0 <= i < |r.log| ensures r.log[i].call == CallAt(op, backoff, failures, i) {
      RetryExchangeAt(op, backoff, replies, pos, failures, i);
    }
  }

  /** No exchange before the last one of the retry loop is a fatal error or a successful attempt. */
  lemma RetryUnsettled(op: Call, backoff: Call, replies: seq<Reply>, pos: nat, failures: nat)
    requires pos <= |replies| && failures <= Threshold + 1
    ensures var r := Retry(op, backoff, replies, pos, failures);
            forall i :: 0 <= i < |r.log| - 1 ==> !Final(failures, i, r.log[i].reply)
  {
    var r := Retry(op, backoff, replies, pos, failures);
    forall i | 0 <= i < |r.log| - 1 ensures !Final(failures, i, r.log[i].reply) {
      RetryExchangeAt(op, backoff, replies, pos, failures, i);
    }
  }

  /** A Fatal reply can only be the last exchange of the retry loop, and the loop aborts exactly then. */
  lemma RetryFatal(op: Call, backoff: Call, replies: seq<Reply>, pos: nat, failures: nat)
    requires pos <= |replies| && failures <= Threshold + 1
    ensures FatalAtEnd(Retry(op, backoff, replies, pos, failures))
  {
    RetryUnsettled(op, backoff, replies, pos, failures);
    RetryStatus(op, backoff, replies, pos, failures);
  }

  /** The operations a log shows as done: the attempts, not the backoffs, that got Success, in order. */
  function Succeeded(log: seq<Exchange>): seq<Call> {
    if log == [] then []
    else (if log[0].reply == Success && !IsBackoff(log[0].call) then [log[0].call] else []) + Succeeded(log[1..])
  }

  lemma {:induction false} SucceededAppend(a: seq<Exchange>, b: seq<Exchange>)
    ensures Succeeded(a + b) == Succeeded(a) + Succeeded(b)
  {
    if a != [] {
      assert (a + b)[0] == a[0];
      assert (a + b)[1..] == a[1..] + b;
      SucceededAppend(a[1..], b);
    } else {
      assert a + b == b;
    }
  }

  /** The retry loop around `op` shows `op` done exactly when it ends with Done. */
  lemma {:induction false} RetrySucceeded(op: Call, backoff: Call, replies: seq<Reply>, pos: nat, failures: nat)
    requires !IsBackoff(op) && IsBackoff(backoff)
    requires pos <= |replies| && failures <= Threshold + 1
    ensures var r := Retry(op, backoff, replies, pos, failures);
            Succeeded(r.log) == if r.status == Done then [op] else []
    decreases |replies| - pos
  {
    if pos < |replies| {
      var e := Exchange(if failures > Threshold then backoff else op, replies[pos]);
      assert [e][1..] == [];
      if replies[pos] != Fatal && !(failures <= Threshold && replies[pos] == Success) {
        var rest := Retry(op, backoff, replies, pos + 1, Bump(failures));
        RetrySucceeded(op, backoff, replies, pos + 1, Bump(failures));
        assert Succeeded([e]) == [];
        SucceededAppend([e], rest.log);
      }
    }
  }

  /** RetryEach resumes the script just after its exchanges, which got the replies from `pos` in order. */
  lemma {:induction false} RetryEachAnswers(ops: seq<Call>, backoff: Call, replies: seq<Reply>, pos: nat)
    requires pos <= |replies|
    ensures var r := RetryEach(ops, backoff, replies, pos);
            r.next == pos + |r.log| && Answers(r.log, replies, pos) &&
            (r.status == OutOfReplies ==> r.next == |replies|)
    decreases |ops|
  {
    if ops != [] {
      var first := Retry(ops[0], backoff, replies, pos, 0);
      RetryAnswers(ops[0], backoff, replies, pos, 0);
      RetryStatus(ops[0], backoff, replies, pos, 0);
      if first.status == Done {
        var rest := RetryEach(ops[1..], backoff, replies, first.next);
        RetryEachAnswers(ops[1..], backoff, replies, first.next);
        var log := first.log + rest.log;
        forall i | 0 <= i < |log| ensures log[i].reply == replies[pos + i] {
          if i >= |first.log| {
            assert log[i] == rest.log[i - |first.log|];
          }
        }
      }
    }
  }

  /**
   * The log of `s` shows every operation of `ops` done, in order, when `s`
   * ended with Done; otherwise it shows a proper prefix of them done.
   */
  predicate ShowsDone(s: Stage, ops: seq<Call>) {
    var done := Succeeded(s.log);
    (s.status == Done ==> done == ops) &&
    (s.status != Done ==> |done| < |ops| && done == ops[..|done|])
  }

  /** RetryEach shows exactly the operations of `ops` it got through done. */
  lemma {:induction false} RetryEachSucceeded(ops: seq<Call>, backoff: Call, replies: seq<Reply>, pos: nat)
    requires forall op :: op in ops ==> !IsBackoff(op)
    requires IsBackoff(backoff) && pos <= |replies|
    ensures ShowsDone(RetryEach(ops, backoff, replies, pos), ops)
    decreases |ops|
  {
    if ops != [] {
      var first := Retry(ops[0], backoff, replies, pos, 0);
      RetrySucceeded(ops[0], backoff, replies, pos, 0);
      if first.status == Done {
        var rest := RetryEach(ops[1..], backoff, replies, first.next);
        RetryEachSucceeded(ops[1..], backoff, replies, first.next);
        ShowsDoneCons(first.log, rest, ops);
      }
    }
  }

  /** A done first operation in front of a stage that shows the others done. */
  lemma ShowsDoneCons(log: seq<Exchange>, rest: Stage, ops: seq<Call>)
    requires ops != [] && Succeeded(log) == [ops[0]] && ShowsDone(rest, ops[1..])
    ensures ShowsDone(Prepend(log, rest), ops)
  {
    SucceededAppend(log, rest.log);
    assert ops == [ops[0]] + ops[1..];
    if rest.status != Done {
      var d := Succeeded(rest.log);
      assert ops[..1 + |d|] == [ops[0]] + ops[1..][..|d|];
    }
  }

  /** In `s` a Fatal reply can only be the last exchange, and `s` aborted exactly then. */
  predicate FatalAtEnd(s: Stage) {
    FatalOnlyLast(s.log) && (s.status == Aborted <==> s.log != [] && s.log[|s.log| - 1].reply == Fatal)
  }

  /** In RetryEach a Fatal reply can only be the last exchange, and RetryEach aborts exactly then. */
  lemma {:induction false} RetryEachFatal(ops: seq<Call>, backoff: Call, replies: seq<Reply>, pos: nat)
    requires pos <= |replies|
    ensures FatalAtEnd(RetryEach(ops, backoff, replies, pos))
    decreases |ops|
  {
    if ops != [] {
      var first := Retry(ops[0], backoff, replies, pos, 0);
      RetryFatal(ops[0], backoff, replies, pos, 0);
      if first.status == Done {
        var rest := RetryEach(ops[1..], backoff, replies, first.next);
        RetryEachFatal(ops[1..], backoff, replies, first.next);
        RetryNext(ops[0], backoff, replies, pos, 0);
        assert first.log != [] && first.log[|first.log| - 1].reply != Fatal;
        FatalAtEndCons(first.log, rest);
      }
    }
  }

  /** A log without Fatal replies in front of a stage whose Fatal reply ends it. */
  lemma FatalAtEndCons(log: seq<Exchange>, rest: Stage)
    requires forall i :: 0 <= i < |log| ==> log[i].reply != Fatal
    requires log != [] && FatalAtEnd(rest)
    ensures FatalAtEnd(Prepend(log, rest))
  {
    FatalConcat(log, rest.log);
  }

  /** Every call of `log` is one of `ops` or the backoff. */
  predicate CallsWithin(log: seq<Exchange>, ops: seq<Call>, backoff: Call) {
    forall i :: 0 <= i < |log| ==> log[i].call in ops || log[i].call == backoff
  }

  /** Every call RetryEach makes is one of `ops` or the backoff. */
  lemma {:induction false} RetryEachCalls(ops: seq<Call>, backoff: Call, replies: seq<Reply>, pos: nat)
    requires pos <= |replies|
    ensures CallsWithin(RetryEach(ops, backoff, replies, pos).log, ops, backoff)
    decreases |ops|
  {
    if ops != [] {
      var first := Retry(ops[0], backoff, replies, pos, 0);
      RetryCalls(ops[0], backoff, replies, pos, 0);
      if first.status == Done {
        var rest := RetryEach(ops[1..], backoff, replies, first.next);
        RetryEachCalls(ops[1..], backoff, replies, first.next);
        var log := first.log + rest.log;
        forall i | 0 <= i < |log| ensures log[i].call in ops || log[i].call == backoff {
          if i >= |first.log| {
            var j := i - |first.log|;
            assert log[i] == rest.log[j];
            assert rest.log[j].call in ops[1..] || rest.log[j].call == backoff;
          }
        }
      }
    }
  }

  predicate IsMountCall(c: Call) {
    c.Mount? || c.MountBackoff?
  }

  /** No exchange of `log` is a mount or a mount backoff. */
  predicate NoMountCalls(log: seq<Exchange>) {
    forall i :: 0 <= i < |log| ==> !IsMountCall(log[i].call)
  }

  /** Every exchange of `log` is a mount or a mount backoff. */
  predicate OnlyMountCalls(log: seq<Exchange>) {
    forall i :: 0 <= i < |log| ==> IsMountCall(log[i].call)
  }

  /** The run's exchanges got the replies of the script in order; an unfinished run used all of them. */
  lemma DriveAnswers(pod: KubePod, replies: seq<Reply>)
    requires Runnable(pod)
    ensures var o := Drive(pod, replies);
            Answers(o.log, replies, 0) && (o.result == Unfinished ==> |o.log| == |replies|)
  {
    var cs := pod.spec.value.containers;
    var pulls := RetryEach(PullOps(cs), PullBackoff, replies, 0);
    RetryEachAnswers(PullOps(cs), PullBackoff, replies, 0);
    if pulls.status == Done {
      var mounts := RetryEach(MountOps(cs), MountBackoff, replies, pulls.next);
      RetryEachAnswers(MountOps(cs), MountBackoff, replies, pulls.next);
      var log := pulls.log + mounts.log;
      forall i | 0 <= i < |log| ensures log[i].reply == replies[i] {
        if i >= |pulls.log| {
          assert log[i] == mounts.log[i - |pulls.log|];
        }
      }
    }
  }

  /** A Fatal reply can only be the last exchange of `log`. */
  predicate FatalOnlyLast(log: seq<Exchange>) {
    forall i :: 0 <= i < |log| && log[i].reply == Fatal ==> i == |log| - 1
  }

  /** A stage without Fatal replies followed by one with a Fatal reply at most at its end. */
  lemma FatalConcat(a: seq<Exchange>, b: seq<Exchange>)
    requires forall i :: 0 <= i < |a| ==> a[i].reply != Fatal
    requires FatalOnlyLast(b)
    ensures FatalOnlyLast(a + b)
    ensures (a + b != [] && (a + b)[|a + b| - 1].reply == Fatal) <==> (b != [] && b[|b| - 1].reply == Fatal)
  {
    forall i | 0 <= i < |a + b| && (a + b)[i].reply == Fatal ensures i == |a + b| - 1 {
      if i >= |a| {
        assert (a + b)[i] == b[i - |a|];
      }
    }
    if b != [] {
      assert (a + b)[|a + b| - 1] == b[|b| - 1];
    } else {
      assert a + b == a;
    }
  }

  /**
   * How the run assembles its outcome from the pull stage and, once every
   * pull is done, the mount stage.
   */
  predicate Assembled(o: Outcome, pulls: Stage, mounts: Stage) {
    if pulls.status != Done then
      o.log == pulls.log && o.result == (if pulls.status == Aborted then Err else Unfinished)
    else
      o.log == pulls.log + mounts.log &&
      o.result == (if mounts.status == Aborted then Err else if mounts.status == OutOfReplies then Unfinished else Ok)
  }

  lemma DriveStages(pod: KubePod, replies: seq<Reply>)
    requires Runnable(pod)
    ensures var cs := pod.spec.value.containers;
            var pulls := RetryEach(PullOps(cs), PullBackoff, replies, 0);
            Assembled(Drive(pod, replies), pulls, RetryEach(MountOps(cs), MountBackoff, replies, pulls.next))
  {
  }

  /** Two stages whose Fatal replies end them make a run whose Fatal reply ends it. */
  lemma FatalStages(o: Outcome, pulls: Stage, mounts: Stage)
    requires Assembled(o, pulls, mounts) && FatalAtEnd(pulls) && FatalAtEnd(mounts)
    ensures FatalOnlyLast(o.log) && (o.result == Err <==> o.log != [] && o.log[|o.log| - 1].reply == Fatal)
  {
    if pulls.status == Done {
      assert pulls.log != [] ==> pulls.log[|pulls.log| - 1].reply != Fatal;
      FatalConcat(pulls.log, mounts.log);
    }
  }

  /**
   * A Fatal reply ends the run: it can only be the last exchange, and the
   * run returns Err exactly when its last exchange got Fatal.
   */
  lemma DriveFatal(pod: KubePod, replies: seq<Reply>)
    requires Runnable(pod)
    ensures var o := Drive(pod, replies);
            FatalOnlyLast(o.log) && (o.result == Err <==> o.log != [] && o.log[|o.log| - 1].reply == Fatal)
  {
    var cs := pod.spec.value.containers;
    var pulls := RetryEach(PullOps(cs), PullBackoff, replies, 0);
    var mounts := RetryEach(MountOps(cs), MountBackoff, replies, pulls.next);
    RetryEachFatal(PullOps(cs), PullBackoff, replies, 0);
    RetryEachFatal(MountOps(cs), MountBackoff, replies, pulls.next);
    DriveStages(pod, replies);
    FatalStages(Drive(pod, replies), pulls, mounts);
  }

  /** Two stages that show their operations done make a run that shows all of them done exactly on Ok. */
  lemma SucceededStages(o: Outcome, pulls: Stage, mounts: Stage, pullOps: seq<Call>, mountOps: seq<Call>)
    requires Assembled(o, pulls, mounts) && ShowsDone(pulls, pullOps) && ShowsDone(mounts, mountOps)
    ensures o.result == Ok <==> Succeeded(o.log) == pullOps + mountOps
  {
    if pulls.status == Done {
      SucceededAppend(pulls.log, mounts.log);
      if mounts.status != Done {
        assert |Succeeded(o.log)| < |pullOps + mountOps|;
      }
    } else {
      assert |Succeeded(o.log)| < |pullOps + mountOps|;
    }
  }

  /** The run returns Ok exactly when the log shows every pull and then every mount done, in order. */
  lemma DriveSucceeded(pod: KubePod, replies: seq<Reply>)
    requires Runnable(pod)
    ensures var o := Drive(pod, replies);
            var cs := pod.spec.value.containers;
            o.result == Ok <==> Succeeded(o.log) == PullOps(cs) + MountOps(cs)
  {
    var cs := pod.spec.value.containers;
    var pulls := RetryEach(PullOps(cs), PullBackoff, replies, 0);
    var mounts := RetryEach(MountOps(cs), MountBackoff, replies, pulls.next);
    RetryEachSucceeded(PullOps(cs), PullBackoff, replies, 0);
    RetryEachSucceeded(MountOps(cs), MountBackoff, replies, pulls.next);
    DriveStages(pod, replies);
    SucceededStages(Drive(pod, replies), pulls, mounts, PullOps(cs), MountOps(cs));
  }

  /**
   * The log splits at `k` into pulls and mounts; when any mount was made,
   * every pull had succeeded before it.
   */
  predicate PullsThenMounts(log: seq<Exchange>, k: nat, pulls: seq<Call>) {
    k <= |log| &&
    (forall i :: 0 <= i < k ==> !IsMountCall(log[i].call)) &&
    (forall i :: k <= i < |log| ==> IsMountCall(log[i].call)) &&
    (k < |log| ==> Succeeded(log[..k]) == pulls)
  }

  /** A pull stage followed by a mount stage splits where the mounts begin. */
  lemma SplitConcat(a: seq<Exchange>, b: seq<Exchange>, pulls: seq<Call>)
    requires NoMountCalls(a) && OnlyMountCalls(b)
    requires b != [] ==> Succeeded(a) == pulls
    ensures PullsThenMounts(a + b, |a|, pulls)
  {
    assert (a + b)[..|a|] == a;
    forall i | |a| <= i < |a + b| ensures IsMountCall((a + b)[i].call) {
      assert (a + b)[i] == b[i - |a|];
    }
  }

  /** Every exchange of the pull stage is a pull or a pull backoff. */
  lemma PullStageMountsNothing(cs: seq<KubeContainer>, replies: seq<Reply>)
    requires forall c :: c in cs ==> c.image.Some?
    ensures NoMountCalls(RetryEach(PullOps(cs), PullBackoff, replies, 0).log)
  {
    var pulls := RetryEach(PullOps(cs), PullBackoff, replies, 0);
    RetryEachCalls(PullOps(cs), PullBackoff, replies, 0);
    forall i | 0 <= i < |pulls.log| ensures !IsMountCall(pulls.log[i].call) {
      assert pulls.log[i].call in PullOps(cs) || pulls.log[i].call == PullBackoff;
    }
  }

  /** Every exchange of the mount stage is a mount or a mount backoff. */
  lemma MountStageMountsOnly(cs: seq<KubeContainer>, replies: seq<Reply>, pos: nat)
    requires pos <= |replies|
    ensures OnlyMountCalls(RetryEach(MountOps(cs), MountBackoff, replies, pos).log)
  {
    var mounts := RetryEach(MountOps(cs), MountBackoff, replies, pos);
    RetryEachCalls(MountOps(cs), MountBackoff, replies, pos);
    forall i | 0 <= i < |mounts.log| ensures IsMountCall(mounts.log[i].call) {
      assert mounts.log[i].call in MountOps(cs) || mounts.log[i].call == MountBackoff;
    }
  }

  /** No mount is attempted before every image pull has succeeded. */
  lemma DrivePullsBeforeMounts(pod: KubePod, replies: seq<Reply>)
    requires Runnable(pod)
    ensures var o := Drive(pod, replies);
            exists k :: PullsThenMounts(o.log, k, PullOps(pod.spec.value.containers))
  {
    var cs := pod.spec.value.containers;
    var pulls := RetryEach(PullOps(cs), PullBackoff, replies, 0);
    PullStageMountsNothing(cs, replies);
    RetryEachSucceeded(PullOps(cs), PullBackoff, replies, 0);
    if pulls.status == Done {
      var mounts := RetryEach(MountOps(cs), MountBackoff, replies, pulls.next);
      MountStageMountsOnly(cs, replies, pulls.next);
      SplitConcat(pulls.log, mounts.log, PullOps(cs));
      assert Drive(pod, replies).log == pulls.log + mounts.log;
      assert PullsThenMounts(Drive(pod, replies).log, |pulls.log|, PullOps(cs));
    } else {
      SplitConcat(pulls.log, [], PullOps(cs));
      assert pulls.log + [] == pulls.log;
      assert PullsThenMounts(Drive(pod, replies).log, |pulls.log|, PullOps(cs));
    }
  }

  /**
   * A backoff is called only after Threshold + 1 attempts in a row that got
   * Retryable, that is, only once the counter exceeded Threshold.
   */
  lemma BackoffAfterRetryables(op: Call, backoff: Call, replies: seq<Reply>, pos: nat)
    requires op != backoff && pos <= |replies|
    ensures var r := Retry(op, backoff, replies, pos, 0);
            forall i :: 0 <= i < |r.log| && r.log[i].call == backoff ==>
              Threshold + 1 <= i && forall j :: i - (Threshold + 1) <= j < i ==> r.log[j] == Exchange(op, Retryable)
  {
    var r := Retry(op, backoff, replies, pos, 0);
    RetryCalls(op, backoff, replies, pos, 0);
    RetryUnsettled(op, backoff, replies, pos, 0);
    forall i | 0 <= i < |r.log| && r.log[i].call == backoff
      ensures Threshold + 1 <= i && forall j :: i - (Threshold + 1) <= j < i ==> r.log[j] == Exchange(op, Retryable)
    {
      assert !IsAttempt(0, i);
      forall j | i - (Threshold + 1) <= j < i ensures r.log[j] == Exchange(op, Retryable) {
        assert IsAttempt(0, j);
        assert !Final(0, j, r.log[j].reply);
      }
    }
  }

  /** A pod with one container that names `image` and has no volume mounts. */
  function SingleImagePod(image: string): KubePod {
    KubePod(Wrappers.Some(PodSpec([KubeContainer("app", Wrappers.Some(image), Wrappers.None)])))
  }

  /** The pod of SingleImagePod mounts nothing. */
  lemma SingleImagePodMounts(image: string, replies: seq<Reply>, pos: nat)
    requires pos <= |replies|
    ensures MountOps(SingleImagePod(image).spec.value.containers) == []
    ensures RetryEach(MountOps(SingleImagePod(image).spec.value.containers), MountBackoff, replies, pos) == Stage(Done, [], pos)
  {
    var cs := SingleImagePod(image).spec.value.containers;
    assert cs[1..] == [];
    assert MountsOf(cs[0]) == [];
  }

  /** Three Retryable replies and then Success: four pulls, no backoff, and the run succeeds. */
  lemma ThreeRetryableThenSuccess(image: string)
    ensures var pull := Pull(image);
            Drive(SingleImagePod(image), [Retryable, Retryable, Retryable, Success])
              == Outcome(Ok, [Exchange(pull, Retryable), Exchange(pull, Retryable), Exchange(pull, Retryable),
                              Exchange(pull, Success)], Lifecycle)
  {
    var replies := [Retryable, Retryable, Retryable, Success];
    var pull := Pull(image);
    assert PullOps(SingleImagePod(image).spec.value.containers) == [pull];
    assert Retry(pull, PullBackoff, replies, 3, 3) == Stage(Done, [Exchange(pull, Success)], 4);
    assert Retry(pull, PullBackoff, replies, 2, 2).log == [Exchange(pull, Retryable), Exchange(pull, Success)];
    assert Retry(pull, PullBackoff, replies, 1, 1).log
             == [Exchange(pull, Retryable), Exchange(pull, Retryable), Exchange(pull, Success)];
    SingleImagePodMounts(image, replies, 4);
    var log := Retry(pull, PullBackoff, replies, 0, 0).log;
    assert RetryEach([pull], PullBackoff, replies, 0) == Stage(Done, log + [], 4);
  }

  /** The pull loop on four Retryable replies: the fourth is followed by a backoff, then a successful pull. */
  lemma FourRetryablePulls(pull: Call)
    requires pull.Pull?
    ensures Retry(pull, PullBackoff, [Retryable, Retryable, Retryable, Retryable, Success, Success], 0, 0)
              == Stage(Done, [Exchange(pull, Retryable), Exchange(pull, Retryable), Exchange(pull, Retryable),
                              Exchange(pull, Retryable), Exchange(PullBackoff, Success), Exchange(pull, Success)], 6)
  {
    var replies := [Retryable, Retryable, Retryable, Retryable, Success, Success];
    assert Retry(pull, PullBackoff, replies, 5, 0) == Stage(Done, [Exchange(pull, Success)], 6);
    assert Retry(pull, PullBackoff, replies, 4, 4) == Stage(Done, [Exchange(PullBackoff, Success), Exchange(pull, Success)], 6);
    assert Retry(pull, PullBackoff, replies, 3, 3)
             == Stage(Done, [Exchange(pull, Retryable), Exchange(PullBackoff, Success), Exchange(pull, Success)], 6);
    assert Retry(pull, PullBackoff, replies, 2, 2)
             == Stage(Done, [Exchange(pull, Retryable), Exchange(pull, Retryable), Exchange(PullBackoff, Success),
                             Exchange(pull, Success)], 6);
    assert Retry(pull, PullBackoff, replies, 1, 1)
             == Stage(Done, [Exchange(pull, Retryable), Exchange(pull, Retryable), Exchange(pull, Retryable),
                             Exchange(PullBackoff, Success), Exchange(pull, Success)], 6);
  }

  /** Four Retryable replies: a backoff follows the fourth pull, then the fifth pull succeeds. */
  lemma FourRetryableThenBackoff(image: string)
    ensures var pull := Pull(image);
            Drive(SingleImagePod(image), [Retryable, Retryable, Retryable, Retryable, Success, Success])
              == Outcome(Ok, [Exchange(pull, Retryable), Exchange(pull, Retryable), Exchange(pull, Retryable),
                              Exchange(pull, Retryable), Exchange(PullBackoff, Success), Exchange(pull, Success)],
                         Lifecycle)
  {
    var replies := [Retryable, Retryable, Retryable, Retryable, Success, Success];
    var pull := Pull(image);
    assert PullOps(SingleImagePod(image).spec.value.containers) == [pull];
    FourRetryablePulls(pull);
    SingleImagePodMounts(image, replies, 6);
    var log := Retry(pull, PullBackoff, replies, 0, 0).log;
    assert RetryEach([pull], PullBackoff, replies, 0) == Stage(Done, log + [], 6);
  }

  /** A Fatal first pull fails the run at once, whatever the provider would have answered next. */
  lemma FatalFirstPull(image: string, later: seq<Reply>)
    ensures Drive(SingleImagePod(image), [Fatal] + later)
              == Outcome(Err, [Exchange(Pull(image), Fatal)], [Registered, ImagePull, Error])
  {
    assert PullOps(SingleImagePod(image).spec.value.containers) == [Pull(image)];
    assert ([Fatal] + later)[0] == Fatal;
  }

  /** A failing backoff after four Retryable pulls fails the run. */
  lemma FatalBackoff(image: string)
    ensures var pull := Pull(image);
            Drive(SingleImagePod(image), [Retryable, Retryable, Retryable, Retryable, Fatal])
              == Outcome(Err, [Exchange(pull, Retryable), Exchange(pull, Retryable), Exchange(pull, Retryable),
                               Exchange(pull, Retryable), Exchange(PullBackoff, Fatal)],
                         [Registered, ImagePull, Error])
  {
    var replies := [Retryable, Retryable, Retryable, Retryable, Fatal];
    var pull := Pull(image);
    assert PullOps(SingleImagePod(image).spec.value.containers) == [pull];
    assert Retry(pull, PullBackoff, replies, 3, 3).log == [Exchange(pull, Retryable), Exchange(PullBackoff, Fatal)];
    assert Retry(pull, PullBackoff, replies, 2, 2).log
             == [Exchange(pull, Retryable), Exchange(pull, Retryable), Exchange(PullBackoff, Fatal)];
    assert Retry(pull, PullBackoff, replies, 1, 1).log
             == [Exchange(pull, Retryable), Exchange(pull, Retryable), Exchange(pull, Retryable), Exchange(PullBackoff, Fatal)];
  }

  /** After a successful pull, a Fatal mount fails the run in the VolumeMount phase. */
  lemma FatalMount(image: string, mount: KubeVolumeMount)
    ensures var pod := KubePod(Wrappers.Some(PodSpec([KubeContainer("app", Wrappers.Some(image), Wrappers.Some([mount]))])));
            Drive(pod, [Success, Fatal])
              == Outcome(Err, [Exchange(Pull(image), Success), Exchange(Mount(mount), Fatal)],
                         [Registered, ImagePull, VolumeMount, Error])
  {
    var cs := [KubeContainer("app", Wrappers.Some(image), Wrappers.Some([mount]))];
    assert PullOps(cs) == [Pull(image)];
    assert cs[1..] == [];
    assert MountOps(cs) == [Mount(mount)] + [];
    var replies := [Success, Fatal];
    assert RetryEach([Pull(image)], PullBackoff, replies, 0) == Stage(Done, [Exchange(Pull(image), Success)] + [], 1);
    assert RetryEach([Mount(mount)], MountBackoff, replies, 1) == Stage(Aborted, [Exchange(Mount(mount), Fatal)], 2);
  }
}
