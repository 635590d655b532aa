# Krustlet state-machine prototype, modelled in Dafny

This project models the core of a prototype lifecycle engine for Kubernetes
pods, written in Rust. The prototype describes a pod's life as a set of
typed phases. A transition between two phases exists only where a
conversion is written for that pair of types. A driver moves a pod through
the phases: it pulls the image of every container, then mounts every
volume, retrying each operation with a counter and a backoff. A registry
keeps one handle per pod under its (namespace, name).

Each core source file has its own Dafny module:

| module | source | form |
|---|---|---|
| `PhaseGraph` | shared by the three graphs below | a status as (phase, inner), a walk over a transition function, and generic lemmas about it |
| `PodStatus` | `src/pod/status.rs` | the pod graph: six phases and eight `From` edges |
| `Container` | `src/container.rs` | the detailed container graph: eleven phases and thirteen `into_*` edges |
| `ContainerStatus` | `src/container/status.rs` | the three-phase container graph: `StatusWrapper::new` and the two `edge!` instances |
| `StateGraph` | `src/state.rs` | the `next` bodies of the `state!` instances and the recursive `run` |
| `ConcreteStateMachine` | `src/concrete_state_machine.rs` | `run_to_completion`: retry loops with a counter, then the phase sequence |
| `PodManager` | `src/pod.rs` | `Manager`, a class over a map of handle objects |
| `Wrappers` | — | `Option` and `Result` |

In Rust a phase is a type and an edge is a conversion; a missing edge is a
compile error. Each graph here is a function
`Transition(status, target): Option<Status>` that returns `None` where the
source has no conversion. The Kubernetes status carried in `inner` is the
type parameter `K`, and nothing inspects it.

The provider is the object the driver pulls images and mounts volumes
through. In the model it is a finite script of replies, consumed one per
call, in call order:

- **Success** stands for `Ok(Either::Left(_))`.
- **Retryable** stands for `Ok(Either::Right(_))`.
- **Fatal** stands for `Err(_)`.
- For the two backoff calls, Fatal is `Err(())` and any other reply is `Ok(())`.

`Drive` specifies the run as a function of the pod and the script. It
returns:

- the result;
- the log of (call, reply) exchanges;
- the phases visited.

The methods `RetryLoop`, `RetryEachLoop`, `MountVolumes` and
`RunToCompletion` keep the loops, the counter and the early returns of the
source. Each is proved equal to that specification. A source loop may wait
forever on Retryable replies. When the script runs out first, the model
stops with the result `Unfinished`.

The retry counter works as follows:

- It starts at 0.
- Each Retryable attempt adds one.
- A backoff is called once the counter exceeds `Threshold` = 3, and it resets the counter to 0.
- The counter therefore never leaves 0..4, so the source's `u8` never wraps.

## Model

| member | source | states |
|---|---|---|
| PhaseGraph.WalkKeepsInner | src/pod/status.rs:35-105 | a walk over edges that keep `inner` ends in the last target phase with the original `inner` |
| PhaseGraph.WalkStaysWithin | src/container.rs:59-159 | a walk that starts in a set of phases closed under the edges never leaves that set |
| PodStatus.Transition | src/pod/status.rs:35-105 | a granted conversion yields the requested phase and the unchanged `inner` |
| PodStatus.TransitionMatchesEdges | src/pod/status.rs:35-105 | a conversion is granted exactly for the eight (from, to) pairs of the edge table, and refused for every other pair |
| PodStatus.OutgoingEdges | src/pod/status.rs:35-105 | Registered goes only to Pending, Pending only to Running or Error, Running only to Completed or Error, Error only to Pending or CrashLoopBackoff, CrashLoopBackoff only to Error (each an iff) |
| PodStatus.EdgeCount | src/pod/status.rs:35-105 | the edge table has exactly eight pairs |
| PodStatus.CompletedTerminalRegisteredInitial | src/pod/status.rs:32-105 | no conversion leaves Completed and none enters Registered |
| PodStatus.WalkKeepsInner | src/pod/status.rs:37-102 | any chain of conversions changes only the phase tag and keeps `inner` |
| PodStatus.NoWayBack | src/pod/status.rs:35-105 | after at least one conversion a pod is never in Registered, and a walk from Completed is refused |
| PodStatus.EveryPhaseReachable | src/pod/status.rs:35-105 | every phase, Completed included (via Pending and Running), is reachable from Registered, carrying `inner` |
| Container.Transition | src/container.rs:59-159 | a granted `into_*` call yields the requested phase and the unchanged `inner` |
| Container.TransitionMatchesEdges | src/container.rs:59-159 | a transition is granted exactly for the thirteen pairs of the edge table |
| Container.OutgoingEdges | src/container.rs:59-159 | the out-edges of every phase (each an iff); VolumeError, Starting and Completed have none |
| Container.EdgeCount | src/container.rs:59-159 | the edge table has exactly thirteen pairs |
| Container.WalkKeepsInner | src/container.rs:61-157 | any chain of `into_*` calls changes only the phase tag and keeps `inner` |
| Container.RunningUnreachable | src/container.rs:59-159 | from Registered a container only reaches the provisioning phases, never Running, Error, CrashLoopBackoff or Completed, because Starting has no out-edge |
| Container.ProvisioningReachable | src/container.rs:59-120 | each provisioning phase is reachable from Registered, so the provisioning phases are exactly the reachable set |
| ContainerStatus.Transition | src/container/status.rs:42-56 | a granted edge yields the target phase and the unchanged `inner` |
| ContainerStatus.OnlyTwoEdges | src/container/status.rs:42-56 | the only edges are Waiting to Running and Running to Terminated; Terminated is terminal and nothing enters Waiting |
| ContainerStatus.WalkFollowsOrder | src/container/status.rs:42-56 | a successful walk takes the phases that follow the start in the order Waiting, Running, Terminated, one per step, keeping `inner` |
| ContainerStatus.New | src/container/status.rs:12-18 | `new` starts in Waiting, the first phase of the order, around the default status, and from there only the edge to Running is granted |
| ContainerStatus.FromNew | src/container/status.rs:12-18 | from `new` at most two transitions succeed, their targets are a prefix of [Running, Terminated], and the default `inner` is carried |
| ContainerStatus.NewRunsToTerminated | src/container/status.rs:12-56 | from `new` both transitions are granted and end in Terminated with the default `inner` |
| StateGraph.SuccessState | src/state.rs:84-120 | no Success type is Registered; it is the state itself exactly for the states that complete, and otherwise a state strictly closer to completion |
| StateGraph.ErrorState | src/state.rs:84-120 | the Error type is ImagePullBackoff exactly for ImagePull and ImagePullBackoff, Completed exactly for Completed, and Failed for every other state |
| StateGraph.Next | src/state.rs:84-120 | every `next` returns a transition allowed by the state's declared Success and Error types, each Advance or Error moves strictly closer to a completing state, and only Completed and Failed return Completed |
| StateGraph.Run | src/state.rs:28-35 | `run` terminates from every state after Distance steps along declared edges, ends in Completed or Failed, and succeeds exactly when it ends in Completed |
| StateGraph.RunFromRegistered | src/state.rs:84-133 | `run(Registered)` visits Registered, ImagePull, Starting, Running, Completed and returns `Ok(())` |
| StateGraph.RunFromFailed | src/state.rs:99-105 | `run(Failed)` returns the error of `failed` after one step |
| StateGraph.SuccessPassesRunning | src/state.rs:28-120 | a successful run not started in Completed passes through Running just before Completed |
| ConcreteStateMachine.PullOps | src/concrete_state_machine.rs:28-37 | one image pull per container, in container order, of that container's image |
| ConcreteStateMachine.MountOps | src/concrete_state_machine.rs:72-78 | the mount stage makes only mount calls, and a mount call for every volume mount of every container |
| ConcreteStateMachine.MountOpsOnlyContainers | src/concrete_state_machine.rs:72-78 | every call of the mount stage mounts a volume mount of one of the pod's containers |
| ConcreteStateMachine.MountOpsAppend | src/concrete_state_machine.rs:72-78 | the mount calls for `a + b` are those for `a` followed by those for `b`, so they follow the containers in order |
| ConcreteStateMachine.MountOpsSingle | src/concrete_state_machine.rs:73-78 | one container contributes exactly its own mounts, mount by mount, in order |
| ConcreteStateMachine.ContainerMountOps | src/concrete_state_machine.rs:73-78 | one mount call per volume mount of the container, in order |
| ConcreteStateMachine.Retry | src/concrete_state_machine.rs:30-67 | the specification of the retry loop: it resumes within the script, and stops unfinished only once the script is used up (its behaviour is stated by the Retry lemmas below) |
| ConcreteStateMachine.RetryEach | src/concrete_state_machine.rs:28-68 | the specification of a stage of retry loops, one per operation: it resumes within the script, and stops unfinished only once the script is used up |
| ConcreteStateMachine.Drive | src/concrete_state_machine.rs:22-114 | the phases follow the lifecycle Registered, ImagePull, VolumeMount, Starting, Running, Completed: all of it exactly on Ok, a prefix ended by Error on Err (in the image-pull or the volume-mount phase), and a prefix on an unfinished run |
| ConcreteStateMachine.RetryOnce | src/concrete_state_machine.rs:36-66 | one trip through the loop body makes one attempt, and a backoff when the counter passes 3; it is the corresponding prefix of the specified loop, and the counter stays at most 3 while looping |
| ConcreteStateMachine.RetryLoop | src/concrete_state_machine.rs:30-67 | the `loop` with its counter (a `nat`, at most 3 between iterations by the loop invariant and at most 4 inside one, so the source's `u8` never wraps), break, increment, backoff and reset computes exactly the specified retry loop from counter 0 |
| ConcreteStateMachine.RetryEachLoop | src/concrete_state_machine.rs:28-68 | the `for` over the pulls runs the retry loop per operation and stops at the first that does not succeed, as specified |
| ConcreteStateMachine.MountVolumes | src/concrete_state_machine.rs:72-105 | the nested `for` over containers and their mounts (none for a container without `volume_mounts`) equals the retry loop over all mounts in order |
| ConcreteStateMachine.RunToCompletion | src/concrete_state_machine.rs:22-114 | the method's result, log and phases equal the specification `Drive` |
| ConcreteStateMachine.RetryNext | src/concrete_state_machine.rs:31-67 | the retry loop consumes exactly one reply per call it makes |
| ConcreteStateMachine.RetryExchangeAt | src/concrete_state_machine.rs:31-67 | the i-th exchange is the i-th call of the pattern (attempts, with a backoff after every fourth Retryable) answered by the i-th reply; no exchange but the last ends the loop |
| ConcreteStateMachine.RetryDoneAt | src/concrete_state_machine.rs:37-38 | the loop ends with Done exactly when its last exchange is an attempt answered Success |
| ConcreteStateMachine.RetryAbortedAt | src/concrete_state_machine.rs:40-63 | the loop aborts exactly when its last exchange got Fatal, for an attempt or a backoff alike |
| ConcreteStateMachine.RetryOutAt | src/concrete_state_machine.rs:31-67 | the loop is unfinished exactly when it used the whole script without a final reply |
| ConcreteStateMachine.RetryStatus | src/concrete_state_machine.rs:31-67 | the three ways the loop can end, each an iff on its last exchange |
| ConcreteStateMachine.RetryAnswers | src/concrete_state_machine.rs:31-67 | the loop's exchanges got the script's replies from its start, in order |
| ConcreteStateMachine.RetryCalls | src/concrete_state_machine.rs:37-56 | the i-th call is an attempt, or a backoff exactly at the positions where the counter has exceeded 3 |
| ConcreteStateMachine.RetryUnsettled | src/concrete_state_machine.rs:38-47 | before the last exchange no reply was Fatal and no attempt got Success |
| ConcreteStateMachine.RetryFatal | src/concrete_state_machine.rs:40-63 | a Fatal reply can only be the last exchange, and the loop aborts exactly then |
| ConcreteStateMachine.RetrySucceeded | src/concrete_state_machine.rs:37-57 | the log shows the operation done (a Success to an attempt, not to a backoff) exactly when the loop ends with Done |
| ConcreteStateMachine.BackoffAfterRetryables | src/concrete_state_machine.rs:39-65 | every backoff call is preceded by four attempts in a row that got Retryable |
| ConcreteStateMachine.RetryEachAppend | src/concrete_state_machine.rs:72-105 | running the loops over `a + b` is running them over `a`, then, if all succeeded, over `b` |
| ConcreteStateMachine.RetryEachAnswers | src/concrete_state_machine.rs:28-68 | the loops over several operations consume the script in order, one reply per call; an unfinished stage used the whole script |
| ConcreteStateMachine.RetryEachSucceeded | src/concrete_state_machine.rs:28-68 | a stage that ends with Done shows every operation done, in order; otherwise it shows a proper prefix of them done |
| ConcreteStateMachine.RetryEachFatal | src/concrete_state_machine.rs:40-63 | in a stage a Fatal reply can only be the last exchange, and the stage aborts exactly then |
| ConcreteStateMachine.RetryEachCalls | src/concrete_state_machine.rs:28-68 | every call a stage makes is one of its operations or its backoff |
| ConcreteStateMachine.DriveAnswers | src/concrete_state_machine.rs:22-114 | the run consumes the script in order, one reply per call; an unfinished run used all of it |
| ConcreteStateMachine.DriveFatal | src/concrete_state_machine.rs:40-98 | a Fatal reply ends the run, with no provider call after it, and the run returns Err exactly when its last exchange got Fatal |
| ConcreteStateMachine.DriveSucceeded | src/concrete_state_machine.rs:28-113 | the run returns Ok exactly when the log shows every pull and then every mount done, in order |
| ConcreteStateMachine.DrivePullsBeforeMounts | src/concrete_state_machine.rs:28-72 | the log splits into pulls and then mounts, and any mount comes after every pull was done |
| ConcreteStateMachine.ThreeRetryableThenSuccess | src/concrete_state_machine.rs:30-66 | three Retryable replies and a Success give four pulls, no backoff, and Ok |
| ConcreteStateMachine.FourRetryableThenBackoff | src/concrete_state_machine.rs:39-65 | four Retryable replies give a backoff after the fourth pull, then a fresh pull |
| ConcreteStateMachine.FatalFirstPull | src/concrete_state_machine.rs:40-47 | a Fatal first pull fails the run at once, whatever the script holds after it |
| ConcreteStateMachine.FatalBackoff | src/concrete_state_machine.rs:58-62 | a failing backoff fails the run in the image-pull phase |
| ConcreteStateMachine.FatalMount | src/concrete_state_machine.rs:81-86 | a Fatal mount after a successful pull fails the run in the VolumeMount phase |
| PodManager.Handle.constructor | src/pod/handle.rs:6-10 | a new handle holds the pod and the given status |
| PodManager.Handle.UpdateStatus | src/pod.rs:37 | the handle's status becomes `f` of its old status |
| PodManager.Manager.constructor | src/pod.rs:20-24 | a new manager holds no handle |
| PodManager.Manager.RegisterPod | src/pod.rs:26-31 | the pod's (namespace, name) maps to a fresh handle holding the pod, replacing any earlier handle; other keys keep their handles; distinct keys keep distinct handles |
| PodManager.Manager.UpdateStatus | src/pod.rs:33-38 | only the handle at the key changes, its status becoming `f` of the old one; the map and every other handle's status are unchanged |

## Left out

- Concurrency and locking: `Arc`, `DashMap`, `tokio::sync::Mutex`, the `provider.lock().await` calls and `async`. The model is sequential, because these exist only for concurrency.
- The provider's default backoffs sleep for 30 seconds. Only the call and its reply are modelled, not the timing.
- `println!` logging in the `state!` bodies. Logging is output only.
- The error-message strings passed to `to_error`, including the image-pull paths that reuse the text "Volume mount backoff failed". `to_error` is not part of this model; its effect is modelled as "enter Error and return `Err(())`".
- `src/kubelet.rs`, `src/provider.rs`, `src/concrete_provider.rs`, `src/state_machine.rs` and `src/lib.rs` are not part of this model. They hold an agent loop, trait signatures, stubs and module wiring.
- `src/pod/handle.rs` shows only the shape of `Handle`; `Handle::new` and `Handle::update_status` are not shown. The model takes the initial status and the update function from the caller, and leaves out the handle's map of containers.
- PodManager.Manager.UpdateStatus: requires the key to be registered, where the source panics on `unwrap` of a missing key.
- PodManager.Manager.RegisterPod: requires the metadata, namespace and name to be present, where the source panics on `unwrap`.
- ConcreteStateMachine.RunToCompletion: requires a pod spec and an image on every container before the run starts. The source panics only when its loop reaches the first container without an image, after pulling the images of the earlier ones.
- ConcreteStateMachine.Drive: requires a pod spec and an image on every container, as RunToCompletion does, where the source panics only on reaching the first container without an image. The result Unfinished exists only because the script of replies is finite; the source instead waits for further replies.
- StateGraph.Run: does not take the `pod: KubePod` argument that `run` clones into every `next` call, because no `next` body reads it.
- StateGraph.Run: the branch in which `next` returns `Err` is modelled (it propagates the error), but no `next` body in the source returns `Err`, so no lemma exercises it.
- The `Status<S>` values that `run_to_completion` builds are represented only by the sequence of phases; their `inner` is never read.
- One might expect a backoff after three Retryable replies; the code's `failures > 3` backs off only after four (ConcreteStateMachine.ThreeRetryableThenSuccess). One might also expect a pod edge from Registered to Error; no such `From` impl is written (PodStatus.OutgoingEdges). The model follows the code.
