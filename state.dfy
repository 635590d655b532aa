/**
 * The state/transition driver of src/state.rs. Every state declares, through
 * the `state!` macro, a Success successor and an Error successor (its
 * associated types); its `next` returns `Advance` with a Success value,
 * `Error` with an Error value, or `Completed` with the final result, and
 * `run` recurses on `Advance` and `Error` until some `next` returns
 * `Completed`.
 */
module StateGraph {
  import opened Wrappers

  datatype State = Registered | ImagePull | ImagePullBackoff | Starting | Running | Completed | Failed

  /** `Transition<S, E>`: `to` is the carried state of Advance (type S) and of Error (type E). */
  datatype Transition =
    | Advance(to: State)
    | Error(to: State)
    | Completed(result: Result<(), string>)

  /** `anyhow::Result<Transition<..>>`, the return type of `next`. */
  type NextResult = Result<Transition, string>

  /**
   * The associated type `Success` of each `state!` instance: never back to
   * Registered, a fixed point exactly at the states that complete, and
   * otherwise a step closer to one.
   */
  function SuccessState(s: State): (r: State)
    ensures r != Registered
    ensures r == s <==> Distance(s) == 0
    ensures r != s ==> Distance(r) < Distance(s)
  {
    match s
    case Registered => ImagePull
    case ImagePull => Starting
    case ImagePullBackoff => ImagePull
    case Starting => Running
    case Running => State.Completed
    case Failed => Failed
    case Completed => State.Completed
  }

  /**
   * The associated type `Error` of each `state!` instance: the image pull
   * states fall back to ImagePullBackoff, Completed stays Completed, and
   * every other state fails.
   */
  function ErrorState(s: State): (r: State)
    ensures r == ImagePullBackoff <==> s == ImagePull || s == ImagePullBackoff
    ensures r == State.Completed <==> s == State.Completed
    ensures r != ImagePullBackoff && r != State.Completed ==> r == Failed
  {
    match s
    case Registered => Failed
    case ImagePull => ImagePullBackoff
    case ImagePullBackoff => ImagePullBackoff
    case Starting => Failed
    case Running => Failed
    case Failed => Failed
    case Completed => State.Completed
  }

  /** What the types of `next` allow a transition from `s` to be. */
  predicate Declared(s: State, t: Transition) {
    match t
    case Advance(n) => n == SuccessState(s)
    case Error(n) => n == ErrorState(s)
    case Completed(_) => true
  }

  /** Steps left before a state whose `next` returns `Completed`. */
  function Distance(s: State): nat {
    match s
    case Completed => 0
    case Failed => 0
    case Running => 1
    case Starting => 2
    case ImagePull => 3
    case ImagePullBackoff => 4
    case Registered => 4
  }

  /** The message of the error `failed` returns. */
  const FailedMessage: string := "Failed."

  /**
   * The `next` bodies of the `state!` instances (and `failed` for Failed).
   * Each is well typed against the declared successors, and each Advance
   * or Error moves strictly closer to a state that completes.
   */
  function Next(s: State): (r: NextResult)
    ensures r.Success? ==> Declared(s, r.value)
    ensures r.Success? && !r.value.Completed? ==> Distance(r.value.to) < Distance(s)
    ensures r.Success? && r.value.Completed? ==> Distance(s) == 0
  {
    match s
    case Registered => Success(Advance(ImagePull))
    case ImagePull => Success(Advance(Starting))
    case ImagePullBackoff => Success(Advance(ImagePull))
    case Failed => Success(Transition.Completed(Failure(FailedMessage)))
    case Starting => Success(Advance(Running))
    case Running => Success(Advance(State.Completed))
    case Completed => Success(Transition.Completed(Success(())))
  }

  /** The states `run` called `next` on, in order, and the result it returned. */
  datatype Trace = Trace(visited: seq<State>, result: Result<(), string>)

  /** True when every step of `path` follows a declared Success or Error edge. */
  predicate FollowsDeclaredEdges(path: seq<State>) {
    forall i :: 0 <= i < |path| - 1 ==> path[i + 1] == SuccessState(path[i]) || path[i + 1] == ErrorState(path[i])
  }

  /** A declared step from `s` in front of a path along declared edges. */
  lemma ConsFollows(s: State, path: seq<State>)
    requires path != [] && FollowsDeclaredEdges(path)
    requires path[0] == SuccessState(s) || path[0] == ErrorState(s)
    ensures FollowsDeclaredEdges([s] + path)
  {
    forall i | 0 <= i < |[s] + path| - 1
      ensures ([s] + path)[i + 1] == SuccessState(([s] + path)[i]) || ([s] + path)[i + 1] == ErrorState(([s] + path)[i])
    {
      if i > 0 {
        assert ([s] + path)[i] == path[i - 1];
      }
    }
  }

  /**
   * `run`: recurses on Advance and Error, returns the carried result on
   * Completed and propagates an error of `next`. It terminates from every
   * state after Distance(s) steps, along declared edges, in Completed or
   * Failed, and succeeds exactly when it ends in Completed.
   */
  function Run(s: State): (t: Trace)
    ensures |t.visited| == Distance(s) + 1 && t.visited[0] == s
    ensures FollowsDeclaredEdges(t.visited)
    ensures t.visited[|t.visited| - 1] in {State.Completed, Failed}
    ensures t.result.Success? <==> t.visited[|t.visited| - 1] == State.Completed
    decreases Distance(s)
  {
    match Next(s)
    case Failure(e) => Trace([s], Failure(e))
    case Success(transition) =>
      if transition.Completed? then Trace([s], transition.result)
      else
        var rest := Run(transition.to);
        ConsFollows(s, rest.visited);
        Trace([s] + rest.visited, rest.result)
  }

  /** `run(Registered)` visits Registered, ImagePull, Starting, Running, Completed and returns Ok(()). */
  lemma RunFromRegistered()
    ensures Run(Registered) == Trace([Registered, ImagePull, Starting, Running, State.Completed], Success(()))
  {
    assert Run(Running) == Trace([Running, State.Completed], Success(()));
    assert Run(Starting) == Trace([Starting, Running, State.Completed], Success(()));
    assert Run(ImagePull) == Trace([ImagePull, Starting, Running, State.Completed], Success(()));
  }

  /** `run(Failed)` returns the error of `failed` after one step. */
  lemma RunFromFailed()
    ensures Run(Failed) == Trace([Failed], Failure(FailedMessage))
  {
  }

  /** A successful run passes through Running just before Completed, unless it starts there. */
  lemma {:induction false} SuccessPassesRunning(s: State)
    requires s != State.Completed
    ensures var t := Run(s);
            t.result.Success? ==> |t.visited| >= 2 && t.visited[|t.visited| - 2] == Running
    decreases Distance(s)
  {
    var n := Next(s);
    if n.Success? && !n.value.Completed? {
      var rest := Run(n.value.to);
      if n.value.to != State.Completed {
        SuccessPassesRunning(n.value.to);
        assert Run(s).visited == [s] + rest.visited;
      }
    }
  }
}
