/** The learner as the training loop sees it: frames, transitions and an agent
    whose internals (network, solver, replay memory) are abstract. The agent
    records every call the loop makes on it. */
module Dqn {
  import opened Ale

  /** A preprocessed frame. Preprocessing and obscuring are left uninterpreted:
      a frame only remembers how it was produced. */
  datatype Frame = Preprocessed(screen: Screen) | Obscured(source: Frame, size: int)

  function PreprocessScreen(s: Screen): Frame
  {
    Preprocessed(s)
  }

  function ObscureScreen(f: Frame, size: int): Frame
  {
    Obscured(f, size)
  }

  /** boost::optional */
  datatype Option<T> = None | Some(value: T)

  /** One step of experience; `next` is absent on the terminal step. */
  datatype Transition = Transition(frame: Frame, action: Action, reward: int, next: Option<Frame>)

  datatype SnapshotName = Latest | HiScore(score: int)

  /** One call of `Snapshot(name, with_memory, with_solver)`. */
  datatype Saved = Saved(name: SnapshotName, withMemory: bool, withSolver: bool)

  /** The calls the episode runner makes on the agent, as recorded by it. */
  datatype Call =
    | Selected(frames: seq<Frame>, epsilon: real, continuation: bool)
    | Updated
    | Remembered(episode: seq<Transition>)

  /** The agent's action choice: a function of everything it has been told so
      far and of the arguments of `SelectAction`. Random choice and recurrent
      state both fit this shape. */
  type Policy = (seq<Call>, seq<Frame>, real, bool) -> Action

  class Agent {
    const policy: Policy
    /** `current_iteration()`: the solver's iteration counter. */
    var iteration: nat
    /** `memory_size()`: the number of transitions in replay memory. */
    var memorySize: nat
    var calls: seq<Call>
    var snapshots: seq<Saved>

    constructor (policy: Policy, iteration: nat, memorySize: nat)
      ensures this.policy == policy && this.iteration == iteration && this.memorySize == memorySize
      ensures calls == [] && snapshots == []
    {
      this.policy := policy;
      this.iteration := iteration;
      this.memorySize := memorySize;
      calls := [];
      snapshots := [];
    }

    method SelectAction(frames: seq<Frame>, epsilon: real, continuation: bool) returns (a: Action)
      modifies this
      ensures a == policy(old(calls), frames, epsilon, continuation)
      ensures calls == old(calls) + [Selected(frames, epsilon, continuation)]
      ensures iteration == old(iteration) && memorySize == old(memorySize)
      ensures snapshots == old(snapshots)
    {
      a := policy(calls, frames, epsilon, continuation);
      calls := calls + [Selected(frames, epsilon, continuation)];
    }

    /** One learning step on a minibatch sampled from replay memory. The solver's
        counter advances; all that callers are promised is that it does not go
        back. Sampling does not change what replay memory holds. */
    method UpdateRandom()
      modifies this
      ensures iteration >= old(iteration)
      ensures calls == old(calls) + [Updated]
      ensures memorySize == old(memorySize) && snapshots == old(snapshots)
    {
      iteration := iteration + 1;
      calls := calls + [Updated];
    }

    /** Admits a whole episode to replay memory. Capacity and eviction belong to
        the agent, so nothing is promised about `memorySize` afterwards. */
    method RememberEpisode(episode: seq<Transition>)
      modifies this
      ensures calls == old(calls) + [Remembered(episode)]
      ensures iteration == old(iteration) && snapshots == old(snapshots)
    {
      memorySize := memorySize + |episode|;
      calls := calls + [Remembered(episode)];
    }

    method Snapshot(name: SnapshotName, withMemory: bool, withSolver: bool)
      modifies this
      ensures snapshots == old(snapshots) + [Saved(name, withMemory, withSolver)]
      ensures calls == old(calls) && iteration == old(iteration) && memorySize == old(memorySize)
    {
      snapshots := snapshots + [Saved(name, withMemory, withSolver)];
    }
  }
}
