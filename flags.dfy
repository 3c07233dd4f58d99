/** The command-line flags that the episode runner and the training loop read. */
module Flags {

  datatype Config = Config(
    explore: int,              // FLAGS_explore
    epsilon: real,             // FLAGS_epsilon
    memoryThreshold: nat,      // FLAGS_memory_threshold
    skipFrame: nat,            // FLAGS_skip_frame
    updateFrequency: int,      // FLAGS_update_frequency
    framesPerTimestep: nat,    // FLAGS_frames_per_timestep
    obscureSize: int,          // FLAGS_obscure_size
    evaluateWithEpsilon: real, // FLAGS_evaluate_with_epsilon
    evaluateFreq: int,         // FLAGS_evaluate_freq
    maxIter: int)              // the solver's max_iter
  {
    /** `frame % FLAGS_update_frequency` is undefined for a zero frequency. */
    predicate Valid()
    {
      updateFrequency != 0
    }
  }
}
