# DQN training driver for the Arcade Learning Environment

This project models the driver of a deep Q-network learner that plays Atari
games through the Arcade Learning Environment (ALE). The sources are the
`PlayOneEpisode`, `Evaluate` and `CalculateEpsilon` functions of `dqn_main.cpp`
and the training loop at the end of its `main`. The model covers:

- the epsilon-greedy exploration schedule;
- one episode: the sliding window of frames, NOOP until the window is full,
  the frame-skip loop, reward shaping by sign and lost lives, transitions
  stored in update mode, learning steps gated by replay occupancy and update
  frequency, and handing the episode to replay memory;
- evaluation: one episode without learning, and the average of its scores;
- the training loop: the evaluation trigger, the best score, the HiScore and
  rolling snapshots, `last_eval_iter`, and the evaluation after the loop.

The emulator and the agent are collaborators whose internals are not part of
this model:

- `Ale.Emulator` is a class holding a finite script for each game: what `act`
  returns and the lives, game-over flag and screen it leaves.
- `Dqn.Agent` is a class whose action choice is an uninterpreted policy. The
  policy is a function of everything the agent has been told, so random and
  recurrent choice both fit. The agent logs every call the driver makes on
  it, and every snapshot.

The model has these modules:

- `EpisodeSpec` is a pure specification of one episode. `Step` is one pass of
  the frame loop and `Episode` runs the loop to game over. Each step leaves a
  `StepRecord` in a trace, and the episode's properties are lemmas about that
  trace.
- `EpisodeRunner.PlayOneEpisode` is the imperative loop over the two classes.
  It is proved to produce exactly `Episode`'s score, call log and transitions.
- `Evaluator` averages the scores of the episodes an evaluation plays.
- `TrainingSpec` specifies the training loop. `Replay` folds the loop's
  passes (`Round`s) over its bookkeeping (`Book`: best score,
  `last_eval_iter`, episode counter), and `SavedBy` lists the snapshots those
  passes take. `RoundPlayed` ties each pass to the episodes it played: its
  score is the total of the training episode `Episode` plays from where the
  pass started, and its average is the total of the evaluation episode that
  follows. `PlayedInTurn` says the passes took the emulator's queued games in
  order, each starting from the agent's log as the one before left it.
- `Training` holds the imperative training loop. It is proved to keep its
  bookkeeping equal to `Replay`, its snapshot log equal to `SavedBy`, and its
  passes `PlayedInTurn`; the final evaluation plays the next queued game.

Two places where the model follows the code rather than what its comments
and flag descriptions suggest:

- Under the comment "Get the next screen" (line 134), line 138 obscures
  `current_frame` again, not the freshly read `next_frame`. The model does
  the same: the stored transition's frame is obscured, and its next frame is
  not.
- The help text of `repeat_games` (line 42) calls it the number of games
  played in evaluation mode, but `Evaluate` plays one episode (line 166).
  The model averages that one score.

## Model

| member | source | states |
|---|---|---|
| Exploration.CalculateEpsilon | dqn_main.cpp:48-54 | from the exploration horizon on, epsilon is exactly the final value; from iteration 0 on, for a final value of at most 1, it lies between the final value and 1 |
| Exploration.NoExplorationWindow | dqn_main.cpp:48-54 | with a horizon of zero or less, every non-negative iteration gets the final epsilon, without dividing |
| Exploration.StartsAtOne | dqn_main.cpp:48-54 | iteration 0 of a positive horizon has epsilon 1 |
| Exploration.FractionInUnit | dqn_main.cpp:50 | the fraction of the horizon used so far lies in [0, 1) |
| Exploration.ScheduleInRange | dqn_main.cpp:50 | inside the horizon the linear formula lies between the final value and 1 |
| Exploration.NonIncreasing | dqn_main.cpp:48-54 | epsilon never rises as the iteration grows |
| Exploration.HalfwayExample | dqn_main.cpp:48-54 | halfway through a horizon of 10^6 towards 0.1, epsilon is 0.55 |
| Ale.Emulator.Act | dqn_main.cpp:121 | `act` consumes the next scripted outcome: returns its score delta and takes on its lives, game-over flag and screen |
| Ale.Emulator.ResetGame | dqn_main.cpp:155 | `reset_game` starts the next queued game, or leaves the emulator over for good when none is left; the count of games left drops |
| Ale.AtFirstGame | dqn_main.cpp:315 | before any episode the emulator stands at the first of its playable games |
| Ale.NextGame | dqn_main.cpp:155 | a reset after game `n` of the queue leaves the emulator at game `n + 1`, or over once the queue is used up |
| Dqn.Agent.SelectAction | dqn_main.cpp:116 | the action is the policy applied to the call history, window, epsilon and continuation flag; the call is logged and nothing else changes |
| Dqn.Agent.UpdateRandom | dqn_main.cpp:147 | a learning step logs itself, never moves the iteration counter back, and leaves replay occupancy and snapshots alone |
| Dqn.Agent.RememberEpisode | dqn_main.cpp:153 | the whole episode is handed to replay memory in one logged call; the iteration counter is unchanged |
| Dqn.Agent.Snapshot | dqn_main.cpp:333-335 | appends exactly one snapshot with the given name and flags and changes nothing else |
| EpisodeSpec.LastN | dqn_main.cpp:108-110 | the trimmed window holds the whole history when it is short enough, and exactly `frames_per_timestep` frames otherwise |
| EpisodeSpec.LastNPush | dqn_main.cpp:95-110 | pushing onto an already trimmed window and trimming again gives the same window as trimming the whole history |
| EpisodeSpec.ShapedReward | dqn_main.cpp:126-132 | the reward is in {-1, 0, 1}: -1 when fewer lives are left than before, otherwise 1 exactly for a positive score delta and 0 exactly for a zero one |
| EpisodeSpec.TrainingDue | dqn_main.cpp:145-146 | a learning step is due only in update mode with replay memory past the threshold, and then always on frame 0 |
| EpisodeSpec.StoredTransition | dqn_main.cpp:136-143 | the stored transition is the step's frame, action and reward, with the freshly read next frame exactly when the game goes on |
| EpisodeSpec.SumRewardsAppend | dqn_main.cpp:121-123 | the score of two runs of acts is the sum of their scores |
| EpisodeSpec.Acts | dqn_main.cpp:120 | the frame-skip loop calls `act` at most `skip_frame + 1` times and never beyond the game's script |
| EpisodeSpec.ActsShape | dqn_main.cpp:120-122 | on a live game the frame-skip loop acts at least once, never after game over, and stops short only at game over; a game that goes on has a playable rest |
| EpisodeSpec.SkipOutcomes | dqn_main.cpp:119-122 | the acts of one frame-skip loop are a non-empty prefix of the script, at most `skip_frame + 1` long |
| EpisodeSpec.SkipOutcomesShape | dqn_main.cpp:119-122 | no act of a frame-skip loop follows a game over, and the loop stops early only at one |
| EpisodeSpec.NewRecord | dqn_main.cpp:88-150 | a step acts at least once and consumes part of the script |
| EpisodeSpec.NewRecordWindow | dqn_main.cpp:108-118 | the window never exceeds `frames_per_timestep`; the agent is asked exactly when it is full, and the action is NOOP otherwise |
| EpisodeSpec.NewRecordSkip | dqn_main.cpp:119-122 | one step acts between 1 and `skip_frame + 1` times and stops early only at game over |
| EpisodeSpec.NewRecordFacts | dqn_main.cpp:88-150 | everything the rest of the proof needs about one step holds of the step the loop takes |
| EpisodeSpec.Step | dqn_main.cpp:88-150 | one pass of the loop body records one step and consumes script |
| EpisodeSpec.StepShrinks | dqn_main.cpp:87-151 | every pass of the frame loop leaves a well-formed state and consumes script, so the loop ends |
| EpisodeSpec.RunFrom | dqn_main.cpp:87-151 | the frame loop stops only at game over, never grows the script, and records at least one step on a live game |
| EpisodeSpec.Episode | dqn_main.cpp:76-151 | an episode ends at game over after at least one step, having consumed part of the script |
| EpisodeSpec.StepLocal | dqn_main.cpp:87-150 | a step keeps the per-step facts of every earlier step and adds its own |
| EpisodeSpec.StepWindow | dqn_main.cpp:95-110 | after a step, every step's window is the last `frames_per_timestep` pushed frames up to it |
| EpisodeSpec.StepContinuation | dqn_main.cpp:86-117 | after a step, the continuation flag of each step is set exactly when an earlier step asked for an action |
| EpisodeSpec.StepLives | dqn_main.cpp:77-131 | after a step, each step's lives-to-lose is the minimum of the initial count and the readings before it |
| EpisodeSpec.StepScore | dqn_main.cpp:85-123 | after a step, the acts so far are a prefix of the script and the total score is their sum |
| EpisodeSpec.StepTerminal | dqn_main.cpp:87 | the loop runs a step only while the game is not over, so only the last step ends the game |
| EpisodeSpec.StepEpisode | dqn_main.cpp:133-149 | in update mode a step appends one transition, and the previous transition's next frame is the frame the new step starts from |
| EpisodeSpec.StepCalls | dqn_main.cpp:116-147 | after a step, the agent's log is the old log followed by each step's calls, and each chosen action is the policy applied to the log before it |
| EpisodeSpec.StepInv | dqn_main.cpp:87-151 | one pass of the frame loop keeps the loop invariant |
| EpisodeSpec.StartInv | dqn_main.cpp:76-86 | the loop invariant holds on entry |
| EpisodeSpec.RunInv | dqn_main.cpp:87-151 | the frame loop keeps its invariant to the end and stops only at game over |
| EpisodeSpec.EpisodeInv | dqn_main.cpp:76-151 | a whole episode ends at game over with the loop invariant intact |
| EpisodeSpec.MinOfIsMinimum | dqn_main.cpp:128-129 | `remaining_lives` is no larger than the initial count or any reading, and equals one of them |
| EpisodeSpec.NoActAfterGameOver | dqn_main.cpp:87-122 | across a whole trace, no `act` follows a game-over outcome, and the last outcome ends the game exactly when the last step did |
| EpisodeSpec.NoUpdatesWithoutTraining | dqn_main.cpp:133-148 | without update mode no learning step is ever called |
| EpisodeSpec.EpisodeWindow | dqn_main.cpp:95-111 | step `i` hands the agent the `min(i+1, frames_per_timestep)` most recent frames, in the order they were read |
| EpisodeSpec.WindowOfStep | dqn_main.cpp:108-111 | under the window invariant, a step's window is a contiguous, most-recent slice of the pushed frames |
| EpisodeSpec.EpisodeAction | dqn_main.cpp:112-118 | the agent is asked exactly when the window is full and the action is NOOP otherwise; a chosen action is the policy on everything said before; the continuation flag is set exactly when an earlier step chose |
| EpisodeSpec.EpisodeFrameSkip | dqn_main.cpp:119-123 | every step acts 1 to `skip_frame + 1` times, never after game over, stops early only at game over, and scores the sum of its acts |
| EpisodeSpec.FinishedScore | dqn_main.cpp:85-156 | a finished run played a prefix of the script ending at its first game over, and its total is the sum of all score deltas |
| EpisodeSpec.EpisodeScore | dqn_main.cpp:85-157 | the returned total is the sum of every score delta `act` returned; the episode played the script up to and including its first game over and no further |
| EpisodeSpec.RewardOfStep | dqn_main.cpp:124-132 | the same reward and lives facts for any run that keeps the invariant |
| EpisodeSpec.EpisodeReward | dqn_main.cpp:124-132 | each reward is in {-1, 0, 1}: -1 when fewer lives are left than ever before, otherwise the sign of the delta; `remaining_lives` ends as the minimum lives seen |
| EpisodeSpec.EpisodeTransitions | dqn_main.cpp:133-149 | in update mode there is one transition per step, only the last lacks a next frame, and every other next frame is what the following step starts from; without updates nothing is stored |
| EpisodeSpec.FinishedTransitions | dqn_main.cpp:133-149 | the same transition facts for any finished run that keeps the invariant |
| EpisodeSpec.EpisodeCalls | dqn_main.cpp:112-148 | the agent's log is the steps' calls in order; step `i` trains exactly in update mode with occupancy past the threshold and `i` a multiple of the update frequency |
| EpisodeSpec.CallsOfStep | dqn_main.cpp:112-148 | the same call facts for any run that keeps the invariant |
| EpisodeRunner.LastNDrop | dqn_main.cpp:108-109 | dropping the front of an over-long window does not change its final `frames_per_timestep` frames |
| EpisodeRunner.ReadFrame | dqn_main.cpp:88-94 | in update mode the kept frame is used; otherwise the current screen, preprocessed and obscured if configured |
| EpisodeRunner.PushFrame | dqn_main.cpp:95-110 | push and trim leave the last `frames_per_timestep` frames of the window plus the new frame |
| EpisodeRunner.ActFrames | dqn_main.cpp:119-122 | the frame-skip loop plays exactly the specified outcomes, sums their deltas and leaves the emulator in the last outcome's state |
| EpisodeRunner.ChooseAction | dqn_main.cpp:112-118 | the agent is asked, with `!first_action`, exactly when the window is full; otherwise the action is NOOP and `first_action` is kept |
| EpisodeRunner.StoreTransition | dqn_main.cpp:133-150 | in update mode appends the transition (no next frame at game over), trains exactly when due, and moves to the next frame; otherwise it does nothing |
| EpisodeRunner.ShapeReward | dqn_main.cpp:123-131 | the reward and the new `remaining_lives` are the shaped reward and the minimum |
| EpisodeRunner.SenseAndAct | dqn_main.cpp:88-122 | the first half of a step computes the specified frame, window, action, calls and acts |
| EpisodeRunner.PlayFrame | dqn_main.cpp:88-150 | one pass of the loop body turns the mirrored state into the specified `Step` |
| EpisodeRunner.PlayOneEpisode | dqn_main.cpp:74-157 | aborts on a finished game without touching anything; otherwise returns `Episode`'s total and leaves `Episode`'s calls, hands over its transitions once in update mode, resets to the next game, and never trains or changes memory outside update mode |
| Evaluator.MeanScore | dqn_main.cpp:167-171 | the accumulated total divided by the count is the mean of the scores |
| Evaluator.SumBounds | dqn_main.cpp:167-170 | scores within [lo, hi] sum to between n·lo and n·hi |
| Evaluator.MeanBetween | dqn_main.cpp:171 | the average lies between the smallest and largest possible score |
| Evaluator.QuotientBounds | dqn_main.cpp:171 | dividing a total bounded by n·lo and n·hi by n lands in [lo, hi] |
| Evaluator.MeanOfOne | dqn_main.cpp:165-171 | the average of the single collected score is that score |
| Evaluator.Evaluate | dqn_main.cpp:162-179 | plays one episode at the evaluation epsilon without learning and returns its score as the average; iteration, memory and snapshots are untouched |
| TrainingSpec.Truncate | dqn_main.cpp:332 | `int(avg_score)` rounds towards zero |
| TrainingSpec.ShouldEvaluate | dqn_main.cpp:324-325 | an evaluation is due whenever `evaluate_freq` iterations have passed since the last one; before that, never during exploration and never for a score that does not beat the best |
| TrainingSpec.AfterEvaluation | dqn_main.cpp:327-336 | the best never falls, rises exactly when the average beats it and then equals the average; `last_eval_iter` becomes the iteration |
| TrainingSpec.EvaluationSnapshots | dqn_main.cpp:327-335 | an evaluation ends with the rolling snapshot, and takes a HiScore snapshot, first, exactly when the average beats the best |
| TrainingSpec.Apply | dqn_main.cpp:323-336 | a pass counts one more episode and never lowers the best; without an evaluation the best and `last_eval_iter` stay; after one, `last_eval_iter` is the pass's iteration; a changed best is the pass's average |
| TrainingSpec.Replay | dqn_main.cpp:309-336 | the passes count one episode each and never lower the best |
| TrainingSpec.HiScoresAppend | dqn_main.cpp:333 | HiScore snapshots of two logs add up |
| TrainingSpec.LatestsAppend | dqn_main.cpp:335 | rolling snapshots of two logs add up |
| TrainingSpec.BestNeverDecreases | dqn_main.cpp:327-330 | the best score after any prefix of the passes is at least the initial best and at most the final best |
| TrainingSpec.BestIsAnAverage | dqn_main.cpp:327-330 | the best score is the initial value or the average of some evaluation |
| TrainingSpec.HiScoreOnImprovement | dqn_main.cpp:327-334 | the number of HiScore snapshots equals the number of strict improvements of the best score |
| TrainingSpec.RollingSnapshotPerEvaluation | dqn_main.cpp:324-337 | the number of rolling snapshots equals the number of evaluations |
| TrainingSpec.FinalEvaluationRuns | dqn_main.cpp:336-339 | `last_eval_iter` never exceeds an iteration the counter has reached, so the post-loop check holds |
| TrainingSpec.ReplayExtend | dqn_main.cpp:315-338 | one more pass applies its bookkeeping and appends its snapshots |
| TrainingSpec.TriggeredExtend | dqn_main.cpp:324-325 | a pass whose evaluation followed the trigger extends a triggered history |
| TrainingSpec.TriggeredAt | dqn_main.cpp:324-325 | pass `i` evaluated exactly when the score beat the best after exploration, or `evaluate_freq` iterations had passed since the last evaluation |
| TrainingSpec.ScheduledExtend | dqn_main.cpp:315-318 | a pass started below `max_iter` at the scheduled epsilon, where the last one ended, extends a schedule |
| TrainingSpec.ProgressExtend | dqn_main.cpp:315-338 | one pass of the loop keeps the loop's progress invariant and appends exactly its snapshots |
| TrainingSpec.RoundGames | dqn_main.cpp:316-326 | a pass plays its training game and, exactly when it evaluates, one more game |
| TrainingSpec.RoundQueued | dqn_main.cpp:316-326 | the games a pass played are the next ones in the emulator's queue |
| TrainingSpec.EachPlayedExtend | dqn_main.cpp:315-338 | one more pass played as specified extends a history of such passes |
| TrainingSpec.ChainedExtend | dqn_main.cpp:315-338 | a pass that starts from the log the last one left keeps the passes chained |
| TrainingSpec.GamesOfAppend | dqn_main.cpp:315-338 | the games of two runs of passes are the games of the first followed by those of the second |
| TrainingSpec.QueuedExtend | dqn_main.cpp:315-338 | games taken in queue order, followed by the next queued games, are still taken in queue order |
| TrainingSpec.PlayedInTurnExtend | dqn_main.cpp:315-338 | one more pass, played on the next queued games from the log the last pass left, extends a history played in turn |
| TrainingSpec.PassesExtend | dqn_main.cpp:315-338 | one more pass keeps the whole loop invariant: bookkeeping, schedule, trigger, snapshots, episodes played in turn and the agent's log |
| TrainingSpec.ScoreOfRound | dqn_main.cpp:316-317 | a pass's score is the sum of the score deltas of the acts its training episode played, a prefix of its game ending at the first game over |
| TrainingSpec.EvaluationOfRound | dqn_main.cpp:324-326 | an evaluating pass played its evaluation game from the log the training episode left; its average is the sum of that episode's score deltas, and it neither trained nor stored transitions |
| Training.Train | dqn_main.cpp:308-342 | the passes played the queued games in order, each as `RoundPlayed` says; on completion the counter reached `max_iter`, each pass followed the schedule and the trigger, the bookkeeping is `Replay` of the passes, the snapshots are theirs plus the final rolling one, and the final evaluation played the next queued game; on exhaustion of games, the snapshots taken so far |
| Training.TrainingLoop | dqn_main.cpp:315-338 | the loop ends with the counter at `max_iter` or more, the bookkeeping equal to `Replay` of its passes, the snapshot log equal to `SavedBy`, and the passes played in turn |
| Training.NextPass | dqn_main.cpp:315-338 | one pass of the loop keeps the loop invariant and moves past the games it played, or aborts without a snapshot |
| Training.TrainingRound | dqn_main.cpp:316-337 | one pass plays at `CalculateEpsilon(iteration)`, its score is its training episode's total, it evaluates exactly when triggered, and bookkeeping and snapshots change as `Apply` and `RoundSnapshots` say |
| Training.TrainingEpisode | dqn_main.cpp:316-317 | the training episode is `Episode` in update mode on the current queued game, from the agent's current log, and returns its total |
| Training.EvaluateIfDue | dqn_main.cpp:324-337 | evaluates exactly when the trigger holds, on the next queued game and with its total as the average, and then updates the best, `last_eval_iter` and the snapshots; otherwise nothing changes |
| Training.EvaluationRound | dqn_main.cpp:326-336 | the average is the evaluation episode's total; a strictly better average becomes the best with a HiScore snapshot, then the rolling snapshot is always taken and `last_eval_iter` noted |
| Training.EvaluationEpisode | dqn_main.cpp:326 | the evaluation is `Episode` without learning on the current queued game, and returns its total |
| Training.FinalEvaluation | dqn_main.cpp:339-342 | the final evaluation plays the current queued game without learning and is followed by exactly one rolling snapshot |

## Left out

- Screen and binary-frame saving and their file I/O (lines 56-63, 96-107): no effect on the episode.
- Command-line parsing, ROM loading, network and solver setup, resume paths and the timing mode (lines 181-306): configuration is the `Flags.Config` value.
- `save_path` strings: a snapshot is named `Latest` or `HiScore(n)` instead of a file name.
- `FindHiScore` on resume and `numeric_limits<double>::lowest()` (lines 310-314): the initial best score is the parameter `initialBest` of `Training.Train`.
- The standard deviation and the `sqrt` in `Evaluate` (lines 172-176): it is only logged.
- `repeat_games` is not modelled beyond the unused standard deviation; the commented-out parallel evaluation (lines 163-164) is left out.
- The `LOG` statements.
- Threads, and the ALE and DQN internals: the network, the solver, replay memory's capacity and eviction, preprocessing, obscuring, and epsilon-greedy sampling inside `SelectAction`.
- Dqn.Agent.RememberEpisode: promises nothing about replay occupancy afterwards, because capacity and eviction belong to the agent.
- Dqn.Agent.UpdateRandom: promises only that the iteration counter does not go back, because the solver's counting is not visible.
- Training.Train: a pass cut short because the games ran out is not recorded as a `Round`; only the snapshots it took are stated.
- Ale.Emulator.Act: ignores its action, because each game's outcomes are scripted. This loses nothing: the agent is deterministic given what it was told, so the outcomes of its whole run can be written into the script in advance.
- Dqn.ObscureScreen: obscures in place in the code. Through shared frame pointers, line 138 would also reach window entries and the previous transition's next frame. The model treats frames as values, so only the re-read current frame is obscured.
- Floating-point arithmetic: doubles are exact reals and scores are integers, so rounding in `CalculateEpsilon`, the reward sign and the mean is not modelled.
- 32-bit integers: overflow of `last_eval_iter + FLAGS_evaluate_freq` (line 325) and of `frame` is not modelled, and `int(avg_score)` outside the `int` range (line 332) is taken to truncate.
- Exploration.CalculateEpsilon: excludes the input where the C++ divides by zero (`iter < 0` with `explore == 0`), because it yields an infinity or a NaN.
- Flags.Config: `skip_frame`, `frames_per_timestep` and `memory_threshold` are non-negative, and `update_frequency` is not zero, because `frame % 0` is undefined.
- The `CHECK_LE` at line 111 and the `assert` at line 132 are not separate statements: the contracts of `EpisodeSpec.LastN` and of `EpisodeSpec.ShapedReward` state them.
- The emulator holds finitely many scripted games, and each game ends in game over. Once the games are used up, the `CHECK(!ale.game_over())` at line 76 aborts. The model returns `CheckFailed`, which also bounds the training loop.
