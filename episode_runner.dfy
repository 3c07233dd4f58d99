/** `PlayOneEpisode` (dqn_main.cpp, lines 74-157) as the imperative loop it is,
    proved to do what `EpisodeSpec.Episode` describes. */
module EpisodeRunner {
  import opened Ale
  import opened Dqn
  import opened Flags
  import opened EpisodeSpec

  /** What a call of `PlayOneEpisode` comes to: the `CHECK(!ale.game_over())`
      on entry aborts the program, otherwise the episode's total score. */
  datatype EpisodeResult = CheckFailed | Played(total: int)

  lemma LastNDrop<T>(s: seq<T>, n: nat)
    requires |s| > n
    ensures LastN(s[1..], n) == LastN(s, n)
  {
    assert s[1..][|s| - 1 - n..] == s[|s| - n..];
  }

  /** Lines 89-94: outside update mode the screen is read and preprocessed
      afresh; in update mode the frame read at the end of the previous step is
      kept. */
  method ReadFrame(env: Emulator, cfg: Config, update: bool, currentFrame: Frame) returns (frame: Frame)
    ensures frame == if update then currentFrame else ObscureIf(cfg, PreprocessScreen(env.screen))
  {
    frame := currentFrame;
    if !update {
      frame := PreprocessScreen(env.screen);
      if cfg.obscureSize > 0 {
        frame := ObscureScreen(frame, cfg.obscureSize);
      }
    }
  }

  /** Pushes a frame onto the window and trims it from the front to at most
      `cap` frames (lines 95 and 108-110). */
  method PushFrame(window: seq<Frame>, frame: Frame, cap: nat) returns (w: seq<Frame>)
    ensures w == LastN(window + [frame], cap)
    ensures |w| <= cap
  {
    w := window + [frame];
    while |w| > cap
      invariant LastN(w, cap) == LastN(window + [frame], cap)
    {
      LastNDrop(w, cap);
      w := w[1..];
    }
  }

  /** The frame-skip loop (lines 119-122): acts up to `n` times, stopping at
      game over, and adds up the score deltas. */
  method ActFrames(env: Emulator, action: Action, n: nat) returns (immediate: int)
    requires env.Valid() && !env.gameOver && n >= 1
    modifies env
    ensures env.Valid()
    ensures var outs := SkipOutcomes(old(env.script), n);
      && immediate == SumRewards(outs)
      && env.script == old(env.script)[|outs|..]
      && env.lives == outs[|outs| - 1].lives
      && env.gameOver == outs[|outs| - 1].gameOver
      && env.screen == outs[|outs| - 1].screen
    ensures env.games == old(env.games)
  {
    ghost var s0 := env.script;
    immediate := 0;
    var i := 0;
    while i < n && !env.gameOver
      invariant env.Valid() && env.games == old(env.games)
      invariant 0 <= i <= n && i <= |s0|
      invariant env.script == s0[i..]
      invariant i == 0 ==> !env.gameOver
      invariant i > 0 ==> env.lives == s0[i - 1].lives && env.gameOver == s0[i - 1].gameOver
                          && env.screen == s0[i - 1].screen
      invariant Acts(s0, false, n) == i + Acts(env.script, env.gameOver, n - i)
      invariant immediate == SumRewards(s0[..i])
      decreases n - i
    {
      ghost var before := env.script;
      var delta := env.Act(action);
      assert s0[..i + 1] == s0[..i] + [s0[i]];
      SumRewardsAppend(s0[..i], [s0[i]]);
      immediate := immediate + delta;
      i := i + 1;
      assert before[1..] == s0[i..];
    }
    assert Acts(env.script, env.gameOver, n - i) == 0;
  }

  /** Lines 112-118: NOOP until the window is full, then the agent's choice,
      told whether it has chosen before in this episode. */
  method ChooseAction(agent: Agent, frames: seq<Frame>, cap: nat, epsilon: real, firstAction: bool)
    returns (action: Action, stillFirst: bool)
    modifies agent
    ensures |frames| == cap ==> action == agent.policy(old(agent.calls), frames, epsilon, !firstAction)
    ensures |frames| != cap ==> action == PlayerANoop
    ensures stillFirst == (firstAction && |frames| != cap)
    ensures agent.calls == old(agent.calls)
                           + if |frames| == cap then [Selected(frames, epsilon, !firstAction)] else []
    ensures agent.iteration == old(agent.iteration) && agent.memorySize == old(agent.memorySize)
    ensures agent.snapshots == old(agent.snapshots)
  {
    action := PlayerANoop;
    stillFirst := firstAction;
    if |frames| == cap {
      action := agent.SelectAction(frames, epsilon, !firstAction);
      stillFirst := false;
    }
  }

  /** Lines 133-150, the update-mode tail of a step: reads the next frame,
      obscures the current one, stores the transition (with no next frame once
      the game is over), trains when due, and moves on to the next frame.
      Without `update` nothing happens. */
  method StoreTransition(agent: Agent, cfg: Config, update: bool, frame: nat, episode: seq<Transition>,
                         currentFrame: Frame, action: Action, reward: int, gameOver: bool, screen: Screen)
    returns (episode': seq<Transition>, currentFrame': Frame)
    requires cfg.Valid()
    modifies agent
    ensures currentFrame' == if update then PreprocessScreen(screen) else currentFrame
    ensures episode' == if update then
        episode + [Transition(ObscureIf(cfg, currentFrame), action, reward,
                              if gameOver then None else Some(PreprocessScreen(screen)))]
      else episode
    ensures agent.calls == old(agent.calls)
      + if TrainingDue(cfg, update, old(agent.memorySize), frame) then [Updated] else []
    ensures agent.iteration >= old(agent.iteration)
    ensures !update ==> agent.iteration == old(agent.iteration)
    ensures agent.memorySize == old(agent.memorySize) && agent.snapshots == old(agent.snapshots)
  {
    episode' := episode;
    currentFrame' := currentFrame;
    if update {
      var nextFrame := PreprocessScreen(screen);
      var obscured := ObscureIf(cfg, currentFrame);
      var transition := if gameOver then Transition(obscured, action, reward, None)
                        else Transition(obscured, action, reward, Some(nextFrame));
      episode' := episode + [transition];
      if agent.memorySize > cfg.memoryThreshold && frame % cfg.updateFrequency == 0 {
        agent.UpdateRandom();
      }
      currentFrame' := nextFrame;
    }
  }

  /** Lines 123-131: the sign of the score delta, or -1 when a life was lost,
      in which case the lives still to lose drop to the current count. */
  method ShapeReward(immediate: int, lives: int, remainingLives: int) returns (reward: int, remaining': int)
    ensures reward == ShapedReward(immediate, lives, remainingLives)
    ensures remaining' == Min(remainingLives, lives)
  {
    reward := if immediate == 0 then 0 else if immediate > 0 then 1 else -1;
    remaining' := remainingLives;
    if lives < remaining' {
      remaining' := lives;
      reward := -1;
    }
  }

  /** The locals of `PlayOneEpisode` that the frame loop updates. */
  datatype Locals = Locals(
    frame: nat,
    pastFrames: seq<Frame>,
    currentFrame: Frame,
    remainingLives: int,
    firstAction: bool,
    totalScore: int,
    episode: seq<Transition>)

  /** The locals, the emulator and the agent's call log are in the state `run`. */
  ghost predicate Mirrors(run: Run, l: Locals, env: Emulator, agent: Agent)
    reads env, agent
  {
    && run.frame == l.frame && run.window == l.pastFrames && run.current == l.currentFrame
    && run.remainingLives == l.remainingLives && run.firstAction == l.firstAction
    && run.totalScore == l.totalScore && run.episode == l.episode
    && run.script == env.script && run.lives == env.lives && run.gameOver == env.gameOver
    && run.screen == env.screen && run.calls == agent.calls
  }

  /** `Step` taken apart into the values the frame loop's body computes one by
      one: the pushed frame `cur`, the trimmed window `w` and the outcomes
      `outs` of the frame-skip loop. */
  lemma StepFromParts(p: Setting, run: Run, cur: Frame, w: seq<Frame>, action: Action, selected: seq<Call>,
                      outs: seq<Outcome>, last: Outcome, reward: int, s: Run)
    requires p.cfg.Valid() && !run.gameOver && EndsInGameOver(run.script)
    requires cur == CurrentFrame(p, run)
    requires w == LastN(run.window + [cur], p.cfg.framesPerTimestep)
    requires action == ChosenAction(p, run, w)
    requires selected == run.calls + CallsMade(p, w, !run.firstAction, false)
    requires outs == SkipOutcomes(run.script, p.cfg.skipFrame + 1) && last == outs[|outs| - 1]
    requires reward == ShapedReward(SumRewards(outs), last.lives, run.remainingLives)
    requires s.frame == run.frame + 1 && s.window == w
    requires s.current == if p.update then PreprocessScreen(last.screen) else cur
    requires s.remainingLives == Min(run.remainingLives, last.lives)
    requires s.firstAction == (run.firstAction && |w| != p.cfg.framesPerTimestep)
    requires s.totalScore == run.totalScore + SumRewards(outs)
    requires s.episode == if p.update then
        run.episode + [Transition(ObscureIf(p.cfg, cur), action, reward,
                                  if last.gameOver then None else Some(PreprocessScreen(last.screen)))]
      else run.episode
    requires s.script == run.script[|outs|..]
    requires s.lives == last.lives && s.gameOver == last.gameOver && s.screen == last.screen
    requires s.calls == selected + if UpdateDue(p, run.frame) then [Updated] else []
    requires s.trace == run.trace + [NewRecord(p, run)]
    ensures s == Step(p, run)
  {
    NewRecordBasics(p, run);
  }

  /** Lines 88-122 of a step: the frame is read and pushed, the window
      trimmed, the action chosen and repeated over the skipped frames. */
  method SenseAndAct(env: Emulator, agent: Agent, cfg: Config, epsilon: real, update: bool, l: Locals,
                     ghost p: Setting, ghost run: Run)
    returns (currentFrame: Frame, pastFrames: seq<Frame>, action: Action, firstAction: bool, immediate: int,
             ghost outs: seq<Outcome>)
    requires env.Valid() && !env.gameOver && cfg.Valid()
    requires p.cfg == cfg && p.policy == agent.policy && p.epsilon == epsilon && p.update == update
    requires Mirrors(run, l, env, agent)
    modifies env, agent
    ensures env.Valid() && env.games == old(env.games)
    ensures currentFrame == CurrentFrame(p, run)
    ensures pastFrames == LastN(run.window + [currentFrame], cfg.framesPerTimestep)
    ensures action == ChosenAction(p, run, pastFrames)
    ensures firstAction == (run.firstAction && |pastFrames| != cfg.framesPerTimestep)
    ensures agent.calls == run.calls + CallsMade(p, pastFrames, !run.firstAction, false)
    ensures outs == SkipOutcomes(run.script, cfg.skipFrame + 1)
    ensures immediate == SumRewards(outs) && env.script == run.script[|outs|..]
    ensures env.lives == outs[|outs| - 1].lives && env.gameOver == outs[|outs| - 1].gameOver
    ensures env.screen == outs[|outs| - 1].screen
    ensures agent.iteration == old(agent.iteration) && agent.memorySize == old(agent.memorySize)
    ensures agent.snapshots == old(agent.snapshots)
  {
    currentFrame := ReadFrame(env, cfg, update, l.currentFrame);
    pastFrames := PushFrame(l.pastFrames, currentFrame, cfg.framesPerTimestep);
    action, firstAction := ChooseAction(agent, pastFrames, cfg.framesPerTimestep, epsilon, l.firstAction);
    outs := SkipOutcomes(env.script, cfg.skipFrame + 1);
    immediate := ActFrames(env, action, cfg.skipFrame + 1);
  }

  /** One pass through the body of the frame loop (lines 88-150). */
  method PlayFrame(env: Emulator, agent: Agent, cfg: Config, epsilon: real, update: bool, l: Locals,
                   ghost p: Setting, ghost run: Run)
    returns (l': Locals, ghost run': Run)
    requires env.Valid() && !env.gameOver && cfg.Valid()
    requires p.cfg == cfg && p.policy == agent.policy && p.epsilon == epsilon && p.update == update
    requires p.memorySize == agent.memorySize
    requires Mirrors(run, l, env, agent)
    modifies env, agent
    ensures env.Valid() && env.games == old(env.games)
    ensures run' == Step(p, run) && Mirrors(run', l', env, agent)
    ensures agent.memorySize == old(agent.memorySize) && agent.snapshots == old(agent.snapshots)
    ensures agent.iteration >= old(agent.iteration)
    ensures !update ==> agent.iteration == old(agent.iteration)
  {
    var currentFrame, pastFrames, action, firstAction, immediate, outs :=
      SenseAndAct(env, agent, cfg, epsilon, update, l, p, run);
    ghost var cur := currentFrame;
    ghost var selectedCalls := agent.calls;
    ghost var last := outs[|outs| - 1];
    var totalScore := l.totalScore + immediate;
    var reward, remainingLives := ShapeReward(immediate, env.lives, l.remainingLives);
    var episode;
    episode, currentFrame := StoreTransition(agent, cfg, update, l.frame, l.episode, currentFrame, action, reward,
                                             env.gameOver, env.screen);
    l' := Locals(l.frame + 1, pastFrames, currentFrame, remainingLives, firstAction, totalScore, episode);
    run' := Run(l'.frame, l'.pastFrames, l'.currentFrame, l'.remainingLives, l'.firstAction, l'.totalScore,
                l'.episode, env.script, env.lives, env.gameOver, env.screen, agent.calls,
                run.trace + [NewRecord(p, run)]);
    assert reward == ShapedReward(SumRewards(outs), last.lives, run.remainingLives);
    assert agent.calls == selectedCalls + if UpdateDue(p, run.frame) then [Updated] else [];
    assert episode == if update then
        run.episode + [Transition(ObscureIf(cfg, cur), action, reward,
                                  if last.gameOver then None else Some(PreprocessScreen(last.screen)))]
      else run.episode;
    StepFromParts(p, run, cur, pastFrames, action, selectedCalls, outs, last, reward, run');
  }

  /** Plays one episode from the emulator's current game at `epsilon`,
      training the agent when `update` holds, and then resets the game. */
  method PlayOneEpisode(env: Emulator, agent: Agent, cfg: Config, epsilon: real, update: bool)
    returns (result: EpisodeResult)
    requires env.Valid() && cfg.Valid()
    modifies env, agent
    ensures env.Valid()
    ensures old(env.gameOver) ==> result == CheckFailed && unchanged(env) && unchanged(agent)
    ensures !old(env.gameOver) ==>
      var p := Setting(cfg, agent.policy, epsilon, update, old(agent.memorySize));
      var e := Episode(p, old(env.script), old(env.lives), old(env.screen), old(agent.calls));
      && result == Played(e.totalScore)
      && agent.calls == e.calls + (if update then [Remembered(e.episode)] else [])
      && env.StartedNext(old(env.games))
      && env.Remaining() == old(env.Remaining()) - 1
    ensures agent.iteration >= old(agent.iteration) && agent.snapshots == old(agent.snapshots)
    ensures !update ==> agent.iteration == old(agent.iteration) && agent.memorySize == old(agent.memorySize)
  {
    if env.gameOver {
      return CheckFailed;
    }
    ghost var p := Setting(cfg, agent.policy, epsilon, update, agent.memorySize);
    ghost var start := Start(p, env.script, env.lives, env.screen, agent.calls);
    var currentFrame := ObscureIf(cfg, PreprocessScreen(env.screen));
    var l := Locals(0, [], currentFrame, env.lives, true, 0, []);
    ghost var run := start;
    while !env.gameOver
      invariant env.Valid() && env.games == old(env.games)
      invariant agent.memorySize == p.memorySize
      invariant agent.iteration >= old(agent.iteration) && agent.snapshots == old(agent.snapshots)
      invariant !update ==> agent.iteration == old(agent.iteration)
      invariant WellFormed(run) && RunFrom(p, run) == RunFrom(p, start)
      invariant Mirrors(run, l, env, agent)
      decreases |env.script|
    {
      l, run := PlayFrame(env, agent, cfg, epsilon, update, l, p, run);
    }
    assert RunFrom(p, run) == run;
    if update {
      agent.RememberEpisode(l.episode);
    }
    env.ResetGame();
    return Played(l.totalScore);
  }
}
