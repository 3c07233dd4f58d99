/** The training loop of `main` (dqn_main.cpp, lines 308-342) over the
    emulator and the agent, proved against the history of passes that
    `TrainingSpec` describes. */
module Training {
  import opened Ale
  import opened Dqn
  import opened Flags
  import opened Exploration
  import opened EpisodeSpec
  import opened EpisodeRunner
  import opened Evaluator
  import opened TrainingSpec

  // ---------------------------------------------------------------------
  // The loop over the emulator and the agent

  datatype TrainResult = TrainAborted | Finished(book: Book)

  /** Lines 308-342. The games queued on the emulator bound the run: when they
      are used up, the entry check of `PlayOneEpisode` aborts the program, and
      what stays behind are the snapshots already taken. On completion, the
      final evaluation played the next queued game from where the loop left
      the agent's log. */
  method Train(env: Emulator, agent: Agent, cfg: Config, initialBest: real)
    returns (result: TrainResult, ghost rounds: seq<Round>, ghost final: EpisodeStart)
    requires env.Valid() && cfg.Valid()
    modifies env, agent
    ensures env.Valid()
    ensures agent.iteration >= old(agent.iteration)
    ensures PlayedInTurn(cfg, agent.policy, old(agent.calls), old(env.Playable()), rounds)
    ensures result.Finished? ==>
      && Progress(cfg, Book(initialBest, 0, 0), rounds, result.book, old(agent.iteration), agent.iteration)
      && agent.iteration >= cfg.maxIter
      && agent.snapshots == old(agent.snapshots) + SavedBy(Book(initialBest, 0, 0), rounds) + [Saved(Latest, true, true)]
      && |GamesOf(rounds)| < |old(env.Playable())|
      && final.game == old(env.Playable())[|GamesOf(rounds)|]
      && final.calls == CallsNow(old(agent.calls), rounds)
      && EndsInGameOver(final.game.script)
      && agent.calls == CallsAfter(cfg, agent.policy, final, cfg.evaluateWithEpsilon, false)
    ensures result.TrainAborted? ==>
      && env.gameOver
      && Triggered(cfg, Book(initialBest, 0, 0), rounds) && Scheduled(cfg, rounds)
      && agent.snapshots == old(agent.snapshots) + SavedBy(Book(initialBest, 0, 0), rounds)
  {
    ghost var all := env.Playable();
    AtFirstGame(env);
    var aborted, book;
    aborted, book, rounds := TrainingLoop(env, agent, cfg, initialBest, all);
    final := EpisodeStart(Game(env.lives, env.screen, env.script), agent.calls, agent.memorySize);
    if aborted {
      return TrainAborted, rounds, final;
    }
    if agent.iteration >= book.lastEvalIter {
      aborted, final := FinalEvaluation(env, agent, cfg, all, |GamesOf(rounds)|);
      if aborted {
        return TrainAborted, rounds, final;
      }
    }
    return Finished(book), rounds, final;
  }

  /** Lines 308-338: the loop itself, up to the solver's `max_iter`. */
  method TrainingLoop(env: Emulator, agent: Agent, cfg: Config, initialBest: real, ghost all: seq<Game>)
    returns (aborted: bool, book: Book, ghost rounds: seq<Round>)
    requires env.Valid() && cfg.Valid() && env.AtGame(all, 0)
    modifies env, agent
    ensures env.Valid()
    ensures agent.iteration >= old(agent.iteration)
    ensures PlayedInTurn(cfg, agent.policy, old(agent.calls), all, rounds)
    ensures !aborted ==>
      && Progress(cfg, Book(initialBest, 0, 0), rounds, book, old(agent.iteration), agent.iteration)
      && agent.iteration >= cfg.maxIter
      && agent.calls == CallsNow(old(agent.calls), rounds)
      && env.AtGame(all, |GamesOf(rounds)|)
    ensures aborted ==>
      && env.gameOver
      && Triggered(cfg, Book(initialBest, 0, 0), rounds) && Scheduled(cfg, rounds)
    ensures agent.snapshots == old(agent.snapshots) + SavedBy(Book(initialBest, 0, 0), rounds)
  {
    book := Book(initialBest, 0, 0);
    ghost var book0 := book;
    rounds := [];
    ghost var n: nat := 0;
    ghost var iter0, snaps0, calls0 := agent.iteration, agent.snapshots, agent.calls;
    aborted := false;
    while agent.iteration < cfg.maxIter
      invariant env.Valid() && env.AtGame(all, n)
      invariant Passes(cfg, agent.policy, book0, rounds, book, iter0, agent.iteration, snaps0, agent.snapshots,
                       calls0, agent.calls, all, n)
      decreases env.Remaining()
    {
      ghost var rounds', n';
      aborted, book, rounds', n' := NextPass(env, agent, cfg, book, book0, rounds, all, n, iter0, snaps0, calls0);
      if aborted {
        break;
      }
      rounds, n := rounds', n';
    }
  }

  /** One pass of the loop, with what it adds to the history of the passes
      before it. */
  method NextPass(env: Emulator, agent: Agent, cfg: Config, book: Book, ghost book0: Book, ghost rounds: seq<Round>,
                  ghost all: seq<Game>, ghost n: nat, ghost iter0: nat, ghost snaps0: seq<Saved>,
                  ghost calls0: seq<Call>)
    returns (aborted: bool, book': Book, ghost rounds': seq<Round>, ghost n': nat)
    requires env.Valid() && cfg.Valid() && agent.iteration < cfg.maxIter && env.AtGame(all, n)
    requires Passes(cfg, agent.policy, book0, rounds, book, iter0, agent.iteration, snaps0, agent.snapshots,
                    calls0, agent.calls, all, n)
    modifies env, agent
    ensures env.Valid() && agent.iteration >= old(agent.iteration)
    ensures aborted ==> env.gameOver && agent.snapshots == old(agent.snapshots)
    ensures !aborted ==>
      && env.Remaining() < old(env.Remaining())
      && Passes(cfg, agent.policy, book0, rounds', book', iter0, agent.iteration, snaps0, agent.snapshots,
                calls0, agent.calls, all, n')
      && env.AtGame(all, n')
  {
    var round;
    aborted, round, book' := TrainingRound(env, agent, cfg, book, all, n);
    if aborted {
      return aborted, book', rounds, n;
    }
    rounds', n' := rounds + [round], n + |RoundGames(round)|;
    PassesExtend(cfg, agent.policy, book0, rounds, book, iter0, snaps0, calls0, all, n, round, rounds');
  }

  /** Lines 316-338: one pass of the loop, from game `n` of the queue `all`;
      `aborted` when a game could not be started. */
  method TrainingRound(env: Emulator, agent: Agent, cfg: Config, book: Book, ghost all: seq<Game>, ghost n: nat)
    returns (aborted: bool, round: Round, book': Book)
    requires env.Valid() && cfg.Valid() && env.AtGame(all, n)
    modifies env, agent
    ensures env.Valid()
    ensures agent.iteration >= old(agent.iteration)
    ensures aborted ==>
      env.gameOver && agent.snapshots == old(agent.snapshots)
    ensures !aborted ==>
      && env.Remaining() < old(env.Remaining())
      && round.iterBefore == old(agent.iteration) && round.iter == agent.iteration
      && round.epsilon == CalculateEpsilon(round.iterBefore, cfg.explore, cfg.epsilon)
      && (round.avg.Some? <==> ShouldEvaluate(cfg, book, round.score, round.iter))
      && book' == Apply(book, round)
      && agent.snapshots == old(agent.snapshots) + RoundSnapshots(book, round)
    ensures !aborted ==>
      && round.train.calls == old(agent.calls)
      && RoundPlayed(cfg, agent.policy, round)
      && agent.calls == round.callsAfter
      && QueuedAt(all, n, RoundGames(round))
      && env.AtGame(all, n + |RoundGames(round)|)
  {
    var iterBefore := agent.iteration;
    var epsilon := CalculateEpsilon(agent.iteration, cfg.explore, cfg.epsilon);
    var score, train;
    aborted, score, train := TrainingEpisode(env, agent, cfg, epsilon, all, n);
    if aborted {
      return true, Round(iterBefore, epsilon, 0.0, 0, None, train, None, agent.calls), book;
    }
    var iter := agent.iteration;
    var counted := book.(episodes := book.episodes + 1);
    var avg, evalFrom;
    aborted, avg, book', evalFrom := EvaluateIfDue(env, agent, cfg, counted, score, all, n + 1);
    round := Round(iterBefore, epsilon, score, iter, avg, train, evalFrom, agent.calls);
    if !aborted {
      RoundQueued(all, n, round);
    }
  }

  /** Lines 316-317: the training episode of a pass, played from game `n` of the
      queue `all` at `epsilon` with updates. */
  method TrainingEpisode(env: Emulator, agent: Agent, cfg: Config, epsilon: real, ghost all: seq<Game>, ghost n: nat)
    returns (aborted: bool, score: real, start: EpisodeStart)
    requires env.Valid() && cfg.Valid() && env.AtGame(all, n)
    modifies env, agent
    ensures env.Valid()
    ensures agent.iteration >= old(agent.iteration) && agent.snapshots == old(agent.snapshots)
    ensures aborted ==> env.gameOver
    ensures !aborted ==>
      && n < |all|
      && start == EpisodeStart(all[n], old(agent.calls), old(agent.memorySize))
      && EndsInGameOver(start.game.script)
      && score == EpisodeFrom(cfg, agent.policy, start, epsilon, true).totalScore as real
      && agent.calls == CallsAfter(cfg, agent.policy, start, epsilon, true)
      && env.AtGame(all, n + 1)
      && env.Remaining() < old(env.Remaining())
  {
    start := EpisodeStart(Game(env.lives, env.screen, env.script), agent.calls, agent.memorySize);
    ghost var later := env.games;
    var played := PlayOneEpisode(env, agent, cfg, epsilon, true);
    if played.CheckFailed? {
      return true, 0.0, start;
    }
    score := played.total as real;
    NextGame(env, all, n, later);
    aborted := false;
  }

  /** Lines 324-338: the trigger, and the evaluation, from game `n` of the
      queue `all`, when it holds. */
  method EvaluateIfDue(env: Emulator, agent: Agent, cfg: Config, book: Book, score: real,
                       ghost all: seq<Game>, ghost n: nat)
    returns (aborted: bool, avg: Option<real>, book': Book, from: Option<EpisodeStart>)
    requires env.Valid() && cfg.Valid() && env.AtGame(all, n)
    modifies env, agent
    ensures env.Valid() && env.Remaining() <= old(env.Remaining())
    ensures agent.iteration == old(agent.iteration)
    ensures aborted ==> env.gameOver && agent.snapshots == old(agent.snapshots)
    ensures !aborted ==>
      && (avg.Some? <==> ShouldEvaluate(cfg, book, score, agent.iteration))
      && book' == (match avg
                   case None => book
                   case Some(a) => AfterEvaluation(book, a, agent.iteration))
      && agent.snapshots == old(agent.snapshots)
        + match avg
          case None => []
          case Some(a) => EvaluationSnapshots(book, a)
    ensures !aborted ==>
      && (avg.Some? <==> from.Some?)
      && match from
         case None => agent.calls == old(agent.calls) && env.AtGame(all, n)
         case Some(s) =>
           && n < |all| && s == EpisodeStart(all[n], old(agent.calls), old(agent.memorySize))
           && EndsInGameOver(s.game.script)
           && avg == Some(EpisodeFrom(cfg, agent.policy, s, cfg.evaluateWithEpsilon, false).totalScore as real)
           && agent.calls == CallsAfter(cfg, agent.policy, s, cfg.evaluateWithEpsilon, false)
           && env.AtGame(all, n + 1)
  {
    if ShouldEvaluate(cfg, book, score, agent.iteration) {
      var a, s;
      aborted, a, book', s := EvaluationRound(env, agent, cfg, book, all, n);
      avg, from := Some(a), Some(s);
    } else {
      aborted, avg, book', from := false, None, book, None;
    }
  }

  /** Lines 326-337: evaluate, keep a strictly better average as the new best
      with a HiScore snapshot, then take the rolling snapshot and note the
      iteration. */
  method EvaluationRound(env: Emulator, agent: Agent, cfg: Config, book: Book, ghost all: seq<Game>, ghost n: nat)
    returns (aborted: bool, avg: real, book': Book, from: EpisodeStart)
    requires env.Valid() && cfg.Valid() && env.AtGame(all, n)
    modifies env, agent
    ensures env.Valid() && env.Remaining() <= old(env.Remaining())
    ensures agent.iteration == old(agent.iteration)
    ensures aborted ==> env.gameOver && agent.snapshots == old(agent.snapshots)
    ensures !aborted ==>
      && book' == AfterEvaluation(book, avg, agent.iteration)
      && agent.snapshots == old(agent.snapshots) + EvaluationSnapshots(book, avg)
    ensures !aborted ==>
      && n < |all| && from == EpisodeStart(all[n], old(agent.calls), old(agent.memorySize))
      && EndsInGameOver(from.game.script)
      && avg == EpisodeFrom(cfg, agent.policy, from, cfg.evaluateWithEpsilon, false).totalScore as real
      && agent.calls == CallsAfter(cfg, agent.policy, from, cfg.evaluateWithEpsilon, false)
      && env.AtGame(all, n + 1)
  {
    aborted, avg, from := EvaluationEpisode(env, agent, cfg, all, n);
    if aborted {
      return true, 0.0, book, from;
    }
    book' := book;
    if avg > book'.best {
      book' := book'.(best := avg);
      agent.Snapshot(HiScore(Truncate(avg)), false, false);
    }
    agent.Snapshot(Latest, true, true);
    book' := book'.(lastEvalIter := agent.iteration);
  }

  /** Lines 326 and 340: a call of `Evaluate`, from game `n` of the queue `all`. */
  method EvaluationEpisode(env: Emulator, agent: Agent, cfg: Config, ghost all: seq<Game>, ghost n: nat)
    returns (aborted: bool, avg: real, from: EpisodeStart)
    requires env.Valid() && cfg.Valid() && env.AtGame(all, n)
    modifies env, agent
    ensures env.Valid() && env.Remaining() <= old(env.Remaining())
    ensures agent.iteration == old(agent.iteration) && agent.snapshots == old(agent.snapshots)
    ensures aborted ==> env.gameOver
    ensures !aborted ==>
      && n < |all| && from == EpisodeStart(all[n], old(agent.calls), old(agent.memorySize))
      && EndsInGameOver(from.game.script)
      && avg == EpisodeFrom(cfg, agent.policy, from, cfg.evaluateWithEpsilon, false).totalScore as real
      && agent.calls == CallsAfter(cfg, agent.policy, from, cfg.evaluateWithEpsilon, false)
      && env.AtGame(all, n + 1)
  {
    from := EpisodeStart(Game(env.lives, env.screen, env.script), agent.calls, agent.memorySize);
    ghost var later := env.games;
    var evaluated := Evaluate(env, agent, cfg);
    if evaluated.Aborted? {
      return true, 0.0, from;
    }
    avg := evaluated.avg;
    NextGame(env, all, n, later);
    assert agent.calls == agent.calls + [];
    aborted := false;
  }

  /** Lines 339-342: the evaluation and rolling snapshot after the loop, from
      game `n` of the queue `all`. */
  method FinalEvaluation(env: Emulator, agent: Agent, cfg: Config, ghost all: seq<Game>, ghost n: nat)
    returns (aborted: bool, ghost from: EpisodeStart)
    requires env.Valid() && cfg.Valid() && env.AtGame(all, n)
    modifies env, agent
    ensures env.Valid()
    ensures agent.iteration == old(agent.iteration)
    ensures aborted ==> env.gameOver && agent.snapshots == old(agent.snapshots)
    ensures !aborted ==>
      && agent.snapshots == old(agent.snapshots) + [Saved(Latest, true, true)]
      && n < |all| && from == EpisodeStart(all[n], old(agent.calls), old(agent.memorySize))
      && EndsInGameOver(from.game.script)
      && agent.calls == CallsAfter(cfg, agent.policy, from, cfg.evaluateWithEpsilon, false)
  {
    var avg;
    aborted, avg, from := EvaluationEpisode(env, agent, cfg, all, n);
    if aborted {
      return;
    }
    agent.Snapshot(Latest, true, true);
  }
}
