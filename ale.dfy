/** The Arcade Learning Environment as the training loop sees it: a scripted
    emulator. Each game is a finite script of what `act` returns and the state
    it leaves behind; the emulator holds the game being played and the games
    that later calls of `reset_game` start. */
module Ale {

  /** A raw emulator screen; its contents are never inspected. */
  type Screen

  /** ALE's action enumeration, by number. */
  type Action = int

  /** PLAYER_A_NOOP is the first value of ALE's action enumeration. */
  const PlayerANoop: Action := 0

  /** What one call of `act` returns (the score delta) and the state it leaves:
      the lives counter, whether the game is over and the new screen. */
  datatype Outcome = Outcome(reward: int, lives: int, gameOver: bool, screen: Screen)

  /** A game as it stands right after a reset, with the script of its acts. */
  datatype Game = Game(lives: int, screen: Screen, script: seq<Outcome>)

  /** A script that can be played to its end: the game is over after its last act. */
  predicate EndsInGameOver(script: seq<Outcome>)
  {
    |script| > 0 && script[|script| - 1].gameOver
  }

  predicate WellFormedGame(g: Game)
  {
    EndsInGameOver(g.script)
  }

  class Emulator {
    /** The acts still to come in the current game. */
    var script: seq<Outcome>
    var lives: int
    var gameOver: bool
    var screen: Screen
    /** The games that the next resets start, in order. */
    var games: seq<Game>

    ghost predicate Valid()
      reads this
    {
      && (!gameOver ==> EndsInGameOver(script))
      && forall i :: 0 <= i < |games| ==> WellFormedGame(games[i])
    }

    /** How many more games can be started or finished: the termination
        measure of everything that plays episodes. */
    function Remaining(): nat
      reads this
    {
      |games| + if gameOver then 0 else 1
    }

    /** The emulator's state right after a reset that found `later` queued:
        the first queued game has started, or, with none left, the emulator
        reports game over for good. */
    ghost predicate StartedNext(later: seq<Game>)
      reads this
    {
      if later == [] then
        gameOver && games == [] && script == []
      else
        && !gameOver
        && games == later[1..]
        && script == later[0].script
        && lives == later[0].lives
        && screen == later[0].screen
    }

    /** The games still to be played, the current one first; none once the
        current game is over, since no episode can then start. */
    function Playable(): seq<Game>
      reads this
    {
      if gameOver then [] else [Game(lives, screen, script)] + games
    }

    /** The emulator stands at game `n` of the queue `all`: that game is the
        current one and the ones after it are queued, or, once all are used
        up, the game is over. */
    ghost predicate AtGame(all: seq<Game>, n: nat)
      reads this
    {
      if gameOver then n == |all|
      else n < |all| && all[n] == Game(lives, screen, script) && games == all[n + 1..]
    }

    constructor (first: Game, later: seq<Game>)
      requires WellFormedGame(first)
      requires forall i :: 0 <= i < |later| ==> WellFormedGame(later[i])
      ensures Valid()
      ensures script == first.script && lives == first.lives && screen == first.screen
      ensures !gameOver && games == later
    {
      script := first.script;
      lives := first.lives;
      gameOver := false;
      screen := first.screen;
      games := later;
    }

    /** `act`: plays the next scripted step; callers must not act once the game is over. */
    method Act(action: Action) returns (reward: int)
      requires Valid() && !gameOver
      modifies this
      ensures Valid()
      ensures reward == old(script[0].reward)
      ensures script == old(script[1..])
      ensures lives == old(script[0].lives)
      ensures gameOver == old(script[0].gameOver)
      ensures screen == old(script[0].screen)
      ensures games == old(games)
    {
      var o := script[0];
      reward := o.reward;
      script := script[1..];
      lives := o.lives;
      gameOver := o.gameOver;
      screen := o.screen;
    }

    /** `reset_game`: starts the next queued game. */
    method ResetGame()
      requires Valid()
      modifies this
      ensures Valid()
      ensures StartedNext(old(games))
      ensures Remaining() == if old(games) == [] then 0 else |old(games)|
    {
      if games == [] {
        gameOver := true;
        script := [];
      } else {
        var g := games[0];
        script := g.script;
        lives := g.lives;
        screen := g.screen;
        gameOver := false;
        games := games[1..];
      }
    }
  }

  /** Right at the start, the emulator stands at the first of its playable games. */
  lemma AtFirstGame(env: Emulator)
    ensures env.AtGame(env.Playable(), 0)
  {
    if !env.gameOver {
      assert env.Playable()[1..] == env.games;
    }
  }

  /** A reset that found the rest of the queue after game `n` moves the
      emulator on to game `n + 1`. */
  lemma NextGame(env: Emulator, all: seq<Game>, n: nat, later: seq<Game>)
    requires n < |all| && later == all[n + 1..] && env.StartedNext(later)
    ensures env.AtGame(all, n + 1)
  {
    if later != [] {
      assert all[n + 1] == later[0];
      assert later[1..] == all[n + 2..];
    }
  }
}
