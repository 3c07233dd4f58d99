/** `Evaluate` (dqn_main.cpp, lines 162-179): one episode without learning at
    the evaluation epsilon, whose score is averaged over the games played. */
module Evaluator {
  import opened Ale
  import opened Dqn
  import opened Flags
  import opened EpisodeSpec
  import opened EpisodeRunner

  /** What a call of `Evaluate` comes to: the abort of `PlayOneEpisode`'s entry
      check, or the average score. */
  datatype EvalResult = Aborted | Scored(avg: real)

  /** The sum of the scores, added up from the first to the last as the
      range-for over `scores` does. */
  function Sum(scores: seq<real>): real
  {
    if scores == [] then 0.0 else Sum(scores[..|scores| - 1]) + scores[|scores| - 1]
  }

  function Mean(scores: seq<real>): real
    requires |scores| > 0
  {
    Sum(scores) / |scores| as real
  }

  /** Lines 168-172: the accumulation loop and the division by the number of
      scores. */
  method MeanScore(scores: seq<real>) returns (avg: real)
    requires |scores| > 0
    ensures avg == Mean(scores)
  {
    var total := 0.0;
    for i := 0 to |scores|
      invariant total == Sum(scores[..i])
    {
      assert scores[..i + 1][..i] == scores[..i];
      total := total + scores[i];
    }
    assert scores[..|scores|] == scores;
    avg := total / |scores| as real;
  }

  /** The scores lie in `[lo, hi]`, so their sum lies between `n * lo` and `n * hi`. */
  lemma {:induction false} SumBounds(scores: seq<real>, lo: real, hi: real)
    requires forall k :: 0 <= k < |scores| ==> lo <= scores[k] <= hi
    ensures |scores| as real * lo <= Sum(scores) <= |scores| as real * hi
  {
    if scores != [] {
      var init := scores[..|scores| - 1];
      assert forall k :: 0 <= k < |init| ==> init[k] == scores[k];
      SumBounds(init, lo, hi);
      var n := |init| as real;
      var last := scores[|scores| - 1];
      assert Sum(scores) == Sum(init) + last;
      assert lo <= last <= hi;
      assert n * lo <= Sum(init) <= n * hi;
      assert |scores| as real * lo == n * lo + lo by {
        assert |scores| as real == n + 1.0;
      }
      assert |scores| as real * hi == n * hi + hi by {
        assert |scores| as real == n + 1.0;
      }
    }
  }

  /** The mean lies between the smallest and the largest score. */
  lemma MeanBetween(scores: seq<real>, lo: real, hi: real)
    requires |scores| > 0
    requires forall k :: 0 <= k < |scores| ==> lo <= scores[k] <= hi
    ensures lo <= Mean(scores) <= hi
  {
    SumBounds(scores, lo, hi);
    var n := |scores| as real;
    QuotientBounds(Sum(scores), n, lo, hi);
  }

  lemma QuotientBounds(a: real, n: real, lo: real, hi: real)
    requires n > 0.0 && n * lo <= a <= n * hi
    ensures lo <= a / n <= hi
  {
    var q := a / n;
    assert q * n == a;
    assert (q - lo) * n >= 0.0 && (hi - q) * n >= 0.0;
  }

  /** With the single score that `Evaluate` collects, the average is that score. */
  lemma MeanOfOne(score: real)
    ensures Mean([score]) == score
  {
    assert [score][..0] == [];
    assert Sum([score]) == Sum([]) + score;
  }

  /** `Evaluate`: plays one episode without updates at
      `FLAGS_evaluate_with_epsilon` and returns the mean of its one score. The
      agent's iteration counter, replay memory and snapshots are untouched. */
  method Evaluate(env: Emulator, agent: Agent, cfg: Config) returns (result: EvalResult)
    requires env.Valid() && cfg.Valid()
    modifies env, agent
    ensures env.Valid()
    ensures old(env.gameOver) ==> result == Aborted && unchanged(env) && unchanged(agent)
    ensures !old(env.gameOver) ==>
      var p := Setting(cfg, agent.policy, cfg.evaluateWithEpsilon, false, old(agent.memorySize));
      var e := Episode(p, old(env.script), old(env.lives), old(env.screen), old(agent.calls));
      && result == Scored(e.totalScore as real)
      && agent.calls == e.calls
      && env.StartedNext(old(env.games))
      && env.Remaining() == old(env.Remaining()) - 1
    ensures agent.iteration == old(agent.iteration) && agent.memorySize == old(agent.memorySize)
    ensures agent.snapshots == old(agent.snapshots)
  {
    var played := PlayOneEpisode(env, agent, cfg, cfg.evaluateWithEpsilon, false);
    if played.CheckFailed? {
      return Aborted;
    }
    var scores := [played.total as real];
    var avg := MeanScore(scores);
    MeanOfOne(played.total as real);
    return Scored(avg);
  }
}
