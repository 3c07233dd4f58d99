/** The epsilon-greedy schedule: epsilon falls linearly from 1 to its final
    value over the first `explore` iterations and stays there. Doubles are
    modelled by exact reals. */
module Exploration {

  /** `CalculateEpsilon(iter)` with FLAGS_explore and FLAGS_epsilon passed in.
      The division happens only when `iter < explore`; the requires clause
      excludes the one input for which that is a division by zero (a negative
      iteration with `explore == 0`, which the C++ turns into an infinity or a
      NaN). */
  function CalculateEpsilon(iter: int, explore: int, epsilon: real): (r: real)
    requires iter >= 0 || explore != 0
    ensures iter >= explore ==> r == epsilon
    ensures iter >= 0 && epsilon <= 1.0 ==> epsilon <= r <= 1.0
  {
    if iter < explore then
      ScheduleInRange(iter, explore, epsilon);
      1.0 - (1.0 - epsilon) * (iter as real / explore as real)
    else
      epsilon
  }

  /** With no exploration window the division branch is never taken. */
  lemma NoExplorationWindow(iter: int, explore: int, epsilon: real)
    requires iter >= 0 && explore <= 0
    ensures CalculateEpsilon(iter, explore, epsilon) == epsilon
  {
  }

  /** The schedule starts at 1 whenever there is something to explore. */
  lemma StartsAtOne(explore: int, epsilon: real)
    requires explore > 0
    ensures CalculateEpsilon(0, explore, epsilon) == 1.0
  {
  }

  /** The fraction of the window already used, `iter / explore`, is in [0, 1). */
  lemma FractionInUnit(iter: int, explore: int)
    requires 0 <= iter < explore
    ensures 0.0 <= iter as real / explore as real < 1.0
  {
    var e := explore as real;
    var t := iter as real / e;
    assert t * e == iter as real;
    assert (1.0 - t) * e == e - iter as real;
  }

  /** Inside the exploration window the schedule lies in [epsilon, 1] for a
      final epsilon of at most 1. */
  lemma ScheduleInRange(iter: int, explore: int, epsilon: real)
    requires iter < explore
    ensures iter >= 0 && epsilon <= 1.0 ==>
      epsilon <= 1.0 - (1.0 - epsilon) * (iter as real / explore as real) <= 1.0
  {
    if iter >= 0 && epsilon <= 1.0 {
      var t := iter as real / explore as real;
      FractionInUnit(iter, explore);
      var d := 1.0 - epsilon;
      assert 0.0 <= d * t <= d by {
        assert d * t <= d * 1.0;
      }
      assert (1.0 - epsilon) * (iter as real / explore as real) == d * t;
    }
  }

  /** The schedule never increases. */
  lemma NonIncreasing(i: int, j: int, explore: int, epsilon: real)
    requires 0 <= i <= j && epsilon <= 1.0
    ensures CalculateEpsilon(j, explore, epsilon) <= CalculateEpsilon(i, explore, epsilon)
  {
    if j < explore {
      var d := 1.0 - epsilon;
      var ti := i as real / explore as real;
      var tj := j as real / explore as real;
      var dt := (j - i) as real / explore as real;
      assert dt >= 0.0;
      assert tj == ti + dt;
      assert d * tj == d * ti + d * dt;
      assert d * dt >= 0.0;
      assert (1.0 - epsilon) * (i as real / explore as real) == d * ti;
      assert (1.0 - epsilon) * (j as real / explore as real) == d * tj;
    }
  }

  /** Halfway through a window of a million iterations towards 0.1. */
  lemma HalfwayExample()
    ensures CalculateEpsilon(500000, 1000000, 0.1) == 0.55
  {
  }
}
