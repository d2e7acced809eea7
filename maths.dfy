/** Utilities, welfare functions, the bargaining solver and the scenario
    evaluator of the bargaining model (maths.py).

    Two stand-ins replace what cannot be computed over `real`:
    - `log10` is a parameter of type `real -> real`; `IsLog10` states the only
      facts the model relies on (non-negative and monotone on [1, oo)).
    - the numerical optimizer is a parameter of type `Minimizer`;
      `RespectsBounds` states its only promise: the point it returns lies in
      the box it was given. */
module Maths {

  /** Amount of resources available to each team: 10^22. */
  const N: real := 10000000000000000000000.0

  /** Relative change of an odds ratio used by the sensitivity metrics. */
  const Delta: real := 0.01

  /** An action profile: the share of each team's resources spent on good X. */
  datatype Profile = Profile(actionA: real, actionU: real)

  /** A closed search interval for one coordinate. */
  datatype Interval = Interval(lo: real, hi: real)

  /** Starting point handed to the optimizer. */
  const InitialGuess: Profile := Profile(0.1, 0.9)

  /** Search bounds of each coordinate. */
  const UnitInterval: Interval := Interval(0.0, 1.0)

  /** A welfare function takes (m, action_A, action_U, failure payoff A, failure payoff U). */
  type Welfare = (real, real, real, real, real) -> real

  /** The minimizer receives the objective, the start point and one interval per coordinate. */
  type Minimizer = (Profile -> real, Profile, Interval, Interval) -> Profile

  ghost predicate IsLog10(log10: real -> real)
  {
    && (forall x :: 1.0 <= x ==> 0.0 <= log10(x))
    && (forall x, y :: 1.0 <= x <= y ==> log10(x) <= log10(y))
  }

  predicate Within(x: Profile, boundA: Interval, boundU: Interval)
  {
    boundA.lo <= x.actionA <= boundA.hi && boundU.lo <= x.actionU <= boundU.hi
  }

  predicate InUnitSquare(x: Profile)
  {
    Within(x, UnitInterval, UnitInterval)
  }

  /** The only promise made about the optimizer: given non-empty bounds, it
      returns a point inside them. Nothing is assumed about optimality or
      convergence. */
  ghost predicate RespectsBounds(minimize: Minimizer)
  {
    forall f: Profile -> real, x0: Profile, boundA: Interval, boundU: Interval ::
      boundA.lo <= boundA.hi && boundU.lo <= boundU.hi ==>
        Within(minimize(f, x0, boundA, boundU), boundA, boundU)
  }

  // ---------------------------------------------------------------------
  // Utilities given action profiles
  // ---------------------------------------------------------------------

  /** Logarithm clamped to 0 below one unit of resource. */
  function SpecialLog(log10: real -> real, x: real): real
  {
    if x < 1.0 then 0.0 else log10(x)
  }

  function UtilityA(log10: real -> real, m: real, actionA: real, actionU: real): real
  {
    m * SpecialLog(log10, N * actionA) + (1.0 - m) * SpecialLog(log10, N * actionU)
  }

  function UtilityU(log10: real -> real, m: real, actionA: real, actionU: real): real
  {
    m * SpecialLog(log10, N * (1.0 - actionA)) + (1.0 - m) * SpecialLog(log10, N * (1.0 - actionU))
  }

  lemma SpecialLogNonNegative(log10: real -> real, x: real)
    requires IsLog10(log10)
    ensures 0.0 <= SpecialLog(log10, x)
    ensures x < 1.0 ==> SpecialLog(log10, x) == 0.0
  {
  }

  lemma SpecialLogMonotone(log10: real -> real, x: real, y: real)
    requires IsLog10(log10)
    requires x <= y
    ensures SpecialLog(log10, x) <= SpecialLog(log10, y)
  {
  }

  /** Weighted sum of two non-negative terms with weights m and 1 - m. */
  lemma WeightedSumNonNegative(m: real, s: real, t: real)
    requires 0.0 <= m <= 1.0 && 0.0 <= s && 0.0 <= t
    ensures 0.0 <= m * s + (1.0 - m) * t
  {
    ProductNonNegative(m, s);
    ProductNonNegative(1.0 - m, t);
  }

  /** The two teams' utilities are mirror images of each other in the actions. */
  lemma UtilitiesMirror(log10: real -> real, m: real, actionA: real, actionU: real)
    ensures UtilityU(log10, m, actionA, actionU) == UtilityA(log10, m, 1.0 - actionA, 1.0 - actionU)
    ensures UtilityA(log10, m, actionA, actionU) == UtilityU(log10, m, 1.0 - actionA, 1.0 - actionU)
  {
  }

  lemma UtilitiesNonNegative(log10: real -> real, m: real, actionA: real, actionU: real)
    requires IsLog10(log10)
    requires 0.0 <= m <= 1.0
    ensures 0.0 <= UtilityA(log10, m, actionA, actionU)
    ensures 0.0 <= UtilityU(log10, m, actionA, actionU)
  {
    SpecialLogNonNegative(log10, N * actionA);
    SpecialLogNonNegative(log10, N * actionU);
    SpecialLogNonNegative(log10, N * (1.0 - actionA));
    SpecialLogNonNegative(log10, N * (1.0 - actionU));
    WeightedSumNonNegative(m, SpecialLog(log10, N * actionA), SpecialLog(log10, N * actionU));
    WeightedSumNonNegative(m, SpecialLog(log10, N * (1.0 - actionA)), SpecialLog(log10, N * (1.0 - actionU)));
  }

  /** Raising either action never lowers team A's utility (and, below, never
      raises team U's): the teams have opposing interests over the two goods. */
  lemma UtilityAMonotone(log10: real -> real, m: real, a: real, u: real, a': real, u': real)
    requires IsLog10(log10)
    requires 0.0 <= m <= 1.0
    requires a <= a' && u <= u'
    ensures UtilityA(log10, m, a, u) <= UtilityA(log10, m, a', u')
  {
    assert N * a <= N * a' && N * u <= N * u';
    WeightedLogsMonotone(log10, m, N * a, N * u, N * a', N * u');
  }

  lemma UtilityUAntitone(log10: real -> real, m: real, a: real, u: real, a': real, u': real)
    requires IsLog10(log10)
    requires 0.0 <= m <= 1.0
    requires a <= a' && u <= u'
    ensures UtilityU(log10, m, a', u') <= UtilityU(log10, m, a, u)
  {
    assert N * (1.0 - a') <= N * (1.0 - a) && N * (1.0 - u') <= N * (1.0 - u);
    WeightedLogsMonotone(log10, m, N * (1.0 - a'), N * (1.0 - u'), N * (1.0 - a), N * (1.0 - u));
  }

  lemma WeightedLogsMonotone(log10: real -> real, m: real, x: real, y: real, x': real, y': real)
    requires IsLog10(log10)
    requires 0.0 <= m <= 1.0
    requires x <= x' && y <= y'
    ensures m * SpecialLog(log10, x) + (1.0 - m) * SpecialLog(log10, y)
         <= m * SpecialLog(log10, x') + (1.0 - m) * SpecialLog(log10, y')
  {
    var s, s' := SpecialLog(log10, x), SpecialLog(log10, x');
    var t, t' := SpecialLog(log10, y), SpecialLog(log10, y');
    SpecialLogMonotone(log10, x, x');
    SpecialLogMonotone(log10, y, y');
    WeightedSumNonNegative(m, s' - s, t' - t);
    assert (m * s' + (1.0 - m) * t') - (m * s + (1.0 - m) * t) == m * (s' - s) + (1.0 - m) * (t' - t);
  }

  // ---------------------------------------------------------------------
  // Welfare functions
  // ---------------------------------------------------------------------

  function NashWelfare(log10: real -> real, m: real, actionA: real, actionU: real,
                       failureA: real, failureU: real): real
  {
    (UtilityA(log10, m, actionA, actionU) - failureA) * (UtilityU(log10, m, actionA, actionU) - failureU)
  }

  function NashWelfareFn(log10: real -> real): Welfare
  {
    (m, a, u, dA, dU) => NashWelfare(log10, m, a, u, dA, dU)
  }

  /** For m in [0, 1] and failure payoffs at most 0 (zero payoffs included),
      Nash welfare is non-negative, since both utilities are then at least 0. */
  lemma NashWelfareNonNegative(log10: real -> real, m: real, actionA: real, actionU: real,
                               failureA: real, failureU: real)
    requires IsLog10(log10)
    requires 0.0 <= m <= 1.0
    requires failureA <= 0.0 && failureU <= 0.0
    ensures 0.0 <= NashWelfare(log10, m, actionA, actionU, failureA, failureU)
  {
    UtilitiesNonNegative(log10, m, actionA, actionU);
    ProductNonNegative(UtilityA(log10, m, actionA, actionU) - failureA,
                       UtilityU(log10, m, actionA, actionU) - failureU);
  }

  lemma ProductNonNegative(x: real, y: real)
    requires 0.0 <= x && 0.0 <= y
    ensures 0.0 <= x * y
  {
  }

  lemma ProductPositive(x: real, y: real)
    requires 0.0 < x && 0.0 < y
    ensures 0.0 < x * y
  {
  }

  lemma QuotientSign(a: real, b: real)
    ensures 0.0 <= a && 0.0 < b ==> 0.0 <= a / b
    ensures 0.0 < a && 0.0 < b ==> 0.0 < a / b
    ensures 0.0 <= a < b ==> a / b < 1.0
  {
    if 0.0 < b {
      var q := a / b;
      assert q * b == a;
      ProductSign(q, b);
      ProductSign(q - 1.0, b);
      assert (q - 1.0) * b == a - b;
    }
  }

  /** With a positive factor b, q * b has the sign of q. */
  lemma ProductSign(q: real, b: real)
    requires 0.0 < b
    ensures q < 0.0 ==> q * b < 0.0
    ensures q == 0.0 ==> q * b == 0.0
    ensures 0.0 < q ==> 0.0 < q * b
  {
  }

  /** The convex combination of s and d with weight p on s. */
  function Mix(p: real, s: real, d: real): real
  {
    p * s + (1.0 - p) * d
  }

  /** A mix with p in [0, 1] lies between d and s. */
  lemma MixBetween(p: real, s: real, d: real)
    requires 0.0 <= p <= 1.0
    ensures d <= s ==> d <= Mix(p, s, d) <= s
    ensures s <= d ==> s <= Mix(p, s, d) <= d
  {
    assert p * s + (1.0 - p) * d == d + p * (s - d);
    assert p * s + (1.0 - p) * d == s - (1.0 - p) * (s - d);
    if d <= s {
      ProductNonNegative(p, s - d);
      ProductNonNegative(1.0 - p, s - d);
    } else {
      ProductNonNegative(p, d - s);
      ProductNonNegative(1.0 - p, d - s);
    }
  }

  lemma MixDifference(p: real, p': real, s: real, d: real)
    ensures Mix(p', s, d) - Mix(p, s, d) == (p' - p) * (s - d)
  {
  }

  /** The Kalai-Smorodinsky line term: minus the squared difference of the
      cross-products of gains over failure payoffs. */
  function KsLineTerm(utilityA: real, utilityU: real, bestA: real, bestU: real,
                      failureA: real, failureU: real): real
  {
    var lhs := (utilityA - failureA) * (bestU - failureU);
    var rhs := (bestA - failureA) * (utilityU - failureU);
    - (lhs - rhs) * (lhs - rhs)
  }

  /** The line term never rewards, and it is zero exactly on the line through
      the failure point and the best point. */
  lemma KsLineTermSign(utilityA: real, utilityU: real, bestA: real, bestU: real,
                       failureA: real, failureU: real)
    ensures KsLineTerm(utilityA, utilityU, bestA, bestU, failureA, failureU) <= 0.0
    ensures KsLineTerm(utilityA, utilityU, bestA, bestU, failureA, failureU) == 0.0
            <==> (utilityA - failureA) * (bestU - failureU) == (bestA - failureA) * (utilityU - failureU)
  {
    var d := (utilityA - failureA) * (bestU - failureU) - (bestA - failureA) * (utilityU - failureU);
    SquareSign(d);
  }

  lemma SquareSign(d: real)
    ensures 0.0 <= d * d
    ensures d != 0.0 ==> 0.0 < d * d
  {
    if d < 0.0 {
      var e := -d;
      ProductPositive(e, e);
      assert e * e == d * d;
    } else if d > 0.0 {
      ProductPositive(d, d);
    }
  }

  /** Welfare functions handed to the two auxiliary solves: each scores a
      profile by one team's utility and ignores the failure payoffs. */
  function UtilityAWelfare(log10: real -> real): Welfare
  {
    (m, a, u, dA, dU) => UtilityA(log10, m, a, u)
  }

  function UtilityUWelfare(log10: real -> real): Welfare
  {
    (m, a, u, dA, dU) => UtilityU(log10, m, a, u)
  }

  /** The profiles that maximize each team's own utility, both found with the
      failure payoffs pinned to (0, 0). */
  function KsBestProfiles(log10: real -> real, minimize: Minimizer, m: real): (Profile, Profile)
  {
    (FindBargainingSolution(minimize, m, UtilityAWelfare(log10), 0.0, 0.0),
     FindBargainingSolution(minimize, m, UtilityUWelfare(log10), 0.0, 0.0))
  }

  /** best_utility_A and best_utility_U. */
  function KsBestUtilities(log10: real -> real, minimize: Minimizer, m: real): (real, real)
  {
    var (forA, forU) := KsBestProfiles(log10, minimize, m);
    (UtilityA(log10, m, forA.actionA, forA.actionU), UtilityU(log10, m, forU.actionA, forU.actionU))
  }

  function KsWelfare(log10: real -> real, minimize: Minimizer, m: real, actionA: real, actionU: real,
                     failureA: real, failureU: real): real
  {
    var (bestA, bestU) := KsBestUtilities(log10, minimize, m);
    var utilityA := UtilityA(log10, m, actionA, actionU);
    var utilityU := UtilityU(log10, m, actionA, actionU);
    KsLineTerm(utilityA, utilityU, bestA, bestU, failureA, failureU) - (utilityA + utilityU)
  }

  function KsWelfareFn(log10: real -> real, minimize: Minimizer): Welfare
  {
    (m, a, u, dA, dU) => KsWelfare(log10, minimize, m, a, u, dA, dU)
  }

  /** KS welfare never exceeds the Pareto term -(u_A + u_U), and reaches it
      exactly when the profile lies on the line through the failure point and
      the best point, whose utilities come from solves with failure payoffs
      (0, 0) whatever the caller's failure payoffs are. */
  lemma KsWelfareAtMostParetoTerm(log10: real -> real, minimize: Minimizer, m: real,
                                  actionA: real, actionU: real, failureA: real, failureU: real)
    ensures var utilityA := UtilityA(log10, m, actionA, actionU);
            var utilityU := UtilityU(log10, m, actionA, actionU);
            var (bestA, bestU) := KsBestUtilities(log10, minimize, m);
            && KsWelfare(log10, minimize, m, actionA, actionU, failureA, failureU) <= - (utilityA + utilityU)
            && (KsWelfare(log10, minimize, m, actionA, actionU, failureA, failureU) == - (utilityA + utilityU)
                <==> (utilityA - failureA) * (bestU - failureU) == (bestA - failureA) * (utilityU - failureU))
  {
    var (bestA, bestU) := KsBestUtilities(log10, minimize, m);
    KsLineTermSign(UtilityA(log10, m, actionA, actionU), UtilityU(log10, m, actionA, actionU),
                   bestA, bestU, failureA, failureU);
  }

  /** The best points lie in the search box and their utilities are
      non-negative for m in [0, 1]; so KS welfare is at most 0 there. */
  lemma KsBestPointsBounds(log10: real -> real, minimize: Minimizer, m: real)
    requires IsLog10(log10) && RespectsBounds(minimize)
    requires 0.0 <= m <= 1.0
    ensures InUnitSquare(KsBestProfiles(log10, minimize, m).0)
    ensures InUnitSquare(KsBestProfiles(log10, minimize, m).1)
    ensures 0.0 <= KsBestUtilities(log10, minimize, m).0
    ensures 0.0 <= KsBestUtilities(log10, minimize, m).1
  {
    var (forA, forU) := KsBestProfiles(log10, minimize, m);
    SolutionInUnitSquare(minimize, m, UtilityAWelfare(log10), 0.0, 0.0);
    SolutionInUnitSquare(minimize, m, UtilityUWelfare(log10), 0.0, 0.0);
    UtilitiesNonNegative(log10, m, forA.actionA, forA.actionU);
    UtilitiesNonNegative(log10, m, forU.actionA, forU.actionU);
  }

  lemma KsWelfareNonPositive(log10: real -> real, minimize: Minimizer, m: real,
                             actionA: real, actionU: real, failureA: real, failureU: real)
    requires IsLog10(log10)
    requires 0.0 <= m <= 1.0
    ensures KsWelfare(log10, minimize, m, actionA, actionU, failureA, failureU) <= 0.0
  {
    KsWelfareAtMostParetoTerm(log10, minimize, m, actionA, actionU, failureA, failureU);
    UtilitiesNonNegative(log10, m, actionA, actionU);
  }

  // ---------------------------------------------------------------------
  // Bargaining solver
  // ---------------------------------------------------------------------

  /** The minimizer is run on the negated welfare, from InitialGuess, within
      [0, 1] x [0, 1]; only the point it returns is kept. */
  function FindBargainingSolution(minimize: Minimizer, m: real, welfare: Welfare,
                                  failureA: real, failureU: real): Profile
  {
    minimize((x: Profile) => - welfare(m, x.actionA, x.actionU, failureA, failureU),
             InitialGuess, UnitInterval, UnitInterval)
  }

  lemma SolutionInUnitSquare(minimize: Minimizer, m: real, welfare: Welfare,
                             failureA: real, failureU: real)
    requires RespectsBounds(minimize)
    ensures InUnitSquare(FindBargainingSolution(minimize, m, welfare, failureA, failureU))
  {
  }

  // ---------------------------------------------------------------------
  // Scenario evaluator
  // ---------------------------------------------------------------------

  /** The profile reached when bargaining succeeds: always the Nash solution
      relative to the failure payoffs at m. */
  function SuccessProfile(log10: real -> real, minimize: Minimizer, m: real,
                          failureA: real -> real, failureU: real -> real): Profile
  {
    FindBargainingSolution(minimize, m, NashWelfareFn(log10), failureA(m), failureU(m))
  }

  function SuccessUtilityA(log10: real -> real, minimize: Minimizer, m: real,
                           failureA: real -> real, failureU: real -> real): real
  {
    var x := SuccessProfile(log10, minimize, m, failureA, failureU);
    UtilityA(log10, m, x.actionA, x.actionU)
  }

  /** Expected utility of team A; the `welfare` argument is not used. */
  function ExpectedUtilityA(log10: real -> real, minimize: Minimizer, m: real, p: real,
                            welfare: Welfare, failureA: real -> real, failureU: real -> real): real
  {
    Mix(p, SuccessUtilityA(log10, minimize, m, failureA, failureU), failureA(m))
  }

  lemma ExpectedUtilityIgnoresWelfare(log10: real -> real, minimize: Minimizer, m: real, p: real,
                                      welfare: Welfare, welfare': Welfare,
                                      failureA: real -> real, failureU: real -> real)
    ensures ExpectedUtilityA(log10, minimize, m, p, welfare, failureA, failureU)
         == ExpectedUtilityA(log10, minimize, m, p, welfare', failureA, failureU)
  {
  }

  /** For p in [0, 1] the expected utility lies between the failure payoff and
      the success utility, and equals each at the ends of the range. */
  lemma ExpectedUtilityBetween(log10: real -> real, minimize: Minimizer, m: real, p: real,
                               welfare: Welfare, failureA: real -> real, failureU: real -> real)
    requires 0.0 <= p <= 1.0
    ensures var s := SuccessUtilityA(log10, minimize, m, failureA, failureU);
            var e := ExpectedUtilityA(log10, minimize, m, p, welfare, failureA, failureU);
            && (s <= failureA(m) ==> s <= e <= failureA(m))
            && (failureA(m) <= s ==> failureA(m) <= e <= s)
            && (p == 0.0 ==> e == failureA(m))
            && (p == 1.0 ==> e == s)
  {
    var s := SuccessUtilityA(log10, minimize, m, failureA, failureU);
    var d := failureA(m);
    MixBetween(p, s, d);
  }

  /** Raising p never lowers the expected utility when bargaining success is
      worth at least the failure payoff. */
  lemma ExpectedUtilityMonotoneInP(log10: real -> real, minimize: Minimizer, m: real, p: real, p': real,
                                   welfare: Welfare, failureA: real -> real, failureU: real -> real)
    requires p <= p'
    requires failureA(m) <= SuccessUtilityA(log10, minimize, m, failureA, failureU)
    ensures ExpectedUtilityA(log10, minimize, m, p, welfare, failureA, failureU)
         <= ExpectedUtilityA(log10, minimize, m, p', welfare, failureA, failureU)
  {
    var s := SuccessUtilityA(log10, minimize, m, failureA, failureU);
    var d := failureA(m);
    MixDifference(p, p', s, d);
    ProductNonNegative(p' - p, s - d);
  }

  // ---------------------------------------------------------------------
  // Odds ratios
  // ---------------------------------------------------------------------

  /** x/(1 - x): the odds ratio of a probability-like quantity. */
  function Odds(x: real): (r: real)
    requires x != 1.0
    ensures 0.0 <= x < 1.0 ==> 0.0 <= r
    ensures 0.0 < x < 1.0 ==> 0.0 < r
  {
    QuotientSign(x, 1.0 - x);
    x / (1.0 - x)
  }

  /** r/(1 + r): back from an odds ratio to a probability-like quantity. */
  function FromOdds(r: real): (x: real)
    requires r != -1.0
    ensures 0.0 <= r ==> 0.0 <= x < 1.0
    ensures 0.0 < r ==> 0.0 < x
  {
    QuotientSign(r, 1.0 + r);
    r / (1.0 + r)
  }

  /** Every positive ratio maps into (0, 1) and back to itself. */
  lemma OddsRoundTrip(r: real)
    requires 0.0 < r
    ensures 0.0 < FromOdds(r) < 1.0
    ensures Odds(FromOdds(r)) == r
  {
    var x := FromOdds(r);
    assert 1.0 - x == 1.0 / (1.0 + r);
  }

  /** Every value of [0, 1) maps to a non-negative ratio and back to itself. */
  lemma FromOddsRoundTrip(x: real)
    requires 0.0 <= x < 1.0
    ensures 0.0 <= Odds(x)
    ensures FromOdds(Odds(x)) == x
  {
    var r := Odds(x);
    assert 1.0 + r == 1.0 / (1.0 - x);
  }

  lemma FromOddsStrictlyIncreasing(r: real, r': real)
    requires 0.0 <= r < r'
    ensures FromOdds(r) < FromOdds(r')
  {
    assert FromOdds(r) == 1.0 - 1.0 / (1.0 + r);
    assert FromOdds(r') == 1.0 - 1.0 / (1.0 + r');
    assert 1.0 / (1.0 + r') < 1.0 / (1.0 + r);
  }

  /** Multiply the odds ratio of x by (1 + delta) and convert back. */
  function OddsShift(x: real, delta: real): real
    requires 0.0 <= x < 1.0 && 0.0 <= delta
  {
    var shifted := Odds(x) * (1.0 + delta);
    FromOdds(shifted)
  }

  /** A positive shift moves x strictly up and stays below 1; a zero shift
      changes nothing. */
  lemma OddsShiftBounds(x: real, delta: real)
    requires 0.0 <= x < 1.0 && 0.0 <= delta
    ensures 0.0 <= OddsShift(x, delta) < 1.0
    ensures delta == 0.0 ==> OddsShift(x, delta) == x
    ensures 0.0 < x && 0.0 < delta ==> x < OddsShift(x, delta)
  {
    FromOddsRoundTrip(x);
    var r := Odds(x);
    if 0.0 < x && 0.0 < delta {
      assert r < r * (1.0 + delta);
      FromOddsStrictlyIncreasing(r, r * (1.0 + delta));
    }
  }

  // ---------------------------------------------------------------------
  // Sensitivity metrics
  // ---------------------------------------------------------------------

  function DeltaM(log10: real -> real, minimize: Minimizer, m: real, p: real,
                  welfare: Welfare, failureA: real -> real, failureU: real -> real): real
    requires 0.0 <= m < 1.0
  {
    var shiftedM := OddsShift(m, Delta);
    ExpectedUtilityA(log10, minimize, shiftedM, p, welfare, failureA, failureU)
      - ExpectedUtilityA(log10, minimize, m, p, welfare, failureA, failureU)
  }

  function DeltaP(log10: real -> real, minimize: Minimizer, m: real, p: real,
                  welfare: Welfare, failureA: real -> real, failureU: real -> real): real
    requires 0.0 <= p < 1.0
  {
    var shiftedP := OddsShift(p, Delta);
    ExpectedUtilityA(log10, minimize, m, shiftedP, welfare, failureA, failureU)
      - ExpectedUtilityA(log10, minimize, m, p, welfare, failureA, failureU)
  }

  /** The p-sensitivity is the shift in p times the gain of success over
      failure; it is non-negative when success is worth at least failure, and
      positive when success is worth more and 0 < p. */
  lemma DeltaPClosedForm(log10: real -> real, minimize: Minimizer, m: real, p: real,
                         welfare: Welfare, failureA: real -> real, failureU: real -> real)
    requires 0.0 <= p < 1.0
    ensures var gain := SuccessUtilityA(log10, minimize, m, failureA, failureU) - failureA(m);
            var dp := DeltaP(log10, minimize, m, p, welfare, failureA, failureU);
            && dp == (OddsShift(p, Delta) - p) * gain
            && (0.0 <= gain ==> 0.0 <= dp)
            && (0.0 < gain && 0.0 < p ==> 0.0 < dp)
  {
    var s := SuccessUtilityA(log10, minimize, m, failureA, failureU);
    var d := failureA(m);
    var p' := OddsShift(p, Delta);
    OddsShiftBounds(p, Delta);
    var dp := DeltaP(log10, minimize, m, p, welfare, failureA, failureU);
    assert dp == Mix(p', s, d) - Mix(p, s, d);
    MixGain(p, p', s, d);
    if 0.0 < s - d && 0.0 < p {
      assert p < p';
    }
  }

  /** Moving the weight of a mix from p up to p' changes it by (p' - p) times
      the gap s - d. */
  lemma MixGain(p: real, p': real, s: real, d: real)
    requires p <= p'
    ensures Mix(p', s, d) - Mix(p, s, d) == (p' - p) * (s - d)
    ensures 0.0 <= s - d ==> 0.0 <= Mix(p', s, d) - Mix(p, s, d)
    ensures 0.0 < s - d && p < p' ==> 0.0 < Mix(p', s, d) - Mix(p, s, d)
  {
    var step, gap := p' - p, s - d;
    MixDifference(p, p', s, d);
    assert Mix(p', s, d) - Mix(p, s, d) == step * gap;
    if 0.0 < gap && p < p' {
      ProductPositive(step, gap);
    } else if 0.0 <= gap {
      ProductNonNegative(step, gap);
    }
  }

  /** Python's max(a, b): the first argument unless the second is larger. */
  function Max(a: real, b: real): real
  {
    if b > a then b else a
  }

  function MaxShift(log10: real -> real, minimize: Minimizer, m: real, p: real,
                    welfare: Welfare, failureA: real -> real, failureU: real -> real): (r: real)
    requires 0.0 <= m < 1.0 && 0.0 <= p < 1.0
    ensures r >= DeltaM(log10, minimize, m, p, welfare, failureA, failureU)
    ensures r >= DeltaP(log10, minimize, m, p, welfare, failureA, failureU)
    ensures r == DeltaM(log10, minimize, m, p, welfare, failureA, failureU)
         || r == DeltaP(log10, minimize, m, p, welfare, failureA, failureU)
  {
    Max(DeltaM(log10, minimize, m, p, welfare, failureA, failureU),
        DeltaP(log10, minimize, m, p, welfare, failureA, failureU))
  }

  /** shift_p / shift_m; the source has no guard against shift_m == 0. */
  function ShiftRatio(log10: real -> real, minimize: Minimizer, m: real, p: real,
                      welfare: Welfare, failureA: real -> real, failureU: real -> real): (r: real)
    requires 0.0 <= m < 1.0 && 0.0 <= p < 1.0
    requires DeltaM(log10, minimize, m, p, welfare, failureA, failureU) != 0.0
    ensures r * DeltaM(log10, minimize, m, p, welfare, failureA, failureU)
         == DeltaP(log10, minimize, m, p, welfare, failureA, failureU)
  {
    DeltaP(log10, minimize, m, p, welfare, failureA, failureU)
      / DeltaM(log10, minimize, m, p, welfare, failureA, failureU)
  }
}
