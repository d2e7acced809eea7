/** The Pareto spot-check of the test suite (tests.py): a profile is rejected
    when one of four small single-axis shifts of the actions, staying inside
    [0, 1] x [0, 1], improves on it. The utilities are parameters, since the
    test imports them from an older revision of the utility module.

    The condition at tests.py:43-44 reads `not a == b and c == d`, which
    Python groups as `(not a == b) and (c == d)`. `Offending` and
    `SloppyParetoOptimal` model the code as written; `ParetoImproving` and
    `ParetoSpotCheck` model the evidently intended `not (a == b and c == d)`. */
module ParetoCheck {
  import Maths

  /** A utility of (m, action_A, action_U). */
  type Utility = (real, real, real) -> real

  /** The shifts tried, in the order they are tried. */
  const Shifts: seq<(real, real)> := [(0.01, 0.0), (-0.01, 0.0), (0.0, 0.01), (0.0, -0.01)]

  /** The rejection condition exactly as written in the test. */
  predicate Offending(utilityA: Utility, utilityU: Utility, m: real, actionA: real, actionU: real,
                      shift: (real, real))
  {
    var shiftedA, shiftedU := actionA + shift.0, actionU + shift.1;
    var before, beforeU := utilityA(m, actionA, actionU), utilityU(m, actionA, actionU);
    var after, afterU := utilityA(m, shiftedA, shiftedU), utilityU(m, shiftedA, shiftedU);
    && after >= before && afterU >= beforeU
    && (!(after == before) && afterU == beforeU)
    && Maths.InUnitSquare(Maths.Profile(shiftedA, shiftedU))
  }

  /** The intended rejection condition: the shifted profile stays in the
      square, is at least as good for both teams and strictly better for one. */
  predicate ParetoImproving(utilityA: Utility, utilityU: Utility, m: real, actionA: real, actionU: real,
                            shift: (real, real))
  {
    var shiftedA, shiftedU := actionA + shift.0, actionU + shift.1;
    var before, beforeU := utilityA(m, actionA, actionU), utilityU(m, actionA, actionU);
    var after, afterU := utilityA(m, shiftedA, shiftedU), utilityU(m, shiftedA, shiftedU);
    && after >= before && afterU >= beforeU
    && !(after == before && afterU == beforeU)
    && Maths.InUnitSquare(Maths.Profile(shiftedA, shiftedU))
  }

  ghost predicate PassesAsWritten(utilityA: Utility, utilityU: Utility, m: real, actionA: real, actionU: real)
  {
    forall k :: 0 <= k < |Shifts| ==> !Offending(utilityA, utilityU, m, actionA, actionU, Shifts[k])
  }

  ghost predicate PassesAsIntended(utilityA: Utility, utilityU: Utility, m: real, actionA: real, actionU: real)
  {
    forall k :: 0 <= k < |Shifts| ==> !ParetoImproving(utilityA, utilityU, m, actionA, actionU, Shifts[k])
  }

  /** The four shifts are exactly the moves of one action by +-0.01. */
  lemma ShiftsAreSingleAxis()
    ensures |Shifts| == 4
    ensures forall k :: 0 <= k < |Shifts| ==>
              (Shifts[k].1 == 0.0 && (Shifts[k].0 == 0.01 || Shifts[k].0 == -0.01))
              || (Shifts[k].0 == 0.0 && (Shifts[k].1 == 0.01 || Shifts[k].1 == -0.01))
    ensures forall k, l :: 0 <= k < l < |Shifts| ==> Shifts[k] != Shifts[l]
  {
  }

  /** As written, a shift is rejected only when team A gains strictly and team
      U's utility is unchanged, inside the square; in particular a shift that
      strictly improves both utilities is not rejected, and neither is one
      that leaves the square. */
  lemma OffendingMeans(utilityA: Utility, utilityU: Utility, m: real, actionA: real, actionU: real,
                       shift: (real, real))
    ensures var shiftedA, shiftedU := actionA + shift.0, actionU + shift.1;
            (Offending(utilityA, utilityU, m, actionA, actionU, shift)
             <==> (&& utilityA(m, shiftedA, shiftedU) > utilityA(m, actionA, actionU)
                   && utilityU(m, shiftedA, shiftedU) == utilityU(m, actionA, actionU)
                   && Maths.InUnitSquare(Maths.Profile(shiftedA, shiftedU))))
    ensures var shiftedA, shiftedU := actionA + shift.0, actionU + shift.1;
            (utilityA(m, shiftedA, shiftedU) > utilityA(m, actionA, actionU)
             && utilityU(m, shiftedA, shiftedU) > utilityU(m, actionA, actionU))
            ==> !Offending(utilityA, utilityU, m, actionA, actionU, shift)
    ensures !Maths.InUnitSquare(Maths.Profile(actionA + shift.0, actionU + shift.1))
            ==> !Offending(utilityA, utilityU, m, actionA, actionU, shift)
  {
  }

  /** Every shift rejected as written is a Pareto improvement, so the
      intended check rejects at least whatever the written one rejects. */
  lemma IntendedIsStricter(utilityA: Utility, utilityU: Utility, m: real, actionA: real, actionU: real)
    ensures PassesAsIntended(utilityA, utilityU, m, actionA, actionU)
            ==> PassesAsWritten(utilityA, utilityU, m, actionA, actionU)
  {
  }

  /** sloppy_pareto_optimal as written: false at the first offending shift,
      true when none of the four offends. */
  method SloppyParetoOptimal(utilityA: Utility, utilityU: Utility, m: real, actionA: real, actionU: real)
    returns (optimal: bool)
    ensures optimal <==> forall k :: 0 <= k < |Shifts| ==> !Offending(utilityA, utilityU, m, actionA, actionU, Shifts[k])
  {
    for k := 0 to |Shifts|
      invariant forall l :: 0 <= l < k ==> !Offending(utilityA, utilityU, m, actionA, actionU, Shifts[l])
    {
      var shift := Shifts[k];
      var shiftedA := actionA + shift.0;
      var shiftedU := actionU + shift.1;
      var before := utilityA(m, actionA, actionU);
      var beforeU := utilityU(m, actionA, actionU);
      var after := utilityA(m, shiftedA, shiftedU);
      var afterU := utilityU(m, shiftedA, shiftedU);
      if after >= before && afterU >= beforeU {
        if !(after == before) && afterU == beforeU {
          if 0.0 <= shiftedA <= 1.0 && 0.0 <= shiftedU <= 1.0 {
            return false;
          }
        }
      }
    }
    return true;
  }

  /** The corrected check: false exactly when some shift inside the square is
      a Pareto improvement. */
  method ParetoSpotCheck(utilityA: Utility, utilityU: Utility, m: real, actionA: real, actionU: real)
    returns (optimal: bool)
    ensures optimal <==> forall k :: 0 <= k < |Shifts| ==> !ParetoImproving(utilityA, utilityU, m, actionA, actionU, Shifts[k])
  {
    for k := 0 to |Shifts|
      invariant forall l :: 0 <= l < k ==> !ParetoImproving(utilityA, utilityU, m, actionA, actionU, Shifts[l])
    {
      var shift := Shifts[k];
      var shiftedA := actionA + shift.0;
      var shiftedU := actionU + shift.1;
      var before := utilityA(m, actionA, actionU);
      var beforeU := utilityU(m, actionA, actionU);
      var after := utilityA(m, shiftedA, shiftedU);
      var afterU := utilityU(m, shiftedA, shiftedU);
      if after >= before && afterU >= beforeU {
        if !(after == before && afterU == beforeU) {
          if 0.0 <= shiftedA <= 1.0 && 0.0 <= shiftedU <= 1.0 {
            return false;
          }
        }
      }
    }
    return true;
  }

  /** Utilities that both grow with either action. */
  function SumOfActions(m: real, actionA: real, actionU: real): real
  {
    actionA + actionU
  }

  /** The written check passes the profile (0.5, 0.5) under utilities that both
      strictly improve when either action rises by 0.01, while the intended
      check rejects it. */
  lemma AsWrittenMissesJointImprovement()
    ensures PassesAsWritten(SumOfActions, SumOfActions, 0.5, 0.5, 0.5)
    ensures !PassesAsIntended(SumOfActions, SumOfActions, 0.5, 0.5, 0.5)
  {
    assert ParetoImproving(SumOfActions, SumOfActions, 0.5, 0.5, 0.5, Shifts[0]);
    forall k | 0 <= k < |Shifts| ensures !Offending(SumOfActions, SumOfActions, 0.5, 0.5, 0.5, Shifts[k]) {
      assert k == 0 || k == 1 || k == 2 || k == 3;
    }
  }

  /** The two utilities of the bargaining model, in the shape the check takes. */
  function ModelUtilityA(log10: real -> real): Utility
  {
    (m, a, u) => Maths.UtilityA(log10, m, a, u)
  }

  function ModelUtilityU(log10: real -> real): Utility
  {
    (m, a, u) => Maths.UtilityU(log10, m, a, u)
  }

  /** When a shift cannot raise U's utility, the written and the intended
      conditions agree on it. */
  lemma AgreeWhenUCannotRise(utilityA: Utility, utilityU: Utility, m: real, actionA: real, actionU: real,
                             shift: (real, real))
    requires utilityU(m, actionA + shift.0, actionU + shift.1) <= utilityU(m, actionA, actionU)
    ensures Offending(utilityA, utilityU, m, actionA, actionU, shift)
            <==> ParetoImproving(utilityA, utilityU, m, actionA, actionU, shift)
  {
  }

  /** When a shift cannot raise A's utility, the written condition never
      holds, and the intended one holds exactly when A's utility is kept, U's
      rises and the shifted point is in the square. */
  lemma DifferWhenACannotRise(utilityA: Utility, utilityU: Utility, m: real, actionA: real, actionU: real,
                              shift: (real, real))
    requires utilityA(m, actionA + shift.0, actionU + shift.1) <= utilityA(m, actionA, actionU)
    ensures !Offending(utilityA, utilityU, m, actionA, actionU, shift)
    ensures var shiftedA, shiftedU := actionA + shift.0, actionU + shift.1;
            ParetoImproving(utilityA, utilityU, m, actionA, actionU, shift)
            <==> (&& utilityA(m, shiftedA, shiftedU) == utilityA(m, actionA, actionU)
                  && utilityU(m, shiftedA, shiftedU) > utilityU(m, actionA, actionU)
                  && Maths.InUnitSquare(Maths.Profile(shiftedA, shiftedU)))
  {
  }

  /** Raising the actions never lowers A's utility and never raises U's:
      the two teams have opposing interests. */
  ghost predicate InterestsOppose(utilityA: Utility, utilityU: Utility, m: real)
  {
    forall a, u, a', u' :: a <= a' && u <= u' ==>
      utilityA(m, a, u) <= utilityA(m, a', u') && utilityU(m, a', u') <= utilityU(m, a, u)
  }

  /** The model's utilities have opposing interests for every m in [0, 1]. */
  lemma ModelInterestsOppose(log10: real -> real, m: real)
    requires Maths.IsLog10(log10)
    requires 0.0 <= m <= 1.0
    ensures InterestsOppose(ModelUtilityA(log10), ModelUtilityU(log10), m)
  {
    forall a, u, a', u' | a <= a' && u <= u'
      ensures ModelUtilityA(log10)(m, a, u) <= ModelUtilityA(log10)(m, a', u')
      ensures ModelUtilityU(log10)(m, a', u') <= ModelUtilityU(log10)(m, a, u)
    {
      Maths.UtilityAMonotone(log10, m, a, u, a', u');
      Maths.UtilityUAntitone(log10, m, a, u, a', u');
    }
  }

  /** When the teams' interests oppose, as under the model's own utilities
      (`ModelInterestsOppose`), the precedence slip changes nothing for the
      raising shifts (+0.01, 0) and (0, +0.01): one is rejected as written
      exactly when it is a Pareto improvement. */
  lemma RaisingShiftsWhenInterestsOppose(utilityA: Utility, utilityU: Utility, m: real,
                                         actionA: real, actionU: real, k: int)
    requires InterestsOppose(utilityA, utilityU, m)
    requires k == 0 || k == 2
    ensures Offending(utilityA, utilityU, m, actionA, actionU, Shifts[k])
            <==> ParetoImproving(utilityA, utilityU, m, actionA, actionU, Shifts[k])
  {
    var shiftedA, shiftedU := actionA + Shifts[k].0, actionU + Shifts[k].1;
    assert actionA <= shiftedA && actionU <= shiftedU;
    assert utilityU(m, shiftedA, shiftedU) <= utilityU(m, actionA, actionU);
    AgreeWhenUCannotRise(utilityA, utilityU, m, actionA, actionU, Shifts[k]);
  }

  /** When the teams' interests oppose, a lowering shift (-0.01, 0) or
      (0, -0.01) is never rejected as written, yet it is a Pareto improvement
      exactly when it keeps A's utility, raises U's and stays in the square:
      that is all the slip loses. */
  lemma LoweringShiftsWhenInterestsOppose(utilityA: Utility, utilityU: Utility, m: real,
                                          actionA: real, actionU: real, k: int)
    requires InterestsOppose(utilityA, utilityU, m)
    requires k == 1 || k == 3
    ensures !Offending(utilityA, utilityU, m, actionA, actionU, Shifts[k])
    ensures var shiftedA, shiftedU := actionA + Shifts[k].0, actionU + Shifts[k].1;
            ParetoImproving(utilityA, utilityU, m, actionA, actionU, Shifts[k])
            <==> (&& utilityA(m, shiftedA, shiftedU) == utilityA(m, actionA, actionU)
                  && utilityU(m, shiftedA, shiftedU) > utilityU(m, actionA, actionU)
                  && Maths.InUnitSquare(Maths.Profile(shiftedA, shiftedU)))
  {
    var shiftedA, shiftedU := actionA + Shifts[k].0, actionU + Shifts[k].1;
    assert shiftedA <= actionA && shiftedU <= actionU;
    assert utilityA(m, shiftedA, shiftedU) <= utilityA(m, actionA, actionU);
    DifferWhenACannotRise(utilityA, utilityU, m, actionA, actionU, Shifts[k]);
  }
}
