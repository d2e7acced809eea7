/** The configuration choices of the driver script (main.py): which quantity
    fills the heatmap, which welfare function is selected, and which policy
    gives the bargaining-failure payoffs. The script selects them by string
    and integer flags and module-level `if` statements; here each choice is a
    closed datatype and parsing a flag returns `None` where the script would
    leave the name unbound. */
module MainSettings {
  import opened Wrappers
  import opened Maths

  datatype Quantity = ExpectedUtility | ShiftRatioQuantity | MaxShiftQuantity

  datatype WelfareChoice = NashChoice | KsChoice

  /** 0: team A spends all on X and team U all on Y; 1: both get 0;
      2: policy 0's payoffs, swapped between the teams and negated. */
  datatype DisagreementPolicy = UnilateralReference | ZeroPayoffs | SwappedNegated

  datatype ColorMapKind = Sequential | Divergent

  datatype Settings = Settings(quantity: Quantity, welfare: WelfareChoice, policy: DisagreementPolicy)

  // ---------------------------------------------------------------------
  // Quantity selector
  // ---------------------------------------------------------------------

  function QuantityName(q: Quantity): string
  {
    match q
    case ExpectedUtility => "expected_utility_A"
    case ShiftRatioQuantity => "expected_utility_A_shift_ratio"
    case MaxShiftQuantity => "expected_utility_A_max_shift"
  }

  function ParseQuantity(name: string): Option<Quantity>
  {
    if name == "expected_utility_A" then Some(ExpectedUtility)
    else if name == "expected_utility_A_shift_ratio" then Some(ShiftRatioQuantity)
    else if name == "expected_utility_A_max_shift" then Some(MaxShiftQuantity)
    else None
  }

  /** Each quantity name selects exactly its own quantity, and no other name
      selects anything. */
  lemma ParseQuantityExact(name: string, q: Quantity)
    ensures ParseQuantity(name) == Some(q) <==> name == QuantityName(q)
    ensures ParseQuantity(name).None? <==> forall q' :: name != QuantityName(q')
  {
    assert |QuantityName(ExpectedUtility)| == 18;
    assert |QuantityName(ShiftRatioQuantity)| == 30;
    assert |QuantityName(MaxShiftQuantity)| == 28;
    if ParseQuantity(name).None? {
      forall q' ensures name != QuantityName(q') {
      }
    }
  }

  function ColorMap(q: Quantity): ColorMapKind
  {
    if q == ShiftRatioQuantity then Divergent else Sequential
  }

  /** Only the shift ratio, whose sign varies, gets the divergent colour map. */
  lemma ColorMapSelection(name: string, q: Quantity)
    requires ParseQuantity(name) == Some(q)
    ensures ColorMap(q) == Divergent <==> name == "expected_utility_A_shift_ratio"
  {
    ParseQuantityExact(name, q);
  }

  /** Whether the fill function of quantity q is defined at (m, p): the
      sensitivity metrics need m and p in [0, 1) for their odds ratios, and the
      shift ratio needs a non-zero m-sensitivity. */
  ghost predicate FillDefined(q: Quantity, log10: real -> real, minimize: Minimizer, m: real, p: real,
                              welfare: Welfare, failureA: real -> real, failureU: real -> real)
  {
    match q
    case ExpectedUtility => true
    case MaxShiftQuantity => 0.0 <= m < 1.0 && 0.0 <= p < 1.0
    case ShiftRatioQuantity =>
      0.0 <= m < 1.0 && 0.0 <= p < 1.0
      && DeltaM(log10, minimize, m, p, welfare, failureA, failureU) != 0.0
  }

  /** plot_fill_function applied to one grid point. */
  function Fill(q: Quantity, log10: real -> real, minimize: Minimizer, m: real, p: real,
                welfare: Welfare, failureA: real -> real, failureU: real -> real): real
    requires FillDefined(q, log10, minimize, m, p, welfare, failureA, failureU)
  {
    match q
    case ExpectedUtility => ExpectedUtilityA(log10, minimize, m, p, welfare, failureA, failureU)
    case ShiftRatioQuantity => ShiftRatio(log10, minimize, m, p, welfare, failureA, failureU)
    case MaxShiftQuantity => MaxShift(log10, minimize, m, p, welfare, failureA, failureU)
  }

  // ---------------------------------------------------------------------
  // Welfare selector
  // ---------------------------------------------------------------------

  function ParseWelfare(name: string): Option<WelfareChoice>
  {
    if name == "nash" then Some(NashChoice)
    else if name == "ks" then Some(KsChoice)
    else None
  }

  function WelfareFunction(choice: WelfareChoice, log10: real -> real, minimize: Minimizer): Welfare
  {
    match choice
    case NashChoice => NashWelfareFn(log10)
    case KsChoice => KsWelfareFn(log10, minimize)
  }

  /** 'nash' selects the Nash welfare function, 'ks' the KS welfare function,
      and every other name selects nothing. */
  lemma WelfareSelection(name: string, log10: real -> real, minimize: Minimizer,
                         m: real, a: real, u: real, dA: real, dU: real)
    ensures ParseWelfare(name).Some? <==> name == "nash" || name == "ks"
    ensures name == "nash" ==>
              && ParseWelfare(name) == Some(NashChoice)
              && WelfareFunction(NashChoice, log10, minimize)(m, a, u, dA, dU) == NashWelfare(log10, m, a, u, dA, dU)
    ensures name == "ks" ==>
              && ParseWelfare(name) == Some(KsChoice)
              && WelfareFunction(KsChoice, log10, minimize)(m, a, u, dA, dU) == KsWelfare(log10, minimize, m, a, u, dA, dU)
  {
  }

  // ---------------------------------------------------------------------
  // Bargaining-failure payoffs
  // ---------------------------------------------------------------------

  function ParsePolicy(flag: int): Option<DisagreementPolicy>
  {
    if flag == 0 then Some(UnilateralReference)
    else if flag == 1 then Some(ZeroPayoffs)
    else if flag == 2 then Some(SwappedNegated)
    else None
  }

  /** The reference profile of policies 0 and 2: team A spends everything on
      X, team U everything on Y. */
  const ReferenceActionA: real := 1.0
  const ReferenceActionU: real := 0.0

  function FailureUtilityA(policy: DisagreementPolicy, log10: real -> real, m: real): real
  {
    match policy
    case UnilateralReference => UtilityA(log10, m, ReferenceActionA, ReferenceActionU)
    case ZeroPayoffs => 0.0
    case SwappedNegated => - UtilityU(log10, m, ReferenceActionA, ReferenceActionU)
  }

  function FailureUtilityU(policy: DisagreementPolicy, log10: real -> real, m: real): real
  {
    match policy
    case UnilateralReference => UtilityU(log10, m, ReferenceActionA, ReferenceActionU)
    case ZeroPayoffs => 0.0
    case SwappedNegated => - UtilityA(log10, m, ReferenceActionA, ReferenceActionU)
  }

  /** The failure payoffs as the functions of m that the evaluator receives. */
  function FailureFnA(policy: DisagreementPolicy, log10: real -> real): real -> real
  {
    m => FailureUtilityA(policy, log10, m)
  }

  function FailureFnU(policy: DisagreementPolicy, log10: real -> real): real -> real
  {
    m => FailureUtilityU(policy, log10, m)
  }

  lemma ParsePolicyExact(flag: int)
    ensures ParsePolicy(flag).Some? <==> 0 <= flag <= 2
    ensures ParsePolicy(flag) == Some(UnilateralReference) <==> flag == 0
    ensures ParsePolicy(flag) == Some(ZeroPayoffs) <==> flag == 1
    ensures ParsePolicy(flag) == Some(SwappedNegated) <==> flag == 2
  {
  }

  /** Policy 1 pays both teams 0 for every m. */
  lemma ZeroPayoffsAreZero(log10: real -> real, m: real)
    ensures FailureUtilityA(ZeroPayoffs, log10, m) == 0.0
    ensures FailureUtilityU(ZeroPayoffs, log10, m) == 0.0
  {
  }

  /** Policy 0 reduces to m log10(N) for team A and (1 - m) log10(N) for team
      U, since the clamped log of 0 resources is 0. */
  lemma UnilateralReferencePayoffs(log10: real -> real, m: real)
    ensures FailureUtilityA(UnilateralReference, log10, m) == m * log10(N)
    ensures FailureUtilityU(UnilateralReference, log10, m) == (1.0 - m) * log10(N)
  {
    assert SpecialLog(log10, N * 1.0) == log10(N);
    assert SpecialLog(log10, N * 0.0) == 0.0;
    assert SpecialLog(log10, N * (1.0 - 1.0)) == 0.0;
    assert SpecialLog(log10, N * (1.0 - 0.0)) == log10(N);
  }

  /** Policy 2 is policy 0 with the teams swapped and the payoffs negated
      (not policy 1, whatever the comment at main.py:16 says). */
  lemma SwappedNegatedPayoffs(log10: real -> real, m: real)
    ensures FailureUtilityA(SwappedNegated, log10, m) == - FailureUtilityU(UnilateralReference, log10, m)
    ensures FailureUtilityU(SwappedNegated, log10, m) == - FailureUtilityA(UnilateralReference, log10, m)
    ensures FailureUtilityA(SwappedNegated, log10, m) == - (1.0 - m) * log10(N)
    ensures FailureUtilityU(SwappedNegated, log10, m) == - m * log10(N)
  {
    UnilateralReferencePayoffs(log10, m);
  }

  /** For m in [0, 1], policy 0 pays both teams at least 0 and policy 2 at
      most 0. */
  lemma PolicyPayoffSigns(log10: real -> real, m: real)
    requires IsLog10(log10)
    requires 0.0 <= m <= 1.0
    ensures 0.0 <= FailureUtilityA(UnilateralReference, log10, m)
    ensures 0.0 <= FailureUtilityU(UnilateralReference, log10, m)
    ensures FailureUtilityA(SwappedNegated, log10, m) <= 0.0
    ensures FailureUtilityU(SwappedNegated, log10, m) <= 0.0
  {
    UtilitiesNonNegative(log10, m, ReferenceActionA, ReferenceActionU);
  }

  // ---------------------------------------------------------------------
  // The heatmap fill function
  // ---------------------------------------------------------------------

  function SettingsOf(quantityName: string, welfareName: string, policyFlag: int): Option<Settings>
  {
    match (ParseQuantity(quantityName), ParseWelfare(welfareName), ParsePolicy(policyFlag))
    case (Some(q), Some(w), Some(d)) => Some(Settings(q, w, d))
    case _ => None
  }

  /** The script's own choice: max shift, KS welfare, policy 2. */
  const ScriptSettings: Option<Settings> := SettingsOf("expected_utility_A_max_shift", "ks", 2)

  /** The flags set at the top of the script parse to max shift, KS welfare
      and policy 2. */
  lemma ScriptSettingsParsed()
    ensures ScriptSettings == Some(Settings(MaxShiftQuantity, KsChoice, SwappedNegated))
  {
    ParseQuantityExact("expected_utility_A_max_shift", MaxShiftQuantity);
  }

  ghost predicate CellDefined(settings: Settings, log10: real -> real, minimize: Minimizer, m: real, p: real)
  {
    FillDefined(settings.quantity, log10, minimize, m, p,
                WelfareFunction(settings.welfare, log10, minimize),
                FailureFnA(settings.policy, log10), FailureFnU(settings.policy, log10))
  }

  /** heatmap_fill_func before its final logarithm. */
  function CellValue(settings: Settings, log10: real -> real, minimize: Minimizer, m: real, p: real): real
    requires CellDefined(settings, log10, minimize, m, p)
  {
    Fill(settings.quantity, log10, minimize, m, p,
         WelfareFunction(settings.welfare, log10, minimize),
         FailureFnA(settings.policy, log10), FailureFnU(settings.policy, log10))
  }

  /** Every quantity reaches the expected utility, which always solves with
      the Nash welfare function: the selected welfare function never changes
      a cell. */
  lemma WelfareChoiceIsIgnored(settings: Settings, log10: real -> real, minimize: Minimizer, m: real, p: real)
    requires CellDefined(settings, log10, minimize, m, p)
    ensures CellDefined(settings.(welfare := NashChoice), log10, minimize, m, p)
    ensures CellValue(settings, log10, minimize, m, p) == CellValue(settings.(welfare := NashChoice), log10, minimize, m, p)
  {
    var w := WelfareFunction(settings.welfare, log10, minimize);
    var nash := WelfareFunction(NashChoice, log10, minimize);
    var fA, fU := FailureFnA(settings.policy, log10), FailureFnU(settings.policy, log10);
    ExpectedUtilityIgnoresWelfare(log10, minimize, m, p, w, nash, fA, fU);
    if 0.0 <= m < 1.0 && 0.0 <= p < 1.0 {
      var m', p' := OddsShift(m, Delta), OddsShift(p, Delta);
      OddsShiftBounds(m, Delta);
      OddsShiftBounds(p, Delta);
      ExpectedUtilityIgnoresWelfare(log10, minimize, m', p, w, nash, fA, fU);
      ExpectedUtilityIgnoresWelfare(log10, minimize, m, p', w, nash, fA, fU);
      assert DeltaM(log10, minimize, m, p, w, fA, fU) == DeltaM(log10, minimize, m, p, nash, fA, fU);
      assert DeltaP(log10, minimize, m, p, w, fA, fU) == DeltaP(log10, minimize, m, p, nash, fA, fU);
    }
  }
}
