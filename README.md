# Bargaining problems between an aligned and an unaligned team

This project models the algebra of a small research script about bargaining
between two teams. Team A is "aligned" and team U is "unaligned". Each team
splits its resources (10^22 units each) between two goods, X and Y:

- `action_A` and `action_U` are the shares the two teams spend on X;
- `m` is team A's bargaining power;
- `p` is the probability that bargaining succeeds.

The script does the following:
- it computes each team's utility, a weighted sum of clamped logarithms;
- it finds a bargaining solution by maximising a welfare function over [0, 1] x [0, 1], using either the Nash product or a Kalai-Smorodinsky (KS) objective;
- it evaluates team A's expected utility and how sensitive that utility is to a 1% change in the odds ratios m/(1-m) and p/(1-p);
- it lays these values out on a heatmap over m/(1-m) (rows) and p (columns).

The Dafny modules follow the program's files:

| Dafny file | module | models |
|---|---|---|
| `maths.dfy` | `Maths` | utilities, welfare functions, the solver call, expected utility, odds shifts, sensitivity metrics (`maths.py`) |
| `main_settings.dfy` | `MainSettings` | the quantity, welfare and disagreement-policy selectors of the driver script (`main.py`) |
| `heatmaps.dfy` | `Heatmaps` | default axes, the value grid, label thinning, label reversal and row flip (`heatmaps.py`) |
| `pareto.dfy` | `ParetoCheck` | the Pareto spot-check `sloppy_pareto_optimal` (`tests.py`) |
| `wrappers.dfy` | `Wrappers` | `Option`, used for "not given" axes and unknown flags |

Everything is computed over `real`. Three operations come from numerical
libraries and become parameters:
- `log10` is a `real -> real` parameter; `Maths.IsLog10` states what the model assumes of it (non-negative and monotone on [1, oo)). The default heatmap axes start below 1, so their order is proved under `Heatmaps.IsLog10Increasing` (strictly increasing on the positive reals).
- `np.power(10, .)` is a `real -> real` parameter; `Heatmaps.IsPow10` assumes it is positive and strictly increasing.
- `scipy.optimize.minimize` is a `Maths.Minimizer` parameter. `Maths.RespectsBounds` assumes only that, for non-empty bounds, the point it returns lies within them.

Two operations change state in place:
- slice assignment on the label lists is the method `Heatmaps.BlankEvenLabels`;
- `list.reverse()` is the method `Heatmaps.ReverseLabels`.

Both work on an `array<string>`. The Pareto spot-check is a method with a loop over the four shifts.

The model follows the code as written:
- `find_bargaining_solution` returns only the point the optimizer found, with no convergence flag;
- `expected_utility_A_shift_ratio` divides by the m-sensitivity without a zero guard, so `Maths.ShiftRatio` requires a non-zero m-sensitivity;
- `expected_utility_A` always solves with `nash_welfare_function` (maths.py:173), whatever welfare function it is passed;
- the docstring at heatmaps.py:25 says the heatmap is drawn against m/(1-m) and p/(1-p), but the x axis is p itself (`x_values = p_values`, heatmaps.py:40), labelled from `p_values`; only the y axis is the odds ratio m/(1-m) (heatmaps.py:41);
- the comment at `main.py:16` calls policy 2 "same as 1", but the code at main.py:60-70 builds policy 2 from policy 0's reference profile (1, 0), swapped between the teams and negated.

## Model

| member | source | states |
|---|---|---|
| Maths.SpecialLog | maths.py:24-25 | computes the logarithm clamped to 0 below one unit of resource |
| Maths.UtilityA | maths.py:35 | computes team A's utility: m times the clamped log of N*action_A plus (1-m) times that of N*action_U |
| Maths.UtilityU | maths.py:46 | computes team U's utility, the same weighted sum over the resources spent on Y |
| Maths.NashWelfare | maths.py:60-61 | computes the product of the two utility gains over the failure payoffs |
| Maths.KsLineTerm | maths.py:113-119 | computes minus the squared difference of the two cross-products of the KS line constraint |
| Maths.UtilityAWelfare | maths.py:88-89 | computes utility_A_moreargs: team A's utility, ignoring the failure payoffs |
| Maths.UtilityUWelfare | maths.py:99-100 | computes utility_U_moreargs: team U's utility, ignoring the failure payoffs |
| Maths.KsBestProfiles | maths.py:88-108 | computes the two auxiliary solves, maximizing each team's own utility with failure payoffs (0, 0) |
| Maths.KsBestUtilities | maths.py:95-108 | computes best_utility_A and best_utility_U at those two profiles |
| Maths.KsWelfare | maths.py:88-122 | computes the KS objective: the line term plus the Pareto term -(uA+uU) |
| Maths.FindBargainingSolution | maths.py:140-156 | computes the minimizer's point for the negated welfare, from (0.1, 0.9), within [0, 1] x [0, 1] |
| Maths.SuccessProfile | maths.py:171-176 | computes the profile reached on success: the Nash solution with failure payoffs d_A(m) and d_U(m) |
| Maths.SuccessUtilityA | maths.py:171-181 | computes team A's utility at that profile |
| Maths.Mix | maths.py:183-184 | computes p*s + (1-p)*d, the weighting of success and failure |
| Maths.ExpectedUtilityA | maths.py:171-184 | computes p times the utility of the Nash solution plus (1-p) times the failure payoff d_A(m) |
| Maths.OddsShift | maths.py:196-198 | computes the odds ratio of x, multiplied by (1 + delta), converted back |
| Maths.DeltaM | maths.py:196-206 | computes the expected utility at the shifted m minus that at m |
| Maths.DeltaP | maths.py:219-229 | computes the expected utility at the shifted p minus that at p |
| Maths.Max | maths.py:267 | computes Python's max of two values: the first unless the second is larger |
| Maths.SpecialLogNonNegative | maths.py:24-25 | the clamped log is never negative, and it is 0 below one unit of resource |
| Maths.SpecialLogMonotone | maths.py:24-25 | the clamped log is monotone: more resources never give a smaller value |
| Maths.UtilitiesMirror | maths.py:35-46 | utility_U(m, a, u) = utility_A(m, 1-a, 1-u), and the other way round: the teams' utilities mirror each other in the actions |
| Maths.UtilitiesNonNegative | maths.py:35-46 | for m in [0, 1], both utilities are non-negative at every profile |
| Maths.UtilityAMonotone | maths.py:35 | for m in [0, 1], raising either action never lowers team A's utility |
| Maths.UtilityUAntitone | maths.py:46 | for m in [0, 1], raising either action never raises team U's utility; with UtilityAMonotone, the teams have opposing interests |
| Maths.NashWelfareNonNegative | maths.py:60-61 | for m in [0, 1] and non-positive failure payoffs (zero included), the Nash product is non-negative |
| Maths.KsLineTermSign | maths.py:113-119 | the KS line term is at most 0, and it is 0 exactly when (uA-dA)(bU-dU) = (bA-dA)(uU-dU) |
| Maths.KsWelfareAtMostParetoTerm | maths.py:88-122 | KS welfare is at most -(uA+uU) and equals it exactly on the KS line; the best utilities bA and bU come from two solves with failure payoffs pinned to (0, 0), whatever the caller's failure payoffs are |
| Maths.KsBestPointsBounds | maths.py:90-108 | the two best profiles lie in [0, 1] x [0, 1], and for m in [0, 1] their utilities are non-negative |
| Maths.KsWelfareNonPositive | maths.py:110-122 | for m in [0, 1], KS welfare is never positive |
| Maths.SolutionInUnitSquare | maths.py:140-156 | the solver's answer is just the point returned by the minimizer; that point lies in [0, 1] x [0, 1] |
| Maths.ExpectedUtilityIgnoresWelfare | maths.py:171-175 | the expected utility does not depend on the welfare function it is given |
| Maths.ExpectedUtilityBetween | maths.py:171-184 | for p in [0, 1], the expected utility lies between the failure payoff d_A(m) and the success utility; it equals d_A(m) at p = 0 and the success utility at p = 1 |
| Maths.ExpectedUtilityMonotoneInP | maths.py:183-184 | when success is worth at least failure, raising p never lowers the expected utility |
| Maths.MixBetween | maths.py:183-184 | the convex combination p*s + (1-p)*d with p in [0, 1] lies between s and d |
| Maths.MixGain | maths.py:183-184 | moving the weight from p up to p' changes the combination by (p'-p)(s-d): never negative when s >= d, positive when s > d and p < p' |
| Maths.Odds | maths.py:196 | m/(1-m) is non-negative for m in [0, 1), and positive for m in (0, 1) |
| Maths.FromOdds | maths.py:198 | r/(1+r) lies in [0, 1) for r >= 0, and is positive for r > 0 |
| Maths.OddsRoundTrip | maths.py:196-198 | every positive odds ratio maps into (0, 1) and back to itself |
| Maths.FromOddsRoundTrip | maths.py:196-198 | every value in [0, 1) maps to its odds ratio and back to itself |
| Maths.FromOddsStrictlyIncreasing | maths.py:198 | r/(1+r) is strictly increasing on non-negative ratios |
| Maths.OddsShiftBounds | maths.py:196-198 | the shifted m (or p) stays in [0, 1); it equals m when delta = 0, and is strictly larger when m > 0 and delta > 0 |
| Maths.DeltaPClosedForm | maths.py:219-229 | the p-sensitivity equals (shifted p - p) times (success utility - failure payoff): non-negative when success is worth at least failure, positive when it is worth more and p > 0 |
| Maths.MaxShift | maths.py:261-267 | the max shift is at least both sensitivities and equals one of them |
| Maths.ShiftRatio | maths.py:242-248 | the shift ratio times the m-sensitivity gives the p-sensitivity |
| MainSettings.ParseQuantity | main.py:21-32 | computes the quantity selected by a name, or none for an unknown name |
| MainSettings.ParseWelfare | main.py:37-40 | computes the welfare choice selected by 'nash' or 'ks', or none |
| MainSettings.ParsePolicy | main.py:44-70 | computes the disagreement policy selected by flag 0, 1 or 2, or none |
| MainSettings.FailureUtilityA | main.py:44-70 | computes team A's failure payoff at m under each policy |
| MainSettings.FailureUtilityU | main.py:44-70 | computes team U's failure payoff at m under each policy |
| MainSettings.Fill | main.py:21-32 | computes the selected `plot_fill_function` (expected utility, shift ratio or max shift) at (m, p) |
| MainSettings.ColorMap | main.py:21-32 | computes `cmap_type`: divergent for the shift ratio, sequential otherwise |
| MainSettings.WelfareFunction | main.py:37-40 | computes `welfare_func`: the Nash or the KS welfare function |
| MainSettings.FailureFnA | main.py:44-70 | computes the lambda giving team A's failure payoff as a function of m |
| MainSettings.FailureFnU | main.py:44-70 | computes the lambda giving team U's failure payoff as a function of m |
| MainSettings.SettingsOf | main.py:5-13 | computes the settings selected by a quantity name, a welfare name and a policy flag, or none if any is unknown; `ScriptSettings` applies it to the script's own flags |
| MainSettings.CellValue | main.py:74-80 | computes the selected quantity at (m, p) with the selected welfare function and failure payoffs, before the final logarithm |
| MainSettings.ParseQuantityExact | main.py:21-32 | each quantity name selects exactly its own fill function; any other name selects none |
| MainSettings.ColorMapSelection | main.py:21-32 | the divergent colour map is chosen exactly for the shift ratio, and the sequential one otherwise |
| MainSettings.WelfareSelection | main.py:37-40 | 'nash' selects the Nash welfare function, 'ks' selects the KS one, and no other name selects either |
| MainSettings.ParsePolicyExact | main.py:44-70 | flags 0, 1 and 2 select the three disagreement policies one-to-one; any other flag selects none |
| MainSettings.ZeroPayoffsAreZero | main.py:56-58 | policy 1 gives both teams the failure payoff 0 for every m |
| MainSettings.UnilateralReferencePayoffs | main.py:44-54 | policy 0 gives the utilities of profile (1, 0): d_A = m log10(N) and d_U = (1-m) log10(N) |
| MainSettings.SwappedNegatedPayoffs | main.py:60-70 | policy 2 gives policy 0's payoffs swapped and negated: d_A = -(1-m) log10(N) and d_U = -m log10(N) |
| MainSettings.PolicyPayoffSigns | main.py:44-70 | for m in [0, 1], policy 0's payoffs are non-negative and policy 2's are non-positive |
| MainSettings.ScriptSettingsParsed | main.py:5-13 | the script's own flags select max shift, KS welfare and policy 2 |
| MainSettings.WelfareChoiceIsIgnored | main.py:74-80 | replacing the selected welfare function by Nash changes no heatmap cell, for every quantity and policy |
| Heatmaps.LinSpace | heatmaps.py:60 | computes `num` evenly spaced values from lo to hi |
| Heatmaps.LogSpace | heatmaps.py:57-62 | computes ten to the power of `resolution` evenly spaced exponents from log10(lo) to log10(hi) |
| Heatmaps.RatiosToMValues | heatmaps.py:69 | computes r/(1+r) for each ratio |
| Heatmaps.DefaultMValues | heatmaps.py:64-70 | computes the log-spaced ratios converted to m values |
| Heatmaps.YValues | heatmaps.py:41 | computes m/(1-m) for each m value |
| Heatmaps.MValuesOrDefault | heatmaps.py:30-31 | computes the given m values, or the default ones when none are given |
| Heatmaps.PValuesOrDefault | heatmaps.py:32-33 | computes the given p values, or the default ones when none are given |
| Heatmaps.Labels | heatmaps.py:43-44 | computes one label per axis value with the label formatter |
| Heatmaps.Grid | heatmaps.py:36-37 | computes the matrix of fill values, one row per m and one column per p |
| Heatmaps.Thinned | heatmaps.py:45-46 | computes the labels with every even-indexed one blanked |
| Heatmaps.Reversed | heatmaps.py:49-50 | computes the sequence in reverse order |
| Heatmaps.LinSpaceShape | heatmaps.py:60 | the evenly spaced exponents: `num` values from lo to hi, strictly increasing when lo < hi |
| Heatmaps.LogSpaceShape | heatmaps.py:57-62 | the default p values: `resolution` positive values; strictly increasing when log10(min) < log10(max), and so whenever 0 < min < max and log10 is increasing on the positive reals |
| Heatmaps.RatiosToMValuesRoundTrip | heatmaps.py:64-70 | one m per ratio, each m in (0, 1); increasing ratios give increasing m values; m/(1-m) recovers each ratio |
| Heatmaps.DefaultMValuesShape | heatmaps.py:64-70 | the default m values: `resolution` values in (0, 1), whose y values are the log-spaced ratios again; strictly increasing when 0 < min ratio < max ratio and log10 is increasing on the positive reals (or directly when log10(min) < log10(max)) |
| Heatmaps.DefaultsOnlyWhenAbsent | heatmaps.py:30-33 | given axes are used unchanged; defaults replace only absent ones, with `resolution` values each, m values in (0, 1) and p values positive, both strictly increasing when log10 is increasing on the positive reals |
| Heatmaps.GridShape | heatmaps.py:36-37 | one row per m and one column per p, with vals[i][j] = fill(m_i, p_j) |
| Heatmaps.ThinnedSpec | heatmaps.py:45-46 | thinning keeps the length, blanks every even position, keeps every odd one, and is idempotent |
| Heatmaps.ReversedInvolution | heatmaps.py:49-50 | reversal keeps the length and undoes itself |
| Heatmaps.BlankEvenLabels | heatmaps.py:45-46 | the labels array afterwards holds the thinned old labels |
| Heatmaps.ReverseLabels | heatmaps.py:49 | the labels array afterwards holds the old labels reversed |
| Heatmaps.FlippedRowsMatchLabels | heatmaps.py:41-50 | after the flip and the reversal, row i of the values and y label i both belong to m_values[n-1-i]; the label is blank when n-1-i is even |
| Heatmaps.MakeHeatmap | heatmaps.py:30-50 | returns the flipped grid over the chosen axes, the thinned x labels, and the thinned-then-reversed y labels built from m/(1-m) |
| ParetoCheck.Offending | tests.py:40-49 | computes the rejection condition as Python parses it: both utilities weakly up, A's changed and U's unchanged, shifted point in the square |
| ParetoCheck.ParetoImproving | tests.py:40-49 | computes the intended condition: both utilities weakly up, not both unchanged, shifted point in the square |
| ParetoCheck.ShiftsAreSingleAxis | tests.py:21 | exactly four distinct shifts, each moving one action by +-0.01 |
| ParetoCheck.OffendingMeans | tests.py:40-49 | as written, a shift rejects only if it leaves U's utility equal, raises A's strictly, and stays inside the square; a shift improving both utilities never rejects |
| ParetoCheck.IntendedIsStricter | tests.py:40-49 | every shift the written condition rejects is also rejected by the intended Pareto condition |
| ParetoCheck.SloppyParetoOptimal | tests.py:7-50 | returns false iff one of the four shifts meets the condition as written; it stops at the first one |
| ParetoCheck.ParetoSpotCheck | tests.py:7-50 | returns false iff one of the four shifts is a Pareto improvement inside the square |
| ParetoCheck.AsWrittenMissesJointImprovement | tests.py:43-44 | under utilities that both rise with either action, profile (0.5, 0.5) passes the written check and fails the intended one |
| ParetoCheck.AgreeWhenUCannotRise | tests.py:40-49 | for a shift that cannot raise U's utility, the written condition holds iff the intended one does |
| ParetoCheck.DifferWhenACannotRise | tests.py:40-49 | for a shift that cannot raise A's utility, the written condition never holds, and the intended one holds iff A's utility is kept, U's rises and the point stays in the square |
| ParetoCheck.ModelInterestsOppose | maths.py:35-46 | for m in [0, 1], the model's utilities have opposing interests: raising the actions never lowers A's utility and never raises U's |
| ParetoCheck.RaisingShiftsWhenInterestsOppose | tests.py:40-49 | when interests oppose, a raising shift is rejected as written iff it is a Pareto improvement |
| ParetoCheck.LoweringShiftsWhenInterestsOppose | tests.py:40-49 | when interests oppose, a lowering shift is never rejected as written, and it is a Pareto improvement iff it keeps A's utility, raises U's and stays in the square |

## Left out

- The optimizer (`scipy.optimize.minimize`, L-BFGS-B, maths.py:152-155) is a foreign numerical routine. Only the promise that its result lies within the bounds is modelled. Optimality, convergence and the start point's effect are not.
- Floating point: all arithmetic is over exact reals. `log10`, `np.power` and `np.linspace` are exact. `N = 10**22` is exact. Rounding and overflow are not modelled.
- `log10` and `np.power(10, .)` are parameters. Only the assumptions in `IsLog10` and `IsPow10` are used; the model never uses their exact values.
- Label text (`'10^{:.1f}'.format(np.log10(v))`, heatmaps.py:43-44) is a `format` parameter. String formatting is not modelled.
- Plotting, saving and showing the figure (heatmaps.py:72-93) and the plot titles (main.py:22-30) are output only.
- The final `np.log` in `heatmap_fill_func` (main.py:81) is not modelled. `MainSettings.CellValue` is the value before that logarithm.
- The call `make_heatmap(heatmap_fill_func, cmap_type, plot_title)` at main.py:83 is not modelled. Its arguments do not match the parameters at heatmaps.py:16-19: the colour-map kind lands in `plot_title` and the title in `m_values`.
- The `print` calls in `sloppy_pareto_optimal` (tests.py:33-38) are output only.
- The top-level test assertions (tests.py:56-105) depend on the optimizer's optimality, and they import from thing.py.
- thing.py is not part of this model. It is an earlier, broken revision of the utility module.
- Maths.DeltaM, Maths.DeltaP: require m (resp. p) in [0, 1). Over the reals, the source divides by zero at 1, and also where the shifted ratio is -1 (at m = -100 with delta = 0.01). Everywhere outside [0, 1) where it is defined, the shifted value's sign and bounds are not what the script intends.
- Maths.ShiftRatio: requires a non-zero m-sensitivity. The source divides unguarded; with floats, a zero divisor raises an error or yields inf/nan.
- Heatmaps.MakeHeatmap: requires every given m value to differ from 1, where m/(1-m) is undefined. The grid is a value `seq<seq<real>>`: `np.flip` builds a new array, so there is no in-place update of `vals` to model.

## Findings

Under the bargaining model's own utilities the slip matters less than under the utilities of the counterexample. There, raising an action never helps team U, so for the raising shifts the written and the intended conditions agree. The only shifts the written check misses are the lowering ones that keep A's utility and raise U's (`ParetoCheck.ModelInterestsOppose`, `ParetoCheck.RaisingShiftsWhenInterestsOppose`, `ParetoCheck.LoweringShiftsWhenInterestsOppose`).

| source | as written | input that shows it | evidently intended | confidence | as-written member | corrected member |
|---|---|---|---|---|---|---|
| tests.py:43-44 | `not shifted_utility_A == utility_A and shifted_utility_U == utility_U` parses as `(not a == b) and (c == d)`. It rejects a shift only when U's utility is unchanged, so a shift that strictly improves both teams passes | utilities `a + u` for both teams, m = 0.5, profile (0.5, 0.5): shift (+0.01, 0) raises both utilities and stays in the square, yet the check returns true | `not (a == b and c == d)`: reject any shift that is at least as good for both teams, strictly better for one, and inside the square | not executed | ParetoCheck.AsWrittenMissesJointImprovement | ParetoCheck.ParetoSpotCheck |
