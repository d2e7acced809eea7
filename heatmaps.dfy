/** Grid and axis bookkeeping of the heatmap (heatmaps.py): the default m and
    p axes, the matrix of fill values, the axis labels thinned and reversed in
    place, and the row flip that keeps the values matched to the labels.

    `pow10` (np.power(10, .)) is a parameter like `log10`; `IsPow10` states
    the only facts used about it. Label text is produced by a
    parameter `format`, since number formatting is not modelled. */
module Heatmaps {
  import opened Wrappers
  import opened Maths

  const Resolution: nat := 12
  const MinMRatio: real := 0.00001
  const MaxMRatio: real := 100000.0
  const MinP: real := 0.001
  const MaxP: real := 0.999

  ghost predicate IsPow10(pow10: real -> real)
  {
    && (forall x :: 0.0 < pow10(x))
    && (forall x, y :: x < y ==> pow10(x) < pow10(y))
  }

  /** log10 is strictly increasing on all positive reals; the default axes
      start below 1, where `IsLog10` says nothing. */
  ghost predicate IsLog10Increasing(log10: real -> real)
  {
    forall x, y :: 0.0 < x < y ==> log10(x) < log10(y)
  }

  predicate StrictlyIncreasing(s: seq<real>)
  {
    forall i, j :: 0 <= i < j < |s| ==> s[i] < s[j]
  }

  predicate AllPositive(s: seq<real>)
  {
    forall i :: 0 <= i < |s| ==> 0.0 < s[i]
  }

  predicate AllInUnit(s: seq<real>)
  {
    forall i :: 0 <= i < |s| ==> 0.0 < s[i] < 1.0
  }

  // ---------------------------------------------------------------------
  // Default axes
  // ---------------------------------------------------------------------

  /** np.linspace(lo, hi, num): num evenly spaced values from lo to hi. */
  function LinSpace(lo: real, hi: real, num: nat): seq<real>
  {
    if num == 1 then [lo]
    else
      var step := (hi - lo) / ((num - 1) as real);
      seq(num, i requires 0 <= i < num => lo + (i as real) * step)
  }

  lemma LinSpaceShape(lo: real, hi: real, num: nat)
    ensures |LinSpace(lo, hi, num)| == num
    ensures 1 <= num ==> LinSpace(lo, hi, num)[0] == lo
    ensures 2 <= num ==> LinSpace(lo, hi, num)[num - 1] == hi
    ensures lo < hi ==> StrictlyIncreasing(LinSpace(lo, hi, num))
  {
    var s := LinSpace(lo, hi, num);
    if 2 <= num {
      var step := (hi - lo) / ((num - 1) as real);
      assert s[num - 1] == lo + ((num - 1) as real) * step;
      assert ((num - 1) as real) * step == hi - lo;
      if lo < hi {
        QuotientSign(hi - lo, (num - 1) as real);
        forall i, j | 0 <= i < j < num ensures s[i] < s[j] {
          ProductPositive((j - i) as real, step);
          assert s[j] - s[i] == ((j - i) as real) * step;
        }
      }
    }
  }

  /** default_p_values: ten to the power of evenly spaced exponents from
      log10(lo) to log10(hi). */
  function LogSpace(pow10: real -> real, log10: real -> real, lo: real, hi: real): seq<real>
  {
    var exponents := LinSpace(log10(lo), log10(hi), Resolution);
    seq(|exponents|, i requires 0 <= i < |exponents| => pow10(exponents[i]))
  }

  lemma LogSpaceShape(pow10: real -> real, log10: real -> real, lo: real, hi: real)
    requires IsPow10(pow10)
    ensures |LogSpace(pow10, log10, lo, hi)| == Resolution
    ensures AllPositive(LogSpace(pow10, log10, lo, hi))
    ensures log10(lo) < log10(hi) ==> StrictlyIncreasing(LogSpace(pow10, log10, lo, hi))
    ensures IsLog10Increasing(log10) && 0.0 < lo < hi ==> StrictlyIncreasing(LogSpace(pow10, log10, lo, hi))
  {
    LinSpaceShape(log10(lo), log10(hi), Resolution);
  }

  /** axis_ratios / (1 + axis_ratios): each ratio converted back to m. */
  function RatiosToMValues(ratios: seq<real>): seq<real>
    requires AllPositive(ratios)
  {
    seq(|ratios|, i requires 0 <= i < |ratios| => FromOdds(ratios[i]))
  }

  /** default_m_values. */
  function DefaultMValues(pow10: real -> real, log10: real -> real, minRatio: real, maxRatio: real): seq<real>
    requires IsPow10(pow10)
  {
    LogSpaceShape(pow10, log10, minRatio, maxRatio);
    RatiosToMValues(LogSpace(pow10, log10, minRatio, maxRatio))
  }

  /** y_values: each m converted to its odds ratio. */
  function YValues(mValues: seq<real>): seq<real>
    requires forall i :: 0 <= i < |mValues| ==> mValues[i] != 1.0
  {
    seq(|mValues|, i requires 0 <= i < |mValues| => Odds(mValues[i]))
  }

  /** One m per ratio, every m in (0, 1), increasing ratios give increasing
      m values, and converting back to ratios gives the ratios again. */
  lemma RatiosToMValuesRoundTrip(ratios: seq<real>)
    requires AllPositive(ratios)
    ensures |RatiosToMValues(ratios)| == |ratios|
    ensures AllInUnit(RatiosToMValues(ratios))
    ensures StrictlyIncreasing(ratios) ==> StrictlyIncreasing(RatiosToMValues(ratios))
    ensures YValues(RatiosToMValues(ratios)) == ratios
  {
    var ms := RatiosToMValues(ratios);
    forall i | 0 <= i < |ratios| ensures 0.0 < ms[i] < 1.0 && Odds(ms[i]) == ratios[i] {
      OddsRoundTrip(ratios[i]);
    }
    if StrictlyIncreasing(ratios) {
      forall i, j | 0 <= i < j < |ms| ensures ms[i] < ms[j] {
        FromOddsStrictlyIncreasing(ratios[i], ratios[j]);
      }
    }
  }

  lemma DefaultMValuesShape(pow10: real -> real, log10: real -> real, minRatio: real, maxRatio: real)
    requires IsPow10(pow10)
    ensures |DefaultMValues(pow10, log10, minRatio, maxRatio)| == Resolution
    ensures AllInUnit(DefaultMValues(pow10, log10, minRatio, maxRatio))
    ensures log10(minRatio) < log10(maxRatio) ==> StrictlyIncreasing(DefaultMValues(pow10, log10, minRatio, maxRatio))
    ensures IsLog10Increasing(log10) && 0.0 < minRatio < maxRatio ==>
              StrictlyIncreasing(DefaultMValues(pow10, log10, minRatio, maxRatio))
    ensures YValues(DefaultMValues(pow10, log10, minRatio, maxRatio)) == LogSpace(pow10, log10, minRatio, maxRatio)
  {
    LogSpaceShape(pow10, log10, minRatio, maxRatio);
    RatiosToMValuesRoundTrip(LogSpace(pow10, log10, minRatio, maxRatio));
  }

  /** The given m values, or the default ones when none are given. */
  function MValuesOrDefault(mValues: Option<seq<real>>, pow10: real -> real, log10: real -> real): seq<real>
    requires IsPow10(pow10)
  {
    match mValues
    case None => DefaultMValues(pow10, log10, MinMRatio, MaxMRatio)
    case Some(given) => given
  }

  function PValuesOrDefault(pValues: Option<seq<real>>, pow10: real -> real, log10: real -> real): seq<real>
  {
    match pValues
    case None => LogSpace(pow10, log10, MinP, MaxP)
    case Some(given) => given
  }

  /** Defaults stand in only for absent axes; given axes are used as they are. */
  lemma DefaultsOnlyWhenAbsent(mValues: Option<seq<real>>, pValues: Option<seq<real>>,
                               pow10: real -> real, log10: real -> real)
    requires IsPow10(pow10)
    ensures mValues.Some? ==> MValuesOrDefault(mValues, pow10, log10) == mValues.value
    ensures mValues.None? ==>
              && |MValuesOrDefault(mValues, pow10, log10)| == Resolution
              && AllInUnit(MValuesOrDefault(mValues, pow10, log10))
              && (IsLog10Increasing(log10) ==> StrictlyIncreasing(MValuesOrDefault(mValues, pow10, log10)))
    ensures pValues.Some? ==> PValuesOrDefault(pValues, pow10, log10) == pValues.value
    ensures pValues.None? ==>
              && |PValuesOrDefault(pValues, pow10, log10)| == Resolution
              && AllPositive(PValuesOrDefault(pValues, pow10, log10))
              && (IsLog10Increasing(log10) ==> StrictlyIncreasing(PValuesOrDefault(pValues, pow10, log10)))
  {
    DefaultMValuesShape(pow10, log10, MinMRatio, MaxMRatio);
    LogSpaceShape(pow10, log10, MinP, MaxP);
  }

  // ---------------------------------------------------------------------
  // Fill values
  // ---------------------------------------------------------------------

  /** vals: one row per m, one column per p. */
  function Grid(fill: (real, real) -> real, mValues: seq<real>, pValues: seq<real>): seq<seq<real>>
  {
    seq(|mValues|, i requires 0 <= i < |mValues| =>
      seq(|pValues|, j requires 0 <= j < |pValues| => fill(mValues[i], pValues[j])))
  }

  lemma GridShape(fill: (real, real) -> real, mValues: seq<real>, pValues: seq<real>)
    ensures |Grid(fill, mValues, pValues)| == |mValues|
    ensures forall i :: 0 <= i < |mValues| ==> |Grid(fill, mValues, pValues)[i]| == |pValues|
    ensures forall i, j :: 0 <= i < |mValues| && 0 <= j < |pValues| ==>
              Grid(fill, mValues, pValues)[i][j] == fill(mValues[i], pValues[j])
  {
  }

  // ---------------------------------------------------------------------
  // Labels
  // ---------------------------------------------------------------------

  function Labels(format: real -> string, values: seq<real>): seq<string>
  {
    seq(|values|, i requires 0 <= i < |values| => format(values[i]))
  }

  /** The labels with every even-indexed one blanked. */
  function Thinned(labels: seq<string>): seq<string>
  {
    seq(|labels|, i requires 0 <= i < |labels| => if i % 2 == 0 then "" else labels[i])
  }

  function Reversed<T>(s: seq<T>): seq<T>
  {
    seq(|s|, i requires 0 <= i < |s| => s[|s| - 1 - i])
  }

  /** Reversing twice gives back the original, so the flip of the rows and
      the reversal of the labels can both be undone. */
  lemma ReversedInvolution<T>(s: seq<T>)
    ensures |Reversed(s)| == |s|
    ensures Reversed(Reversed(s)) == s
  {
  }

  /** Thinning blanks exactly the even positions, keeps the odd ones and the
      length, and blanking twice changes nothing more. */
  lemma ThinnedSpec(labels: seq<string>)
    ensures |Thinned(labels)| == |labels|
    ensures forall i :: 0 <= i < |labels| && i % 2 == 0 ==> Thinned(labels)[i] == ""
    ensures forall i :: 0 <= i < |labels| && i % 2 == 1 ==> Thinned(labels)[i] == labels[i]
    ensures Thinned(Thinned(labels)) == Thinned(labels)
  {
  }

  /** x_labels[::2] = [...]: blank the even-indexed labels in place. */
  method BlankEvenLabels(labels: array<string>)
    modifies labels
    ensures labels[..] == Thinned(old(labels[..]))
  {
    forall i | 0 <= i < labels.Length && i % 2 == 0 {
      labels[i] := "";
    }
  }

  /** list.reverse(): reverse the labels in place. */
  method ReverseLabels(labels: array<string>)
    modifies labels
    ensures labels[..] == Reversed(old(labels[..]))
  {
    forall i | 0 <= i < labels.Length {
      labels[i] := labels[labels.Length - 1 - i];
    }
  }

  // ---------------------------------------------------------------------
  // make_heatmap
  // ---------------------------------------------------------------------

  /** After the flip and the reversal, row i of the values and y label i both
      belong to the m value counted i places from the end; the label is blank
      when that m sits at an even position of the original axis. */
  lemma FlippedRowsMatchLabels(fill: (real, real) -> real, format: real -> string,
                               mValues: seq<real>, pValues: seq<real>, i: int)
    requires forall k :: 0 <= k < |mValues| ==> mValues[k] != 1.0
    requires 0 <= i < |mValues|
    ensures var n := |mValues|;
            var row := Reversed(Grid(fill, mValues, pValues))[i];
            var yLabel := Reversed(Thinned(Labels(format, YValues(mValues))))[i];
            && |row| == |pValues|
            && (forall j :: 0 <= j < |pValues| ==> row[j] == fill(mValues[n - 1 - i], pValues[j]))
            && yLabel == (if (n - 1 - i) % 2 == 0 then "" else format(Odds(mValues[n - 1 - i])))
  {
  }

  /** Everything make_heatmap hands to the plotting routine: the values with
      their rows flipped, the thinned x labels, and the thinned y labels
      reversed. */
  method MakeHeatmap(fill: (real, real) -> real, format: real -> string,
                     pow10: real -> real, log10: real -> real,
                     mValues: Option<seq<real>>, pValues: Option<seq<real>>)
    returns (vals: seq<seq<real>>, xLabels: array<string>, yLabels: array<string>)
    requires IsPow10(pow10)
    requires mValues.Some? ==> forall i :: 0 <= i < |mValues.value| ==> mValues.value[i] != 1.0
    ensures fresh(xLabels) && fresh(yLabels)
    ensures var ms := MValuesOrDefault(mValues, pow10, log10);
            var ps := PValuesOrDefault(pValues, pow10, log10);
            && (forall i :: 0 <= i < |ms| ==> ms[i] != 1.0)
            && vals == Reversed(Grid(fill, ms, ps))
            && xLabels[..] == Thinned(Labels(format, ps))
            && yLabels[..] == Reversed(Thinned(Labels(format, YValues(ms))))
  {
    DefaultsOnlyWhenAbsent(mValues, pValues, pow10, log10);
    var ms := MValuesOrDefault(mValues, pow10, log10);
    var ps := PValuesOrDefault(pValues, pow10, log10);
    assert forall i :: 0 <= i < |ms| ==> ms[i] != 1.0;

    var grid := Grid(fill, ms, ps);

    var xs := Labels(format, ps);
    var ys := Labels(format, YValues(ms));
    xLabels := new string[|xs|](i requires 0 <= i < |xs| => xs[i]);
    yLabels := new string[|ys|](i requires 0 <= i < |ys| => ys[i]);
    assert xLabels[..] == xs;
    assert yLabels[..] == ys;
    BlankEvenLabels(xLabels);
    BlankEvenLabels(yLabels);

    ReverseLabels(yLabels);
    vals := Reversed(grid);
  }
}
