/** Cole-Kripke sleep/wake scoring of per-epoch activity counts.

    Counts are scaled by 1/100 and capped at 300; a fixed 7-tap weighted
    window over epochs i-4 .. i+2 (zero outside the recording), scaled by
    0.001, gives each epoch's sleep index; an index below 1 scores sleep.
    The multi-limb variant averages the indices of a limb's three axes
    before scoring. Arithmetic is on exact reals. */
module ColeKripke {

  /** The `sleep` column: 'S' (sleep) or 'W' (wake). */
  datatype Sleep = S | W

  const CountDivisor: real := 100.0
  const CountCap: real := 300.0
  const IndexScale: real := 0.001
  const SleepThreshold: real := 1.0

  /** Window weights for rows 4, 3, 2, 1 before the epoch, the epoch itself
      and rows 1, 2 after it. */
  const Weights: seq<real> := [106.0, 54.0, 58.0, 76.0, 230.0, 74.0, 67.0]

  /** Sum of the weights; with every adjusted count at the cap the index is
      0.001 * 665 * 300 = 199.5. */
  const MaxIndex: real := 199.5

  // ---------------------------------------------------------------------
  // Scaling and the sleep index
  // ---------------------------------------------------------------------

  /** `np.minimum(count / 100, 300)`: never above either operand, and equal
      to one of them. */
  function Adjusted(count: real): (a: real)
    ensures a <= CountCap && a <= count / CountDivisor
    ensures a == count / CountDivisor || a == CountCap
  {
    if count / CountDivisor < CountCap then count / CountDivisor else CountCap
  }

  function AdjustedColumn(counts: seq<real>): seq<real>
  {
    seq(|counts|, i requires 0 <= i < |counts| => Adjusted(counts[i]))
  }

  /** `series.shift(d, fill_value=0)` read at row `i`: the value `d` rows
      earlier (later for negative `d`), or 0 outside the series. */
  function Shifted(a: seq<real>, i: int, d: int): real
  {
    if 0 <= i - d < |a| then a[i - d] else 0.0
  }

  /** The Cole-Kripke index of epoch `i`. */
  function IndexAt(a: seq<real>, i: int): real
  {
    IndexScale * (106.0 * Shifted(a, i, 4) + 54.0 * Shifted(a, i, 3) + 58.0 * Shifted(a, i, 2)
                  + 76.0 * Shifted(a, i, 1) + 230.0 * Shifted(a, i, 0)
                  + 74.0 * Shifted(a, i, -1) + 67.0 * Shifted(a, i, -2))
  }

  /** The `sleep_index` column computed from an adjusted column. */
  function SleepIndex(a: seq<real>): (ix: seq<real>)
    ensures |ix| == |a|
  {
    seq(|a|, i requires 0 <= i < |a| => IndexAt(a, i))
  }

  /** `np.where(index < 1, 'S', 'W')` for one epoch. */
  function Classify(index: real): Sleep
  {
    if index < SleepThreshold then S else W
  }

  /** The `sleep` column: one label per epoch, S exactly below the threshold. */
  function Labels(ix: seq<real>): (l: seq<Sleep>)
    ensures |l| == |ix|
    ensures forall i :: 0 <= i < |ix| ==> (l[i] == S <==> ix[i] < SleepThreshold)
    ensures forall i :: 0 <= i < |ix| ==> (l[i] == W <==> ix[i] >= SleepThreshold)
  {
    seq(|ix|, i requires 0 <= i < |ix| => Classify(ix[i]))
  }

  /** Index of every epoch of a raw count column. */
  function ScoreIndex(counts: seq<real>): seq<real>
  {
    SleepIndex(AdjustedColumn(counts))
  }

  // ---- a reference definition of the window ----

  /** Weighted sum of the window with weights `ws`, the first weight
      applying `off` rows before epoch `i`. */
  function WindowSum(a: seq<real>, i: int, ws: seq<real>, off: int): real
    decreases |ws|
  {
    if ws == [] then 0.0 else ws[0] * Shifted(a, i, off) + WindowSum(a, i, ws[1..], off - 1)
  }

  /** The index is 0.001 times the weighted sum over the table of weights,
      the first weight applying four epochs back. */
  lemma IndexIsWeightedWindow(a: seq<real>, i: int)
    ensures IndexAt(a, i) == IndexScale * WindowSum(a, i, Weights, 4)
  {
    var ws := Weights;
    assert WindowSum(a, i, ws[6..], -2) == 67.0 * Shifted(a, i, -2);
    assert WindowSum(a, i, ws[5..], -1) == 74.0 * Shifted(a, i, -1) + WindowSum(a, i, ws[6..], -2);
    assert WindowSum(a, i, ws[4..], 0) == 230.0 * Shifted(a, i, 0) + WindowSum(a, i, ws[5..], -1);
    assert WindowSum(a, i, ws[3..], 1) == 76.0 * Shifted(a, i, 1) + WindowSum(a, i, ws[4..], 0);
    assert WindowSum(a, i, ws[2..], 2) == 58.0 * Shifted(a, i, 2) + WindowSum(a, i, ws[3..], 1);
    assert WindowSum(a, i, ws[1..], 3) == 54.0 * Shifted(a, i, 3) + WindowSum(a, i, ws[2..], 2);
    assert WindowSum(a, i, ws, 4) == 106.0 * Shifted(a, i, 4) + WindowSum(a, i, ws[1..], 3);
  }

  // ---- properties of the index ----

  /** Epoch `i`'s index and label depend only on the counts of epochs
      i-4 .. i+2. */
  lemma Locality(c: seq<real>, c': seq<real>, i: nat)
    requires |c| == |c'| && i < |c|
    requires forall j :: 0 <= j < |c| && i - 4 <= j <= i + 2 ==> c[j] == c'[j]
    ensures ScoreIndex(c)[i] == ScoreIndex(c')[i]
    ensures Labels(ScoreIndex(c))[i] == Labels(ScoreIndex(c'))[i]
  {
    var a, a' := AdjustedColumn(c), AdjustedColumn(c');
    forall d | -2 <= d <= 4
      ensures Shifted(a, i, d) == Shifted(a', i, d)
    {
    }
  }

  /** Every adjusted count is at most 300, so the index never exceeds 199.5;
      with non-negative counts it is never negative. */
  lemma IndexBounds(c: seq<real>, i: nat)
    requires i < |c|
    ensures ScoreIndex(c)[i] <= MaxIndex
    ensures (forall j :: 0 <= j < |c| ==> c[j] >= 0.0) ==> 0.0 <= ScoreIndex(c)[i]
  {
    var a := AdjustedColumn(c);
    forall d | -2 <= d <= 4
      ensures Shifted(a, i, d) <= CountCap
      ensures (forall j :: 0 <= j < |c| ==> c[j] >= 0.0) ==> Shifted(a, i, d) >= 0.0
    {
    }
  }

  /** Scaling never lowers a count's adjusted value when the count rises. */
  lemma AdjustedMonotone(x: real, y: real)
    requires x <= y
    ensures Adjusted(x) <= Adjusted(y)
  {
  }

  /** Raising counts never lowers any index. */
  lemma IndexMonotone(c: seq<real>, c': seq<real>, i: nat)
    requires |c| == |c'| && i < |c|
    requires forall j :: 0 <= j < |c| ==> c[j] <= c'[j]
    ensures ScoreIndex(c)[i] <= ScoreIndex(c')[i]
  {
    var a, a' := AdjustedColumn(c), AdjustedColumn(c');
    forall d | -2 <= d <= 4
      ensures Shifted(a, i, d) <= Shifted(a', i, d)
    {
      if 0 <= i - d < |c| {
        AdjustedMonotone(c[i - d], c'[i - d]);
      }
    }
  }

  /** Raising a single count never lowers any index. */
  lemma RaisingOneCount(c: seq<real>, j: nat, v: real, i: nat)
    requires j < |c| && i < |c| && c[j] <= v
    ensures ScoreIndex(c)[i] <= ScoreIndex(c[j := v])[i]
  {
    IndexMonotone(c, c[j := v], i);
  }

  /** All-zero counts give index 0 and sleep for every epoch. */
  lemma AllZeroIsSleep(c: seq<real>)
    requires forall j :: 0 <= j < |c| ==> c[j] == 0.0
    ensures forall i :: 0 <= i < |c| ==> ScoreIndex(c)[i] == 0.0
    ensures forall i :: 0 <= i < |c| ==> Labels(ScoreIndex(c))[i] == S
  {
    var a := AdjustedColumn(c);
    forall i | 0 <= i < |c|
      ensures ScoreIndex(c)[i] == 0.0
    {
      forall d | -2 <= d <= 4
        ensures Shifted(a, i, d) == 0.0
      {
      }
    }
  }

  // ---------------------------------------------------------------------
  // Averaging the axes of a limb
  // ---------------------------------------------------------------------

  /** `sum(columns)`: element-wise left fold starting from 0. */
  function SumColumns(cols: seq<seq<real>>, n: nat): (s: seq<real>)
    requires forall k :: 0 <= k < |cols| ==> |cols[k]| == n
    ensures |s| == n
  {
    if cols == [] then seq(n, _ => 0.0)
    else
      var front := SumColumns(cols[..|cols| - 1], n);
      seq(n, i requires 0 <= i < n => front[i] + cols[|cols| - 1][i])
  }

  /** `sum(columns) / len(columns)`. */
  function MeanColumns(cols: seq<seq<real>>, n: nat): (r: seq<real>)
    requires |cols| > 0
    requires forall k :: 0 <= k < |cols| ==> |cols[k]| == n
    ensures |r| == n
  {
    var s := SumColumns(cols, n);
    seq(n, i requires 0 <= i < n => s[i] / |cols| as real)
  }

  /** A limb's index: the mean of its three per-axis indices. */
  function LimbIndex(x: seq<real>, y: seq<real>, z: seq<real>): seq<real>
    requires |y| == |x| && |z| == |x|
  {
    MeanColumns([ScoreIndex(x), ScoreIndex(y), ScoreIndex(z)], |x|)
  }

  /** The limb index is the arithmetic mean of the three axis indices. */
  lemma LimbIndexIsMean(x: seq<real>, y: seq<real>, z: seq<real>, i: nat)
    requires |y| == |x| && |z| == |x| && i < |x|
    ensures |LimbIndex(x, y, z)| == |x|
    ensures LimbIndex(x, y, z)[i] == (ScoreIndex(x)[i] + ScoreIndex(y)[i] + ScoreIndex(z)[i]) / 3.0
  {
    var cols := [ScoreIndex(x), ScoreIndex(y), ScoreIndex(z)];
    var n := |x|;
    assert cols[..2] == [ScoreIndex(x), ScoreIndex(y)];
    assert cols[..2][..1] == [ScoreIndex(x)];
    assert cols[..2][..1][..0] == [];
    assert SumColumns(cols[..2][..1][..0], n)[i] == 0.0;
    assert SumColumns(cols[..2][..1], n)[i] == ScoreIndex(x)[i];
    assert SumColumns(cols[..2], n)[i] == ScoreIndex(x)[i] + ScoreIndex(y)[i];
  }

  /** When the three axes agree the limb gets their label; the limb index
      obeys the same bounds as an axis index. */
  lemma LimbAgreesWithAxes(x: seq<real>, y: seq<real>, z: seq<real>, i: nat)
    requires |y| == |x| && |z| == |x| && i < |x|
    ensures |LimbIndex(x, y, z)| == |x|
    ensures (Labels(ScoreIndex(x))[i] == S && Labels(ScoreIndex(y))[i] == S && Labels(ScoreIndex(z))[i] == S)
            ==> Labels(LimbIndex(x, y, z))[i] == S
    ensures (Labels(ScoreIndex(x))[i] == W && Labels(ScoreIndex(y))[i] == W && Labels(ScoreIndex(z))[i] == W)
            ==> Labels(LimbIndex(x, y, z))[i] == W
    ensures LimbIndex(x, y, z)[i] <= MaxIndex
    ensures (forall j :: 0 <= j < |x| ==> x[j] >= 0.0 && y[j] >= 0.0 && z[j] >= 0.0) ==> 0.0 <= LimbIndex(x, y, z)[i]
  {
    LimbIndexIsMean(x, y, z, i);
    IndexBounds(x, i);
    IndexBounds(y, i);
    IndexBounds(z, i);
  }

  // ---------------------------------------------------------------------
  // The single-sensor table
  // ---------------------------------------------------------------------

  /** The selected output columns of the single scorer:
      `dataTimestamp, sleep_index, sleep`. */
  datatype SingleScore = SingleScore(dataTimestamp: seq<real>, sleepIndex: seq<real>, sleep: seq<Sleep>)

  /** The table the single scorer works on: its input columns and the
      columns the scorer writes into it. */
  class SingleFrame {
    var dataTimestamp: seq<real>
    var axis1: seq<real>
    var count: seq<real>
    var sleepIndex: seq<real>
    var sleep: seq<Sleep>

    constructor (timestamps: seq<real>, axis1: seq<real>)
      requires |axis1| == |timestamps|
      ensures this.dataTimestamp == timestamps && this.axis1 == axis1
      ensures count == [] && sleepIndex == [] && sleep == []
    {
      this.dataTimestamp := timestamps;
      this.axis1 := axis1;
      count, sleepIndex, sleep := [], [], [];
    }

    /** actigraph_adjustment_sing: writes the `count` column. */
    method ActigraphAdjustmentSing()
      modifies this
      ensures count == AdjustedColumn(axis1)
      ensures dataTimestamp == old(dataTimestamp) && axis1 == old(axis1)
      ensures sleepIndex == old(sleepIndex) && sleep == old(sleep)
    {
      count := AdjustedColumn(axis1);
    }

    /** apply_cole_kripke_1min_sing: writes `sleep_index` and `sleep` from `count`. */
    method ColeKripke1MinSing()
      modifies this
      ensures sleepIndex == SleepIndex(count) && sleep == Labels(sleepIndex)
      ensures dataTimestamp == old(dataTimestamp) && axis1 == old(axis1) && count == old(count)
    {
      sleepIndex := SleepIndex(count);
      sleep := Labels(sleepIndex);
    }

    /** apply_cole_kripke_single, without the conversion of timestamps to
        text: adjusts and scores the table in place. `out` is the selection
        `dataTimestamp, sleep_index, sleep` that the source writes to its
        CSV file; the frame the source returns is this object after the
        call. */
    method ApplyColeKripkeSingle() returns (out: SingleScore)
      modifies this
      ensures count == AdjustedColumn(axis1) && sleepIndex == ScoreIndex(axis1) && sleep == Labels(sleepIndex)
      ensures dataTimestamp == old(dataTimestamp) && axis1 == old(axis1)
      ensures out == SingleScore(dataTimestamp, sleepIndex, sleep)
      ensures |out.sleepIndex| == |axis1| && |out.sleep| == |axis1|
    {
      ActigraphAdjustmentSing();
      ColeKripke1MinSing();
      out := SingleScore(dataTimestamp, sleepIndex, sleep);
    }
  }

  // ---------------------------------------------------------------------
  // The multi-limb table
  // ---------------------------------------------------------------------

  /** The column `axis{axis}_{limb}`. */
  datatype Column = Column(axis: nat, limb: nat)

  /** `Limb k sleep_index` and `Limb k sleep` of the formatted output. */
  datatype LimbScore = LimbScore(sleepIndex: seq<real>, sleep: seq<Sleep>)

  /** The formatted multi-limb output: timestamps and, for limbs 1..n in
      order, each limb's index and label columns. */
  datatype MultiScore = MultiScore(dataTimestamp: seq<real>, limbs: seq<LimbScore>)

  /** The three axis columns `axis1_{l}`, `axis2_{l}`, `axis3_{l}` of limb `l`. */
  function AxisColumns(l: nat): (cs: set<Column>)
    ensures forall c :: c in cs <==> c.limb == l && 1 <= c.axis <= 3
  {
    {Column(1, l), Column(2, l), Column(3, l)}
  }

  /** The axis columns of limbs 1..n. */
  function AxisColumnsUpTo(n: nat): (cs: set<Column>)
    ensures forall c :: c in cs <==> 1 <= c.limb <= n && 1 <= c.axis <= 3
  {
    if n == 0 then {} else AxisColumnsUpTo(n - 1) + AxisColumns(n)
  }

  /** The limbs 1..n. */
  function LimbsUpTo(n: nat): (ls: set<nat>)
    ensures forall l :: l in ls <==> 1 <= l <= n
  {
    if n == 0 then {} else LimbsUpTo(n - 1) + {n}
  }

  /** The two maps hold the same entries for every key outside `touched`. */
  ghost predicate AgreeOutside<K(!new), V>(m: map<K, V>, m': map<K, V>, touched: set<K>)
  {
    forall k :: k !in touched ==> (k in m <==> k in m') && (k in m ==> m[k] == m'[k])
  }

  /** Two passes that each keep the entries outside their own keys keep
      every entry outside both. */
  lemma AgreeOutsideTrans<K(!new), V>(m: map<K, V>, m': map<K, V>, m'': map<K, V>, s: set<K>, s': set<K>)
    requires AgreeOutside(m, m', s) && AgreeOutside(m', m'', s')
    ensures AgreeOutside(m, m'', s + s')
  {
  }

  /** The merged table the multi-limb scorer works on. */
  class MultiFrame {
    var dataTimestamp: seq<real>
    /** `axis{a}_{l}` */
    var counts: map<Column, seq<real>>
    /** `axis{a}_{l}_adjusted` */
    var adjusted: map<Column, seq<real>>
    /** `axis{a}_{l}_sleep_index` */
    var axisIndex: map<Column, seq<real>>
    /** `limb_{l}_sleep_index` */
    var limbIndex: map<nat, seq<real>>
    /** `limb_{l}_sleep` */
    var limbSleep: map<nat, seq<Sleep>>

    constructor (timestamps: seq<real>, counts: map<Column, seq<real>>)
      ensures this.dataTimestamp == timestamps && this.counts == counts
      ensures adjusted == map[] && axisIndex == map[] && limbIndex == map[] && limbSleep == map[]
    {
      this.dataTimestamp := timestamps;
      this.counts := counts;
      adjusted, axisIndex, limbIndex, limbSleep := map[], map[], map[], map[];
    }

    /** The table holds the three axis columns of limbs 1..numLimbs, each
        with one count per timestamp. */
    ghost predicate HasLimbs(numLimbs: nat)
      reads this
    {
      forall l, a :: 1 <= l <= numLimbs && 1 <= a <= 3 ==>
        Column(a, l) in counts && |counts[Column(a, l)]| == |dataTimestamp|
    }

    /** Limb `l`'s index computed from its own three columns. */
    ghost function ExpectedLimbIndex(l: nat): seq<real>
      reads this
      requires Column(1, l) in counts && Column(2, l) in counts && Column(3, l) in counts
      requires |counts[Column(2, l)]| == |counts[Column(1, l)]| && |counts[Column(3, l)]| == |counts[Column(1, l)]|
    {
      LimbIndex(counts[Column(1, l)], counts[Column(2, l)], counts[Column(3, l)])
    }

    /** Limbs 1..n-1 carry their scored columns. */
    ghost predicate LimbsScored(n: nat)
      reads this
    {
      LimbsScoredIn(counts, limbIndex, limbSleep, n)
    }

    /** The axis columns of limbs 1..n-1 carry their adjusted counts and
        their sleep indices. */
    ghost predicate AxesScored(n: nat)
      reads this
    {
      AxesScoredIn(counts, adjusted, axisIndex, n)
    }

    /** actigraph_adjustment_mult: writes `{column}_adjusted`. */
    method ActigraphAdjustmentMult(column: Column)
      requires column in counts
      modifies this
      ensures dataTimestamp == old(dataTimestamp) && counts == old(counts) && axisIndex == old(axisIndex)
      ensures adjusted == old(adjusted)[column := AdjustedColumn(counts[column])]
      ensures limbIndex == old(limbIndex) && limbSleep == old(limbSleep)
    {
      adjusted := adjusted[column := AdjustedColumn(counts[column])];
    }

    /** apply_cole_kripke_1min_mult: writes `{column}_sleep_index`. */
    method ColeKripke1MinMult(column: Column)
      requires column in adjusted
      modifies this
      ensures dataTimestamp == old(dataTimestamp) && counts == old(counts) && adjusted == old(adjusted)
      ensures axisIndex == old(axisIndex)[column := SleepIndex(adjusted[column])]
      ensures limbIndex == old(limbIndex) && limbSleep == old(limbSleep)
    {
      axisIndex := axisIndex[column := SleepIndex(adjusted[column])];
    }

    /** format_cole_kripke_output: the timestamps, then the index and label
        columns of limbs 1..numLimbs and nothing else. */
    function FormatOutput(numLimbs: nat): (out: MultiScore)
      reads this
      requires forall l :: 1 <= l <= numLimbs ==> l in limbIndex && l in limbSleep
      ensures out.dataTimestamp == dataTimestamp && |out.limbs| == numLimbs
      ensures forall k :: 0 <= k < numLimbs ==>
        out.limbs[k].sleepIndex == limbIndex[k + 1] && out.limbs[k].sleep == limbSleep[k + 1]
    {
      var ix, sl := limbIndex, limbSleep;
      MultiScore(dataTimestamp,
        seq(numLimbs, k requires 0 <= k < numLimbs => LimbScore(ix[k + 1], sl[k + 1])))
    }

    /** The axis loop of one limb pass: adjust and score `axis1_{l}`,
        `axis2_{l}`, `axis3_{l}` in turn and collect their indices. */
    method ScoreAxes(limb: nat) returns (limbSleepIndices: seq<seq<real>>)
      requires forall a :: 1 <= a <= 3 ==> Column(a, limb) in counts
      modifies this
      ensures dataTimestamp == old(dataTimestamp) && counts == old(counts)
      ensures limbIndex == old(limbIndex) && limbSleep == old(limbSleep)
      ensures adjusted == old(adjusted)[Column(1, limb) := AdjustedColumn(counts[Column(1, limb)])]
                                       [Column(2, limb) := AdjustedColumn(counts[Column(2, limb)])]
                                       [Column(3, limb) := AdjustedColumn(counts[Column(3, limb)])]
      ensures axisIndex == old(axisIndex)[Column(1, limb) := ScoreIndex(counts[Column(1, limb)])]
                                         [Column(2, limb) := ScoreIndex(counts[Column(2, limb)])]
                                         [Column(3, limb) := ScoreIndex(counts[Column(3, limb)])]
      ensures limbSleepIndices == [ScoreIndex(counts[Column(1, limb)]), ScoreIndex(counts[Column(2, limb)]),
                                   ScoreIndex(counts[Column(3, limb)])]
    {
      limbSleepIndices := [];
      var axis := 1;
      while axis <= 3
        invariant 1 <= axis <= 4
        invariant dataTimestamp == old(dataTimestamp) && counts == old(counts)
        invariant limbIndex == old(limbIndex) && limbSleep == old(limbSleep)
        invariant |limbSleepIndices| == axis - 1
        invariant forall k :: 0 <= k < axis - 1 ==>
          limbSleepIndices[k] == ScoreIndex(counts[Column(k + 1, limb)])
        invariant adjusted == UpdateAxes(old(adjusted), counts, limb, axis - 1, AdjustedColumn)
        invariant axisIndex == UpdateAxes(old(axisIndex), counts, limb, axis - 1, ScoreIndex)
      {
        var column := Column(axis, limb);
        ActigraphAdjustmentMult(column);
        ColeKripke1MinMult(column);
        limbSleepIndices := limbSleepIndices + [axisIndex[column]];
        axis := axis + 1;
      }
      UpdateThreeAxes(old(adjusted), counts, limb, AdjustedColumn);
      UpdateThreeAxes(old(axisIndex), counts, limb, ScoreIndex);
    }

    /** One pass of the limb loop of apply_cole_kripke_mult: score the
        limb's three axes, then write the limb's mean index and its labels. */
    method ScoreLimb(limb: nat)
      requires forall a :: 1 <= a <= 3 ==> Column(a, limb) in counts
      requires |counts[Column(2, limb)]| == |counts[Column(1, limb)]| == |dataTimestamp|
      requires |counts[Column(3, limb)]| == |dataTimestamp|
      modifies this
      ensures dataTimestamp == old(dataTimestamp) && counts == old(counts)
      ensures adjusted == old(adjusted)[Column(1, limb) := AdjustedColumn(counts[Column(1, limb)])]
                                       [Column(2, limb) := AdjustedColumn(counts[Column(2, limb)])]
                                       [Column(3, limb) := AdjustedColumn(counts[Column(3, limb)])]
      ensures axisIndex == old(axisIndex)[Column(1, limb) := ScoreIndex(counts[Column(1, limb)])]
                                         [Column(2, limb) := ScoreIndex(counts[Column(2, limb)])]
                                         [Column(3, limb) := ScoreIndex(counts[Column(3, limb)])]
      ensures limbIndex == old(limbIndex)[limb := ExpectedLimbIndex(limb)]
      ensures limbSleep == old(limbSleep)[limb := Labels(ExpectedLimbIndex(limb))]
      // limbs are scored independently: no column of another limb changes
      ensures AgreeOutside(adjusted, old(adjusted), AxisColumns(limb))
      ensures AgreeOutside(axisIndex, old(axisIndex), AxisColumns(limb))
      ensures AgreeOutside(limbIndex, old(limbIndex), {limb})
      ensures AgreeOutside(limbSleep, old(limbSleep), {limb})
    {
      var limbSleepIndices := ScoreAxes(limb);
      limbIndex := limbIndex[limb := MeanColumns(limbSleepIndices, |dataTimestamp|)];
      limbSleep := limbSleep[limb := Labels(limbIndex[limb])];
    }

    /** apply_cole_kripke_mult, without the conversion of timestamps to
        text: every limb is scored from its own three axes, and the
        formatted output is returned. */
    method ApplyColeKripkeMult(numLimbs: nat) returns (out: MultiScore)
      requires HasLimbs(numLimbs)
      modifies this
      ensures dataTimestamp == old(dataTimestamp) && counts == old(counts)
      ensures LimbsScored(numLimbs + 1)
      ensures AxesScored(numLimbs + 1)
      ensures forall l :: 1 <= l <= numLimbs ==> l in limbIndex && l in limbSleep
      ensures AgreeOutside(adjusted, old(adjusted), AxisColumnsUpTo(numLimbs))
      ensures AgreeOutside(axisIndex, old(axisIndex), AxisColumnsUpTo(numLimbs))
      ensures AgreeOutside(limbIndex, old(limbIndex), LimbsUpTo(numLimbs))
      ensures AgreeOutside(limbSleep, old(limbSleep), LimbsUpTo(numLimbs))
      ensures out == FormatOutput(numLimbs)
    {
      var limb := 1;
      while limb <= numLimbs
        invariant 1 <= limb <= numLimbs + 1
        invariant dataTimestamp == old(dataTimestamp) && counts == old(counts)
        invariant LimbsScored(limb)
        invariant AxesScored(limb)
        invariant AgreeOutside(adjusted, old(adjusted), AxisColumnsUpTo(limb - 1))
        invariant AgreeOutside(axisIndex, old(axisIndex), AxisColumnsUpTo(limb - 1))
        invariant AgreeOutside(limbIndex, old(limbIndex), LimbsUpTo(limb - 1))
        invariant AgreeOutside(limbSleep, old(limbSleep), LimbsUpTo(limb - 1))
      {
        ghost var adjusted0, axisIndex0, limbIndex0, limbSleep0 := adjusted, axisIndex, limbIndex, limbSleep;
        ScoreLimb(limb);
        LimbLoopStep(counts, old(adjusted), old(axisIndex), old(limbIndex), old(limbSleep),
                     adjusted0, axisIndex0, limbIndex0, limbSleep0,
                     adjusted, axisIndex, limbIndex, limbSleep, limb);
        limb := limb + 1;
      }
      forall l | 1 <= l <= numLimbs
        ensures l in limbIndex && l in limbSleep
      {
        assert LimbRow(counts, limbIndex, limbSleep, l);
      }
      out := FormatOutput(numLimbs);
    }
  }

  /** Limb `l`'s index and label columns hold its mean index and labels,
      computed from its own three axis columns. */
  ghost predicate LimbRow(counts: map<Column, seq<real>>, limbIndex: map<nat, seq<real>>,
                          limbSleep: map<nat, seq<Sleep>>, l: nat)
  {
    && l in limbIndex && l in limbSleep
    && Column(1, l) in counts && Column(2, l) in counts && Column(3, l) in counts
    && |counts[Column(2, l)]| == |counts[Column(1, l)]| && |counts[Column(3, l)]| == |counts[Column(1, l)]|
    && limbIndex[l] == LimbIndex(counts[Column(1, l)], counts[Column(2, l)], counts[Column(3, l)])
    && limbSleep[l] == Labels(limbIndex[l])
  }

  ghost predicate LimbsScoredIn(counts: map<Column, seq<real>>, limbIndex: map<nat, seq<real>>,
                                limbSleep: map<nat, seq<Sleep>>, n: nat)
  {
    forall l :: 1 <= l < n ==> LimbRow(counts, limbIndex, limbSleep, l)
  }

  /** Column `c` holds its adjusted counts and its sleep index. */
  ghost predicate AxisRow(counts: map<Column, seq<real>>, adjusted: map<Column, seq<real>>,
                          axisIndex: map<Column, seq<real>>, c: Column)
  {
    && c in counts && c in adjusted && c in axisIndex
    && adjusted[c] == AdjustedColumn(counts[c])
    && axisIndex[c] == ScoreIndex(counts[c])
  }

  ghost predicate AxesScoredIn(counts: map<Column, seq<real>>, adjusted: map<Column, seq<real>>,
                               axisIndex: map<Column, seq<real>>, n: nat)
  {
    forall c: Column :: 1 <= c.limb < n && 1 <= c.axis <= 3 ==> AxisRow(counts, adjusted, axisIndex, c)
  }

  /** Scoring limb `limb` and keeping every other limb's entries extends
      the scored limbs by one. */
  lemma LimbScoredStep(counts: map<Column, seq<real>>, limbIndex0: map<nat, seq<real>>, limbSleep0: map<nat, seq<Sleep>>,
                       limbIndex: map<nat, seq<real>>, limbSleep: map<nat, seq<Sleep>>, limb: nat)
    requires LimbsScoredIn(counts, limbIndex0, limbSleep0, limb)
    requires LimbRow(counts, limbIndex, limbSleep, limb)
    requires AgreeOutside(limbIndex, limbIndex0, {limb}) && AgreeOutside(limbSleep, limbSleep0, {limb})
    ensures LimbsScoredIn(counts, limbIndex, limbSleep, limb + 1)
  {
    forall l | 1 <= l < limb + 1
      ensures LimbRow(counts, limbIndex, limbSleep, l)
    {
      if l < limb {
        assert l !in {limb};
        assert LimbRow(counts, limbIndex0, limbSleep0, l);
      }
    }
  }

  /** Scoring the three axes of limb `limb` and keeping every other
      column extends the scored axes by that limb. */
  lemma AxesScoredStep(counts: map<Column, seq<real>>, adjusted0: map<Column, seq<real>>, axisIndex0: map<Column, seq<real>>,
                       adjusted: map<Column, seq<real>>, axisIndex: map<Column, seq<real>>, limb: nat)
    requires AxesScoredIn(counts, adjusted0, axisIndex0, limb)
    requires forall a :: 1 <= a <= 3 ==> AxisRow(counts, adjusted, axisIndex, Column(a, limb))
    requires AgreeOutside(adjusted, adjusted0, AxisColumns(limb)) && AgreeOutside(axisIndex, axisIndex0, AxisColumns(limb))
    ensures AxesScoredIn(counts, adjusted, axisIndex, limb + 1)
  {
    forall c: Column | 1 <= c.limb < limb + 1 && 1 <= c.axis <= 3
      ensures AxisRow(counts, adjusted, axisIndex, c)
    {
      if c.limb < limb {
        assert c !in AxisColumns(limb);
        assert AxisRow(counts, adjusted0, axisIndex0, c);
      } else {
        assert c == Column(c.axis, limb);
      }
    }
  }

  /** Writing the three axis columns of limb `l` sets exactly those. */
  lemma ThreeAxesWritten(m: map<Column, seq<real>>, m0: map<Column, seq<real>>, counts: map<Column, seq<real>>,
                         l: nat, f: seq<real> -> seq<real>)
    requires forall a :: 1 <= a <= 3 ==> Column(a, l) in counts
    requires m == m0[Column(1, l) := f(counts[Column(1, l)])][Column(2, l) := f(counts[Column(2, l)])]
                    [Column(3, l) := f(counts[Column(3, l)])]
    ensures forall a :: 1 <= a <= 3 ==> Column(a, l) in m && m[Column(a, l)] == f(counts[Column(a, l)])
    ensures AgreeOutside(m, m0, AxisColumns(l))
  {
  }

  /** A pass over limb `limb` after passes over limbs 1..limb-1 keeps
      every axis column outside limbs 1..limb. */
  lemma AxisColumnsKept<V>(m: map<Column, V>, m0: map<Column, V>, mIn: map<Column, V>, limb: nat)
    requires limb >= 1
    requires AgreeOutside(m0, mIn, AxisColumnsUpTo(limb - 1)) && AgreeOutside(m, m0, AxisColumns(limb))
    ensures AgreeOutside(m, mIn, AxisColumnsUpTo(limb))
  {
    AgreeOutsideTrans(m, m0, mIn, AxisColumns(limb), AxisColumnsUpTo(limb - 1));
    assert AxisColumnsUpTo(limb) == AxisColumnsUpTo(limb - 1) + AxisColumns(limb);
  }

  /** The same for the per-limb columns. */
  lemma LimbColumnsKept<V>(m: map<nat, V>, m0: map<nat, V>, mIn: map<nat, V>, limb: nat)
    requires limb >= 1
    requires AgreeOutside(m0, mIn, LimbsUpTo(limb - 1)) && AgreeOutside(m, m0, {limb})
    ensures AgreeOutside(m, mIn, LimbsUpTo(limb))
  {
    AgreeOutsideTrans(m, m0, mIn, {limb}, LimbsUpTo(limb - 1));
    assert LimbsUpTo(limb) == LimbsUpTo(limb - 1) + {limb};
  }

  /** One turn of the limb loop keeps the loop's invariant: limbs 1..limb-1
      are scored and nothing else changed before, limb `limb` is scored now
      and the pass kept every other entry, so limbs 1..limb are scored and
      nothing outside them changed. */
  lemma LimbLoopStep(counts: map<Column, seq<real>>,
                     adjustedIn: map<Column, seq<real>>, axisIndexIn: map<Column, seq<real>>,
                     limbIndexIn: map<nat, seq<real>>, limbSleepIn: map<nat, seq<Sleep>>,
                     adjusted0: map<Column, seq<real>>, axisIndex0: map<Column, seq<real>>,
                     limbIndex0: map<nat, seq<real>>, limbSleep0: map<nat, seq<Sleep>>,
                     adjusted: map<Column, seq<real>>, axisIndex: map<Column, seq<real>>,
                     limbIndex: map<nat, seq<real>>, limbSleep: map<nat, seq<Sleep>>, limb: nat)
    requires limb >= 1
    requires LimbsScoredIn(counts, limbIndex0, limbSleep0, limb) && AxesScoredIn(counts, adjusted0, axisIndex0, limb)
    requires AgreeOutside(adjusted0, adjustedIn, AxisColumnsUpTo(limb - 1))
    requires AgreeOutside(axisIndex0, axisIndexIn, AxisColumnsUpTo(limb - 1))
    requires AgreeOutside(limbIndex0, limbIndexIn, LimbsUpTo(limb - 1))
    requires AgreeOutside(limbSleep0, limbSleepIn, LimbsUpTo(limb - 1))
    requires forall a :: 1 <= a <= 3 ==> Column(a, limb) in counts
    requires |counts[Column(2, limb)]| == |counts[Column(1, limb)]| && |counts[Column(3, limb)]| == |counts[Column(1, limb)]|
    requires adjusted == adjusted0[Column(1, limb) := AdjustedColumn(counts[Column(1, limb)])]
                                  [Column(2, limb) := AdjustedColumn(counts[Column(2, limb)])]
                                  [Column(3, limb) := AdjustedColumn(counts[Column(3, limb)])]
    requires axisIndex == axisIndex0[Column(1, limb) := ScoreIndex(counts[Column(1, limb)])]
                                    [Column(2, limb) := ScoreIndex(counts[Column(2, limb)])]
                                    [Column(3, limb) := ScoreIndex(counts[Column(3, limb)])]
    requires limbIndex == limbIndex0[limb := LimbIndex(counts[Column(1, limb)], counts[Column(2, limb)], counts[Column(3, limb)])]
    requires limbSleep == limbSleep0[limb := Labels(limbIndex[limb])]
    ensures LimbsScoredIn(counts, limbIndex, limbSleep, limb + 1) && AxesScoredIn(counts, adjusted, axisIndex, limb + 1)
    ensures AgreeOutside(adjusted, adjustedIn, AxisColumnsUpTo(limb))
    ensures AgreeOutside(axisIndex, axisIndexIn, AxisColumnsUpTo(limb))
    ensures AgreeOutside(limbIndex, limbIndexIn, LimbsUpTo(limb))
    ensures AgreeOutside(limbSleep, limbSleepIn, LimbsUpTo(limb))
  {
    ThreeAxesWritten(adjusted, adjusted0, counts, limb, AdjustedColumn);
    ThreeAxesWritten(axisIndex, axisIndex0, counts, limb, ScoreIndex);
    assert AgreeOutside(limbIndex, limbIndex0, {limb}) && AgreeOutside(limbSleep, limbSleep0, {limb});
    AxisColumnsKept(adjusted, adjusted0, adjustedIn, limb);
    AxisColumnsKept(axisIndex, axisIndex0, axisIndexIn, limb);
    LimbColumnsKept(limbIndex, limbIndex0, limbIndexIn, limb);
    LimbColumnsKept(limbSleep, limbSleep0, limbSleepIn, limb);
    LimbScoredStep(counts, limbIndex0, limbSleep0, limbIndex, limbSleep, limb);
    AxesScoredStep(counts, adjusted0, axisIndex0, adjusted, axisIndex, limb);
  }

  /** `m` after writing `f` of the axis columns 1..k of limb `l`, in axis
      order, as the limb loop does. */
  function UpdateAxes(m: map<Column, seq<real>>, counts: map<Column, seq<real>>, l: nat, k: nat,
                      f: seq<real> -> seq<real>): map<Column, seq<real>>
    requires forall a :: 1 <= a <= k ==> Column(a, l) in counts
  {
    if k == 0 then m else UpdateAxes(m, counts, l, k - 1, f)[Column(k, l) := f(counts[Column(k, l)])]
  }

  /** The full limb pass writes axis 1, then axis 2, then axis 3. */
  lemma UpdateThreeAxes(m: map<Column, seq<real>>, counts: map<Column, seq<real>>, l: nat, f: seq<real> -> seq<real>)
    requires forall a :: 1 <= a <= 3 ==> Column(a, l) in counts
    ensures UpdateAxes(m, counts, l, 3, f)
         == m[Column(1, l) := f(counts[Column(1, l)])][Column(2, l) := f(counts[Column(2, l)])]
             [Column(3, l) := f(counts[Column(3, l)])]
  {
    assert UpdateAxes(m, counts, l, 1, f) == m[Column(1, l) := f(counts[Column(1, l)])];
    assert UpdateAxes(m, counts, l, 2, f) == UpdateAxes(m, counts, l, 1, f)[Column(2, l) := f(counts[Column(2, l)])];
  }

  /** Seven all-zero epochs score index 0 and sleep throughout. */
  lemma ExampleSevenZeroEpochs()
    ensures ScoreIndex([0.0, 0.0, 0.0, 0.0, 0.0, 0.0, 0.0]) == [0.0, 0.0, 0.0, 0.0, 0.0, 0.0, 0.0]
    ensures Labels(ScoreIndex([0.0, 0.0, 0.0, 0.0, 0.0, 0.0, 0.0])) == [S, S, S, S, S, S, S]
  {
    AllZeroIsSleep([0.0, 0.0, 0.0, 0.0, 0.0, 0.0, 0.0]);
  }
}
