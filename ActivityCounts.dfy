/** Activity counts from a band-passed 10 Hz acceleration signal.

    Each channel (the three axes and the vector magnitude) is dead-banded
    (samples below 0.068 g become 0), capped at 2.13 g and quantised to an
    8-bit scale, `round(v / 2.13 * 128)`. The quantised samples are summed
    over consecutive 600-sample (60 s) epochs, dropping an incomplete last
    epoch, and epoch `i` is stamped `start + 60 s * i`.

    The resampling and Butterworth filtering that produce the input signal
    are not part of this model: the signal is any sequence of reals. */
module ActivityCounts {

  const DeadBandThreshold: real := 0.068
  const Ceiling: real := 2.13
  const Resolution: real := 128.0
  const SamplesPerEpoch: nat := 600
  const EpochSeconds: real := 60.0

  /** The largest possible epoch count, 600 samples of 128. */
  const MaxEpochCount: int := 76800

  // ---------------------------------------------------------------------
  // Dead-band and cap
  // ---------------------------------------------------------------------

  /** `x[x < 0.068] = 0`: a signed comparison, so negative samples are zeroed too. */
  function DeadBanded(s: seq<real>): (r: seq<real>)
    ensures |r| == |s|
  {
    seq(|s|, i requires 0 <= i < |s| => if s[i] < DeadBandThreshold then 0.0 else s[i])
  }

  /** `x[x > 2.13] = 2.13`. */
  function Capped(s: seq<real>): (r: seq<real>)
    ensures |r| == |s|
  {
    seq(|s|, i requires 0 <= i < |s| => if s[i] > Ceiling then Ceiling else s[i])
  }

  /** After dead-band and cap every sample is 0 or lies in [0.068, 2.13];
      samples below the threshold, negative ones included, are 0, and
      samples in [0.068, 2.13] pass unchanged. */
  lemma ConditionedRange(s: seq<real>, i: nat)
    requires i < |s|
    ensures var v := Capped(DeadBanded(s))[i];
            && (v == 0.0 || DeadBandThreshold <= v <= Ceiling)
            && (s[i] < DeadBandThreshold ==> v == 0.0)
            && (DeadBandThreshold <= s[i] <= Ceiling ==> v == s[i])
            && (s[i] > Ceiling ==> v == Ceiling)
  {
  }

  /** Applying dead-band or cap a second time changes nothing. */
  lemma ConditioningIdempotent(s: seq<real>)
    ensures DeadBanded(DeadBanded(s)) == DeadBanded(s)
    ensures Capped(Capped(s)) == Capped(s)
    ensures DeadBanded(Capped(DeadBanded(s))) == Capped(DeadBanded(s))
  {
  }

  // ---------------------------------------------------------------------
  // Quantisation
  // ---------------------------------------------------------------------

  /** `np.round`: the nearest integer, ties to the even neighbour. */
  function RoundHalfEven(x: real): (r: int)
    ensures x - 0.5 <= r as real <= x + 0.5
    ensures (r as real == x - 0.5 || r as real == x + 0.5) ==> r % 2 == 0
  {
    var f := x.Floor;
    var d := x - f as real;
    if d < 0.5 then f
    else if d > 0.5 then f + 1
    else if f % 2 == 0 then f else f + 1
  }

  /** Rounding is exact on integers and never decreases. */
  lemma RoundHalfEvenFacts(x: real, y: real, n: int)
    ensures RoundHalfEven(n as real) == n
    ensures x <= y ==> RoundHalfEven(x) <= RoundHalfEven(y)
  {
  }

  /** One sample on the 8-bit scale: `round(v / 2.13 * 128)`. */
  function Quantum(v: real): int
  {
    RoundHalfEven(v / Ceiling * Resolution)
  }

  function Quantised(s: seq<real>): (q: seq<int>)
    ensures |q| == |s|
  {
    seq(|s|, i requires 0 <= i < |s| => Quantum(s[i]))
  }

  /** 0 maps to 0 and 2.13 to 128; a sample in [0.068, 2.13] maps into
      [4, 128], so a conditioned sample lands in 0 or [4, 128]. */
  lemma QuantumRange(v: real)
    ensures v == 0.0 ==> Quantum(v) == 0
    ensures v == Ceiling ==> Quantum(v) == 128
    ensures DeadBandThreshold <= v <= Ceiling ==> 4 <= Quantum(v) <= 128
    ensures 0.0 <= v <= Ceiling ==> 0 <= Quantum(v) <= 128
  {
    RoundHalfEvenFacts(0.0, 0.0, 0);
    RoundHalfEvenFacts(0.0, 0.0, 128);
  }

  /** The whole per-sample conditioning of one channel. */
  function Condition(s: seq<real>): (q: seq<int>)
    ensures |q| == |s|
  {
    Quantised(Capped(DeadBanded(s)))
  }

  lemma ConditionRange(s: seq<real>)
    ensures forall i :: 0 <= i < |s| ==> 0 <= Condition(s)[i] <= 128
    ensures forall i :: 0 <= i < |s| ==> Condition(s)[i] == 0 || 4 <= Condition(s)[i]
    ensures forall i :: 0 <= i < |s| && s[i] < DeadBandThreshold ==> Condition(s)[i] == 0
  {
    forall i | 0 <= i < |s|
      ensures 0 <= Condition(s)[i] <= 128 && (Condition(s)[i] == 0 || 4 <= Condition(s)[i])
      ensures s[i] < DeadBandThreshold ==> Condition(s)[i] == 0
    {
      ConditionedRange(s, i);
      QuantumRange(Capped(DeadBanded(s))[i]);
    }
  }

  // ---------------------------------------------------------------------
  // Epoch aggregation
  // ---------------------------------------------------------------------

  function Sum(s: seq<int>): int
  {
    if s == [] then 0 else Sum(s[..|s| - 1]) + s[|s| - 1]
  }

  /** A sum of samples in [0, 128] lies in [0, 128 * length]. */
  lemma {:induction false} SumBounds(s: seq<int>)
    requires forall i :: 0 <= i < |s| ==> 0 <= s[i] <= 128
    ensures 0 <= Sum(s) <= 128 * |s|
  {
    if s != [] {
      SumBounds(s[..|s| - 1]);
    }
  }

  /** A sum of zeros is zero. */
  lemma {:induction false} SumZero(s: seq<int>)
    requires forall i :: 0 <= i < |s| ==> s[i] == 0
    ensures Sum(s) == 0
  {
    if s != [] {
      SumZero(s[..|s| - 1]);
    }
  }

  lemma EpochWithin(n: nat, k: nat)
    requires k < n / SamplesPerEpoch
    ensures SamplesPerEpoch * k + SamplesPerEpoch <= n
  {
  }

  /** `len // 600` full epochs, epoch `k` summing samples 600k .. 600k+599. */
  function EpochTotals(q: seq<int>): (e: seq<int>)
    ensures |e| == |q| / SamplesPerEpoch
  {
    seq(|q| / SamplesPerEpoch, k requires 0 <= k < |q| / SamplesPerEpoch =>
      EpochWithin(|q|, k);
      Sum(q[SamplesPerEpoch * k .. SamplesPerEpoch * k + SamplesPerEpoch]))
  }

  /** Samples past the last full epoch are discarded: signals that agree on
      their full epochs give the same totals. */
  lemma TrailingSamplesDiscarded(q: seq<int>, q': seq<int>)
    requires |q| / SamplesPerEpoch == |q'| / SamplesPerEpoch
    requires var n := SamplesPerEpoch * (|q| / SamplesPerEpoch); q[..n] == q'[..n]
    ensures EpochTotals(q) == EpochTotals(q')
  {
    var n := SamplesPerEpoch * (|q| / SamplesPerEpoch);
    forall k | 0 <= k < |q| / SamplesPerEpoch
      ensures EpochTotals(q)[k] == EpochTotals(q')[k]
    {
      EpochWithin(|q|, k);
      EpochWithin(|q'|, k);
      var lo, hi := SamplesPerEpoch * k, SamplesPerEpoch * k + SamplesPerEpoch;
      assert hi <= n;
      assert q[lo..hi] == q[..n][lo..hi] == q'[..n][lo..hi] == q'[lo..hi];
    }
  }

  /** Every epoch total of conditioned samples lies in [0, 76800]. */
  lemma EpochTotalsBounds(q: seq<int>)
    requires forall i :: 0 <= i < |q| ==> 0 <= q[i] <= 128
    ensures forall k :: 0 <= k < |EpochTotals(q)| ==> 0 <= EpochTotals(q)[k] <= MaxEpochCount
  {
    forall k | 0 <= k < |EpochTotals(q)|
      ensures 0 <= EpochTotals(q)[k] <= MaxEpochCount
    {
      EpochWithin(|q|, k);
      SumBounds(q[SamplesPerEpoch * k .. SamplesPerEpoch * k + SamplesPerEpoch]);
    }
  }

  /** A signal whose samples all fall below the dead-band threshold (an
      all-zero signal in particular) gives all-zero epoch counts. */
  lemma QuietSignalGivesZeroCounts(s: seq<real>)
    requires forall i :: 0 <= i < |s| ==> s[i] < DeadBandThreshold
    ensures forall k :: 0 <= k < |EpochTotals(Condition(s))| ==> EpochTotals(Condition(s))[k] == 0
  {
    var q := Condition(s);
    ConditionRange(s);
    forall k | 0 <= k < |EpochTotals(q)|
      ensures EpochTotals(q)[k] == 0
    {
      EpochWithin(|q|, k);
      SumZero(q[SamplesPerEpoch * k .. SamplesPerEpoch * k + SamplesPerEpoch]);
    }
  }

  // ---------------------------------------------------------------------
  // The epoch table
  // ---------------------------------------------------------------------

  /** One output row: the epoch's timestamp and its four channel counts. */
  datatype EpochRow = EpochRow(dataTimestamp: real, axis1: int, axis2: int, axis3: int, vmEpochCount: int)

  /** `initial + i * 60 s` for `i` in `range(num_epochs)`. */
  function EpochTimes(initial: real, numEpochs: nat): (ts: seq<real>)
    ensures |ts| == numEpochs
  {
    seq(numEpochs, i requires 0 <= i < numEpochs => initial + EpochSeconds * i as real)
  }

  /** The output table of the four channels, its length set by the vector
      magnitude channel. */
  function EpochTable(x: seq<real>, y: seq<real>, z: seq<real>, vm: seq<real>, initial: real): seq<EpochRow>
    requires |y| == |x| && |z| == |x| && |vm| == |x|
  {
    var n := |vm| / SamplesPerEpoch;
    var ex, ey, ez, ev := EpochTotals(Condition(x)), EpochTotals(Condition(y)),
                          EpochTotals(Condition(z)), EpochTotals(Condition(vm));
    var ts := EpochTimes(initial, n);
    seq(n, i requires 0 <= i < n => EpochRow(ts[i], ex[i], ey[i], ez[i], ev[i]))
  }

  /** The table has `len // 600` rows, stamped 60 s apart from the initial
      timestamp, and every count lies in [0, 76800]. */
  lemma EpochTableFacts(x: seq<real>, y: seq<real>, z: seq<real>, vm: seq<real>, initial: real)
    requires |y| == |x| && |z| == |x| && |vm| == |x|
    ensures var t := EpochTable(x, y, z, vm, initial);
            && |t| == |x| / SamplesPerEpoch
            && (forall i :: 0 <= i < |t| ==> t[i].dataTimestamp == initial + EpochSeconds * i as real)
            && (forall i :: 0 < i < |t| ==> t[i].dataTimestamp == t[i - 1].dataTimestamp + EpochSeconds)
            && (forall i :: 0 <= i < |t| ==>
                  && 0 <= t[i].axis1 <= MaxEpochCount && 0 <= t[i].axis2 <= MaxEpochCount
                  && 0 <= t[i].axis3 <= MaxEpochCount && 0 <= t[i].vmEpochCount <= MaxEpochCount)
  {
    ConditionRange(x);
    ConditionRange(y);
    ConditionRange(z);
    ConditionRange(vm);
    EpochTotalsBounds(Condition(x));
    EpochTotalsBounds(Condition(y));
    EpochTotalsBounds(Condition(z));
    EpochTotalsBounds(Condition(vm));
  }

  /** Row `i` of the table holds, for each of the four channels, the sum of
      that channel's conditioned samples 600i .. 600i+599. */
  lemma EpochTableSums(x: seq<real>, y: seq<real>, z: seq<real>, vm: seq<real>, initial: real, i: nat)
    requires |y| == |x| && |z| == |x| && |vm| == |x|
    requires i < |x| / SamplesPerEpoch
    ensures SamplesPerEpoch * i + SamplesPerEpoch <= |x|
    ensures var t := EpochTable(x, y, z, vm, initial);
            var lo, hi := SamplesPerEpoch * i, SamplesPerEpoch * i + SamplesPerEpoch;
            && |t| == |x| / SamplesPerEpoch
            && t[i].axis1 == Sum(Condition(x)[lo..hi])
            && t[i].axis2 == Sum(Condition(y)[lo..hi])
            && t[i].axis3 == Sum(Condition(z)[lo..hi])
            && t[i].vmEpochCount == Sum(Condition(vm)[lo..hi])
  {
    EpochWithin(|x|, i);
  }

  /** A quiet recording (every sample of every channel below the dead-band
      threshold) gives all-zero counts in every row. */
  lemma QuietRecordingGivesZeroRows(x: seq<real>, y: seq<real>, z: seq<real>, vm: seq<real>, initial: real)
    requires |y| == |x| && |z| == |x| && |vm| == |x|
    requires forall i :: 0 <= i < |x| ==>
      x[i] < DeadBandThreshold && y[i] < DeadBandThreshold && z[i] < DeadBandThreshold && vm[i] < DeadBandThreshold
    ensures forall r :: r in EpochTable(x, y, z, vm, initial) ==>
      r.axis1 == 0 && r.axis2 == 0 && r.axis3 == 0 && r.vmEpochCount == 0
  {
    QuietSignalGivesZeroCounts(x);
    QuietSignalGivesZeroCounts(y);
    QuietSignalGivesZeroCounts(z);
    QuietSignalGivesZeroCounts(vm);
  }

  // ---------------------------------------------------------------------
  // The in-place pipeline over arrays
  // ---------------------------------------------------------------------

  /** Dead-band one channel in place. */
  method ApplyDeadBand(a: array<real>)
    modifies a
    ensures a[..] == DeadBanded(old(a[..]))
  {
    var i := 0;
    while i < a.Length
      invariant 0 <= i <= a.Length
      invariant forall k :: 0 <= k < i ==> a[k] == DeadBanded(old(a[..]))[k]
      invariant forall k :: i <= k < a.Length ==> a[k] == old(a[k])
    {
      if a[i] < DeadBandThreshold {
        a[i] := 0.0;
      }
      i := i + 1;
    }
  }

  /** Cap one channel in place. */
  method ApplyCap(a: array<real>)
    modifies a
    ensures a[..] == Capped(old(a[..]))
  {
    var i := 0;
    while i < a.Length
      invariant 0 <= i <= a.Length
      invariant forall k :: 0 <= k < i ==> a[k] == Capped(old(a[..]))[k]
      invariant forall k :: i <= k < a.Length ==> a[k] == old(a[k])
    {
      if a[i] > Ceiling {
        a[i] := Ceiling;
      }
      i := i + 1;
    }
  }

  /** Scale and round one channel into a new integer array. */
  method Quantise(a: array<real>) returns (q: array<int>)
    ensures q.Length == a.Length
    ensures q[..] == Quantised(a[..])
  {
    q := new int[a.Length];
    var i := 0;
    while i < a.Length
      invariant 0 <= i <= a.Length
      invariant forall k :: 0 <= k < i ==> q[k] == Quantum(a[k])
    {
      q[i] := RoundHalfEven(a[i] / Ceiling * Resolution);
      i := i + 1;
    }
  }

  /** Sum each of the first `numEpochs` 600-sample blocks. */
  method EpochSums(q: array<int>, numEpochs: nat) returns (sums: array<int>)
    requires SamplesPerEpoch * numEpochs <= q.Length
    ensures sums.Length == numEpochs
    ensures forall k :: 0 <= k < numEpochs ==>
      sums[k] == Sum(q[SamplesPerEpoch * k .. SamplesPerEpoch * k + SamplesPerEpoch])
  {
    sums := new int[numEpochs];
    var k := 0;
    while k < numEpochs
      invariant 0 <= k <= numEpochs
      invariant forall j :: 0 <= j < k ==>
        sums[j] == Sum(q[SamplesPerEpoch * j .. SamplesPerEpoch * j + SamplesPerEpoch])
    {
      var base := SamplesPerEpoch * k;
      var acc := 0;
      var j := 0;
      while j < SamplesPerEpoch
        invariant 0 <= j <= SamplesPerEpoch
        invariant acc == Sum(q[base .. base + j])
      {
        assert q[base .. base + j + 1][..j] == q[base .. base + j];
        acc := acc + q[base + j];
        j := j + 1;
      }
      sums[k] := acc;
      k := k + 1;
    }
  }

  /** One timestamp per epoch, 60 s apart from `initial`. */
  method EpochTimestamps(initial: real, numEpochs: nat) returns (ts: array<real>)
    ensures ts[..] == EpochTimes(initial, numEpochs)
  {
    ts := new real[numEpochs];
    var i := 0;
    while i < numEpochs
      invariant 0 <= i <= numEpochs
      invariant forall k :: 0 <= k < i ==> ts[k] == initial + EpochSeconds * k as real
    {
      ts[i] := initial + EpochSeconds * i as real;
      i := i + 1;
    }
  }

  /** process_axivity_data from the dead-band on: conditions the four
      channels in place, aggregates them into epochs and stamps the epochs. */
  method ProcessAxivityData(x: array<real>, y: array<real>, z: array<real>, vm: array<real>, initial: real)
    returns (table: seq<EpochRow>)
    requires y.Length == x.Length && z.Length == x.Length && vm.Length == x.Length
    requires x != y && x != z && x != vm && y != z && y != vm && z != vm
    modifies x, y, z, vm
    ensures x[..] == Capped(DeadBanded(old(x[..]))) && y[..] == Capped(DeadBanded(old(y[..])))
    ensures z[..] == Capped(DeadBanded(old(z[..]))) && vm[..] == Capped(DeadBanded(old(vm[..])))
    ensures table == EpochTable(old(x[..]), old(y[..]), old(z[..]), old(vm[..]), initial)
  {
    ApplyDeadBand(x);
    ApplyDeadBand(y);
    ApplyDeadBand(z);
    ApplyDeadBand(vm);
    ApplyCap(x);
    ApplyCap(y);
    ApplyCap(z);
    ApplyCap(vm);
    var qx := Quantise(x);
    var qy := Quantise(y);
    var qz := Quantise(z);
    var qvm := Quantise(vm);
    var numEpochs := vm.Length / SamplesPerEpoch;
    var sx := EpochSums(qx, numEpochs);
    var sy := EpochSums(qy, numEpochs);
    var sz := EpochSums(qz, numEpochs);
    var svm := EpochSums(qvm, numEpochs);
    var ts := EpochTimestamps(initial, numEpochs);
    var tsv, xv, yv, zv, vmv := ts[..], sx[..], sy[..], sz[..], svm[..];
    table := seq(numEpochs, i requires 0 <= i < numEpochs && |tsv| == |xv| == |yv| == |zv| == |vmv| == numEpochs =>
      EpochRow(tsv[i], xv[i], yv[i], zv[i], vmv[i]));
    assert qx[..] == Condition(old(x[..]));
    assert EpochTotals(qx[..]) == xv;
  }
}
