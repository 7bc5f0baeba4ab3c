/** Choi non-wear detection over per-epoch activity counts.

    A row is worn when its count is positive. The wear column is run-length
    encoded into a summary of maximal runs; non-wear runs shorter than the
    spike tolerance are reclassified as wear; the summary is encoded again,
    merging neighbours that now share a state; and the non-wear runs that are
    long enough are reported with their end time. */
module Choi {

  /** A row of a run-length summary: the wear state shared by the run, the
      timestamp of its first row and the number of rows it spans. */
  datatype Run = Run(wear: int, timestamp: int, length: nat)

  /** A reported non-wear interval: start, end and length in epochs. */
  datatype NonWearPeriod = NonWearPeriod(timestamp: int, periodEnd: int, length: nat)

  /** Seconds covered by one row; `period_end` counts the length in minutes. */
  const SecondsPerRow: int := 60

  const DefaultMinPeriodLen: int := 90
  const DefaultMinWindowLen: int := 30
  const DefaultSpikeTolerance: int := 2

  // ---------------------------------------------------------------------
  // The count and wear columns
  // ---------------------------------------------------------------------

  /** The `count` column: the vector magnitude when asked for, else axis 1.
      The magnitude itself (a square root) is supplied by the caller. */
  function CountColumn(axis1: seq<real>, magnitude: seq<real>, useMagnitude: bool): seq<real>
  {
    if useMagnitude then magnitude else axis1
  }

  /** The `wear` column: 1 for a positive count, 0 otherwise. */
  function WearColumn(counts: seq<real>): (wear: seq<int>)
    ensures |wear| == |counts|
    ensures forall i :: 0 <= i < |counts| ==> (wear[i] == 1 <==> counts[i] > 0.0)
    ensures forall i :: 0 <= i < |counts| ==> (wear[i] == 0 <==> counts[i] <= 0.0)
  {
    seq(|counts|, i requires 0 <= i < |counts| => if counts[i] > 0.0 then 1 else 0)
  }

  // ---------------------------------------------------------------------
  // rleid: compare with the shifted series, then take the running sum
  // ---------------------------------------------------------------------

  /** `series != series.shift()`: the first position compares against a
      missing value and is always a change point. */
  function ChangePoints(s: seq<int>): seq<bool>
  {
    seq(|s|, i requires 0 <= i < |s| => i == 0 || s[i] != s[i - 1])
  }

  /** Cumulative sum of a boolean column read as 0/1. */
  function CumSum(b: seq<bool>): (c: seq<int>)
    ensures |c| == |b|
    ensures b != [] ==> c[0] == (if b[0] then 1 else 0)
    ensures forall i :: 0 < i < |b| ==> c[i] == c[i - 1] + (if b[i] then 1 else 0)
  {
    if b == [] then []
    else
      var p := CumSum(b[..|b| - 1]);
      var c := p + [(if p == [] then 0 else p[|p| - 1]) + (if b[|b| - 1] then 1 else 0)];
      assert forall i :: 0 <= i < |b| - 1 ==> b[..|b| - 1][i] == b[i];
      assert forall i :: 0 <= i < |b| - 1 ==> c[i] == p[i];
      c
  }

  /** Run-length identifiers: ids start at 1 and grow by one exactly where
      the value differs from its predecessor. */
  function RleId(s: seq<int>): (ids: seq<int>)
    ensures |ids| == |s|
    ensures s != [] ==> ids[0] == 1
    ensures forall i :: 0 < i < |s| ==> ids[i] == ids[i - 1] + (if s[i] == s[i - 1] then 0 else 1)
  {
    var ids := CumSum(ChangePoints(s));
    assert s != [] ==> ChangePoints(s)[0];
    ids
  }

  /** Two rows share an id exactly when every row between them holds the
      same value; ids never decrease. */
  lemma {:induction false} RleIdMarksRuns(s: seq<int>, i: nat, j: nat)
    requires i <= j < |s|
    ensures RleId(s)[i] <= RleId(s)[j]
    ensures RleId(s)[i] == RleId(s)[j] <==> forall k :: i <= k <= j ==> s[k] == s[i]
    decreases j - i
  {
    var ids := RleId(s);
    if i < j {
      RleIdMarksRuns(s, i, j - 1);
      if ids[i] == ids[j] {
        assert ids[j - 1] == ids[i];
        assert s[j] == s[j - 1];
        forall k | i <= k <= j
          ensures s[k] == s[i]
        {
          if k == j {
            assert s[j - 1] == s[i];
          }
        }
      }
      if forall k :: i <= k <= j ==> s[k] == s[i] {
        assert s[j - 1] == s[i] && s[j] == s[i];
      }
    }
  }

  // ---------------------------------------------------------------------
  // Run-length summaries
  // ---------------------------------------------------------------------

  /** Row offset at which run `k` begins: the total length of the runs before it. */
  function Start(rs: seq<Run>, k: nat): nat
    requires k <= |rs|
  {
    if k == 0 then 0 else rs[0].length + Start(rs[1..], k - 1)
  }

  /** Number of rows a summary covers. */
  function TotalLength(rs: seq<Run>): nat
  {
    Start(rs, |rs|)
  }

  /** The row-level wear column a summary stands for. */
  function Expand(rs: seq<Run>): seq<int>
  {
    if rs == [] then [] else seq(rs[0].length, _ => rs[0].wear) + Expand(rs[1..])
  }

  /** Neighbouring runs differ in wear state. */
  predicate Alternating(rs: seq<Run>)
  {
    forall i, j :: 0 <= i < |rs| && 0 <= j < |rs| && j == i + 1 ==> rs[i].wear != rs[j].wear
  }

  /** Every run spans at least one row. */
  predicate NonEmptyRuns(rs: seq<Run>)
  {
    forall k :: 0 <= k < |rs| ==> rs[k].length >= 1
  }

  /** Every run carries the timestamp of the row it starts at. */
  predicate Anchored(rs: seq<Run>, t: seq<int>)
  {
    forall k :: 0 <= k < |rs| ==> Start(rs, k) < |t| && rs[k].timestamp == t[Start(rs, k)]
  }

  /** Rows as one-row runs, the input of the first summary. */
  function UnitRuns(wear: seq<int>, t: seq<int>): seq<Run>
    requires |wear| == |t|
  {
    seq(|wear|, i requires 0 <= i < |wear| => Run(wear[i], t[i], 1))
  }

  /** One step of the grouping: a run joins the group that follows it when
      the two share a wear state, and otherwise starts its own. */
  function Absorb(r: Run, tail: seq<Run>): seq<Run>
  {
    if tail != [] && tail[0].wear == r.wear
    then [Run(r.wear, r.timestamp, r.length + tail[0].length)] + tail[1..]
    else [r] + tail
  }

  lemma AbsorbAlternating(r: Run, tail: seq<Run>)
    requires Alternating(tail)
    ensures Alternating(Absorb(r, tail))
  {
    var m := Absorb(r, tail);
    forall i, j | 0 <= i < |m| && 0 <= j < |m| && j == i + 1
      ensures m[i].wear != m[j].wear
    {
      if tail != [] && tail[0].wear == r.wear {
        if i > 0 {
          assert m[i] == tail[i] && m[j] == tail[j];
        }
      } else {
        if i > 0 {
          assert m[i] == tail[i - 1] && m[j] == tail[j - 1];
        }
      }
    }
  }

  /** Grouping by rleid: adjacent runs of equal wear state become one run,
      keeping the first wear value and timestamp and summing the lengths. */
  function Merge(rs: seq<Run>): (m: seq<Run>)
    ensures |m| <= |rs|
    ensures rs != [] ==> m != [] && m[0].wear == rs[0].wear && m[0].timestamp == rs[0].timestamp
    ensures Alternating(m)
  {
    if rs == [] then []
    else
      var tail := Merge(rs[1..]);
      AbsorbAlternating(rs[0], tail);
      Absorb(rs[0], tail)
  }

  /** Merging a run in front of others is one grouping step on their merge. */
  lemma MergeCons(r: Run, t: seq<Run>)
    ensures Merge([r] + t) == Absorb(r, Merge(t))
  {
    var rs := [r] + t;
    assert rs[0] == r && rs[1..] == t;
  }

  /** The first summary (apply_choi.py, `groupby('rleid')` over rows). */
  function Summarize(wear: seq<int>, t: seq<int>): seq<Run>
    requires |wear| == |t|
  {
    Merge(UnitRuns(wear, t))
  }

  // ---- facts about Start, Expand and the run predicates ----

  lemma {:induction false} StartCons(rs: seq<Run>, k: nat)
    requires 0 < k <= |rs|
    ensures Start(rs, k) == rs[0].length + Start(rs[1..], k - 1)
  {
  }

  lemma {:induction false} ExpandLength(rs: seq<Run>)
    ensures |Expand(rs)| == TotalLength(rs)
  {
    if rs != [] {
      ExpandLength(rs[1..]);
    }
  }

  /** Row `i` of run `k` holds that run's wear state. */
  lemma {:induction false} ExpandAt(rs: seq<Run>, k: nat, i: int)
    requires k < |rs|
    requires Start(rs, k) <= i < Start(rs, k) + rs[k].length
    ensures Start(rs, k) + rs[k].length <= TotalLength(rs)
    ensures |Expand(rs)| == TotalLength(rs)
    ensures Expand(rs)[i] == rs[k].wear
  {
    ExpandLength(rs);
    if k == 0 {
      StartsIncrease(rs, 1, |rs|);
    } else {
      ExpandAt(rs[1..], k - 1, i - rs[0].length);
      ExpandLength(rs[1..]);
    }
  }

  /** Runs start in order; with non-empty runs, strictly. */
  lemma {:induction false} StartsIncrease(rs: seq<Run>, k: nat, k': nat)
    requires k <= k' <= |rs|
    ensures Start(rs, k) <= Start(rs, k')
    ensures k < k' ==> Start(rs, k) + rs[k].length <= Start(rs, k')
    ensures k < k' && NonEmptyRuns(rs) ==> Start(rs, k) < Start(rs, k')
  {
    if k > 0 {
      StartsIncrease(rs[1..], k - 1, k' - 1);
    } else if k' > 0 {
      StartsIncrease(rs[1..], 0, k' - 1);
    }
  }

  /** Runs with the same lengths start at the same rows. */
  lemma {:induction false} StartSameLengths(rs: seq<Run>, qs: seq<Run>, k: nat)
    requires |rs| == |qs| && k <= |rs|
    requires forall j :: 0 <= j < |rs| ==> rs[j].length == qs[j].length
    ensures Start(rs, k) == Start(qs, k)
  {
    if k > 0 {
      StartSameLengths(rs[1..], qs[1..], k - 1);
    }
  }

  lemma {:induction false} UnitRunsFacts(wear: seq<int>, t: seq<int>)
    requires |wear| == |t|
    ensures NonEmptyRuns(UnitRuns(wear, t))
    ensures Expand(UnitRuns(wear, t)) == wear
    ensures forall k :: 0 <= k <= |wear| ==> Start(UnitRuns(wear, t), k) == k
  {
    var u := UnitRuns(wear, t);
    if wear != [] {
      assert u[1..] == UnitRuns(wear[1..], t[1..]);
      UnitRunsFacts(wear[1..], t[1..]);
      assert Expand(u) == [wear[0]] + wear[1..];
      forall k | 0 <= k <= |wear|
        ensures Start(u, k) == k
      {
        if k > 0 {
          assert Start(u, k) == 1 + Start(u[1..], k - 1);
        }
      }
    }
  }

  /** Merging keeps the rows: the same wear column comes out. */
  lemma {:induction false} MergeExpand(rs: seq<Run>)
    ensures Expand(Merge(rs)) == Expand(rs)
  {
    if rs != [] {
      var tail := Merge(rs[1..]);
      MergeExpand(rs[1..]);
      if tail != [] && tail[0].wear == rs[0].wear {
        var w := rs[0].wear;
        var m := Merge(rs);
        assert m[1..] == tail[1..];
        assert seq(rs[0].length + tail[0].length, _ => w)
          == seq(rs[0].length, _ => w) + seq(tail[0].length, _ => w);
      }
    }
  }

  /** Merging conserves the total length. */
  lemma MergeTotal(rs: seq<Run>)
    ensures TotalLength(Merge(rs)) == TotalLength(rs)
  {
    MergeExpand(rs);
    ExpandLength(rs);
    ExpandLength(Merge(rs));
  }

  /** Merged runs are never empty when the input runs are not. */
  lemma {:induction false} MergeNonEmpty(rs: seq<Run>)
    requires NonEmptyRuns(rs)
    ensures NonEmptyRuns(Merge(rs))
  {
    if rs != [] {
      MergeNonEmpty(rs[1..]);
    }
  }

  /** Every merged run begins where one of its input runs begins, and takes
      that run's wear state and timestamp. */
  lemma {:induction false} MergeFirstConstituent(rs: seq<Run>, k: nat) returns (j: nat)
    requires k < |Merge(rs)|
    ensures j < |rs|
    ensures Start(rs, j) == Start(Merge(rs), k)
    ensures rs[j].timestamp == Merge(rs)[k].timestamp && rs[j].wear == Merge(rs)[k].wear
  {
    assert rs != [];
    var m := Merge(rs);
    var tail := Merge(rs[1..]);
    assert m == Absorb(rs[0], tail);
    if k == 0 {
      j := 0;
    } else if tail != [] && tail[0].wear == rs[0].wear {
      var j' := MergeFirstConstituent(rs[1..], k);
      j := j' + 1;
      assert m[k] == tail[k];
      StartAbsorbed(rs[0], tail, k);
      StartCons(rs, j);
    } else {
      assert m == [rs[0]] + tail;
      assert m[1..] == tail && m[k] == tail[k - 1];
      var j' := MergeFirstConstituent(rs[1..], k - 1);
      j := j' + 1;
      StartCons(m, k);
      StartCons(rs, j);
    }
  }

  /** Absorbing a run into the head of the following runs shifts every
      later start by that run's length. */
  lemma StartAbsorbed(r: Run, t: seq<Run>, k: nat)
    requires 0 < k <= |t|
    ensures Start([Run(r.wear, r.timestamp, r.length + t[0].length)] + t[1..], k) == r.length + Start(t, k)
  {
    var h := [Run(r.wear, r.timestamp, r.length + t[0].length)] + t[1..];
    assert h[1..] == t[1..];
    StartCons(h, k);
    StartCons(t, k);
  }

  /** Merging keeps every run anchored at the timestamp of its first row. */
  lemma MergeAnchored(rs: seq<Run>, t: seq<int>)
    requires Anchored(rs, t)
    ensures Anchored(Merge(rs), t)
  {
    var m := Merge(rs);
    forall k | 0 <= k < |m|
      ensures Start(m, k) < |t| && m[k].timestamp == t[Start(m, k)]
    {
      var j := MergeFirstConstituent(rs, k);
    }
  }

  /** The first summary is the maximal run-length encoding of the wear
      column: it stands for exactly those rows, its runs are non-empty and
      alternate, its lengths add up to the number of rows and each run keeps
      the timestamp of its first row. */
  lemma FirstSummaryIsRle(wear: seq<int>, t: seq<int>)
    requires |wear| == |t|
    ensures Expand(Summarize(wear, t)) == wear
    ensures Alternating(Summarize(wear, t))
    ensures NonEmptyRuns(Summarize(wear, t))
    ensures TotalLength(Summarize(wear, t)) == |wear|
    ensures Anchored(Summarize(wear, t), t)
  {
    var u := UnitRuns(wear, t);
    UnitRunsFacts(wear, t);
    MergeExpand(u);
    MergeNonEmpty(u);
    ExpandLength(Summarize(wear, t));
    assert Anchored(u, t);
    MergeAnchored(u, t);
  }

  // ---------------------------------------------------------------------
  // groupby('rleid') puts together the runs that share an id
  // ---------------------------------------------------------------------

  /** The `wear` column of a summary. */
  function Wears(rs: seq<Run>): (w: seq<int>)
    ensures |w| == |rs|
    ensures forall k :: 0 <= k < |rs| ==> w[k] == rs[k].wear
  {
    seq(|rs|, k requires 0 <= k < |rs| => rs[k].wear)
  }

  /** A run of `rs` that begins inside group `g` of its merge, in the
      group's wear state, ends inside that group too. */
  lemma RunInsideGroup(rs: seq<Run>, m: seq<Run>, j: nat, g: nat)
    requires Expand(m) == Expand(rs) && Alternating(m) && NonEmptyRuns(m)
    requires TotalLength(m) == TotalLength(rs)
    requires j < |rs| && g < |m|
    requires Start(m, g) <= Start(rs, j) < Start(m, g) + m[g].length
    ensures Start(rs, j) + rs[j].length <= Start(m, g) + m[g].length
  {
    var e := Start(m, g) + m[g].length;
    if e < Start(rs, j) + rs[j].length {
      StartsIncrease(rs, j + 1, |rs|);
      StartOneMore(rs, j);
      StartOneMore(m, g);
      if g + 1 == |m| {
        assert false;
      }
      ExpandAt(m, g + 1, e);
      ExpandAt(rs, j, e);
      ExpandAt(m, g, Start(rs, j));
      ExpandAt(rs, j, Start(rs, j));
      assert false;
    }
  }

  /** Where the run after one inside group `g` falls: in the same group
      when it has the same wear state, else in the next group. */
  lemma NextRunGroup(rs: seq<Run>, m: seq<Run>, j: nat, g: nat)
    requires Expand(m) == Expand(rs) && Alternating(m) && NonEmptyRuns(m) && NonEmptyRuns(rs)
    requires TotalLength(m) == TotalLength(rs)
    requires 0 < j < |rs| && g < |m|
    requires Start(m, g) <= Start(rs, j - 1) && Start(rs, j - 1) + rs[j - 1].length <= Start(m, g) + m[g].length
    ensures rs[j].wear == rs[j - 1].wear ==>
              Start(m, g) <= Start(rs, j) && Start(rs, j) + rs[j].length <= Start(m, g) + m[g].length
    ensures rs[j].wear != rs[j - 1].wear ==>
              g + 1 < |m| && Start(m, g + 1) <= Start(rs, j) && Start(rs, j) + rs[j].length <= Start(m, g + 1) + m[g + 1].length
  {
    var s := Start(rs, j);
    StartOneMore(rs, j - 1);
    StartOneMore(m, g);
    StartsIncrease(rs, j + 1, |rs|);
    StartOneMore(rs, j);
    ExpandAt(rs, j - 1, s - 1);
    ExpandAt(m, g, s - 1);
    ExpandAt(rs, j, s);
    if s == Start(m, g) + m[g].length {
      if g + 1 == |m| {
        assert false;
      }
      ExpandAt(m, g + 1, s);
      if rs[j].wear != rs[j - 1].wear {
        RunInsideGroup(rs, m, j, g + 1);
      }
    } else {
      ExpandAt(m, g, s);
      if rs[j].wear == rs[j - 1].wear {
        RunInsideGroup(rs, m, j, g);
      }
    }
  }

  /** Run `j` of a summary lies inside group `rleid[j] - 1` of its merge,
      where `rleid` numbers the summary's `wear` column: grouping by the
      run-length id puts together exactly the runs that share it. */
  lemma {:induction false} MergeGroupsByRleId(rs: seq<Run>, j: nat)
    requires NonEmptyRuns(rs) && j < |rs|
    ensures 1 <= RleId(Wears(rs))[j] <= |Merge(rs)|
    ensures var g := RleId(Wears(rs))[j] - 1;
            Start(Merge(rs), g) <= Start(rs, j) && Start(rs, j) + rs[j].length <= Start(Merge(rs), g) + Merge(rs)[g].length
    decreases j
  {
    var m, ids := Merge(rs), RleId(Wears(rs));
    MergeExpand(rs);
    MergeTotal(rs);
    MergeNonEmpty(rs);
    if j == 0 {
      RunInsideGroup(rs, m, 0, 0);
    } else {
      MergeGroupsByRleId(rs, j - 1);
      NextRunGroup(rs, m, j, ids[j - 1] - 1);
    }
  }

  /** There are as many groups as the last run-length id. */
  lemma MergeCountIsLastRleId(rs: seq<Run>)
    requires NonEmptyRuns(rs) && rs != []
    ensures |Merge(rs)| == RleId(Wears(rs))[|rs| - 1]
  {
    var m, g := Merge(rs), RleId(Wears(rs))[|rs| - 1] - 1;
    MergeGroupsByRleId(rs, |rs| - 1);
    MergeTotal(rs);
    MergeNonEmpty(rs);
    StartOneMore(rs, |rs| - 1);
    if g + 1 < |m| {
      StartOneMore(m, g);
      StartOneMore(m, g + 1);
      StartsIncrease(m, g + 2, |m|);
      assert false;
    }
  }

  /** The first summary: row `i` falls in group `rleid[i] - 1`, and there
      are as many groups as the last id. */
  lemma SummarizeGroupsByRleId(wear: seq<int>, t: seq<int>)
    requires |wear| == |t|
    ensures forall i :: 0 <= i < |wear| ==>
              && 1 <= RleId(wear)[i] <= |Summarize(wear, t)|
              && Start(Summarize(wear, t), RleId(wear)[i] - 1) <= i
              && i < Start(Summarize(wear, t), RleId(wear)[i] - 1) + Summarize(wear, t)[RleId(wear)[i] - 1].length
    ensures wear != [] ==> |Summarize(wear, t)| == RleId(wear)[|wear| - 1]
  {
    var u := UnitRuns(wear, t);
    UnitRunsFacts(wear, t);
    assert Wears(u) == wear;
    forall i | 0 <= i < |wear|
      ensures 1 <= RleId(wear)[i] <= |Summarize(wear, t)|
      ensures Start(Summarize(wear, t), RleId(wear)[i] - 1) <= i
      ensures i < Start(Summarize(wear, t), RleId(wear)[i] - 1) + Summarize(wear, t)[RleId(wear)[i] - 1].length
    {
      MergeGroupsByRleId(u, i);
    }
    if wear != [] {
      MergeCountIsLastRleId(u);
    }
  }

  // ---------------------------------------------------------------------
  // Spike repair
  // ---------------------------------------------------------------------

  /** Non-wear runs shorter than the tolerance become wear; the timestamp
      and length of every run, and every other run, stay as they were. */
  function RepairSpikes(rs: seq<Run>, spikeTolerance: int): (r: seq<Run>)
    ensures |r| == |rs|
    ensures forall k :: 0 <= k < |rs| ==> r[k].timestamp == rs[k].timestamp && r[k].length == rs[k].length
    ensures forall k :: 0 <= k < |rs| ==>
      (r[k].wear != rs[k].wear <==> rs[k].wear == 0 && rs[k].length < spikeTolerance)
    ensures forall k :: 0 <= k < |rs| && r[k].wear != rs[k].wear ==> r[k].wear == 1
  {
    seq(|rs|, k requires 0 <= k < |rs| =>
      if rs[k].wear == 0 && rs[k].length < spikeTolerance then rs[k].(wear := 1) else rs[k])
  }

  /** Repair keeps where every run starts, hence its anchoring, its total
      length and that no run is empty. */
  lemma RepairKeepsLayout(rs: seq<Run>, spikeTolerance: int, t: seq<int>)
    ensures forall k :: 0 <= k <= |rs| ==> Start(RepairSpikes(rs, spikeTolerance), k) == Start(rs, k)
    ensures TotalLength(RepairSpikes(rs, spikeTolerance)) == TotalLength(rs)
    ensures NonEmptyRuns(rs) ==> NonEmptyRuns(RepairSpikes(rs, spikeTolerance))
    ensures Anchored(rs, t) ==> Anchored(RepairSpikes(rs, spikeTolerance), t)
  {
    var r := RepairSpikes(rs, spikeTolerance);
    forall k | 0 <= k <= |rs|
      ensures Start(r, k) == Start(rs, k)
    {
      StartSameLengths(r, rs, k);
    }
  }

  /** A row the repaired summary marks as non-wear was non-wear before. */
  lemma {:induction false} RepairOnlyAddsWear(rs: seq<Run>, spikeTolerance: int, i: nat)
    requires i < |Expand(RepairSpikes(rs, spikeTolerance))|
    requires Expand(RepairSpikes(rs, spikeTolerance))[i] == 0
    ensures i < |Expand(rs)| && Expand(rs)[i] == 0
  {
    var r := RepairSpikes(rs, spikeTolerance);
    assert rs != [];
    assert r[1..] == RepairSpikes(rs[1..], spikeTolerance);
    if i >= r[0].length {
      RepairOnlyAddsWear(rs[1..], spikeTolerance, i - r[0].length);
    }
  }

  /** The second summary: repair the first one and group again. */
  function SecondSummary(wear: seq<int>, t: seq<int>, spikeTolerance: int): seq<Run>
    requires |wear| == |t|
  {
    Merge(RepairSpikes(Summarize(wear, t), spikeTolerance))
  }

  /** The second summary still stands for every row, in alternating,
      non-empty runs anchored at their first row; a row it marks as non-wear
      was non-wear in the input. */
  lemma SecondSummaryFacts(wear: seq<int>, t: seq<int>, spikeTolerance: int)
    requires |wear| == |t|
    ensures Alternating(SecondSummary(wear, t, spikeTolerance))
    ensures NonEmptyRuns(SecondSummary(wear, t, spikeTolerance))
    ensures TotalLength(SecondSummary(wear, t, spikeTolerance)) == |wear|
    ensures Anchored(SecondSummary(wear, t, spikeTolerance), t)
    ensures |Expand(SecondSummary(wear, t, spikeTolerance))| == |wear|
    ensures forall i :: 0 <= i < |wear| && Expand(SecondSummary(wear, t, spikeTolerance))[i] == 0 ==> wear[i] == 0
  {
    var s := Summarize(wear, t);
    var r := RepairSpikes(s, spikeTolerance);
    var m := Merge(r);
    FirstSummaryIsRle(wear, t);
    RepairKeepsLayout(s, spikeTolerance, t);
    MergeNonEmpty(r);
    MergeTotal(r);
    MergeAnchored(r, t);
    MergeExpand(r);
    ExpandLength(m);
    forall i | 0 <= i < |wear| && Expand(m)[i] == 0
      ensures wear[i] == 0
    {
      RepairOnlyAddsWear(s, spikeTolerance, i);
    }
  }

  /** The second grouping: run `j` of the repaired summary falls in group
      `rleid[j] - 1` of the second summary, where `rleid` numbers the
      repaired `wear` column, and there are as many groups as the last id. */
  lemma SecondSummaryGroupsByRleId(wear: seq<int>, t: seq<int>, spikeTolerance: int)
    requires |wear| == |t|
    ensures var r := RepairSpikes(Summarize(wear, t), spikeTolerance);
            var m := SecondSummary(wear, t, spikeTolerance);
            && (forall j :: 0 <= j < |r| ==>
                 && 1 <= RleId(Wears(r))[j] <= |m|
                 && Start(m, RleId(Wears(r))[j] - 1) <= Start(r, j)
                 && Start(r, j) + r[j].length <= Start(m, RleId(Wears(r))[j] - 1) + m[RleId(Wears(r))[j] - 1].length)
            && (r != [] ==> |m| == RleId(Wears(r))[|r| - 1])
  {
    var s := Summarize(wear, t);
    var r := RepairSpikes(s, spikeTolerance);
    FirstSummaryIsRle(wear, t);
    RepairKeepsLayout(s, spikeTolerance, t);
    forall j | 0 <= j < |r|
      ensures 1 <= RleId(Wears(r))[j] <= |Merge(r)|
      ensures Start(Merge(r), RleId(Wears(r))[j] - 1) <= Start(r, j)
      ensures Start(r, j) + r[j].length <= Start(Merge(r), RleId(Wears(r))[j] - 1) + Merge(r)[RleId(Wears(r))[j] - 1].length
    {
      MergeGroupsByRleId(r, j);
    }
    if r != [] {
      MergeCountIsLastRleId(r);
    }
  }

  // ---------------------------------------------------------------------
  // Selection of the reported periods
  // ---------------------------------------------------------------------

  /** The filter `wear == 0 and length >= min_period_len`. */
  predicate Qualifies(r: Run, minPeriodLen: int)
  {
    r.wear == 0 && r.length >= minPeriodLen
  }

  /** Positions of the qualifying runs, in order: the runs the boolean mask
      keeps (QualifyingComplete shows that none is missed). */
  function QualifyingIndices(m: seq<Run>, minPeriodLen: int): (idx: seq<nat>)
    ensures forall j :: 0 <= j < |idx| ==> idx[j] < |m| && Qualifies(m[idx[j]], minPeriodLen)
    ensures forall j, j' :: 0 <= j < j' < |idx| ==> idx[j] < idx[j']
  {
    if m == [] then []
    else
      var prev := QualifyingIndices(m[..|m| - 1], minPeriodLen);
      if Qualifies(m[|m| - 1], minPeriodLen) then prev + [|m| - 1] else prev
  }

  /** No qualifying run is left out of the selection. */
  lemma {:induction false} QualifyingComplete(m: seq<Run>, minPeriodLen: int, k: nat)
    requires k < |m| && Qualifies(m[k], minPeriodLen)
    ensures k in QualifyingIndices(m, minPeriodLen)
  {
    var init := m[..|m| - 1];
    if k < |m| - 1 {
      assert init[k] == m[k];
      QualifyingComplete(init, minPeriodLen, k);
    }
  }

  /** A reported row: `period_end = timestamp + length * 60`. */
  function Report(r: Run): NonWearPeriod
  {
    NonWearPeriod(r.timestamp, r.timestamp + r.length * SecondsPerRow, r.length)
  }

  function SelectNonWear(m: seq<Run>, minPeriodLen: int): seq<NonWearPeriod>
  {
    var idx := QualifyingIndices(m, minPeriodLen);
    seq(|idx|, j requires 0 <= j < |idx| => Report(m[idx[j]]))
  }

  /** apply_choi: non-wear periods of a table of timestamped counts.
      `minWindowLen` is accepted and has no effect, as in the source. */
  function ApplyChoi(timestamps: seq<int>, axis1: seq<real>, magnitude: seq<real>, useMagnitude: bool,
                     minPeriodLen: int, minWindowLen: int, spikeTolerance: int): seq<NonWearPeriod>
    requires |axis1| == |timestamps| && |magnitude| == |timestamps|
  {
    var wear := WearColumn(CountColumn(axis1, magnitude, useMagnitude));
    SelectNonWear(SecondSummary(wear, timestamps, spikeTolerance), minPeriodLen)
  }

  /** `apply_choi(df)` with its default arguments, as the command line
      calls it: `min_period_len = 90`, `min_window_len = 30`,
      `spike_tolerance = 2`, counts from axis 1 (the magnitude column is then
      not read, so axis 1 stands in for it). */
  function ApplyChoiDefaults(timestamps: seq<int>, axis1: seq<real>): (p: seq<NonWearPeriod>)
    requires |axis1| == |timestamps|
    ensures forall j :: 0 <= j < |p| ==>
              p[j].length >= DefaultMinPeriodLen && p[j].periodEnd == p[j].timestamp + 60 * p[j].length
    ensures forall j :: 0 <= j < |p| ==> p[j].timestamp in timestamps
  {
    ApplyChoiPeriods(timestamps, axis1, axis1, false, DefaultMinPeriodLen, DefaultMinWindowLen, DefaultSpikeTolerance);
    ApplyChoi(timestamps, axis1, axis1, false, DefaultMinPeriodLen, DefaultMinWindowLen, DefaultSpikeTolerance)
  }

  /** Row at which each reported period begins. */
  function PeriodRows(timestamps: seq<int>, counts: seq<real>, minPeriodLen: int, spikeTolerance: int): seq<nat>
    requires |counts| == |timestamps|
  {
    SelectedStarts(SecondSummary(WearColumn(counts), timestamps, spikeTolerance), minPeriodLen)
  }

  function SelectedStarts(m: seq<Run>, minPeriodLen: int): seq<nat>
  {
    var idx := QualifyingIndices(m, minPeriodLen);
    seq(|idx|, j requires 0 <= j < |idx| => Start(m, idx[j]))
  }

  /** Timestamps of rows at least one epoch apart. */
  predicate SpacedByEpoch(t: seq<int>)
  {
    forall i :: 0 < i < |t| ==> t[i] >= t[i - 1] + SecondsPerRow
  }

  predicate StrictlyIncreasing(t: seq<int>)
  {
    forall i, j :: 0 <= i < j < |t| ==> t[i] < t[j]
  }

  lemma {:induction false} SpacedGap(t: seq<int>, i: nat, j: nat)
    requires SpacedByEpoch(t) && i <= j < |t|
    ensures t[j] >= t[i] + SecondsPerRow * (j - i)
    decreases j - i
  {
    if i < j {
      SpacedGap(t, i, j - 1);
    }
  }

  /** What the second summary satisfies relative to the rows it summarises. */
  predicate SummaryOfRows(m: seq<Run>, t: seq<int>, wear: seq<int>)
  {
    && |wear| == |t|
    && Alternating(m) && NonEmptyRuns(m) && Anchored(m, t)
    && TotalLength(m) == |t| && |Expand(m)| == |t|
    && (forall i :: 0 <= i < |wear| && Expand(m)[i] == 0 ==> wear[i] == 0)
  }

  /** A selected run lies inside the rows, is anchored at its first row and
      covers only non-wear rows. */
  lemma SelectedRunFacts(m: seq<Run>, t: seq<int>, wear: seq<int>, minPeriodLen: int, j: nat)
    requires SummaryOfRows(m, t, wear)
    requires j < |QualifyingIndices(m, minPeriodLen)|
    ensures var k := QualifyingIndices(m, minPeriodLen)[j];
            && k < |m|
            && Start(m, k) + m[k].length <= |t|
            && m[k].length >= 1 && m[k].length >= minPeriodLen && m[k].wear == 0
            && m[k].timestamp == t[Start(m, k)]
            && forall i :: Start(m, k) <= i < Start(m, k) + m[k].length ==> wear[i] == 0
  {
    var k := QualifyingIndices(m, minPeriodLen)[j];
    StartsIncrease(m, k + 1, |m|);
    StartOneMore(m, k);
    forall i | Start(m, k) <= i < Start(m, k) + m[k].length
      ensures wear[i] == 0
    {
      ExpandAt(m, k, i);
    }
  }

  /** Two selected runs are separated by at least one row of another run. */
  lemma SelectedRunsApart(m: seq<Run>, minPeriodLen: int, j: nat, j': nat)
    requires Alternating(m) && NonEmptyRuns(m)
    requires j < j' < |QualifyingIndices(m, minPeriodLen)|
    ensures var idx := QualifyingIndices(m, minPeriodLen);
            Start(m, idx[j]) + m[idx[j]].length < Start(m, idx[j'])
  {
    var idx := QualifyingIndices(m, minPeriodLen);
    var k, k' := idx[j], idx[j'];
    assert m[k + 1].wear != m[k].wear;
    StartsIncrease(m, k + 2, k');
    StartOneMore(m, k);
    StartOneMore(m, k + 1);
  }

  /** What apply_choi reports. Each period comes from a run of at least
      `minPeriodLen` rows, starts at its first row's timestamp, ends
      `60 * length` seconds later and covers only rows whose count is not
      positive; periods keep the order of the rows and at least one worn row
      separates two of them. */
  lemma ApplyChoiPeriods(timestamps: seq<int>, axis1: seq<real>, magnitude: seq<real>, useMagnitude: bool,
                         minPeriodLen: int, minWindowLen: int, spikeTolerance: int)
    requires |axis1| == |timestamps| && |magnitude| == |timestamps|
    ensures var p := ApplyChoi(timestamps, axis1, magnitude, useMagnitude, minPeriodLen, minWindowLen, spikeTolerance);
            var counts := CountColumn(axis1, magnitude, useMagnitude);
            var rows := PeriodRows(timestamps, counts, minPeriodLen, spikeTolerance);
            && |rows| == |p|
            && (forall j :: 0 <= j < |p| ==>
                 && p[j].length >= minPeriodLen && p[j].length >= 1
                 && p[j].periodEnd == p[j].timestamp + 60 * p[j].length
                 && rows[j] + p[j].length <= |timestamps|
                 && p[j].timestamp == timestamps[rows[j]]
                 && (forall i :: rows[j] <= i < rows[j] + p[j].length ==> counts[i] <= 0.0))
            && (forall j, j' :: 0 <= j < j' < |p| ==> rows[j] + p[j].length < rows[j'])
  {
    var counts := CountColumn(axis1, magnitude, useMagnitude);
    var wear := WearColumn(counts);
    var m := SecondSummary(wear, timestamps, spikeTolerance);
    SecondSummaryFacts(wear, timestamps, spikeTolerance);
    assert SummaryOfRows(m, timestamps, wear);
    SelectionFacts(m, timestamps, wear, minPeriodLen);
    assert forall i :: 0 <= i < |counts| && wear[i] == 0 ==> counts[i] <= 0.0;
  }

  /** The selection of any summary of the rows: see ApplyChoiPeriods. */
  lemma SelectionFacts(m: seq<Run>, t: seq<int>, wear: seq<int>, minPeriodLen: int)
    requires SummaryOfRows(m, t, wear)
    ensures var p := SelectNonWear(m, minPeriodLen);
            var rows := SelectedStarts(m, minPeriodLen);
            && |rows| == |p|
            && (forall j :: 0 <= j < |p| ==>
                 && p[j].length >= minPeriodLen && p[j].length >= 1
                 && p[j].periodEnd == p[j].timestamp + 60 * p[j].length
                 && rows[j] + p[j].length <= |t|
                 && p[j].timestamp == t[rows[j]]
                 && (forall i :: rows[j] <= i < rows[j] + p[j].length ==> wear[i] == 0))
            && (forall j, j' :: 0 <= j < j' < |p| ==> rows[j] + p[j].length < rows[j'])
  {
    var idx := QualifyingIndices(m, minPeriodLen);
    var p := SelectNonWear(m, minPeriodLen);
    var rows := SelectedStarts(m, minPeriodLen);
    forall j | 0 <= j < |p|
      ensures p[j].length >= minPeriodLen && p[j].length >= 1
      ensures p[j].periodEnd == p[j].timestamp + 60 * p[j].length
      ensures rows[j] + p[j].length <= |t|
      ensures p[j].timestamp == t[rows[j]]
      ensures forall i :: rows[j] <= i < rows[j] + p[j].length ==> wear[i] == 0
    {
      assert p[j] == Report(m[idx[j]]) && rows[j] == Start(m, idx[j]);
      SelectedRunFacts(m, t, wear, minPeriodLen, j);
    }
    forall j, j' | 0 <= j < j' < |p|
      ensures rows[j] + p[j].length < rows[j']
    {
      assert p[j] == Report(m[idx[j]]) && rows[j] == Start(m, idx[j]) && rows[j'] == Start(m, idx[j']);
      SelectedRunsApart(m, minPeriodLen, j, j');
    }
  }

  lemma {:induction false} StartOneMore(rs: seq<Run>, k: nat)
    requires k < |rs|
    ensures Start(rs, k + 1) == Start(rs, k) + rs[k].length
  {
    if k > 0 {
      StartOneMore(rs[1..], k - 1);
    }
  }

  /** With rows one epoch apart the reported intervals are disjoint and in
      order: every period ends before the next one starts. */
  lemma ApplyChoiDisjoint(timestamps: seq<int>, axis1: seq<real>, magnitude: seq<real>, useMagnitude: bool,
                          minPeriodLen: int, minWindowLen: int, spikeTolerance: int)
    requires |axis1| == |timestamps| && |magnitude| == |timestamps|
    requires SpacedByEpoch(timestamps)
    ensures var p := ApplyChoi(timestamps, axis1, magnitude, useMagnitude, minPeriodLen, minWindowLen, spikeTolerance);
            forall j, j' :: 0 <= j < j' < |p| ==> p[j].timestamp < p[j].periodEnd < p[j'].timestamp
  {
    var p := ApplyChoi(timestamps, axis1, magnitude, useMagnitude, minPeriodLen, minWindowLen, spikeTolerance);
    var counts := CountColumn(axis1, magnitude, useMagnitude);
    var rows := PeriodRows(timestamps, counts, minPeriodLen, spikeTolerance);
    ApplyChoiPeriods(timestamps, axis1, magnitude, useMagnitude, minPeriodLen, minWindowLen, spikeTolerance);
    SeparatedRowsGiveDisjointPeriods(timestamps, p, rows);
  }

  /** Periods over row ranges with a gap between them, on rows one epoch
      apart, are disjoint intervals in order. */
  lemma SeparatedRowsGiveDisjointPeriods(timestamps: seq<int>, p: seq<NonWearPeriod>, rows: seq<nat>)
    requires SpacedByEpoch(timestamps) && |rows| == |p|
    requires forall j :: 0 <= j < |p| ==>
               && p[j].length >= 1 && p[j].periodEnd == p[j].timestamp + 60 * p[j].length
               && rows[j] + p[j].length <= |timestamps| && p[j].timestamp == timestamps[rows[j]]
    requires forall j, j' :: 0 <= j < j' < |p| ==> rows[j] + p[j].length < rows[j']
    ensures forall j, j' :: 0 <= j < j' < |p| ==> p[j].timestamp < p[j].periodEnd < p[j'].timestamp
  {
    forall j, j' | 0 <= j < j' < |p|
      ensures p[j].timestamp < p[j].periodEnd < p[j'].timestamp
    {
      assert rows[j] + p[j].length < rows[j'] && rows[j'] < |timestamps|;
      SpacedGap(timestamps, rows[j], rows[j] + p[j].length);
      SpacedGap(timestamps, rows[j] + p[j].length, rows[j']);
    }
  }

  /** With increasing timestamps the periods are sorted by start. */
  lemma ApplyChoiSorted(timestamps: seq<int>, axis1: seq<real>, magnitude: seq<real>, useMagnitude: bool,
                        minPeriodLen: int, minWindowLen: int, spikeTolerance: int)
    requires |axis1| == |timestamps| && |magnitude| == |timestamps|
    requires StrictlyIncreasing(timestamps)
    ensures var p := ApplyChoi(timestamps, axis1, magnitude, useMagnitude, minPeriodLen, minWindowLen, spikeTolerance);
            forall j, j' :: 0 <= j < j' < |p| ==> p[j].timestamp < p[j'].timestamp
  {
    ApplyChoiPeriods(timestamps, axis1, magnitude, useMagnitude, minPeriodLen, minWindowLen, spikeTolerance);
  }

  /** Every qualifying run of the second summary is reported. */
  lemma ApplyChoiComplete(timestamps: seq<int>, axis1: seq<real>, magnitude: seq<real>, useMagnitude: bool,
                          minPeriodLen: int, minWindowLen: int, spikeTolerance: int, k: nat)
    requires |axis1| == |timestamps| && |magnitude| == |timestamps|
    requires var m := SecondSummary(WearColumn(CountColumn(axis1, magnitude, useMagnitude)), timestamps, spikeTolerance);
             k < |m| && m[k].wear == 0 && m[k].length >= minPeriodLen
    ensures var m := SecondSummary(WearColumn(CountColumn(axis1, magnitude, useMagnitude)), timestamps, spikeTolerance);
            Report(m[k]) in ApplyChoi(timestamps, axis1, magnitude, useMagnitude, minPeriodLen, minWindowLen, spikeTolerance)
  {
    var m := SecondSummary(WearColumn(CountColumn(axis1, magnitude, useMagnitude)), timestamps, spikeTolerance);
    var idx := QualifyingIndices(m, minPeriodLen);
    QualifyingComplete(m, minPeriodLen, k);
    var j :| 0 <= j < |idx| && idx[j] == k;
    var p := ApplyChoi(timestamps, axis1, magnitude, useMagnitude, minPeriodLen, minWindowLen, spikeTolerance);
    assert p[j] == Report(m[k]);
  }

  // ---------------------------------------------------------------------
  // The table columns, as the source adds them
  // ---------------------------------------------------------------------

  /** `(count > 0).astype(int)` over a count column. */
  method MarkWear(counts: array<real>) returns (wear: array<int>)
    ensures wear[..] == WearColumn(counts[..])
  {
    var n := counts.Length;
    wear := new int[n];
    var i := 0;
    while i < n
      invariant 0 <= i <= n
      invariant forall k :: 0 <= k < i ==> wear[k] == (if counts[k] > 0.0 then 1 else 0)
    {
      wear[i] := if counts[i] > 0.0 then 1 else 0;
      i := i + 1;
    }
  }

  /** rleid over a column: a running count of the change points. */
  method NumberRuns(s: array<int>) returns (ids: array<int>)
    ensures ids[..] == RleId(s[..])
  {
    var n := s.Length;
    ids := new int[n];
    ghost var spec := RleId(s[..]);
    var i := 0;
    while i < n
      invariant 0 <= i <= n
      invariant forall k :: 0 <= k < i ==> ids[k] == spec[k]
    {
      ghost var step := if i == 0 then 1 else spec[i - 1] + (if s[i] == s[i - 1] then 0 else 1);
      assert spec[i] == step;
      ids[i] := if i == 0 then 1 else ids[i - 1] + (if s[i] == s[i - 1] then 0 else 1);
      i := i + 1;
    }
  }

  /** Fills the `wear` and `rleid` columns for a count column. */
  method AddWearColumns(counts: array<real>) returns (wear: array<int>, ids: array<int>)
    ensures wear[..] == WearColumn(counts[..])
    ensures ids[..] == RleId(wear[..])
  {
    wear := MarkWear(counts);
    ids := NumberRuns(wear);
  }

  // ---------------------------------------------------------------------
  // A worked example
  // ---------------------------------------------------------------------

  /** A block of runs sharing one wear state, followed by runs whose merge
      starts in the other state, merges into a single run spanning the
      block. */
  lemma {:induction false} MergeBlock(rs: seq<Run>, t: seq<Run>, w: int)
    requires rs != [] && forall i :: 0 <= i < |rs| ==> rs[i].wear == w
    requires Merge(t) == [] || Merge(t)[0].wear != w
    ensures Merge(rs + t) == [Run(w, rs[0].timestamp, TotalLength(rs))] + Merge(t)
  {
    var r := rs[0];
    assert rs + t == [r] + (rs[1..] + t);
    MergeCons(r, rs[1..] + t);
    StartCons(rs, |rs|);
    if |rs| > 1 {
      MergeBlock(rs[1..], t, w);
    } else {
      assert rs[1..] + t == t;
    }
  }

  const ExampleTimes: seq<int> := [0, 60, 120, 180, 240, 300, 360, 420, 480, 540, 600, 660]
  const ExampleCounts: seq<real> := [1.0, 1.0, 0.0, 0.0, 0.0, 1.0, 0.0, 0.0, 0.0, 0.0, 0.0, 1.0]
  const ExampleSummary: seq<Run> :=
    [Run(1, 0, 2), Run(0, 120, 3), Run(1, 300, 1), Run(0, 360, 5), Run(1, 660, 1)]

  /** The example's rows as one-row runs, in five blocks of equal wear. */
  lemma ExampleUnitRuns()
    ensures UnitRuns(WearColumn(ExampleCounts), ExampleTimes)
         == [Run(1, 0, 1), Run(1, 60, 1)]
          + ([Run(0, 120, 1), Run(0, 180, 1), Run(0, 240, 1)]
          + ([Run(1, 300, 1)]
          + ([Run(0, 360, 1), Run(0, 420, 1), Run(0, 480, 1), Run(0, 540, 1), Run(0, 600, 1)]
          + [Run(1, 660, 1)])))
  {
    assert WearColumn(ExampleCounts) == [1, 1, 0, 0, 0, 1, 0, 0, 0, 0, 0, 1];
  }

  /** The example's first summary: five maximal runs. */
  lemma ExampleFirstSummary()
    ensures Summarize(WearColumn(ExampleCounts), ExampleTimes) == ExampleSummary
  {
    ExampleUnitRuns();
    ExampleBlocksMerge();
  }

  /** Each block of the example's one-row runs merges into one run. */
  lemma ExampleBlocksMerge()
    ensures Merge([Run(1, 0, 1), Run(1, 60, 1)]
          + ([Run(0, 120, 1), Run(0, 180, 1), Run(0, 240, 1)]
          + ([Run(1, 300, 1)]
          + ([Run(0, 360, 1), Run(0, 420, 1), Run(0, 480, 1), Run(0, 540, 1), Run(0, 600, 1)]
          + [Run(1, 660, 1)])))) == ExampleSummary
  {
    var b1 := [Run(1, 0, 1), Run(1, 60, 1)];
    var b2 := [Run(0, 120, 1), Run(0, 180, 1), Run(0, 240, 1)];
    var b3 := [Run(1, 300, 1)];
    var b4 := [Run(0, 360, 1), Run(0, 420, 1), Run(0, 480, 1), Run(0, 540, 1), Run(0, 600, 1)];
    var b5 := [Run(1, 660, 1)];
    assert TotalLength(b4) == 5 && TotalLength(b2) == 3 && TotalLength(b1) == 2;
    MergeBlock(b5, [], 1);
    assert b5 + [] == b5;
    MergeBlock(b4, b5, 0);
    MergeBlock(b3, b4 + b5, 1);
    MergeBlock(b2, b3 + (b4 + b5), 0);
    MergeBlock(b1, b2 + (b3 + (b4 + b5)), 1);
  }

  /** Repair leaves the example alone: its only run shorter than the
      tolerance is a wear run. */
  lemma ExampleSecondSummary()
    ensures SecondSummary(WearColumn(ExampleCounts), ExampleTimes, 2) == ExampleSummary
  {
    ExampleFirstSummary();
    var m := ExampleSummary;
    assert RepairSpikes(m, 2) == m;
    MergeBlock([m[4]], [], 1);
    assert [m[4]] + [] == [m[4]];
    MergeBlock([m[3]], [m[4]], 0);
    MergeBlock([m[2]], [m[3]] + [m[4]], 1);
    MergeBlock([m[1]], [m[2]] + ([m[3]] + [m[4]]), 0);
    MergeBlock([m[0]], [m[1]] + ([m[2]] + ([m[3]] + [m[4]])), 1);
    assert m == [m[0]] + ([m[1]] + ([m[2]] + ([m[3]] + [m[4]])));
  }

  /** Extending the summary by one run extends the selection by its index
      exactly when that run qualifies. */
  lemma QualifyingSnoc(m: seq<Run>, r: Run, minPeriodLen: int)
    ensures QualifyingIndices(m + [r], minPeriodLen)
            == QualifyingIndices(m, minPeriodLen) + (if Qualifies(r, minPeriodLen) then [|m|] else [])
  {
    var ms := m + [r];
    assert ms[..|ms| - 1] == m && ms[|ms| - 1] == r;
  }

  /** A wear run followed by a qualifying run and a wear run: run 1 is
      selected. */
  lemma QualifyingPrefix(a: Run, b: Run, c: Run, minPeriodLen: int)
    requires a.wear == 1 && Qualifies(b, minPeriodLen) && c.wear == 1
    ensures QualifyingIndices([a, b, c], minPeriodLen) == [1]
  {
    QualifyingSnoc([], a, minPeriodLen);
    assert [] + [a] == [a];
    QualifyingSnoc([a], b, minPeriodLen);
    assert [a] + [b] == [a, b];
    QualifyingSnoc([a, b], c, minPeriodLen);
    assert [a, b] + [c] == [a, b, c];
  }

  /** Runs 1 and 3 of the example summary are the non-wear runs of at least
      3 rows. */
  lemma ExampleQualifying(a: Run, b: Run, c: Run, d: Run, e: Run)
    requires a.wear == 1 && Qualifies(b, 3) && c.wear == 1 && Qualifies(d, 3) && e.wear == 1
    ensures QualifyingIndices([a, b, c, d, e], 3) == [1, 3]
  {
    QualifyingPrefix(a, b, c, 3);
    QualifyingSnoc([a, b, c], d, 3);
    assert [a, b, c] + [d] == [a, b, c, d];
    QualifyingSnoc([a, b, c, d], e, 3);
    assert [a, b, c, d] + [e] == [a, b, c, d, e];
  }

  /** The example's report: one period per qualifying run. */
  lemma ExampleSelection()
    ensures SelectNonWear(ExampleSummary, 3) == [NonWearPeriod(120, 300, 3), NonWearPeriod(360, 660, 5)]
  {
    var m := ExampleSummary;
    ExampleQualifying(m[0], m[1], m[2], m[3], m[4]);
    assert m == [m[0], m[1], m[2], m[3], m[4]];
    assert Report(m[1]) == NonWearPeriod(120, 300, 3);
    assert Report(m[3]) == NonWearPeriod(360, 660, 5);
  }

  /** Wear flags 1,1,0,0,0,1,0,0,0,0,0,1 at one-minute spacing with
      `min_period_len = 3` and `spike_tolerance = 2`: the lone worn row is a
      wear run, which repair never touches, so the two non-wear runs stay
      apart and are reported as periods of 3 and 5 epochs rather than one
      of 9. */
  lemma ExampleShortWearRunIsNotBridged()
    ensures ApplyChoi(ExampleTimes, ExampleCounts, ExampleCounts, false, 3, 30, 2)
            == [NonWearPeriod(120, 300, 3), NonWearPeriod(360, 660, 5)]
  {
    ExampleSecondSummary();
    ExampleSelection();
    assert CountColumn(ExampleCounts, ExampleCounts, false) == ExampleCounts;
  }
}
