/**
 * Peak detection and chunk packaging (data_processing.py).
 *
 * A peak is a maximal run of samples strictly above a threshold whose length
 * reaches a minimum duration; it is reported by the integer midpoint of the run.
 * The detector is a left-to-right scan; its result is specified declaratively by
 * the maximal runs of the signal.
 */
module DataProcessing {
  import opened Wrappers

  /** Default arguments of detect_significant_peaks. */
  const DefaultThreshold: real := 850.0
  const DefaultMinDuration: int := 50

  // ---------------------------------------------------------------------------
  // Tables (pandas data frames)

  /** A table: its number of rows and its named numeric columns. */
  datatype Frame = Frame(rows: nat, columns: map<string, seq<real>>)

  /** Every column holds one value per row, as in any pandas data frame. */
  ghost predicate Rectangular(f: Frame) {
    forall c :: c in f.columns ==> |f.columns[c]| == f.rows
  }

  /** The table has both channels the analyzer reads. */
  predicate HasChannels(f: Frame) {
    "adc1" in f.columns && "adc2" in f.columns
  }

  /** The rows `lo` up to (excluding) `hi` of every column: `f.iloc[lo:hi]`. */
  function Slice(f: Frame, lo: nat, hi: nat): (r: Frame)
    requires Rectangular(f) && lo <= hi <= f.rows
    ensures r.rows == hi - lo && r.columns.Keys == f.columns.Keys
    ensures forall c :: c in f.columns ==> r.columns[c] == f.columns[c][lo..hi]
  {
    Frame(hi - lo, map c | c in f.columns :: f.columns[c][lo..hi])
  }

  /** Two adjacent slices, joined column by column, are the slice that spans
    * both: slicing loses and duplicates no row. */
  lemma SliceJoin(f: Frame, lo: nat, mid: nat, hi: nat, c: string)
    requires Rectangular(f) && lo <= mid <= hi <= f.rows && c in f.columns
    ensures Slice(f, lo, mid).rows + Slice(f, mid, hi).rows == Slice(f, lo, hi).rows
    ensures Slice(f, lo, mid).columns[c] + Slice(f, mid, hi).columns[c] == Slice(f, lo, hi).columns[c]
  {
    var col := f.columns[c];
    assert col[lo..mid] + col[mid..hi] == col[lo..hi];
  }

  // ---------------------------------------------------------------------------
  // Specification of the detector

  /** [a, b) is a maximal run of samples strictly above `t`. */
  ghost predicate MaximalRun(s: seq<real>, t: real, a: int, b: int) {
    0 <= a < b <= |s|
    && (forall k :: a <= k < b ==> s[k] > t)
    && (a == 0 || s[a - 1] <= t)
    && (b == |s| || s[b] <= t)
  }

  /** A maximal run long enough to count as a peak. */
  ghost predicate QualifyingRun(s: seq<real>, t: real, d: int, a: int, b: int) {
    MaximalRun(s, t, a, b) && b - a >= d
  }

  /** `p` is the midpoint of a qualifying run. */
  ghost predicate IsPeak(s: seq<real>, t: real, d: int, p: int) {
    exists a, b :: QualifyingRun(s, t, d, a, b) && p == (a + b) / 2
  }

  /** `p` is the midpoint of a qualifying run that ends before index `hi`
    * (a run [a, b) with b < |s| is known to be closed once s[b] is seen). */
  ghost predicate PeakClosedBefore(s: seq<real>, t: real, d: int, p: int, hi: int) {
    exists a, b :: QualifyingRun(s, t, d, a, b) && b < hi && p == (a + b) / 2
  }

  predicate StrictlyIncreasing(xs: seq<nat>) {
    forall j, k :: 0 <= j < k < |xs| ==> xs[j] < xs[k]
  }

  /** `peaks` lists exactly the peaks of `s`, in increasing order. */
  ghost predicate DetectedPeaks(s: seq<real>, t: real, d: int, peaks: seq<nat>) {
    StrictlyIncreasing(peaks) && forall p: int :: p in peaks <==> IsPeak(s, t, d, p)
  }

  /** The scan has an open run starting at `st` when it reaches index `i`. */
  ghost predicate OpenRun(s: seq<real>, t: real, st: int, i: int) {
    0 <= st < i <= |s|
    && (forall k :: st <= k < i ==> s[k] > t)
    && (st == 0 || s[st - 1] <= t)
  }

  // ---------------------------------------------------------------------------
  // Lemmas about maximal runs and peaks

  /** Two maximal runs that share a sample are the same run. */
  lemma RunsDisjoint(s: seq<real>, t: real, a1: int, b1: int, a2: int, b2: int, k: int)
    requires MaximalRun(s, t, a1, b1) && MaximalRun(s, t, a2, b2)
    requires a1 <= k < b1 && a2 <= k < b2
    ensures a1 == a2 && b1 == b2
  {
  }

  /** A peak lies inside its run: it is a valid index whose sample is above the threshold. */
  lemma PeakInsideRun(s: seq<real>, t: real, d: int, p: int)
    requires IsPeak(s, t, d, p)
    ensures 0 <= p < |s| && s[p] > t
  {
    var a, b :| QualifyingRun(s, t, d, a, b) && p == (a + b) / 2;
    assert a <= p < b;
  }

  /** Within a maximal run [a, b), a sample is a peak exactly when it is the
    * run's midpoint and the run is at least `d` samples long: a short run, at
    * the boundary or not, contributes nothing, and a long one exactly one peak. */
  lemma PeaksOfRun(s: seq<real>, t: real, d: int, a: int, b: int, p: int)
    requires MaximalRun(s, t, a, b) && a <= p < b
    ensures IsPeak(s, t, d, p) <==> b - a >= d && p == (a + b) / 2
  {
    if IsPeak(s, t, d, p) {
      var a2, b2 :| QualifyingRun(s, t, d, a2, b2) && p == (a2 + b2) / 2;
      RunsDisjoint(s, t, a, b, a2, b2, p);
    }
    if b - a >= d && p == (a + b) / 2 {
      assert QualifyingRun(s, t, d, a, b);
    }
  }

  /** A sample that is above the threshold (or the open run's interior) closes no run. */
  lemma NothingCloses(s: seq<real>, t: real, d: int, i: int, p: int)
    requires 0 <= i < |s|
    requires s[i] > t || i == 0 || s[i - 1] <= t
    ensures PeakClosedBefore(s, t, d, p, i + 1) <==> PeakClosedBefore(s, t, d, p, i)
  {
    if PeakClosedBefore(s, t, d, p, i + 1) {
      var a, b :| QualifyingRun(s, t, d, a, b) && b < i + 1 && p == (a + b) / 2;
      assert b != i;
      assert PeakClosedBefore(s, t, d, p, i);
    }
    if PeakClosedBefore(s, t, d, p, i) {
      var a, b :| QualifyingRun(s, t, d, a, b) && b < i && p == (a + b) / 2;
      assert PeakClosedBefore(s, t, d, p, i + 1);
    }
  }

  /** A sample at or below the threshold closes the open run [st, i). */
  lemma ClosingRun(s: seq<real>, t: real, d: int, st: int, i: int, p: int)
    requires OpenRun(s, t, st, i) && i < |s| && s[i] <= t
    ensures PeakClosedBefore(s, t, d, p, i + 1)
        <==> PeakClosedBefore(s, t, d, p, i) || (i - st >= d && p == (st + i) / 2)
  {
    assert MaximalRun(s, t, st, i);
    if PeakClosedBefore(s, t, d, p, i + 1) {
      var a, b :| QualifyingRun(s, t, d, a, b) && b < i + 1 && p == (a + b) / 2;
      if b < i {
        assert PeakClosedBefore(s, t, d, p, i);
      } else {
        RunsDisjoint(s, t, a, b, st, i, i - 1);
      }
    }
    if PeakClosedBefore(s, t, d, p, i) {
      var a, b :| QualifyingRun(s, t, d, a, b) && b < i && p == (a + b) / 2;
      assert PeakClosedBefore(s, t, d, p, i + 1);
    }
    if i - st >= d && p == (st + i) / 2 {
      assert QualifyingRun(s, t, d, st, i);
    }
  }

  /** At the end of the data a run still open is closed with end = |s|. */
  lemma FinishScan(s: seq<real>, t: real, d: int, p: int, start: Option<nat>)
    requires start.Some? ==> OpenRun(s, t, start.value, |s|)
    requires start.None? ==> |s| == 0 || s[|s| - 1] <= t
    ensures IsPeak(s, t, d, p)
        <==> PeakClosedBefore(s, t, d, p, |s|)
             || (start.Some? && |s| - start.value >= d && p == (start.value + |s|) / 2)
  {
    if IsPeak(s, t, d, p) {
      var a, b :| QualifyingRun(s, t, d, a, b) && p == (a + b) / 2;
      if b < |s| {
        assert PeakClosedBefore(s, t, d, p, |s|);
      } else if start.Some? {
        RunsDisjoint(s, t, a, b, start.value, |s|, |s| - 1);
      } else {
        assert false;
      }
    }
    if PeakClosedBefore(s, t, d, p, |s|) {
      var a, b :| QualifyingRun(s, t, d, a, b) && b < |s| && p == (a + b) / 2;
      assert IsPeak(s, t, d, p);
    }
    if start.Some? && |s| - start.value >= d && p == (start.value + |s|) / 2 {
      assert QualifyingRun(s, t, d, start.value, |s|);
    }
  }

  /** Two increasing sequences with the same elements are equal: the peak list is
    * determined by the signal, the threshold and the minimum duration. */
  lemma {:induction false} IncreasingUnique(xs: seq<nat>, ys: seq<nat>)
    requires StrictlyIncreasing(xs) && StrictlyIncreasing(ys)
    requires forall p :: p in xs <==> p in ys
    ensures xs == ys
  {
    assert xs != [] ==> xs[0] in xs;
    assert ys != [] ==> ys[0] in ys;
    if xs != [] && ys != [] {
      assert xs[0] in ys;
      assert ys[0] in xs;
      assert xs[0] == ys[0];
      forall p ensures p in xs[1..] <==> p in ys[1..] {
        if p in xs[1..] {
          assert p in ys;
          assert p != ys[0];
        }
        if p in ys[1..] {
          assert p in xs;
          assert p != xs[0];
        }
      }
      IncreasingUnique(xs[1..], ys[1..]);
      assert xs == [xs[0]] + xs[1..];
      assert ys == [ys[0]] + ys[1..];
    }
  }

  lemma DetectedPeaksUnique(s: seq<real>, t: real, d: int, p1: seq<nat>, p2: seq<nat>)
    requires DetectedPeaks(s, t, d, p1) && DetectedPeaks(s, t, d, p2)
    ensures p1 == p2
  {
    IncreasingUnique(p1, p2);
  }

  /** The peaks of `s` at positions `lo` and beyond, in increasing order: a
    * reference definition that lists them position by position. */
  ghost function PeaksFrom(s: seq<real>, t: real, d: int, lo: nat): seq<nat>
    decreases |s| - lo
  {
    if lo >= |s| then []
    else if IsPeak(s, t, d, lo) then [lo] + PeaksFrom(s, t, d, lo + 1)
    else PeaksFrom(s, t, d, lo + 1)
  }

  /** All peaks of `s`, in increasing order. */
  ghost function PeaksOf(s: seq<real>, t: real, d: int): seq<nat> {
    PeaksFrom(s, t, d, 0)
  }

  lemma {:induction false} PeaksFromListsPeaks(s: seq<real>, t: real, d: int, lo: nat)
    ensures StrictlyIncreasing(PeaksFrom(s, t, d, lo))
    ensures forall p: int :: p in PeaksFrom(s, t, d, lo) <==> lo <= p && IsPeak(s, t, d, p)
    decreases |s| - lo
  {
    if lo < |s| {
      PeaksFromListsPeaks(s, t, d, lo + 1);
      var rest := PeaksFrom(s, t, d, lo + 1);
      if IsPeak(s, t, d, lo) {
        var all := [lo] + rest;
        forall j, k | 0 <= j < k < |all| ensures all[j] < all[k] {
          if j == 0 {
            assert all[k] == rest[k - 1] && rest[k - 1] in rest;
          }
        }
      }
      forall p: int | IsPeak(s, t, d, p) ensures p < |s| {
        PeakInsideRun(s, t, d, p);
      }
    } else {
      forall p: int | IsPeak(s, t, d, p) ensures p < lo {
        PeakInsideRun(s, t, d, p);
      }
    }
  }

  /** A peak list meets the specification exactly when it is the reference list:
    * the specification has one and only one solution. */
  lemma DetectedPeaksIsPeaksOf(s: seq<real>, t: real, d: int, peaks: seq<nat>)
    ensures DetectedPeaks(s, t, d, peaks) <==> peaks == PeaksOf(s, t, d)
  {
    PeaksFromListsPeaks(s, t, d, 0);
    if DetectedPeaks(s, t, d, peaks) {
      DetectedPeaksUnique(s, t, d, peaks, PeaksOf(s, t, d));
    }
  }

  // ---------------------------------------------------------------------------
  // The detector

  /** detect_significant_peaks: one left-to-right pass that tracks the start of the
    * current run of above-threshold samples and reports the midpoint of each run
    * of length at least `d` when it closes (or when the data ends inside it). */
  method DetectSignificantPeaks(s: seq<real>, t: real, d: int) returns (peaks: seq<nat>)
    ensures DetectedPeaks(s, t, d, peaks)
    ensures forall k :: 0 <= k < |peaks| ==> peaks[k] < |s| && s[peaks[k]] > t
  {
    peaks := [];
    var start: Option<nat> := None;
    for i := 0 to |s|
      invariant start.Some? ==> OpenRun(s, t, start.value, i)
      invariant start.None? ==> i == 0 || s[i - 1] <= t
      invariant StrictlyIncreasing(peaks)
      invariant forall k :: 0 <= k < |peaks| ==> peaks[k] < (if start.Some? then start.value else i)
      invariant forall p: int :: p in peaks <==> PeakClosedBefore(s, t, d, p, i)
    {
      if s[i] > t {
        forall p: int ensures PeakClosedBefore(s, t, d, p, i + 1) <==> PeakClosedBefore(s, t, d, p, i) {
          NothingCloses(s, t, d, i, p);
        }
        if start.None? {
          start := Some(i);
        }
      } else if start.Some? {
        var st := start.value;
        forall p: int
          ensures PeakClosedBefore(s, t, d, p, i + 1)
              <==> PeakClosedBefore(s, t, d, p, i) || (i - st >= d && p == (st + i) / 2)
        {
          ClosingRun(s, t, d, st, i, p);
        }
        ghost var before := peaks;
        if i - st >= d {
          peaks := peaks + [(st + i) / 2];
        }
        forall p: int ensures p in peaks <==> PeakClosedBefore(s, t, d, p, i + 1) {
          assert p in peaks <==> p in before || (i - st >= d && p == (st + i) / 2);
        }
        start := None;
      } else {
        forall p: int ensures PeakClosedBefore(s, t, d, p, i + 1) <==> PeakClosedBefore(s, t, d, p, i) {
          NothingCloses(s, t, d, i, p);
        }
      }
    }
    forall p: int
      ensures IsPeak(s, t, d, p)
          <==> PeakClosedBefore(s, t, d, p, |s|)
               || (start.Some? && |s| - start.value >= d && p == (start.value + |s|) / 2)
    {
      FinishScan(s, t, d, p, start);
    }
    if start.Some? && |s| - start.value >= d {
      peaks := peaks + [(start.value + |s|) / 2];
    }
    forall k | 0 <= k < |peaks| ensures peaks[k] < |s| && s[peaks[k]] > t {
      PeakInsideRun(s, t, d, peaks[k]);
    }
  }

  /** Empty input yields an empty peak list. */
  lemma EmptyInputNoPeaks(t: real, d: int, peaks: seq<nat>)
    requires DetectedPeaks([], t, d, peaks)
    ensures peaks == []
  {
    if peaks != [] {
      assert peaks[0] in peaks;
      PeakInsideRun([], t, d, peaks[0]);
    }
  }

  /** A single pulse: 20 low samples, 60 samples at 900, 20 low samples. */
  function PulseSignal(): (s: seq<real>)
    ensures |s| == 100
  {
    seq(100, k => if 20 <= k < 80 then 900.0 else 0.0)
  }

  /** With the default parameters the pulse has exactly one peak, at (20 + 80) / 2. */
  lemma PulsePeaks(p: int)
    ensures IsPeak(PulseSignal(), DefaultThreshold, DefaultMinDuration, p) <==> p == 50
  {
    var s := PulseSignal();
    assert MaximalRun(s, DefaultThreshold, 20, 80);
    if IsPeak(s, DefaultThreshold, DefaultMinDuration, p) {
      PeakInsideRun(s, DefaultThreshold, DefaultMinDuration, p);
    }
    if 20 <= p < 80 {
      PeaksOfRun(s, DefaultThreshold, DefaultMinDuration, 20, 80, p);
    }
  }

  /** The detector run on the pulse returns [50]. */
  method DetectPulse() returns (peaks: seq<nat>)
    ensures peaks == [50]
  {
    peaks := DetectSignificantPeaks(PulseSignal(), DefaultThreshold, DefaultMinDuration);
    forall p: int ensures p in peaks <==> p in [50] {
      PulsePeaks(p);
    }
    IncreasingUnique(peaks, [50]);
  }

  // ---------------------------------------------------------------------------
  // Packaging a chunk

  /** Decimal rendering of a count, as an f-string prints it. */
  function NatToString(n: nat): (r: string)
    ensures |r| >= 1 && forall k :: 0 <= k < |r| ==> '0' <= r[k] <= '9'
  {
    if n < 10 then [DigitChar(n)] else NatToString(n / 10) + [DigitChar(n % 10)]
  }

  function DigitChar(n: nat): (c: char)
    requires n < 10
    ensures '0' <= c <= '9'
  {
    (n + '0' as int) as char
  }

  /** The value of a string of decimal digits. */
  function DecimalValue(r: string): nat
    requires forall k :: 0 <= k < |r| ==> '0' <= r[k] <= '9'
  {
    if r == [] then 0 else 10 * DecimalValue(r[..|r| - 1]) + (r[|r| - 1] - '0') as nat
  }

  /** The peak count written into a summary reads back as the same number. */
  lemma {:induction false} NatToStringRoundTrip(n: nat)
    ensures DecimalValue(NatToString(n)) == n
  {
    if n >= 10 {
      NatToStringRoundTrip(n / 10);
      var r := NatToString(n);
      assert r[..|r| - 1] == NatToString(n / 10);
    }
  }

  /** The diagnostic summary of one channel: empty when the channel has no peaks,
    * otherwise the channel name and the number of peaks. */
  function Summary(channel: string, peaks: seq<nat>): (r: string)
    ensures r == "" <==> peaks == []
  {
    if peaks == [] then ""
    else channel + " significant peaks found: " + NatToString(|peaks|)
  }

  /** What process_chunk returns for one chunk. Peak indices are relative to the chunk. */
  datatype ChunkResult = ChunkResult(
    adc1: seq<real>, adc2: seq<real>,
    adc1Peaks: seq<nat>, adc2Peaks: seq<nat>,
    adc1Summary: string, adc2Summary: string)

  /** The result of processing `chunk` with threshold `t`: both channels are
    * scanned with the same threshold and the default minimum duration. */
  ghost function ResultOf(chunk: Frame, t: real): ChunkResult
    requires HasChannels(chunk)
  {
    var adc1 := chunk.columns["adc1"];
    var adc2 := chunk.columns["adc2"];
    var adc1Peaks := PeaksOf(adc1, t, DefaultMinDuration);
    var adc2Peaks := PeaksOf(adc2, t, DefaultMinDuration);
    ChunkResult(adc1, adc2, adc1Peaks, adc2Peaks, Summary("ADC1", adc1Peaks), Summary("ADC2", adc2Peaks))
  }

  /** Each channel's peak list in a chunk result lists exactly that channel's peaks. */
  lemma ResultOfDetects(chunk: Frame, t: real)
    requires HasChannels(chunk)
    ensures DetectedPeaks(ResultOf(chunk, t).adc1, t, DefaultMinDuration, ResultOf(chunk, t).adc1Peaks)
    ensures DetectedPeaks(ResultOf(chunk, t).adc2, t, DefaultMinDuration, ResultOf(chunk, t).adc2Peaks)
  {
    var r := ResultOf(chunk, t);
    DetectedPeaksIsPeaksOf(r.adc1, t, DefaultMinDuration, r.adc1Peaks);
    DetectedPeaksIsPeaksOf(r.adc2, t, DefaultMinDuration, r.adc2Peaks);
  }

  /** process_chunk: a missing column makes the lookup raise, which the function
    * turns into `None`; otherwise both channels are scanned and packaged. */
  method ProcessChunk(chunk: Frame, t: real) returns (r: Option<ChunkResult>)
    ensures r.None? <==> !HasChannels(chunk)
    ensures r.Some? ==> r.value == ResultOf(chunk, t)
  {
    if !HasChannels(chunk) {
      return None;
    }
    var adc1 := chunk.columns["adc1"];
    var adc2 := chunk.columns["adc2"];
    var adc1Peaks := DetectSignificantPeaks(adc1, t, DefaultMinDuration);
    var adc2Peaks := DetectSignificantPeaks(adc2, t, DefaultMinDuration);
    DetectedPeaksIsPeaksOf(adc1, t, DefaultMinDuration, adc1Peaks);
    DetectedPeaksIsPeaksOf(adc2, t, DefaultMinDuration, adc2Peaks);
    r := Some(ChunkResult(adc1, adc2, adc1Peaks, adc2Peaks,
                          Summary("ADC1", adc1Peaks), Summary("ADC2", adc2Peaks)));
  }
}
