/**
 * The analysis session of dual_adc_analyzer.py.
 *
 * The analyzer owns two scrolling buffers (deques with a maximum length of
 * `displayPoints`), a FIFO queue of chunk results between a producer (the
 * chunk loop of the worker thread) and a consumer (the graph timer), a stop
 * flag, and cumulative statistics. Threads are not modelled: the producer loop
 * and the consumer tick are methods called one after another, the queue is a
 * sequence and the stop event is a boolean field.
 */
module DualAdcAnalyzer {
  import opened Wrappers
  import opened DataProcessing

  // ---------------------------------------------------------------------------
  // Python numerics used by the analyzer

  /** Python's int() on a number: truncation toward zero. */
  function IntOf(x: real): (r: int)
    ensures x >= 0.0 ==> 0 <= r && r as real <= x < r as real + 1.0
    ensures x < 0.0 ==> r <= 0 && r as real - 1.0 < x <= r as real
  {
    if x >= 0.0 then x.Floor else -((-x).Floor)
  }

  /** The progress value `i / len * 100` reported after the chunk starting at row i. */
  function Progress(i: nat, n: nat): (r: real)
    requires i < n
    ensures 0.0 <= r < 100.0
  {
    assert (i as real) / (n as real) < 1.0;
    (i as real) / (n as real) * 100.0
  }

  /** The left end of the visible time window, `max(0, processed - display_time)`:
    * never negative, never after the right end, and at most `dt` before it. */
  function WindowStart(pd: real, dt: real): (r: real)
    ensures r >= 0.0 && pd - r <= dt
    ensures pd >= 0.0 && dt >= 0.0 ==> r <= pd
  {
    if pd - dt > 0.0 then pd - dt else 0.0
  }

  // ---------------------------------------------------------------------------
  // Bounded deques

  /** The newest `n` items of `xs` (all of them when there are fewer). */
  function Newest(xs: seq<real>, n: nat): (r: seq<real>)
    ensures |r| == if n < |xs| then n else |xs|
  {
    if n < |xs| then xs[|xs| - n..] else xs
  }

  /** The Python slice `xs[-k:]`: for k == 0 this is all of xs, since -0 == 0. */
  function PyTail(xs: seq<real>, k: nat): seq<real> {
    if k == 0 then xs else Newest(xs, k)
  }

  /** deque.append on a deque with maxlen `cap`: when it is full the oldest item is dropped. */
  function AppendEvicting(buf: seq<real>, x: real, cap: nat): seq<real> {
    if |buf| < cap then buf + [x] else (buf + [x])[1..]
  }

  /** deque.extend on a deque with maxlen `cap`, item by item. */
  function AppendEach(buf: seq<real>, xs: seq<real>, cap: nat): seq<real>
    decreases |xs|
  {
    if xs == [] then buf else AppendEach(AppendEvicting(buf, xs[0], cap), xs[1..], cap)
  }

  /** The contents of a deque with maxlen `cap` holding `buf` after `extend(xs)`:
    * the newest `cap` of the old items followed by the new ones. */
  function Extended(buf: seq<real>, xs: seq<real>, cap: nat): (r: seq<real>)
    ensures |r| <= cap
  {
    Newest(buf + xs, cap)
  }

  /** The last `n` items of a suffix of `z` are the last `n` items of `z`. */
  lemma NewestOfSuffix(z: seq<real>, w: seq<real>, n: nat)
    requires |w| <= |z| && w == z[|z| - |w|..] && n <= |w|
    ensures Newest(w, n) == Newest(z, n)
  {
  }

  lemma NewestOfNewest(u: seq<real>, v: seq<real>, n: nat)
    ensures Newest(Newest(u, n) + v, n) == Newest(u + v, n)
  {
    var u' := Newest(u, n);
    if n < |u| {
      assert u' + v == (u + v)[|u + v| - |u' + v|..];
      NewestOfSuffix(u + v, u' + v, n);
    }
  }

  /** A single append to a deque that is at most full keeps its newest `cap` items. */
  lemma AppendEvictingKeepsNewest(buf: seq<real>, x: real, cap: nat)
    requires |buf| <= cap
    ensures AppendEvicting(buf, x, cap) == Newest(buf + [x], cap)
    ensures |AppendEvicting(buf, x, cap)| <= cap
  {
  }

  /** Appending the items one at a time, each append evicting the oldest item of
    * a full deque, leaves the newest `cap` items of the old contents followed by
    * the new ones. */
  lemma {:induction false} ExtendKeepsNewest(buf: seq<real>, xs: seq<real>, cap: nat)
    requires |buf| <= cap
    ensures AppendEach(buf, xs, cap) == Extended(buf, xs, cap)
    decreases |xs|
  {
    if xs != [] {
      var buf' := AppendEvicting(buf, xs[0], cap);
      AppendEvictingKeepsNewest(buf, xs[0], cap);
      ExtendKeepsNewest(buf', xs[1..], cap);
      NewestOfNewest(buf + [xs[0]], xs[1..], cap);
      assert buf + [xs[0]] + xs[1..] == buf + xs;
    }
  }

  /** The buffer after an extension: its length is the smaller of the capacity and
    * the number of items seen, it is a suffix of the old contents followed by the
    * new items, and a slice at least as long as the capacity replaces everything. */
  lemma ExtendedBuffer(buf: seq<real>, xs: seq<real>, cap: nat)
    ensures |Extended(buf, xs, cap)| == if |buf| + |xs| < cap then |buf| + |xs| else cap
    ensures Extended(buf, xs, cap) == (buf + xs)[|buf| + |xs| - |Extended(buf, xs, cap)|..]
    ensures |xs| >= cap ==> Extended(buf, xs, cap) == xs[|xs| - cap..]
  {
    if |xs| >= cap {
      NewestOfSuffix(buf + xs, xs, cap);
    }
  }

  /** Cutting the incoming slice to its last `cap` items first (`xs[-cap:]`)
    * changes nothing: the deque would have evicted the rest anyway. */
  lemma TailThenExtend(buf: seq<real>, xs: seq<real>, cap: nat)
    ensures Extended(buf, PyTail(xs, cap), cap) == Extended(buf, xs, cap)
  {
    if cap > 0 && cap < |xs| {
      var t := Newest(xs, cap);
      NewestOfSuffix(buf + t, t, cap);
      NewestOfSuffix(buf + xs, xs, cap);
    }
  }

  // ---------------------------------------------------------------------------
  // Chunks of the loaded table

  /** `binary_data.iloc[i:i + size]`: the slice stops at the last row. */
  function ChunkFrom(f: Frame, i: nat, size: nat): (r: Frame)
    requires Rectangular(f) && i <= f.rows
    ensures HasChannels(r) == HasChannels(f)
    ensures Rectangular(r) && r.rows == if i + size <= f.rows then size else f.rows - i
  {
    Slice(f, i, if i + size <= f.rows then i + size else f.rows)
  }

  /** The row at which chunk k starts: 0, size, 2 * size, ..., the values of
    * `range(0, len, size)`; each chunk starts where the previous one ends. */
  function ChunkStart(k: nat, size: nat): nat {
    if k == 0 then 0 else ChunkStart(k - 1, size) + size
  }

  lemma {:induction false} ChunkStartIsMultiple(k: nat, size: nat)
    ensures ChunkStart(k, size) == k * size
  {
    if k > 0 {
      ChunkStartIsMultiple(k - 1, size);
      MulSucc(k - 1, size);
    }
  }

  /** The k-th chunk: the one the loop cuts at row ChunkStart(k) (empty past the end). */
  function Chunk(f: Frame, k: nat, size: nat): Frame
    requires Rectangular(f)
  {
    ChunkFrom(f, if ChunkStart(k, size) <= f.rows then ChunkStart(k, size) else f.rows, size)
  }

  /** g(0), ..., g(n - 1), in order. */
  ghost function Prefix<T>(g: nat -> T, n: nat): (xs: seq<T>)
    ensures |xs| == n
  {
    if n == 0 then [] else Prefix(g, n - 1) + [g(n - 1)]
  }

  lemma {:induction false} PrefixIndex<T>(g: nat -> T, n: nat, k: nat)
    requires k < n
    ensures Prefix(g, n)[k] == g(k)
  {
    if k < n - 1 {
      PrefixIndex(g, n - 1, k);
    }
  }

  /** The results of the first n chunks of `f`, in chunk order. */
  ghost function Results(f: Frame, size: nat, t: real, n: nat): (rs: seq<ChunkResult>)
    requires Rectangular(f) && HasChannels(f)
    ensures |rs| == n
  {
    Prefix(k => ResultOf(Chunk(f, k, size), t), n)
  }

  /** The k-th entry of the results is the result of the k-th chunk. */
  lemma ResultsIndex(f: Frame, size: nat, t: real, n: nat, k: nat)
    requires Rectangular(f) && HasChannels(f) && k < n
    ensures Results(f, size, t, n)[k] == ResultOf(Chunk(f, k, size), t)
  {
    PrefixIndex(k => ResultOf(Chunk(f, k, size), t), n, k);
  }

  /** `step` added up `n` times, as update_progress accumulates it. */
  function RepeatedSum(n: nat, step: real): real {
    if n == 0 then 0.0 else RepeatedSum(n - 1, step) + step
  }

  lemma {:induction false} RepeatedSumIsProduct(n: nat, step: real)
    ensures RepeatedSum(n, step) == n as real * step
  {
    if n > 0 {
      RepeatedSumIsProduct(n - 1, step);
      assert n as real * step == (n - 1) as real * step + step;
    }
  }

  lemma MulSucc(k: nat, size: nat)
    ensures (k + 1) * size == k * size + size
  {
  }

  /** The k-th chunk of a column, cut at the end. */
  function ColumnChunk(col: seq<real>, k: nat, size: nat): seq<real> {
    var lo := if ChunkStart(k, size) <= |col| then ChunkStart(k, size) else |col|;
    col[lo..if lo + size <= |col| then lo + size else |col|]
  }

  /** Column `c` of chunk k is the k-th chunk of column `c`. */
  lemma ChunkColumn(f: Frame, c: string, k: nat, size: nat)
    requires Rectangular(f) && c in f.columns
    ensures Chunk(f, k, size).columns[c] == ColumnChunk(f.columns[c], k, size)
  {
  }

  /** The first `k` chunks of a column, concatenated. */
  function Joined(col: seq<real>, size: nat, k: nat): seq<real> {
    if k == 0 then [] else Joined(col, size, k - 1) + ColumnChunk(col, k - 1, size)
  }

  /** The chunks are consecutive and do not overlap: the first k of them, put
    * together, are the first k * size rows of the column (all of it once k * size
    * reaches its length). */
  lemma {:induction false} ChunksCover(col: seq<real>, size: nat, k: nat)
    ensures Joined(col, size, k) == col[..if k * size <= |col| then k * size else |col|]
  {
    ChunkStartIsMultiple(k, size);
    if k > 0 {
      ChunksCover(col, size, k - 1);
      ChunkStartIsMultiple(k - 1, size);
      var lo := if ChunkStart(k - 1, size) <= |col| then ChunkStart(k - 1, size) else |col|;
      var hi := if ChunkStart(k, size) <= |col| then ChunkStart(k, size) else |col|;
      assert ColumnChunk(col, k - 1, size) == col[lo..hi];
      assert col[..lo] + col[lo..hi] == col[..hi];
    }
  }

  // ---------------------------------------------------------------------------
  // The session

  /** What the graph callbacks draw: both buffers over the time window
    * [windowStart, windowEnd]. */
  datatype Render = Render(adc1: seq<real>, adc2: seq<real>, windowStart: real, windowEnd: real)

  class Analyzer {
    const chunkSize: nat
    const sampleRate: real
    const displayTime: real
    /** Seconds of signal in one chunk: chunk_size / sample_rate. */
    const chunkDuration: real
    const displayPoints: nat

    /** The loaded table (the pickled copy of the uploaded CSV), if any. */
    var table: Option<Frame>
    var adc1Buffer: seq<real>
    var adc2Buffer: seq<real>
    var queue: seq<ChunkResult>
    var stopRequested: bool
    var adc1PeakCount: nat
    var adc2PeakCount: nat
    var processedDuration: real

    ghost predicate Valid()
      reads this`table, this`adc1Buffer, this`adc2Buffer, this`processedDuration
    {
      chunkSize > 0 && sampleRate > 0.0 && displayTime >= 0.0 && chunkDuration > 0.0
      && |adc1Buffer| <= displayPoints && |adc2Buffer| <= displayPoints
      && processedDuration >= 0.0
      && (table.Some? ==> Rectangular(table.value) && HasChannels(table.value))
    }

    /** A new session: empty buffers bounded by `int(display_time * sample_rate)`,
      * an empty queue, a clear stop flag, zero statistics and no table. */
    constructor(chunkSize: nat, sampleRate: real, displayTime: real)
      requires chunkSize > 0 && sampleRate > 0.0 && displayTime >= 0.0
      ensures Valid()
      ensures this.chunkSize == chunkSize && this.sampleRate == sampleRate
      ensures this.displayTime == displayTime
      ensures chunkDuration == chunkSize as real / sampleRate
      ensures displayPoints == IntOf(displayTime * sampleRate)
      ensures table.None? && adc1Buffer == [] && adc2Buffer == [] && queue == []
      ensures !stopRequested && adc1PeakCount == 0 && adc2PeakCount == 0 && processedDuration == 0.0
    {
      this.chunkSize := chunkSize;
      this.sampleRate := sampleRate;
      chunkDuration := chunkSize as real / sampleRate;
      this.displayTime := displayTime;
      assert displayTime * sampleRate >= 0.0;
      displayPoints := IntOf(displayTime * sampleRate);
      table := None;
      adc1Buffer, adc2Buffer := [], [];
      queue := [];
      stopRequested := false;
      adc1PeakCount, adc2PeakCount := 0, 0;
      processedDuration := 0.0;
    }

    /** load_file: a table without both channels is refused and the previous one
      * is kept; otherwise the table becomes the session's data. */
    method LoadFile(contents: Option<Frame>) returns (message: string)
      requires Valid() && (contents.Some? ==> Rectangular(contents.value))
      modifies this`table
      ensures Valid()
      ensures contents.None? ==> message == "No file selected." && table == old(table)
      ensures contents.Some? && !HasChannels(contents.value) ==>
        message == "CSV file must contain 'adc1' and 'adc2' columns" && table == old(table)
      ensures contents.Some? && HasChannels(contents.value) ==>
        message == "Loaded: data.bin" && table == contents
    {
      if contents.None? {
        return "No file selected.";
      }
      if !HasChannels(contents.value) {
        return "CSV file must contain 'adc1' and 'adc2' columns";
      }
      table := contents;
      message := "Loaded: data.bin";
    }

    /** update_progress: the reported value is not used; the processed duration
      * grows by the duration of one chunk. */
    method UpdateProgress(value: real)
      requires Valid()
      modifies this`processedDuration
      ensures Valid()
      ensures processedDuration == old(processedDuration) + chunkDuration
    {
      processedDuration := processedDuration + chunkDuration;
    }

    /** stop_analysis: set the cooperative stop flag. */
    method StopAnalysis()
      requires Valid()
      modifies this`stopRequested
      ensures Valid() && stopRequested
    {
      stopRequested := true;
    }

    /** start_analysis: refused without a table; otherwise the stop flag is cleared
      * and the statistics are reset (buffers and queue are kept). The worker
      * thread it starts is ProcessDataThread, called separately. */
    method StartAnalysis() returns (outcome: Outcome)
      requires Valid()
      modifies this`stopRequested, this`adc1PeakCount, this`adc2PeakCount, this`processedDuration
      ensures Valid()
      ensures old(table).None? ==> outcome == Fail("Please load a file first!")
      ensures old(table).None? ==>
        unchanged(this`stopRequested, this`adc1PeakCount, this`adc2PeakCount, this`processedDuration)
      ensures old(table).Some? ==> outcome == Pass && !stopRequested
      ensures old(table).Some? ==> adc1PeakCount == 0 && adc2PeakCount == 0 && processedDuration == 0.0
    {
      if table.None? {
        return Fail("Please load a file first!");
      }
      stopRequested := false;
      adc1PeakCount, adc2PeakCount := 0, 0;
      processedDuration := 0.0;
      outcome := Pass;
    }

    /** process_data_thread with the threshold passed to process_chunk: the table
      * is cut into chunks at rows 0, chunkSize, 2 * chunkSize, ...; the stop flag
      * is checked before each chunk; each result is enqueued in chunk order and
      * each processed chunk advances the processed duration by one chunk.
      * `interrupts` holds the chunk numbers before which the user presses Stop
      * while the worker runs. Returns the number of chunks processed. */
    method ProcessDataThread(threshold: real, interrupts: set<nat>) returns (chunks: nat)
      requires Valid()
      modifies this`queue, this`processedDuration, this`stopRequested
      ensures Valid()
      ensures old(table).None? ==> chunks == 0 && stopRequested == old(stopRequested)
      ensures old(stopRequested) ==> chunks == 0 && stopRequested
      ensures forall k :: 0 <= k < chunks ==> k !in interrupts
      ensures table.None? ==> queue == old(queue)
      ensures table.Some? ==> queue == old(queue) + Results(table.value, chunkSize, threshold, chunks)
      ensures processedDuration == old(processedDuration) + RepeatedSum(chunks, chunkDuration)
      ensures table.Some? ==> chunks == 0 || ChunkStart(chunks - 1, chunkSize) < table.value.rows
      ensures table.Some? && ChunkStart(chunks, chunkSize) < table.value.rows ==>
        stopRequested && (old(stopRequested) || chunks in interrupts)
      ensures !old(stopRequested) && stopRequested ==>
        table.Some? && ChunkStart(chunks, chunkSize) < table.value.rows && chunks in interrupts
    {
      chunks := 0;
      if table.None? {
        // "Binary file not found": raised and logged by the thread
        return;
      }
      chunks := RunChunks(table.value, threshold, interrupts);
    }

    /** The `for` loop of process_data_thread over the loaded table `f`. */
    method RunChunks(f: Frame, threshold: real, interrupts: set<nat>) returns (chunks: nat)
      requires Valid() && table == Some(f)
      modifies this`queue, this`processedDuration, this`stopRequested
      ensures Worked(f, threshold, interrupts, old(queue), old(processedDuration), chunks)
      ensures old(stopRequested) ==> chunks == 0
      ensures stopRequested == (old(stopRequested) || (ChunkStart(chunks, chunkSize) < f.rows && chunks in interrupts))
      ensures ChunkStart(chunks, chunkSize) < f.rows ==> stopRequested
    {
      chunks := 0;
      var i: nat := 0;
      while i < f.rows
        invariant Worked(f, threshold, interrupts, old(queue), old(processedDuration), chunks)
        invariant i == ChunkStart(chunks, chunkSize)
        invariant stopRequested == old(stopRequested) && (chunks > 0 ==> !stopRequested)
        decreases f.rows - i
      {
        var stop := CheckedChunk(f, chunks, i, threshold, interrupts, old(queue), old(processedDuration));
        if stop {
          break;
        }
        i := i + chunkSize;
        chunks := chunks + 1;
      }
    }

    /** The worker's state after its first n chunks, started from queue q0 and
      * processed duration d0: none of them was interrupted, each started inside
      * the table, their results were enqueued in chunk order and each advanced
      * the processed duration by one chunk. */
    ghost predicate Worked(f: Frame, threshold: real, interrupts: set<nat>, q0: seq<ChunkResult>, d0: real, n: nat)
      reads this`table, this`adc1Buffer, this`adc2Buffer, this`processedDuration, this`queue
    {
      Valid() && table == Some(f)
      && (n == 0 || ChunkStart(n - 1, chunkSize) < f.rows)
      && (forall k :: 0 <= k < n ==> k !in interrupts)
      && queue == q0 + Results(f, chunkSize, threshold, n)
      && processedDuration == d0 + RepeatedSum(n, chunkDuration)
    }

    /** One pass of the worker loop: Stop may be pressed (when k is in
      * `interrupts`), then the stop flag is checked; when it is clear, chunk k
      * is processed. Returns whether the loop ends here. */
    method CheckedChunk(f: Frame, k: nat, i: nat, threshold: real, interrupts: set<nat>,
                        ghost q0: seq<ChunkResult>, ghost d0: real) returns (stop: bool)
      requires Worked(f, threshold, interrupts, q0, d0, k)
      requires i == ChunkStart(k, chunkSize) && i < f.rows
      modifies this`queue, this`processedDuration, this`stopRequested
      ensures stop == (old(stopRequested) || k in interrupts)
      ensures stopRequested == stop
      ensures stop ==> Worked(f, threshold, interrupts, q0, d0, k)
      ensures !stop ==> Worked(f, threshold, interrupts, q0, d0, k + 1)
    {
      if k in interrupts {
        StopAnalysis();
      }
      stop := stopRequested;
      if !stop {
        ProcessChunkAt(f, k, i, threshold, interrupts, q0, d0);
      }
    }

    /** One pass of the worker loop once the stop flag has been checked: chunk k,
      * which starts at row i, is processed, its result is enqueued and the
      * progress is reported. */
    method ProcessChunkAt(f: Frame, k: nat, i: nat, threshold: real, interrupts: set<nat>,
                          ghost q0: seq<ChunkResult>, ghost d0: real)
      requires Worked(f, threshold, interrupts, q0, d0, k)
      requires i == ChunkStart(k, chunkSize) && i < f.rows && k !in interrupts
      modifies this`queue, this`processedDuration
      ensures Worked(f, threshold, interrupts, q0, d0, k + 1)
    {
      var chunk := ChunkFrom(f, i, chunkSize);
      assert chunk == Chunk(f, k, chunkSize);
      var result := ProcessChunk(chunk, threshold);
      if result.Some? {
        queue := queue + [result.value];
      }
      UpdateProgress(Progress(i, f.rows));
      assert ChunkStart(k + 1 - 1, chunkSize) == i;
    }

    /** process_data_thread as written: the call `process_chunk(chunk)` omits the
      * required threshold, so the first chunk that reaches it raises TypeError,
      * which the handler around the loop logs; the worker ends having enqueued
      * and counted nothing. */
    method ProcessDataThreadAsWritten(interrupts: set<nat>) returns (chunks: nat)
      requires Valid()
      modifies this`stopRequested
      ensures Valid() && chunks == 0
      ensures stopRequested == (old(stopRequested) || (table.Some? && 0 < table.value.rows && 0 in interrupts))
    {
      chunks := 0;
      if table.None? {
        return;
      }
      if 0 < table.value.rows && 0 in interrupts {
        StopAnalysis();
      }
      // With the flag still clear, the call at the first chunk raises before
      // anything is enqueued or counted.
    }

    /** update_graph: on an empty queue nothing changes and nothing is returned;
      * otherwise one result is taken from the front of the queue and the last
      * `displayPoints` samples of each channel are appended to its buffer. */
    method UpdateGraph() returns (r: Option<Render>)
      requires Valid()
      modifies this`queue, this`adc1Buffer, this`adc2Buffer
      ensures Valid()
      ensures old(queue) == [] ==> r.None? && unchanged(this`queue, this`adc1Buffer, this`adc2Buffer)
      ensures old(queue) != [] ==> queue == old(queue)[1..]
      ensures old(queue) != [] ==>
        adc1Buffer == Extended(old(adc1Buffer), PyTail(old(queue)[0].adc1, displayPoints), displayPoints)
      ensures old(queue) != [] ==>
        adc2Buffer == Extended(old(adc2Buffer), PyTail(old(queue)[0].adc2, displayPoints), displayPoints)
      ensures old(queue) != [] ==>
        r == Some(Render(adc1Buffer, adc2Buffer, WindowStart(processedDuration, displayTime), processedDuration))
    {
      if queue == [] {
        return None;
      }
      var data := queue[0];
      queue := queue[1..];
      adc1Buffer := Extended(adc1Buffer, PyTail(data.adc1, displayPoints), displayPoints);
      adc2Buffer := Extended(adc2Buffer, PyTail(data.adc2, displayPoints), displayPoints);
      r := Some(Render(adc1Buffer, adc2Buffer, WindowStart(processedDuration, displayTime), processedDuration));
    }
  }

  /** A one-row table with both channels, as the worker sees it after a load. */
  function OneRowTable(): (f: Frame)
    ensures Rectangular(f) && HasChannels(f) && f.rows == 1
  {
    Frame(1, map["adc1" := [900.0], "adc2" := [0.0]])
  }

  /** The worker as written, run on a one-row table after Start: it enqueues nothing. */
  method OneRowAsWritten() returns (queued: nat)
    ensures queued == 0
  {
    var a := new Analyzer(1, 1.0, 1.0);
    var message := a.LoadFile(Some(OneRowTable()));
    var outcome := a.StartAnalysis();
    var chunks := a.ProcessDataThreadAsWritten({});
    queued := |a.queue|;
  }

  /** The worker with the threshold passed, run on the same table: it enqueues
    * the result of the table's one chunk. */
  method OneRowIntended() returns (queued: nat)
    ensures queued == 1
  {
    var b := new Analyzer(1, 1.0, 1.0);
    var message := b.LoadFile(Some(OneRowTable()));
    var outcome := b.StartAnalysis();
    var chunks := b.ProcessDataThread(DefaultThreshold, {});
    assert ChunkStart(1, 1) == 1;
    queued := |b.queue|;
  }
}
