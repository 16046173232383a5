# Dual ADC signal analyzer — a Dafny model

This project models the core of a small real-time analyzer for two ADC
channels. A user loads a CSV table with the columns `adc1` and `adc2`, then
starts the analysis. A worker cuts the table into chunks of `chunk_size` rows.
Each chunk goes through a threshold peak detector, and the result is put on a
queue. A timer callback takes one result per tick and scrolls its samples into
two bounded display buffers. There are two such callbacks. The analyzer's own
graph update does only that. The Dash animator also adds the result's peaks to
the peak counts and advances the processed duration, which moves the visible
time window forward.

The model has four files:

- `wrappers.dfy`: `Option` and `Outcome`.
- `data_processing.dfy` (module `DataProcessing`):
  - data frames (`Frame`, `Slice`);
  - the detector `detect_significant_peaks` as an imperative scan (`DetectSignificantPeaks`). It is proved against a declarative specification: maximal runs above the threshold, long enough runs, their integer midpoints.
  - a reference list `PeaksOf` that the specification pins down uniquely;
  - the chunk packaging `process_chunk` (`ProcessChunk`, `ResultOf`).
- `dual_adc_analyzer.dfy` (module `DualAdcAnalyzer`):
  - the session object as the class `Analyzer`, with the loaded table, the two buffers, the queue, the stop flag and the statistics;
  - its operations: load, start, stop, the worker's chunk loop, progress and graph update;
  - the deque semantics of the bounded buffers;
  - the chunking of the table.
- `animation.dfy` (module `Animation`): the class `Animator` and its `update_plot` tick.

## Model

| member | source | states |
|---|---|---|
| DataProcessing.SliceJoin | dual_adc_analyzer.py:109 | row slices of a table, taken within its rows, compose: the rows lo..mid followed by mid..hi of a column are its rows lo..hi, and the row counts add up |
| DataProcessing.RunsDisjoint | data_processing.py:51-62 | two maximal above-threshold runs that share a sample are the same run |
| DataProcessing.PeakInsideRun | data_processing.py:58-61 | a peak index lies inside the signal and its sample is above the threshold |
| DataProcessing.PeaksOfRun | data_processing.py:58-61 | inside a maximal run, a sample is a peak iff the run is at least `min_duration` long and the sample is the run's midpoint `(start + end) // 2` |
| DataProcessing.NothingCloses | data_processing.py:52-54 | an above-threshold sample, or a below-threshold one with no open run, closes no run |
| DataProcessing.ClosingRun | data_processing.py:55-62 | the first below-threshold sample after a run adds exactly that run's midpoint, and only when the run is long enough |
| DataProcessing.FinishScan | data_processing.py:64-67 | at the end of the data, the peaks are those already closed plus the midpoint `(start + len) // 2` of a still-open long-enough run |
| DataProcessing.IncreasingUnique | data_processing.py:69 | two strictly increasing index lists with the same elements are equal |
| DataProcessing.DetectedPeaksUnique | data_processing.py:38-69 | the detector's specification has at most one solution |
| DataProcessing.PeaksFromListsPeaks | data_processing.py:38-69 | the reference list is strictly increasing and holds exactly the peaks at or after a position |
| DataProcessing.DetectedPeaksIsPeaksOf | data_processing.py:38-69 | a list meets the detector's specification iff it is the reference list `PeaksOf` |
| DataProcessing.DetectSignificantPeaks | data_processing.py:38-69 | the result is strictly increasing, contains p iff p is the midpoint of a maximal run strictly above the threshold of length >= min_duration, and every peak indexes a sample above the threshold |
| DataProcessing.EmptyInputNoPeaks | data_processing.py:65 | an empty signal has no peaks |
| DataProcessing.PulsePeaks | data_processing.py:38 | with the defaults 850 and 50, a 60-sample pulse at 900 between rows 20 and 80 has exactly one peak, at 50 |
| DataProcessing.DetectPulse | data_processing.py:38-69 | the detector returns exactly [50] on that pulse |
| DataProcessing.NatToString | data_processing.py:18 | the peak count in a summary is a non-empty string of decimal digits |
| DataProcessing.NatToStringRoundTrip | data_processing.py:18 | the decimal count in a summary reads back as the same number |
| DataProcessing.Summary | data_processing.py:13-24 | a channel's summary is empty iff the channel has no peaks |
| DataProcessing.ResultOfDetects | data_processing.py:10-11 | both peak lists in a chunk result are exactly the peaks of their channel, detected with the given threshold and the default minimum duration |
| DataProcessing.ProcessChunk | data_processing.py:5-36 | `None` iff a channel column is missing; otherwise the samples of both channels, their peak lists and their summaries, equal to the reference `ResultOf` |
| DualAdcAnalyzer.IntOf | dual_adc_analyzer.py:27 | Python `int()` truncates toward zero |
| DualAdcAnalyzer.Progress | dual_adc_analyzer.py:116 | the reported progress `i / len * 100` of a chunk that starts inside the table lies in [0, 100) |
| DualAdcAnalyzer.WindowStart | Animation.py:27 | `max(0, pd - display_time)` is non-negative, at most `display_time` before the window's end, and not after it |
| DualAdcAnalyzer.Extended | dual_adc_analyzer.py:32-33 | a deque with `maxlen` never holds more than `maxlen` items |
| DualAdcAnalyzer.AppendEvictingKeepsNewest | dual_adc_analyzer.py:32-33 | one append to a bounded deque keeps the newest `maxlen` items of old contents plus the new item |
| DualAdcAnalyzer.ExtendKeepsNewest | dual_adc_analyzer.py:130-131 | `deque.extend`, item by item with eviction, equals taking the newest `maxlen` items of old contents followed by the new ones |
| DualAdcAnalyzer.ExtendedBuffer | dual_adc_analyzer.py:130-131 | after an extend the buffer length is min(maxlen, old + new), it is a suffix of old + new, and a slice at least `maxlen` long replaces the whole buffer |
| DualAdcAnalyzer.TailThenExtend | dual_adc_analyzer.py:130-131 | slicing `[-display_points:]` before extending a deque bounded by `display_points` changes nothing |
| DualAdcAnalyzer.ChunkFrom | dual_adc_analyzer.py:109 | `iloc[i:i + chunk_size]` cuts the end at the last row: the chunk has `chunk_size` rows, or the rows left when fewer remain; it keeps every column, so it has both channels iff the table has them |
| DualAdcAnalyzer.ChunkStartIsMultiple | dual_adc_analyzer.py:104 | chunk k starts at row k * chunk_size |
| DualAdcAnalyzer.ResultsIndex | dual_adc_analyzer.py:104-113 | the k-th of the enqueued results is the result of the k-th chunk |
| DualAdcAnalyzer.RepeatedSumIsProduct | dual_adc_analyzer.py:123 | n progress updates advance the processed duration by n * chunk_size / sample_rate |
| DualAdcAnalyzer.ChunkColumn | dual_adc_analyzer.py:109 | column c of chunk k is rows k*size .. k*size+size of column c, cut at the end |
| DualAdcAnalyzer.ChunksCover | dual_adc_analyzer.py:104-109 | the first k chunks of a column, joined, are its first min(k * size, len) rows: no row is skipped or repeated |
| DualAdcAnalyzer.Analyzer.constructor | dual_adc_analyzer.py:19-46 | empty buffers bounded by `int(display_time * sample_rate)`, an empty queue, a clear stop flag, zero statistics, no table |
| DualAdcAnalyzer.Analyzer.LoadFile | dual_adc_analyzer.py:64-82 | no contents gives "No file selected."; a table without both channels is refused with the error's message and the previous table is kept; otherwise the table is loaded |
| DualAdcAnalyzer.Analyzer.UpdateProgress | dual_adc_analyzer.py:121-123 | the processed duration grows by chunk_size / sample_rate |
| DualAdcAnalyzer.Analyzer.StopAnalysis | dual_adc_analyzer.py:157-159 | the stop flag is set |
| DualAdcAnalyzer.Analyzer.StartAnalysis | dual_adc_analyzer.py:143-155 | refused without a table and nothing changes; otherwise the stop flag is cleared and the peak counts and processed duration are reset |
| DualAdcAnalyzer.Analyzer.ProcessDataThread | dual_adc_analyzer.py:93-119 | with no table nothing is enqueued; otherwise the results of chunks 0..n-1 are appended in order and the duration grows by n chunk durations. The loop stops exactly at the end of the table or at the first chunk before which Stop was pressed, and never runs once the flag was already set |
| DualAdcAnalyzer.Analyzer.RunChunks | dual_adc_analyzer.py:104-116 | the chunk loop keeps its invariant and ends at the end of the table or at an interruption, which leaves the stop flag set |
| DualAdcAnalyzer.Analyzer.CheckedChunk | dual_adc_analyzer.py:105-116 | a loop pass ends the loop iff the stop flag was already set or Stop is pressed before the check, and the flag is then set; otherwise chunk k is processed and the flag stays clear |
| DualAdcAnalyzer.Analyzer.ProcessChunkAt | dual_adc_analyzer.py:108-116 | one pass enqueues the result of the chunk at row i and advances the duration by one chunk |
| DualAdcAnalyzer.Analyzer.ProcessDataThreadAsWritten | dual_adc_analyzer.py:93-119 | as written, the worker enqueues and counts nothing; only the stop flag can change |
| DualAdcAnalyzer.Analyzer.UpdateGraph | dual_adc_analyzer.py:126-141 | an empty queue changes nothing and draws nothing; otherwise the front result is dequeued, each buffer is extended with the last `display_points` samples of its channel, and both buffers are drawn over [max(0, pd - display_time), pd] |
| DualAdcAnalyzer.OneRowAsWritten | dual_adc_analyzer.py:110 | on a loaded one-row table the worker as written enqueues nothing |
| DualAdcAnalyzer.OneRowIntended | dual_adc_analyzer.py:110 | with the threshold passed, the same run enqueues the one chunk's result |
| Animation.Animator.constructor | Animation.py:7-8 | the animator drives the given analyzer |
| Animation.Animator.UpdatePlot | Animation.py:10-52 | an empty queue changes nothing and draws nothing. Otherwise the front result is dequeued, pd grows by `display_time`, and each buffer becomes the deque extension by the chunk's last `display_points` samples, which equals extending by the whole chunk. The peak counts grow by the numbers of peaks. The signals are drawn, over a window of width at most `display_time` ending at pd, iff every peak index of the result is a valid index into the buffers; otherwise the marker traces raise IndexError and nothing is drawn |
| Animation.PeakWithinBuffer | Animation.py:19-37 | when a chunk is no longer than `display_points`, each of its peak indices is a valid index into the buffer after the chunk was scrolled in |
| Animation.NoDisplayNoMarkers | Animation.py:19-37 | with `display_points == 0` the buffers stay empty, so a result with any peak makes the tick raise |

## Left out

- The Dash/Plotly user interface is left out: layout, callbacks, figures, the upload widget, `run`, `start_animation` and `create_plotly_traces`. Only the callbacks' effect on the analyzer's state and the drawn window is modelled.
- CSV parsing, base64 decoding and the pickle file on disk are left out. A loaded table is a `Frame` passed to `LoadFile`. Every column is assumed to have one value per row, as in a pandas frame.
- Threads and the thread-safe queue are left out. The worker loop and the timer ticks are methods called one after another. The user pressing Stop while the worker runs is the parameter `interrupts`: the chunk numbers before whose stop check `stop_analysis` runs.
- Logging calls are left out.
- Exception messages raised inside the worker are left out. Only their effect, that the worker ends, is modelled.
- The configuration constants `CHUNK_SIZE`, `SAMPLE_RATE`, `DISPLAY_TIME` and `ANIMATION_SPEED` come from utils.py, which is not part of this model. The first three are constructor parameters, assumed positive (`display_time` non-negative). The animation speed only sets the timer interval.
- The `time_values` from `np.linspace` are left out. Only the window's ends are modelled: the values are evenly spaced floating-point numbers between them.
- DataProcessing.Summary: the mean peak value formatted with `:.2f` is left out (floating-point formatting). The summary holds the channel name and the peak count.
- The `DualADCSignalAnalyzer.process_chunk` wrapper (dual_adc_analyzer.py:84-91) is left out. Its only caller is main.py, which is UI glue outside this model.
- The unused `recent_adc1_peaks` / `recent_adc2_peaks` lists are left out.
- The `animation_speed` and `binary_filepath` attributes are left out. The file path is represented by whether a table is loaded.
- The peak-marker traces of `update_plot` (Animation.py:36-37, 44-45) are not part of the drawn `Render`. They index the display buffer and time values with peak positions relative to the chunk, not the buffer.
- Animation.Animator.UpdatePlot: the model returns `None` both for `dash.no_update` on an empty queue and for the IndexError raised by the marker traces, after the state updates, when a peak index is past the end of a buffer. It does not distinguish the two, and it does not say where a drawn marker lands.
- Samples are real numbers. NaN and floating-point rounding are not modelled in `signal_data > threshold`, `i / len * 100`, the duration sums, or `int(self.display_time * self.sample_rate)` (dual_adc_analyzer.py:27). In that last one, IEEE rounding can move `display_points` by one: `0.29 * 100` evaluates to `28.999999999999996`, so Python gives 28 where `IntOf` gives 29.
- `process_data_thread` raises and ends before the loop when no file is loaded; the model returns with zero chunks.
- Two parts of the source are modelled as written, though they may look surprising:
  - The processed duration is advanced both by `update_progress` in the worker (per chunk) and by `update_plot` (per tick, by `display_time`).
  - When `display_points` is 0, the slice `[-0:]` is the whole chunk. The deques then hold nothing.

## Findings

| source | as written | input that shows it | evidently intended | confidence | as-written member | corrected member |
|---|---|---|---|---|---|---|
| dual_adc_analyzer.py:110 | `process_chunk(chunk)` is called without the required `threshold` argument. The first chunk raises `TypeError`, and the handler at lines 118-119 logs it and ends the worker, so nothing is ever enqueued or counted | chunk size 1, a loaded one-row table `adc1 = [900]`, `adc2 = [0]`, Start, then the worker | call `process_chunk(chunk, threshold)`, which enqueues one result per chunk | not executed | DualAdcAnalyzer.OneRowAsWritten | DualAdcAnalyzer.OneRowIntended |

The as-written worker is `Analyzer.ProcessDataThreadAsWritten`. The corrected
worker, `Analyzer.ProcessDataThread`, takes the threshold as a parameter. The
rest of the model uses it.
