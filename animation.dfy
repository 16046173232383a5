/**
 * The Dash animation of Animation.py: on every timer tick the animator takes one
 * chunk result from the analyzer's queue, scrolls it into the analyzer's display
 * buffers, adds its peaks to the running counts and moves the visible time
 * window forward by one display period.
 */
module Animation {
  import opened Wrappers
  import opened DataProcessing
  import opened DualAdcAnalyzer

  /** The marker traces of update_plot look every peak index up in the time
    * values (one per sample of the first buffer) and in its channel's buffer;
    * an index past either raises IndexError and the tick draws nothing. */
  predicate MarkersFit(adc1Peaks: seq<nat>, adc2Peaks: seq<nat>, adc1: seq<real>, adc2: seq<real>) {
    (forall k :: 0 <= k < |adc1Peaks| ==> adc1Peaks[k] < |adc1|)
    && (forall k :: 0 <= k < |adc2Peaks| ==> adc2Peaks[k] < |adc1| && adc2Peaks[k] < |adc2|)
  }

  /** A peak of a chunk no longer than the display is a valid index into the
    * buffer after that chunk was scrolled in. */
  lemma PeakWithinBuffer(buf: seq<real>, xs: seq<real>, cap: nat, p: nat)
    requires p < |xs| <= cap
    ensures p < |Extended(buf, PyTail(xs, cap), cap)|
  {
    TailThenExtend(buf, xs, cap);
    ExtendedBuffer(buf, xs, cap);
  }

  /** With no display points the buffers stay empty, so a chunk with a peak
    * makes the tick fail. */
  lemma NoDisplayNoMarkers(buf: seq<real>, xs: seq<real>, peaks: seq<nat>, other: seq<nat>)
    requires peaks != []
    ensures !MarkersFit(peaks, other, Extended(buf, PyTail(xs, 0), 0), Extended(buf, PyTail(xs, 0), 0))
    ensures !MarkersFit(other, peaks, Extended(buf, PyTail(xs, 0), 0), Extended(buf, PyTail(xs, 0), 0))
  {
    var e := Extended(buf, PyTail(xs, 0), 0);
    assert |e| == 0;
    assert !(peaks[0] < |e|);
  }

  class Animator {
    /** The analysis session whose queue, buffers and statistics the animator drives. */
    const analyzer: Analyzer

    constructor(analyzer: Analyzer)
      ensures this.analyzer == analyzer
    {
      this.analyzer := analyzer;
    }

    /** update_plot: on an empty queue nothing changes and no update is drawn.
      * Otherwise the front result is dequeued, the processed duration grows by
      * one display period, each channel's buffer receives the last
      * `displayPoints` samples of the chunk (which, the buffer being bounded by
      * `displayPoints`, leaves it exactly as extending it with the whole chunk
      * would) and the peak counts grow by the numbers of peaks found. The two
      * signals are then drawn over the window [max(0, pd - displayTime), pd],
      * unless a peak index, which counts from the start of the chunk, lies past
      * the end of a buffer: the marker traces then raise IndexError and nothing
      * is drawn, the state updates having already happened. */
    method UpdatePlot() returns (r: Option<Render>)
      requires analyzer.Valid()
      modifies analyzer`queue, analyzer`processedDuration, analyzer`adc1Buffer, analyzer`adc2Buffer
      modifies analyzer`adc1PeakCount, analyzer`adc2PeakCount
      ensures analyzer.Valid()
      ensures old(analyzer.queue) == [] ==> r.None?
      ensures old(analyzer.queue) == [] ==>
        unchanged(analyzer`queue, analyzer`processedDuration, analyzer`adc1Buffer, analyzer`adc2Buffer)
      ensures old(analyzer.queue) == [] ==> unchanged(analyzer`adc1PeakCount, analyzer`adc2PeakCount)
      ensures old(analyzer.queue) != [] ==> analyzer.queue == old(analyzer.queue)[1..]
      ensures old(analyzer.queue) != [] ==>
        analyzer.processedDuration == old(analyzer.processedDuration) + analyzer.displayTime
      ensures old(analyzer.queue) != [] ==>
        analyzer.adc1Buffer
        == Extended(old(analyzer.adc1Buffer), PyTail(old(analyzer.queue)[0].adc1, analyzer.displayPoints), analyzer.displayPoints)
        == Extended(old(analyzer.adc1Buffer), old(analyzer.queue)[0].adc1, analyzer.displayPoints)
      ensures old(analyzer.queue) != [] ==>
        analyzer.adc2Buffer
        == Extended(old(analyzer.adc2Buffer), PyTail(old(analyzer.queue)[0].adc2, analyzer.displayPoints), analyzer.displayPoints)
        == Extended(old(analyzer.adc2Buffer), old(analyzer.queue)[0].adc2, analyzer.displayPoints)
      ensures old(analyzer.queue) != [] ==>
        analyzer.adc1PeakCount == old(analyzer.adc1PeakCount) + |old(analyzer.queue)[0].adc1Peaks|
      ensures old(analyzer.queue) != [] ==>
        analyzer.adc2PeakCount == old(analyzer.adc2PeakCount) + |old(analyzer.queue)[0].adc2Peaks|
      ensures old(analyzer.queue) != [] ==>
        (r.Some? <==> MarkersFit(old(analyzer.queue)[0].adc1Peaks, old(analyzer.queue)[0].adc2Peaks,
                                 analyzer.adc1Buffer, analyzer.adc2Buffer))
      ensures r.Some? ==>
        r.value == Render(analyzer.adc1Buffer, analyzer.adc2Buffer,
                          WindowStart(analyzer.processedDuration, analyzer.displayTime),
                          analyzer.processedDuration)
      ensures r.Some? ==>
        0.0 <= r.value.windowStart <= r.value.windowEnd <= r.value.windowStart + analyzer.displayTime
    {
      if analyzer.queue == [] {
        return None;
      }
      var data := analyzer.queue[0];
      analyzer.queue := analyzer.queue[1..];
      analyzer.processedDuration := analyzer.processedDuration + analyzer.displayTime;
      var dp := analyzer.displayPoints;
      TailThenExtend(analyzer.adc1Buffer, data.adc1, dp);
      TailThenExtend(analyzer.adc2Buffer, data.adc2, dp);
      analyzer.adc1Buffer := Extended(analyzer.adc1Buffer, PyTail(data.adc1, dp), dp);
      analyzer.adc2Buffer := Extended(analyzer.adc2Buffer, PyTail(data.adc2, dp), dp);
      analyzer.adc1PeakCount := analyzer.adc1PeakCount + |data.adc1Peaks|;
      analyzer.adc2PeakCount := analyzer.adc2PeakCount + |data.adc2Peaks|;
      if !MarkersFit(data.adc1Peaks, data.adc2Peaks, analyzer.adc1Buffer, analyzer.adc2Buffer) {
        // IndexError in the marker traces, after the state updates above
        return None;
      }
      var pd := analyzer.processedDuration;
      r := Some(Render(analyzer.adc1Buffer, analyzer.adc2Buffer, WindowStart(pd, analyzer.displayTime), pd));
    }
  }
}
