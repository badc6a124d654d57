/**
 Helpers of the CCE worldtube buffer updaters: the names of tensor-component
 datasets in a worldtube file, the range check on the time buffer, the
 extraction-radius accessor, and the two documented contracts on spans of
 the time buffer and on repeated buffer updates.
 */
module WorldtubeBufferUpdater {
  import opened Wrappers

  // ---------------------------------------------------------------------
  // dataset_name_for_component
  // ---------------------------------------------------------------------

  predicate IsAxis(c: char)
  {
    c == 'x' || c == 'y' || c == 'z'
  }

  /** The character `'x' + index`; the index of a spatial axis is below 3. */
  function AxisChar(index: nat): (c: char)
    requires index < 3
    ensures IsAxis(c)
  {
    ('x' as int + index) as char
  }

  function AxisIndex(c: char): Option<nat>
  {
    if c == 'x' then Some(0) else if c == 'y' then Some(1) else if c == 'z' then Some(2) else None
  }

  /**
   `detail::dataset_name_for_component`: the base name followed by one axis
   letter per tensor index, in argument order.
   */
  function DatasetNameForComponent(baseName: string, indices: seq<nat>): (name: string)
    requires forall k :: 0 <= k < |indices| ==> indices[k] < 3
    ensures |name| == |baseName| + |indices|
    ensures name[..|baseName|] == baseName
    ensures forall k :: 0 <= k < |indices| ==> name[|baseName| + k] == AxisChar(indices[k])
    ensures forall k :: |baseName| <= k < |name| ==> IsAxis(name[k])
    decreases |indices|
  {
    if |indices| == 0 then baseName
    else DatasetNameForComponent(baseName + [AxisChar(indices[0])], indices[1..])
  }

  /** Reads the tensor indices back from the axis letters after the base name. */
  function ComponentIndices(suffix: string): Option<seq<nat>>
  {
    if |suffix| == 0 then Some([])
    else match (AxisIndex(suffix[0]), ComponentIndices(suffix[1..]))
      case (Some(i), Some(rest)) => Some([i] + rest)
      case _ => None
  }

  lemma {:induction false} ComponentIndicesOfAxes(indices: seq<nat>, suffix: string)
    requires |suffix| == |indices|
    requires forall k :: 0 <= k < |indices| ==> indices[k] < 3 && suffix[k] == AxisChar(indices[k])
    ensures ComponentIndices(suffix) == Some(indices)
  {
    if |indices| > 0 {
      ComponentIndicesOfAxes(indices[1..], suffix[1..]);
      assert [indices[0]] + indices[1..] == indices;
    }
  }

  /** The dataset name determines the tensor component it was built for. */
  lemma {:induction false} DatasetNameRoundTrip(baseName: string, indices: seq<nat>)
    requires forall k :: 0 <= k < |indices| ==> indices[k] < 3
    ensures var name := DatasetNameForComponent(baseName, indices);
      ComponentIndices(name[|baseName|..]) == Some(indices)
  {
    var name := DatasetNameForComponent(baseName, indices);
    ComponentIndicesOfAxes(indices, name[|baseName|..]);
  }

  /** The example of the source's comment: ("/g", 0, 1) names "/gxy". */
  lemma DatasetNameExample()
    ensures DatasetNameForComponent("/g", [0, 1]) == "/gxy"
  {
    var name := DatasetNameForComponent("/g", [0, 1]);
    assert name[..2] == "/g";
    assert name[2] == 'x' && name[3] == 'y';
  }

  // ---------------------------------------------------------------------
  // time_is_outside_range
  // ---------------------------------------------------------------------

  /**
   `time_is_outside_range` of the Bondi and Klein-Gordon updaters: the time
   lies before the first or after the last entry of the time buffer.
   */
  function TimeIsOutsideRange(timeBuffer: seq<real>, time: real): (outside: bool)
    requires |timeBuffer| > 0
    ensures Sorted(timeBuffer) && (time == timeBuffer[0] || time == timeBuffer[|timeBuffer| - 1]) ==> !outside
    ensures Sorted(timeBuffer) && outside ==> forall k :: 0 <= k < |timeBuffer| ==> !BracketedAt(timeBuffer, time, k)
  {
    time < timeBuffer[0] || time > timeBuffer[|timeBuffer| - 1]
  }

  predicate Sorted(timeBuffer: seq<real>)
  {
    forall i, j :: 0 <= i <= j < |timeBuffer| ==> timeBuffer[i] <= timeBuffer[j]
  }

  /** The last buffer index whose time is not after `time`. */
  function LastIndexAtOrBefore(timeBuffer: seq<real>, time: real): (k: nat)
    requires |timeBuffer| > 0 && timeBuffer[0] <= time
    ensures k < |timeBuffer| && timeBuffer[k] <= time
    ensures forall i :: k < i < |timeBuffer| ==> timeBuffer[i] > time
    decreases |timeBuffer|
  {
    if timeBuffer[|timeBuffer| - 1] <= time then |timeBuffer| - 1
    else LastIndexAtOrBefore(timeBuffer[..|timeBuffer| - 1], time)
  }

  /** `time` lies between buffer entry `k` and the next one (or equals the last entry). */
  predicate BracketedAt(timeBuffer: seq<real>, time: real, k: nat)
  {
    && k < |timeBuffer|
    && timeBuffer[k] <= time
    && (if k + 1 < |timeBuffer| then time <= timeBuffer[k + 1] else time == timeBuffer[k])
  }

  /**
   For a sorted time buffer, a time is inside the range exactly when some
   interval of the buffer contains it, so both end points count as inside.
   */
  lemma OutsideRangeIffNotBracketed(timeBuffer: seq<real>, time: real)
    requires |timeBuffer| > 0 && Sorted(timeBuffer)
    ensures !TimeIsOutsideRange(timeBuffer, time) <==> exists k :: BracketedAt(timeBuffer, time, k)
    ensures !TimeIsOutsideRange(timeBuffer, timeBuffer[0])
    ensures !TimeIsOutsideRange(timeBuffer, timeBuffer[|timeBuffer| - 1])
  {
    var last := |timeBuffer| - 1;
    if !TimeIsOutsideRange(timeBuffer, time) {
      var k := LastIndexAtOrBefore(timeBuffer, time);
      if k < last {
        assert timeBuffer[k + 1] > time;
      }
      assert BracketedAt(timeBuffer, time, k);
    }
    if exists k :: BracketedAt(timeBuffer, time, k) {
      var k: nat :| BracketedAt(timeBuffer, time, k);
      assert timeBuffer[0] <= timeBuffer[k];
      if k + 1 < |timeBuffer| {
        assert timeBuffer[k + 1] <= timeBuffer[last];
      }
    }
  }

  // ---------------------------------------------------------------------
  // get_extraction_radius
  // ---------------------------------------------------------------------

  datatype UpdaterError = ExtractionRadiusNotSet

  /**
   `get_extraction_radius` of the Bondi and Klein-Gordon updaters: an error
   when the radius was neither given nor parsed from the file name,
   otherwise the stored radius.
   */
  function GetExtractionRadius(extractionRadius: Option<real>): (r: Result<real, UpdaterError>)
    ensures r.Failure? <==> extractionRadius.None?
    ensures r.ToOption() == extractionRadius
  {
    match extractionRadius
    case None => Failure(ExtractionRadiusNotSet)
    case Some(radius) => Success(radius)
  }

  // ---------------------------------------------------------------------
  // create_span_for_time_value (documented contract only)
  // ---------------------------------------------------------------------

  /**
   The documented promise on the span (start, end) of time-buffer indices
   returned by `create_span_for_time_value`: it covers `2 * interpolatorLength + pad`
   entries, never starts before `lowerBound`, stays below `upperBound` when
   the bounds leave room, and otherwise starts exactly at `lowerBound`.
   */
  predicate SpanContract(pad: nat, interpolatorLength: nat, lowerBound: nat, upperBound: nat,
                         start: nat, end: nat)
  {
    var width := 2 * interpolatorLength + pad;
    && end - start == width
    && start >= lowerBound
    && (upperBound - lowerBound >= width ==> end <= upperBound)
    && (upperBound - lowerBound < width ==> start == lowerBound)
  }

  function Clamp(x: int, lo: int, hi: int): (r: int)
    requires lo <= hi
    ensures lo <= r <= hi
    ensures lo <= x <= hi ==> r == x
  {
    if x < lo then lo else if x > hi then hi else x
  }

  /**
   The contract can always be met: a span of the right width centred on any
   index `center` and then pushed inside the bounds satisfies it.
   */
  function CenteredSpan(pad: nat, interpolatorLength: nat, lowerBound: nat, upperBound: nat,
                        center: nat): (span: (nat, nat))
    ensures SpanContract(pad, interpolatorLength, lowerBound, upperBound, span.0, span.1)
    ensures var width := 2 * interpolatorLength + pad;
      lowerBound + interpolatorLength <= center && center + interpolatorLength + pad <= upperBound ==>
        span.0 == center - interpolatorLength
  {
    var width := 2 * interpolatorLength + pad;
    if upperBound - lowerBound >= width then
      var start := Clamp(center - interpolatorLength, lowerBound, upperBound - width);
      (start, start + width)
    else
      (lowerBound, lowerBound + width)
  }

  /** When the bounds are too tight, the contract fixes the span completely. */
  lemma SpanForcedByTightBounds(pad: nat, interpolatorLength: nat, lowerBound: nat, upperBound: nat,
                                start: nat, end: nat)
    requires SpanContract(pad, interpolatorLength, lowerBound, upperBound, start, end)
    requires upperBound - lowerBound < 2 * interpolatorLength + pad
    ensures (start, end) == CenteredSpan(pad, interpolatorLength, lowerBound, upperBound, 0)
    ensures end > upperBound
  {
  }

  // ---------------------------------------------------------------------
  // update_buffers_for_time (documented contract only)
  // ---------------------------------------------------------------------

  /** What one buffer update leaves behind: the buffers and the covered span. */
  datatype BufferState<B> = BufferState(buffers: B, timeSpanStart: nat, timeSpanEnd: nat)

  /**
   The documented promise of `update_buffers_for_time`: after an update that
   returned the next full-update time `next`, a call at any time before
   `next` leaves the buffers unchanged and returns `next` again.
   */
  ghost predicate HonoursUpdateContract<B(!new)>(update: (BufferState<B>, real) -> (BufferState<B>, real))
  {
    forall state, time, laterTime ::
      laterTime < update(state, time).1 ==>
        && update(update(state, time).0, laterTime).0.buffers == update(state, time).0.buffers
        && update(update(state, time).0, laterTime).1 == update(state, time).1
  }

  /** The state after calling `update` at each of `times` in turn, with the last returned time. */
  function UpdateAll<B>(update: (BufferState<B>, real) -> (BufferState<B>, real),
                        state: BufferState<B>, next: real, times: seq<real>): (BufferState<B>, real)
    decreases |times|
  {
    if |times| == 0 then (state, next)
    else var (state', next') := update(state, times[0]); UpdateAll(update, state', next', times[1..])
  }

  /**
   Any run of further calls, all at times before the returned next-update
   time, reads nothing: the buffers stay as the first update left them and
   the next-update time never moves.
   */
  lemma {:induction false} RepeatedUpdatesKeepBuffers<B(!new)>(
    update: (BufferState<B>, real) -> (BufferState<B>, real),
    state: BufferState<B>, time: real, times: seq<real>)
    requires HonoursUpdateContract(update)
    requires forall k :: 0 <= k < |times| ==> times[k] < update(state, time).1
    ensures UpdateAll(update, update(state, time).0, update(state, time).1, times).0.buffers
            == update(state, time).0.buffers
    ensures UpdateAll(update, update(state, time).0, update(state, time).1, times).1
            == update(state, time).1
    decreases |times|
  {
    if |times| > 0 {
      var first := update(state, time);
      var second := update(first.0, times[0]);
      assert second.0.buffers == first.0.buffers && second.1 == first.1;
      RepeatedUpdatesKeepBuffers(update, first.0, times[0], times[1..]);
    }
  }
}
