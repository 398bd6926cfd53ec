/** What `plot_waveform` in main.py computes before it draws: the colour
    assigned to every speaker label and, for every segment, the range of
    samples it plots. Drawing itself is not modelled. */
module Plot {
  import opened Numeric
  import Rttm

  /** `set(segment["label"] for segment in segments)`. */
  function LabelSet(segments: seq<Rttm.Segment>): (tags: set<string>) {
    set i | 0 <= i < |segments| :: segments[i].tag
  }

  predicate Distinct(xs: seq<string>) {
    forall i, j | 0 <= i < j < |xs| :: xs[i] != xs[j]
  }

  function Elements(xs: seq<string>): (elements: set<string>) {
    set i | 0 <= i < |xs| :: xs[i]
  }

  /** `list(set(...))`: the labels, each once. Python's set order is not
      specified; this enumeration lists them in order of first use. */
  function Labels(segments: seq<Rttm.Segment>): (labels: seq<string>) {
    if segments == [] then []
    else
      var rest := Labels(segments[..|segments| - 1]);
      var tag := segments[|segments| - 1].tag;
      if tag in rest then rest else rest + [tag]
  }

  /** `Labels` lists every label of the segments, and each of them once. */
  lemma {:induction false} LabelsEnumerate(segments: seq<Rttm.Segment>)
    ensures Distinct(Labels(segments))
    ensures Elements(Labels(segments)) == LabelSet(segments)
  {
    if segments != [] {
      var init := segments[..|segments| - 1];
      var tag := segments[|segments| - 1].tag;
      var rest := Labels(init);
      LabelsEnumerate(init);
      assert LabelSet(segments) == LabelSet(init) + {tag} by {
        assert forall i | 0 <= i < |init| :: segments[i] == init[i];
      }
      if tag !in rest {
        assert Elements(rest + [tag]) == Elements(rest) + {tag} by {
          assert forall i | 0 <= i < |rest| :: (rest + [tag])[i] == rest[i];
          assert (rest + [tag])[|rest|] == tag;
        }
      } else {
        assert tag in Elements(rest);
      }
    }
  }

  /** `{label: colormap(i / num_labels) for i, label in enumerate(labels)}`,
      each label mapped to its position `i` in the palette of `num_labels`
      colours; a label listed twice keeps its last position, as a dict
      comprehension does. */
  function Palette(labels: seq<string>): (positions: map<string, nat>) {
    if labels == [] then map[]
    else Palette(labels[..|labels| - 1])[labels[|labels| - 1] := |labels| - 1]
  }

  /** The palette has a key for every label and only those, each mapped to
      an entry of the `|labels|`-colour palette. */
  lemma {:induction false} PaletteKeys(labels: seq<string>)
    ensures Palette(labels).Keys == Elements(labels)
    ensures forall l | l in Palette(labels) :: Palette(labels)[l] < |labels|
  {
    if labels != [] {
      var init := labels[..|labels| - 1];
      PaletteKeys(init);
      assert Elements(labels) == Elements(init) + {labels[|labels| - 1]} by {
        assert forall i | 0 <= i < |init| :: labels[i] == init[i];
      }
    }
  }

  /** The colours of `plot_waveform`: one palette entry per distinct label. */
  function Colors(segments: seq<Rttm.Segment>): (colors: map<string, nat>) {
    Palette(Labels(segments))
  }

  /** A distinct list of labels has as many elements as labels. */
  lemma {:induction false} DistinctCount(xs: seq<string>)
    requires Distinct(xs)
    ensures |Elements(xs)| == |xs|
  {
    if xs != [] {
      var init := xs[..|xs| - 1];
      var last := xs[|xs| - 1];
      assert forall i | 0 <= i < |init| :: init[i] == xs[i];
      assert Distinct(init);
      DistinctCount(init);
      assert last !in Elements(init);
      assert Elements(xs) == Elements(init) + {last};
    }
  }

  /** With distinct labels, label `i` gets palette entry `i`, so different
      labels get different palette positions. */
  lemma {:induction false} PalettePositions(labels: seq<string>)
    requires Distinct(labels)
    ensures forall i | 0 <= i < |labels| :: labels[i] in Palette(labels) && Palette(labels)[labels[i]] == i
  {
    if labels != [] {
      var init := labels[..|labels| - 1];
      PalettePositions(init);
      assert forall i | 0 <= i < |init| :: labels[i] == init[i];
    }
  }

  /** Every segment's label has a colour (`colors[label]` never raises
      `KeyError`), there are exactly `num_labels` entries, each a position
      in the `num_labels`-entry palette, and no two labels share a
      position. */
  lemma ColorsCoverLabels(segments: seq<Rttm.Segment>)
    ensures var colors := Colors(segments);
      && (forall i | 0 <= i < |segments| :: segments[i].tag in colors)
      && colors.Keys == LabelSet(segments)
      && |colors.Keys| == |LabelSet(segments)|
      && (forall l | l in colors :: colors[l] < |LabelSet(segments)|)
      && (forall l, m | l in colors && m in colors && l != m :: colors[l] != colors[m])
  {
    var labels := Labels(segments);
    LabelsEnumerate(segments);
    PaletteKeys(labels);
    DistinctCount(labels);
    PalettePositions(labels);
    var colors := Colors(segments);
    forall l, m | l in colors && m in colors && l != m
      ensures colors[l] != colors[m]
    {
      var i :| 0 <= i < |labels| && labels[i] == l;
      var j :| 0 <= j < |labels| && labels[j] == m;
    }
  }

  /** `start_sample` and `end_sample` of one segment. */
  datatype Span = Span(first: int, stop: int)

  /** `int(start * sr)` and `int((start + duration) * sr)`, the latter
      lowered to `len(y)` when it lies past the end. */
  function SampleSpan(segment: Rttm.Segment, sr: nat, count: nat): (s: Span)
    ensures s.first == Trunc(Times(segment.start, sr))
    ensures s.stop <= count
    ensures var raw := Trunc(Times(segment.start + segment.duration, sr));
      (raw <= count ==> s.stop == raw) && (raw > count ==> s.stop == count)
  {
    var first := Trunc(Times(segment.start, sr));
    var stop := Trunc(Times(segment.start + segment.duration, sr));
    Span(first, if stop > count then count else stop)
  }

  /** One `ax.plot(times, y[start_sample:end_sample], color=color, ...)`:
      the number of time points, the samples, the palette entry and the
      legend label. */
  datatype Trace = Trace(points: nat, samples: seq<real>, color: nat, tag: string)

  function TraceOf(y: seq<real>, sr: nat, segment: Rttm.Segment, colors: map<string, nat>): (t: Trace)
    requires segment.tag in colors
  {
    var span := SampleSpan(segment, sr, |y|);
    Trace(RangeLength(span.first, span.stop), PySlice(y, span.first, span.stop), colors[segment.tag], segment.tag)
  }

  /** One trace per segment, in order. */
  function Traces(y: seq<real>, sr: nat, segments: seq<Rttm.Segment>, colors: map<string, nat>): (traces: seq<Trace>)
    requires forall i | 0 <= i < |segments| :: segments[i].tag in colors
    ensures |traces| == |segments|
  {
    seq(|segments|, i requires 0 <= i < |segments| => TraceOf(y, sr, segments[i], colors))
  }

  /** The colours and the segment traces of `plot_waveform(y, sr, segments,
      start_time)`; the grey full-signal trace and the legend are not part of
      the result. */
  method PlotWaveform(y: seq<real>, sr: nat, segments: seq<Rttm.Segment>)
    returns (colors: map<string, nat>, traces: seq<Trace>)
    ensures colors == Colors(segments)
    ensures |traces| == |segments|
    ensures forall i | 0 <= i < |segments| :: segments[i].tag in colors
    ensures traces == Traces(y, sr, segments, colors)
  {
    colors := Palette(Labels(segments));
    assert forall j | 0 <= j < |segments| :: segments[j].tag in colors by {
      ColorsCoverLabels(segments);
    }
    traces := [];
    for i := 0 to |segments|
      invariant |traces| == i
      invariant forall j | 0 <= j < i :: traces[j] == TraceOf(y, sr, segments[j], colors)
    {
      var segment := segments[i];
      var startSample := Trunc(Times(segment.start, sr));
      var endSample := Trunc(Times(segment.start + segment.duration, sr));
      if endSample > |y| {
        endSample := |y|;
      }
      var color := colors[segment.tag];
      var trace := Trace(RangeLength(startSample, endSample), PySlice(y, startSample, endSample), color, segment.tag);
      assert Span(startSample, endSample) == SampleSpan(segment, sr, |y|);
      assert trace == TraceOf(y, sr, segment, colors);
      traces := traces + [trace];
    }
  }

  /** A trace never holds more samples than the signal, and a segment that
      starts and ends at or after time 0 gets exactly one sample per time
      point, so its times and samples line up. */
  lemma TraceLengths(y: seq<real>, sr: nat, segment: Rttm.Segment, colors: map<string, nat>)
    requires segment.tag in colors
    ensures |TraceOf(y, sr, segment, colors).samples| <= |y|
    ensures segment.start >= 0.0 && segment.start + segment.duration >= 0.0 ==>
      TraceOf(y, sr, segment, colors).points == |TraceOf(y, sr, segment, colors).samples|
  {
    if segment.start >= 0.0 && segment.start + segment.duration >= 0.0 {
      TimesOfZero(sr);
      TimesMonotone(0.0, segment.start, sr);
      TimesMonotone(0.0, segment.start + segment.duration, sr);
      TruncMonotone(0.0, Times(segment.start, sr));
      TruncMonotone(0.0, Times(segment.start + segment.duration, sr));
      TruncOfInt(0);
      var span := SampleSpan(segment, sr, |y|);
      PySliceLengthMatchesRange(y, span.first, span.stop);
    }
  }

  /** An example of a segment that starts before time 0 (its RTTM start is
      below minus the offset): start -2 and duration 3 at 1 Hz give start
      sample -2, which the slice counts from the end, so the trace has 3 time
      points but 0 samples. */
  lemma TraceNegativeStart(y: seq<real>)
    requires |y| == 10
    ensures var t := TraceOf(y, 1, Rttm.Segment(-2.0, 3.0, "A"), map["A" := 0]);
      t.points == 3 && t.samples == []
  {
    assert Times(-2.0, 1) == -2.0;
    assert Times(1.0, 1) == 1.0;
    assert Trunc(-2.0) == -2;
  }
}
