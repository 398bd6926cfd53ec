/** Cutting a time window out of the audio and the RTTM lines:
    `split_audio_and_rttm` in main.py. The audio is sliced by sample index;
    every overlapping RTTM segment is moved to window-relative time and
    clipped at the window end. */
module Clip {
  import opened Wrappers
  import opened Numeric
  import Rttm

  /** `librosa.get_duration(y=y, sr=sr)` of a mono signal: samples over rate. */
  function TotalDuration(count: nat, rate: nat): (t: real)
    requires rate > 0
    ensures t >= 0.0
  {
    count as real / rate as real
  }

  /** `end_time = min(start_time + duration, total_duration)`. */
  function WindowEnd(start: real, duration: real, total: real): (e: real)
    ensures e <= total && e <= start + duration
    ensures e == total || e == start + duration
  {
    Min(start + duration, total)
  }

  /** The overlap test: the segment `[s, s + d)` meets the window
      `[ws, we)`. */
  predicate Overlaps(s: real, d: real, ws: real, we: real) {
    s < we && s + d > ws
  }

  /** The segment as the window sees it: its start moved to window time and
      raised to zero, its duration cut at the window end. */
  function Clipped(s: real, d: real, tag: string, ws: real, we: real): (c: Rttm.Segment) {
    Rttm.Segment(Max(0.0, s - ws), Min(d, we - s), tag)
  }

  /** One line as the clipping loop treats it: `float(parts[3])`,
      `float(parts[4])`, and `parts[7]` only when the segment overlaps.
      `None` is a line outside the window. */
  function ClipParts(parts: seq<string>, ws: real, we: real): (r: Result<Option<Rttm.Segment>, Rttm.LineError>) {
    var t :- Rttm.TimingOf(parts);
    if Overlaps(t.start, t.duration, ws, we) then
      var tag :- Rttm.Field(t.fields, Rttm.LabelField);
      Ok(Some(Clipped(t.start, t.duration, tag, ws, we)))
    else Ok(None)
  }

  function ClipLine(line: string, ws: real, we: real): (r: Result<Option<Rttm.Segment>, Rttm.LineError>) {
    ClipParts(Rttm.Fields(line), ws, we)
  }

  function Clipper(ws: real, we: real): (clip: string -> Result<Option<Rttm.Segment>, Rttm.LineError>) {
    line => ClipLine(line, ws, we)
  }

  /** The present values, in order. */
  function Somes<T>(xs: seq<Option<T>>): (r: seq<T>)
    ensures |r| <= |xs|
  {
    if xs == [] then []
    else Somes(xs[..|xs| - 1]) + (if xs[|xs| - 1].Some? then [xs[|xs| - 1].value] else [])
  }

  /** The positions of the present values, in order. */
  function SomeIndices<T>(xs: seq<Option<T>>): (idx: seq<nat>)
    ensures |idx| == |Somes(xs)|
    ensures forall j | 0 <= j < |idx| :: idx[j] < |xs| && xs[idx[j]] == Some(Somes(xs)[j])
    ensures forall j, k | 0 <= j < k < |idx| :: idx[j] < idx[k]
    ensures forall i | 0 <= i < |xs| :: xs[i].Some? <==> i in idx
  {
    if xs == [] then []
    else
      var init := xs[..|xs| - 1];
      var rest := SomeIndices(init);
      assert forall i | 0 <= i < |init| :: xs[i] == init[i];
      if xs[|xs| - 1].Some? then rest + [|xs| - 1] else rest
  }

  /** The segments of the loop over `rttm_lines`, or the exception it raises. */
  function ClipLines(lines: seq<string>, ws: real, we: real): (r: Result<seq<Rttm.Segment>, Rttm.LineError>) {
    var kept :- Rttm.ReadAll(lines, Clipper(ws, we));
    Ok(Somes(kept))
  }

  /** What `split_audio_and_rttm` returns: the audio slice, the unchanged
      rate and the clipped segments. */
  datatype Window = Window(audio: seq<real>, rate: nat, segments: seq<Rttm.Segment>)

  /** `y[int(start_time * sr):int(end_time * sr)]`. */
  function WindowSamples(y: seq<real>, sr: nat, start: real, duration: real): (samples: seq<real>)
    requires sr > 0
  {
    var we := WindowEnd(start, duration, TotalDuration(|y|, sr));
    PySlice(y, Trunc(Times(start, sr)), Trunc(Times(we, sr)))
  }

  function Split(y: seq<real>, sr: nat, lines: seq<string>, start: real, duration: real): (r: Result<Window, Rttm.LineError>)
    requires sr > 0
  {
    var we := WindowEnd(start, duration, TotalDuration(|y|, sr));
    var segments :- ClipLines(lines, start, we);
    Ok(Window(WindowSamples(y, sr, start, duration), sr, segments))
  }

  /** `split_audio_and_rttm(y, sr, rttm_lines, start_time, duration)`. */
  method SplitAudioAndRttm(y: seq<real>, sr: nat, lines: seq<string>, start: real, duration: real)
    returns (r: Result<Window, Rttm.LineError>)
    requires sr > 0
    ensures r == Split(y, sr, lines, start, duration)
  {
    var total := TotalDuration(|y|, sr);
    var endTime := WindowEnd(start, duration, total);
    var startSample := Trunc(Times(start, sr));
    var endSample := Trunc(Times(endTime, sr));
    var audio := PySlice(y, startSample, endSample);
    assert audio == WindowSamples(y, sr, start, duration);

    var segments: seq<Rttm.Segment> := [];
    ghost var kept: seq<Option<Rttm.Segment>> := [];
    var i := 0;
    while i < |lines|
      invariant 0 <= i <= |lines|
      invariant Rttm.ReadAll(lines[..i], Clipper(start, endTime)) == Ok(kept)
      invariant segments == Somes(kept)
    {
      var clipped := ClipLine(lines[i], start, endTime);
      assert Clipper(start, endTime)(lines[i]) == clipped;
      if clipped.Err? {
        Rttm.ReadAllFailsAt(lines, i, Clipper(start, endTime));
        StopAt(y, sr, lines, start, duration, i + 1);
        return Err(clipped.error);
      }
      Rttm.ReadAllExtend(lines, i, Clipper(start, endTime), kept, clipped.value);
      if clipped.value.Some? {
        segments := segments + [clipped.value.value];
      }
      kept := kept + [clipped.value];
      i := i + 1;
    }
    assert lines[..i] == lines;
    SplitOk(y, sr, lines, start, duration, segments);
    r := Ok(Window(audio, sr, segments));
  }

  /** When every line clips, the split holds the slice and the clipped segments. */
  lemma SplitOk(y: seq<real>, sr: nat, lines: seq<string>, start: real, duration: real, segments: seq<Rttm.Segment>)
    requires sr > 0
    requires Rttm.ReadAll(lines, Clipper(start, WindowEnd(start, duration, TotalDuration(|y|, sr)))).Ok?
    requires segments == Somes(Rttm.ReadAll(lines, Clipper(start, WindowEnd(start, duration, TotalDuration(|y|, sr)))).value)
    ensures var we := WindowEnd(start, duration, TotalDuration(|y|, sr));
      Split(y, sr, lines, start, duration)
        == Ok(Window(PySlice(y, Trunc(Times(start, sr)), Trunc(Times(we, sr))), sr, segments))
  {
  }

  /** A line that fails makes the whole split fail with its error. */
  lemma StopAt(y: seq<real>, sr: nat, lines: seq<string>, start: real, duration: real, k: nat)
    requires sr > 0
    requires k <= |lines|
    requires Rttm.ReadAll(lines[..k], Clipper(start, WindowEnd(start, duration, TotalDuration(|y|, sr)))).Err?
    ensures Split(y, sr, lines, start, duration)
         == Err(Rttm.ReadAll(lines[..k], Clipper(start, WindowEnd(start, duration, TotalDuration(|y|, sr)))).error)
  {
    var we := WindowEnd(start, duration, TotalDuration(|y|, sr));
    Rttm.ReadAllStopsAtError(lines, k, Clipper(start, we));
  }

  /** A line yields a segment exactly when its start and duration parse, it
      overlaps the window and it has a label field; the segment is the
      clipped one. A line outside the window is skipped whatever its label. */
  lemma ClipPartsCases(parts: seq<string>, ws: real, we: real)
    ensures ClipParts(parts, ws, we).Ok? && ClipParts(parts, ws, we).value.Some?
        <==> Rttm.TimingOf(parts).Ok?
             && Overlaps(Rttm.TimingOf(parts).value.start, Rttm.TimingOf(parts).value.duration, ws, we)
             && |parts| > Rttm.LabelField
    ensures ClipParts(parts, ws, we).Ok? && ClipParts(parts, ws, we).value.None?
        <==> Rttm.TimingOf(parts).Ok?
             && !Overlaps(Rttm.TimingOf(parts).value.start, Rttm.TimingOf(parts).value.duration, ws, we)
    ensures ClipParts(parts, ws, we).Ok? && ClipParts(parts, ws, we).value.Some? ==>
      var t := Rttm.TimingOf(parts).value;
      ClipParts(parts, ws, we).value.value == Clipped(t.start, t.duration, parts[Rttm.LabelField], ws, we)
  {
  }

  /** The clipped segment: its start is window-relative and never negative,
      its duration never exceeds the original, it still reaches past the
      window start, and a segment starting inside the window ends inside it. */
  lemma ClippedBounds(s: real, d: real, tag: string, ws: real, we: real)
    requires Overlaps(s, d, ws, we)
    ensures var c := Clipped(s, d, tag, ws, we);
      && c.start >= 0.0
      && (s >= ws ==> c.start == s - ws)
      && (s <= ws ==> c.start == 0.0)
      && c.duration <= d
      && (d > 0.0 ==> c.duration > 0.0)
      && c.start + c.duration > 0.0
      && (s >= ws ==> c.start + c.duration <= we - ws)
      && c.tag == tag
  {
  }

  /** An example of a segment that begins before the window and ends past
      the window end: window 3..8, segment 2..12 gives start 0 and duration
      6, not 5. */
  lemma ClippedOverrunsWindow()
    ensures Clipped(2.0, 10.0, "A", 3.0, 8.0) == Rttm.Segment(0.0, 6.0, "A")
    ensures var c := Clipped(2.0, 10.0, "A", 3.0, 8.0); c.start + c.duration > 8.0 - 3.0
  {
  }

  /** A segment that begins before the window starts at window time 0 and
      keeps the part of its duration that lies before the window start: it
      ends past the window end exactly when it is longer than the window, and
      one that ends inside the window keeps its whole duration. */
  lemma ClippedEarlyStart(s: real, d: real, tag: string, ws: real, we: real)
    requires Overlaps(s, d, ws, we) && s < ws
    ensures var c := Clipped(s, d, tag, ws, we);
      && c.start == 0.0
      && (c.start + c.duration > we - ws <==> d > we - ws)
      && (s + d <= we ==> c.duration == d && c.start + c.duration > s + d - ws)
  {
  }

  /** A segment that exactly fills the window comes out unchanged but for
      the shift to window time. */
  lemma ClippedExactWindow(ws: real, d: real, tag: string)
    requires d > 0.0
    ensures Clipped(ws, d, tag, ws, ws + d) == Rttm.Segment(0.0, d, tag)
  {
  }

  /** The loop succeeds exactly when every line clips without an exception;
      it then keeps, in file order, the segments of the lines it keeps, and
      never more segments than lines. */
  lemma ClipLinesKept(lines: seq<string>, ws: real, we: real)
    ensures ClipLines(lines, ws, we).Ok? <==> forall i | 0 <= i < |lines| :: ClipLine(lines[i], ws, we).Ok?
    ensures ClipLines(lines, ws, we).Ok? ==>
      var segments := ClipLines(lines, ws, we).value;
      var kept := seq(|lines|, i requires 0 <= i < |lines| => ClipLine(lines[i], ws, we).value);
      var idx := SomeIndices(kept);
      && |segments| <= |lines|
      && |idx| == |segments|
      && (forall j, k | 0 <= j < k < |idx| :: idx[j] < idx[k])
      && (forall i | 0 <= i < |lines| :: (i in idx <==> ClipLine(lines[i], ws, we).value.Some?))
      && (forall j | 0 <= j < |idx| :: idx[j] < |lines| && segments[j] == ClipLine(lines[idx[j]], ws, we).value.value)
  {
    Rttm.ReadAllEvery(lines, Clipper(ws, we));
    if ClipLines(lines, ws, we).Ok? {
      var items := Rttm.ReadAll(lines, Clipper(ws, we)).value;
      var kept := seq(|lines|, i requires 0 <= i < |lines| => ClipLine(lines[i], ws, we).value);
      assert items == kept;
    }
  }

  /** Every segment of a successful split starts at or after the window
      start and ends after it. */
  lemma ClipLinesSegments(lines: seq<string>, ws: real, we: real)
    requires ClipLines(lines, ws, we).Ok?
    ensures forall j | 0 <= j < |ClipLines(lines, ws, we).value| ::
      var c := ClipLines(lines, ws, we).value[j];
      c.start >= 0.0 && c.start + c.duration > 0.0
  {
    ClipLinesKept(lines, ws, we);
    var segments := ClipLines(lines, ws, we).value;
    var kept := seq(|lines|, i requires 0 <= i < |lines| => ClipLine(lines[i], ws, we).value);
    var idx := SomeIndices(kept);
    forall j | 0 <= j < |segments|
      ensures segments[j].start >= 0.0 && segments[j].start + segments[j].duration > 0.0
    {
      var parts := Rttm.Fields(lines[idx[j]]);
      ClipPartsCases(parts, ws, we);
      var t := Rttm.TimingOf(parts).value;
      ClippedBounds(t.start, t.duration, parts[Rttm.LabelField], ws, we);
    }
  }

  /** `int(t * sr)` for a time inside the audio is a slice bound in `0..len(y)`. */
  lemma SampleInside(t: real, count: nat, sr: nat)
    requires sr > 0 && 0.0 <= t <= TotalDuration(count, sr)
    ensures 0 <= Trunc(Times(t, sr)) <= count
  {
    TimesOfZero(sr);
    TimesMonotone(0.0, t, sr);
    TimesMonotone(t, TotalDuration(count, sr), sr);
    TimesOverRate(count, sr);
    TruncMonotone(Times(t, sr), count as real);
    TruncOfInt(count);
  }

  /** The split returns the rate unchanged, never more samples than the
      input, and fails exactly when the segment loop does. */
  lemma SplitShape(y: seq<real>, sr: nat, lines: seq<string>, start: real, duration: real)
    requires sr > 0
    ensures var we := WindowEnd(start, duration, TotalDuration(|y|, sr));
      Split(y, sr, lines, start, duration).Ok? <==> ClipLines(lines, start, we).Ok?
    ensures var we := WindowEnd(start, duration, TotalDuration(|y|, sr));
      Split(y, sr, lines, start, duration).Ok? ==>
        var w := Split(y, sr, lines, start, duration).value;
        && w.audio == WindowSamples(y, sr, start, duration)
        && w.rate == sr && |w.audio| <= |y| && w.segments == ClipLines(lines, start, we).value
  {
  }

  /** For a window that starts at or after time 0 and does not end before it
      starts, the audio is the contiguous run of samples from `int(start * sr)`
      to `int(end_time * sr)`, which lies inside the input. */
  lemma SplitAudioWindow(y: seq<real>, sr: nat, start: real, duration: real)
    requires sr > 0
    requires 0.0 <= start <= WindowEnd(start, duration, TotalDuration(|y|, sr))
    ensures var we := WindowEnd(start, duration, TotalDuration(|y|, sr));
      var a, b := Trunc(Times(start, sr)), Trunc(Times(we, sr));
      && 0 <= a <= b <= |y|
      && WindowSamples(y, sr, start, duration) == y[a..b]
      && |WindowSamples(y, sr, start, duration)| == b - a
  {
    var total := TotalDuration(|y|, sr);
    var we := WindowEnd(start, duration, total);
    SampleInside(start, |y|, sr);
    SampleInside(we, |y|, sr);
    TimesMonotone(start, we, sr);
    TimesOfZero(sr);
    TimesMonotone(0.0, start, sr);
    TruncMonotone(Times(start, sr), Times(we, sr));
    PySliceInside(y, Trunc(Times(start, sr)), Trunc(Times(we, sr)));
  }

  /** An example of a window that ends before time 0 with a negative stop
      index, which Python's slice counts from the end: a 10-sample signal at
      1 Hz with start 2 and duration -3 has end -1 and stop index -1, and
      gives samples 2 to 8, not none. */
  lemma SplitNegativeEndWraps(y: seq<real>)
    requires |y| == 10
    ensures Split(y, 1, [], 2.0, -3.0) == Ok(Window(y[2..9], 1, []))
  {
    assert Times(2.0, 1) == 2.0;
    assert Times(-1.0, 1) == -1.0;
    assert Trunc(-1.0) == -1;
  }
}
