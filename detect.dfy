/** `detect_languages` in main.py: checks the requested times against the
    length of the audio, then either cuts a window out of the audio and the
    RTTM lines or reads the whole RTTM file, and computes the plot. */
module Detect {
  import opened Wrappers
  import opened Numeric
  import Rttm
  import Clip
  import Plot

  /** What the two checks against the audio length decide. `endClamped` is
      true when the end-time warning is shown and the end is lowered to the
      total duration. */
  datatype Plan =
    | StartTooLate
    | WholeFile(endClamped: bool)
    | Window(start: real, duration: real, endClamped: bool)

  /** A start past the end of the audio aborts; an end past it is lowered to
      it; a window needs both times, and its duration is `end - start`. */
  function PlanFor(total: real, start: Option<real>, end: Option<real>): (p: Plan)
    ensures p.StartTooLate? <==> start.Some? && start.value > total
    ensures p.Window? <==> start.Some? && start.value <= total && end.Some?
    ensures p.WholeFile? <==> (start.Some? ==> start.value <= total) && (start.None? || end.None?)
    ensures !p.StartTooLate? ==> (p.endClamped <==> end.Some? && end.value > total)
    ensures p.Window? ==> p.start == start.value && p.duration == Min(end.value, total) - start.value
  {
    if start.Some? && start.value > total then StartTooLate
    else
      var clamped := end.Some? && end.value > total;
      var finish := if clamped then Some(total) else end;
      if start.Some? && finish.Some? then Window(start.value, finish.value - start.value, clamped)
      else WholeFile(clamped)
  }

  /** How a run ends: the start-time warning, an exception from reading a
      line, the `TypeError` of adding `None` to the plot's time values, or
      the plotted figure. */
  datatype Outcome =
    | StartTooLateWarning
    | ReadFailed(error: Rttm.LineError)
    | NoStartTime
    | Plotted(audio: seq<real>, rate: nat, segments: seq<Rttm.Segment>,
              colors: map<string, nat>, traces: seq<Plot.Trace>)

  /** The outcome and whether the end-time warning was shown. */
  datatype Run = Run(endWarning: bool, outcome: Outcome)

  /** True when some plotted time array is non-empty: the full signal's
      or one segment's. */
  predicate HasTimes(audio: seq<real>, traces: seq<Plot.Trace>) {
    |audio| > 0 || exists i | 0 <= i < |traces| :: traces[i].points > 0
  }

  /** `plot_waveform(y, sr, segments, start_time)`; with no start time the
      first non-empty time array raises `TypeError`. */
  function Draw(audio: seq<real>, rate: nat, segments: seq<Rttm.Segment>, hasStart: bool): (o: Outcome) {
    var colors := Plot.Colors(segments);
    Plot.ColorsCoverLabels(segments);
    var traces := Plot.Traces(audio, rate, segments, colors);
    if !hasStart && HasTimes(audio, traces) then NoStartTime
    else Plotted(audio, rate, segments, colors, traces)
  }

  function Detection(y: seq<real>, sr: nat, lines: seq<string>, start: Option<real>, end: Option<real>): (run: Run)
    requires sr > 0
  {
    var total := Clip.TotalDuration(|y|, sr);
    match PlanFor(total, start, end)
    case StartTooLate => Run(false, StartTooLateWarning)
    case WholeFile(clamped) =>
      Run(clamped,
        match Rttm.ParseLines(lines, 0.0)
        case Err(e) => ReadFailed(e)
        case Ok(segments) => Draw(y, sr, segments, start.Some?))
    case Window(s, d, clamped) =>
      Run(clamped,
        match Clip.Split(y, sr, lines, s, d)
        case Err(e) => ReadFailed(e)
        case Ok(w) => Draw(w.audio, w.rate, w.segments, true))
  }

  /** `detect_languages(start_time, end_time)` on the loaded samples `y` at
      rate `sr` and the lines of the RTTM file. */
  method DetectLanguages(y: seq<real>, sr: nat, lines: seq<string>, start: Option<real>, end: Option<real>)
    returns (r: Run)
    requires sr > 0
    ensures r == Detection(y, sr, lines, start, end)
  {
    var total := Clip.TotalDuration(|y|, sr);
    if start.Some? && start.value > total {
      return Run(false, StartTooLateWarning);
    }
    var finish := end;
    var warned := false;
    if finish.Some? && finish.value > total {
      warned := true;
      finish := Some(total);
    }
    var audio, rate, segments;
    if start.Some? && finish.Some? {
      var duration := finish.value - start.value;
      assert PlanFor(total, start, end) == Window(start.value, duration, warned);
      var split := Clip.SplitAudioAndRttm(y, sr, lines, start.value, duration);
      if split.Err? {
        return Run(warned, ReadFailed(split.error));
      }
      audio, rate, segments := split.value.audio, split.value.rate, split.value.segments;
      assert Detection(y, sr, lines, start, end) == Run(warned, Draw(audio, rate, segments, start.Some?));
    } else {
      assert PlanFor(total, start, end) == WholeFile(warned);
      var parsed := Rttm.ParseRttm(lines, 0.0);
      if parsed.Err? {
        return Run(warned, ReadFailed(parsed.error));
      }
      audio, rate, segments := y, sr, parsed.value;
      assert Detection(y, sr, lines, start, end) == Run(warned, Draw(audio, rate, segments, start.Some?));
    }
    var colors, traces := Plot.PlotWaveform(audio, rate, segments);
    DrawSteps(audio, rate, segments, start.Some?, colors, traces);
    if start.None? && HasTimes(audio, traces) {
      return Run(warned, NoStartTime);
    }
    r := Run(warned, Plotted(audio, rate, segments, colors, traces));
  }

  lemma DrawSteps(audio: seq<real>, rate: nat, segments: seq<Rttm.Segment>, hasStart: bool,
                  colors: map<string, nat>, traces: seq<Plot.Trace>)
    requires colors == Plot.Colors(segments)
    requires forall i | 0 <= i < |segments| :: segments[i].tag in colors
    requires traces == Plot.Traces(audio, rate, segments, colors)
    ensures Draw(audio, rate, segments, hasStart)
         == if !hasStart && HasTimes(audio, traces) then NoStartTime else Plotted(audio, rate, segments, colors, traces)
  {
  }

  /** The run stops at the start-time warning exactly when a start time is
      given and lies past the end of the audio; the end-time warning is shown
      exactly when the run gets past that check and the end lies past the
      end of the audio. */
  lemma DetectionWarnings(y: seq<real>, sr: nat, lines: seq<string>, start: Option<real>, end: Option<real>)
    requires sr > 0
    ensures var total := Clip.TotalDuration(|y|, sr);
      var r := Detection(y, sr, lines, start, end);
      && (r.outcome.StartTooLateWarning? <==> start.Some? && start.value > total)
      && (r.endWarning <==> !(start.Some? && start.value > total) && end.Some? && end.value > total)
  {
  }

  /** A plotted figure colours every segment, with one palette entry per
      label, and draws one trace per segment. */
  lemma DrawPlotted(audio: seq<real>, rate: nat, segments: seq<Rttm.Segment>, hasStart: bool)
    ensures forall i | 0 <= i < |segments| :: segments[i].tag in Plot.Colors(segments)
    ensures var o := Draw(audio, rate, segments, hasStart);
      && (o.NoStartTime? <==> !hasStart && HasTimes(audio, Plot.Traces(audio, rate, segments, Plot.Colors(segments))))
      && (o.Plotted? <==> !o.NoStartTime?)
      && (o.Plotted? ==>
        && o.audio == audio && o.rate == rate && o.segments == segments
        && o.colors == Plot.Colors(segments)
        && (forall i | 0 <= i < |segments| :: segments[i].tag in o.colors)
        && |o.traces| == |segments|)
  {
    Plot.ColorsCoverLabels(segments);
  }

  /** With both times given and the start inside the audio, the run cuts the
      window from the start to the end, lowered to the audio length: the
      audio is those samples at the unchanged rate, the segments are the
      clipped ones, it never stops for the missing start time, and every
      trace has one sample per time point. */
  lemma DetectionWindow(y: seq<real>, sr: nat, lines: seq<string>, start: real, end: real)
    requires sr > 0 && start <= Clip.TotalDuration(|y|, sr)
    ensures var total := Clip.TotalDuration(|y|, sr);
      var finish := Min(end, total);
      var o := Detection(y, sr, lines, Some(start), Some(end)).outcome;
      && Clip.WindowEnd(start, finish - start, total) == finish
      && (o.ReadFailed? <==> Clip.ClipLines(lines, start, finish).Err?)
      && (o.ReadFailed? ==> o.error == Clip.ClipLines(lines, start, finish).error)
      && (o.Plotted? <==> Clip.ClipLines(lines, start, finish).Ok?)
      && (o.Plotted? ==>
        && o.audio == Clip.WindowSamples(y, sr, start, finish - start)
        && |o.audio| <= |y|
        && o.rate == sr
        && o.segments == Clip.ClipLines(lines, start, finish).value
        && (forall i | 0 <= i < |o.traces| :: o.traces[i].points == |o.traces[i].samples|))
  {
    var total := Clip.TotalDuration(|y|, sr);
    var finish := Min(end, total);
    WindowOutcome(y, sr, lines, start, end);
    Clip.SplitShape(y, sr, lines, start, finish - start);
    var split := Clip.Split(y, sr, lines, start, finish - start);
    if split.Ok? {
      var w := split.value;
      Clip.ClipLinesSegments(lines, start, finish);
      DrawPlotted(w.audio, w.rate, w.segments, true);
      var colors := Plot.Colors(w.segments);
      forall i | 0 <= i < |w.segments|
        ensures Plot.TraceOf(w.audio, w.rate, w.segments[i], colors).points
             == |Plot.TraceOf(w.audio, w.rate, w.segments[i], colors).samples|
      {
        Plot.TraceLengths(w.audio, w.rate, w.segments[i], colors);
      }
    }
  }

  lemma WindowOutcome(y: seq<real>, sr: nat, lines: seq<string>, start: real, end: real)
    requires sr > 0 && start <= Clip.TotalDuration(|y|, sr)
    ensures var total := Clip.TotalDuration(|y|, sr);
      var finish := Min(end, total);
      && Clip.WindowEnd(start, finish - start, total) == finish
      && Detection(y, sr, lines, Some(start), Some(end)).outcome
         == match Clip.Split(y, sr, lines, start, finish - start)
            case Err(e) => ReadFailed(e)
            case Ok(w) => Draw(w.audio, w.rate, w.segments, true)
  {
  }

  /** When only one of the times is given (and a given start lies inside the
      audio), the whole RTTM file is read with offset 0 and the whole signal
      plotted; without a start time a non-empty signal then raises. */
  lemma DetectionWholeFile(y: seq<real>, sr: nat, lines: seq<string>, start: Option<real>, end: Option<real>)
    requires sr > 0
    requires start.Some? ==> start.value <= Clip.TotalDuration(|y|, sr)
    requires start.None? || end.None?
    ensures var o := Detection(y, sr, lines, start, end).outcome;
      && (o.ReadFailed? <==> Rttm.ParseLines(lines, 0.0).Err?)
      && (o.ReadFailed? ==> o.error == Rttm.ParseLines(lines, 0.0).error)
      && (o.Plotted? ==> o.audio == y && o.rate == sr && o.segments == Rttm.ParseLines(lines, 0.0).value)
      && (start.Some? && Rttm.ParseLines(lines, 0.0).Ok? ==> o.Plotted?)
      && (start.None? && Rttm.ParseLines(lines, 0.0).Ok? && |y| > 0 ==> o.NoStartTime?)
  {
    if Rttm.ParseLines(lines, 0.0).Ok? {
      DrawPlotted(y, sr, Rttm.ParseLines(lines, 0.0).value, start.Some?);
    }
  }
}
