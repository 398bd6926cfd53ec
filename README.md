# AudioWaveDiarizer core in Dafny

AudioWaveDiarizer is a desktop tool. It loads a WAV file and an RTTM
speaker-diarization file, and draws the waveform with every speaker's
segments coloured by label. It can also draw only a time window of the
recording. This project models what `main.py` computes before it reaches
the GUI and the drawing library:

- `parse_rttm` reads one segment per RTTM line. The segment's start is
  field 3 plus an offset, its duration is field 4, and its label is field 7.
- `split_audio_and_rttm` does three things:
  - cuts the sample window `y[int(start*sr):int(end*sr)]`, where the end is
    lowered to the audio length;
  - keeps every RTTM line that overlaps the window, in file order;
  - moves each kept segment to window time and cuts it at the window end.
- `plot_waveform` assigns one colour per distinct label. For each segment
  it also computes the range of samples it plots, clamped to the signal.
- `detect_languages` decides what to do from the requested start and end
  times:
  - a start past the end aborts, with a warning;
  - an end past the end is lowered to it, with a warning;
  - with both times given it cuts a window, otherwise it reads the whole
    RTTM file with offset 0.

The model follows the Python semantics that these functions depend on:

- `str.strip().split()` uses Python's whitespace set (module `Text`).
- `float()` reads field texts: sign, digits, point and exponent (module `Decimal`).
- `int()` truncates toward zero.
- A slice with negative or too-large bounds behaves as in Python (module `Numeric`).
- Exceptions are raised in Python's evaluation order, and one bad line
  aborts the whole read (`Rttm.LineError`).

Module layout:

| file | module | models |
|---|---|---|
| `wrappers.dfy` | Wrappers | `Option` and `Result` |
| `text.dfy` | Text | `str.strip()` and `str.split()` |
| `decimal.dfy` | Decimal | `float()` of a field |
| `numeric.dfy` | Numeric | `min`, `max`, `int()`, `t * sr`, slicing, `len(range(a, b))` |
| `rttm.dfy` | Rttm | `parse_rttm` |
| `clip.dfy` | Clip | `split_audio_and_rttm` |
| `plot.dfy` | Plot | the colour map and sample spans of `plot_waveform` |
| `detect.dfy` | Detect | `detect_languages` |
| `scenarios.dfy` | Scenarios | a worked example: one RTTM line, a 10 s signal, two windows |

The clipped duration `min(duration, end_time - start)` is modelled as
written. A segment that starts before the window is moved to window time 0
but keeps the part of its duration that lies before the window, so it can
end past the window end (`Clip.ClippedEarlyStart`,
`Clip.ClippedOverrunsWindow`, `Scenarios.LateWindow`).

The loops are modelled as methods. Each method is proved equal to a function,
and the lemmas are stated about those functions:

- `Rttm.ParseRttm` equals `Rttm.ParseLines`.
- `Clip.SplitAudioAndRttm` equals `Clip.Split`.
- `Plot.PlotWaveform` equals `Plot.Colors` and `Plot.Traces`.
- `Detect.DetectLanguages` equals `Detect.Detection`.

## Model

| member | source | states |
|---|---|---|
| Rttm.ParseRttm | main.py:15-24 | the loop returns what reading every line in order gives: the list of segments, or the error of the first bad line |
| Rttm.ParseLines | main.py:15-24 | the result of `parse_rttm`: every line decoded in file order, stopping at the first line that raises; its properties are in `Rttm.ParseLinesAll`, `Rttm.ParseLinesFirstError` and `Rttm.ParseLinesOffset` |
| Rttm.SegmentOf | main.py:20-23 | one line's segment from its fields: `float(parts[3]) + offset`, `float(parts[4])`, `parts[7]`, in that order of evaluation; its properties are in `Rttm.SegmentOfFields` and `Rttm.SegmentOfError` |
| Rttm.TimingOf | main.py:20-21 | `float(parts[3])`, then `float(parts[4])`, with the error of the first that fails |
| Rttm.ParseLinesAll | main.py:18-23 | the read succeeds exactly when every line decodes; it then holds one segment per line, segment `i` from line `i` |
| Rttm.ParseLinesFirstError | main.py:18-22 | a failed read fails with the error of its first bad line; every line before that one decodes |
| Rttm.ParseLinesStopsAtError | main.py:18-22 | once a prefix of the file fails, the whole file fails with that prefix's error; later lines are never looked at |
| Rttm.ReadAllEvery | main.py:18-23 | for any per-line decoder: the read succeeds iff every line decodes, and then gives one item per line, in order |
| Rttm.ReadAllFirstError | main.py:18-22 | for any per-line decoder, a failed read fails with the first failing line's error |
| Rttm.SegmentOfFields | main.py:19-23 | a line decodes iff it has at least 8 fields and fields 3 and 4 are numbers; the segment is `(float(parts[3]) + offset, float(parts[4]), parts[7])` |
| Rttm.SegmentOfError | main.py:20-22 | the error names the first field, in evaluation order (`parts[3]`, `float`, `parts[4]`, `float`, `parts[7]`), that is missing or not a number |
| Rttm.BlankLineFails | main.py:19-20 | a blank or whitespace-only line raises `IndexError` at `parts[3]` |
| Rttm.ShortLineFails | main.py:19-22 | one line with fewer than 8 fields anywhere in the file fails the whole read |
| Rttm.ParseLinesOffset | main.py:20 | reading with an offset is reading with offset 0 and then adding the offset to every start; errors are the same |
| Rttm.SegmentOfOffset | main.py:20 | for one line, the offset moves the start and changes nothing else |
| Rttm.Field | main.py:22 | `parts[i]` succeeds iff `i < len(parts)`, else `IndexError` for index `i` |
| Rttm.NumberField | main.py:20-21 | `float(parts[i])` succeeds iff the field exists and is a number, with the index or value error otherwise |
| Text.Split | main.py:19 | `str.split()`: the maximal runs of non-whitespace, in order; its properties are in `Text.SplitJoin`, `Text.SplitFields` and `Text.SplitTrailingSpace` |
| Text.Strip | main.py:19 | `str.strip()`: whitespace dropped at both ends; `Text.SplitStrip` shows it does not change the fields |
| Text.SplitJoin | main.py:19 | fields without whitespace, joined by single spaces, split back into exactly those fields |
| Text.SplitStrip | main.py:19 | `line.strip().split()` equals `line.split()` |
| Text.SplitTrailingSpace | main.py:19 | trailing whitespace, such as the line's newline, adds no field |
| Text.SplitFields | main.py:19 | every element of `split()` is non-empty and has no whitespace |
| Text.SplitAllSpace | main.py:19 | a whitespace-only line has no fields |
| Decimal.ParseFloatPoint | main.py:20-21 | `float("w.f")` is `w + f / 10^len(f)` for digit strings `w`, `f`, not both empty |
| Decimal.ParseShowNat | main.py:20-21 | `float(str(n))` is `n` for every natural number `n` |
| Decimal.ParseFloatSign | main.py:20-21 | on a text without a sign, a leading `-` negates the value and a leading `+` changes nothing |
| Decimal.ParseFloatDigits | main.py:20-21 | a non-empty string of digits reads as the integer it spells |
| Decimal.ParseFloat | main.py:20-21 | an accepted text contains a digit, so a placeholder such as `<NA>` is rejected |
| Numeric.Trunc | main.py:76-77 | `int(x)` rounds toward zero: the floor for `x >= 0`, the ceiling below 0 |
| Numeric.TimesIsProduct | main.py:76-77 | `Times(t, sr)` is exactly `t * sr` |
| Numeric.SliceBound | main.py:80 | a slice bound counts from the end when negative and is clamped to `0..len` |
| Numeric.PySlice | main.py:80 | `y[a:b]` with both bounds placed by `Numeric.SliceBound`; never longer than `y` |
| Numeric.PySliceInside | main.py:80 | with `0 <= a <= b <= len(y)`, `y[a:b]` is the plain subsequence |
| Numeric.PySliceLengthMatchesRange | main.py:52-53 | with `0 <= a` and `0 <= b <= len(y)`, `len(y[a:b]) == len(range(a, b))` |
| Numeric.TruncMonotone | main.py:76-77 | `int()` is monotone on non-negative values |
| Clip.SplitAudioAndRttm | main.py:70-103 | the method returns the audio slice, the unchanged rate and the clipped segments of `Clip.Split`, or the first line's error |
| Clip.Split | main.py:70-103 | the result of `split_audio_and_rttm`: the window's samples, the unchanged rate and the clipped segments, or the first bad line's error; its properties are in `Clip.SplitShape` and `Clip.SplitAudioWindow` |
| Clip.WindowSamples | main.py:76-80 | `y[int(start_time * sr):int(end_time * sr)]` |
| Clip.ClipLines | main.py:83-101 | the loop over the RTTM lines: the kept segments in file order, or the first bad line's error; its properties are in `Clip.ClipLinesKept` |
| Clip.TotalDuration | main.py:72 | the duration of the signal is non-negative |
| Clip.WindowEnd | main.py:75 | `end_time` is at most the total duration and at most `start + duration`, and equals one of them |
| Clip.SplitShape | main.py:70-103 | the split fails exactly when the segment loop fails; otherwise it returns the window's samples, the same rate, at most `len(y)` samples, and the clipped segments |
| Clip.SplitAudioWindow | main.py:75-80 | for `0 <= start <= end_time`, the audio is `y[a:b]` with `0 <= a <= b <= len(y)` and length `b - a` |
| Clip.SampleInside | main.py:76-77 | for `0 <= t <= len(y)/sr`, `int(t * sr)` is a slice bound in `0..len(y)` |
| Clip.SplitNegativeEndWraps | main.py:75-80 | an example of a negative stop index: a 10-sample signal at 1 Hz with start 2 and duration -3 has end -1, stop index -1, and returns samples 2 to 8 because Python's slice counts -1 from the end |
| Clip.ClipParts | main.py:85-101 | one line of the loop: its timing, then the overlap test, then `parts[7]` for an overlapping line only; its cases are in `Clip.ClipPartsCases` |
| Clip.Overlaps | main.py:88-91 | `start_time_rttm < end_time and end_time_rttm > start_time` |
| Clip.Clipped | main.py:93-101 | the kept segment: start `max(0, s - start_time)`, duration `min(d, end_time - s)`, the line's label; its bounds are in `Clip.ClippedBounds` |
| Clip.ClipPartsCases | main.py:85-101 | a line gives a segment iff its start and duration parse, it overlaps the window and it has a label; it is skipped iff it parses and does not overlap; `parts[7]` is read only for an overlapping line |
| Clip.ClippedBounds | main.py:93-100 | the new start is `max(0, s - ws) >= 0`; the new duration is at most the old, positive when the old is; the label is unchanged; a segment starting in the window ends in it |
| Clip.ClippedOverrunsWindow | main.py:93-94 | an example of a segment that ends past the window end: window 3..8, segment 2..12 gives `(0, 6)`, longer than the 5-second window |
| Clip.ClippedEarlyStart | main.py:93-94 | a segment that starts before the window gets start 0; it ends past the window end exactly when its duration is longer than the window; one that ends inside the window keeps its whole duration `d`, so it ends later than its true end `s + d - ws` |
| Clip.ClippedExactWindow | main.py:91-94 | a segment that exactly fills the window becomes `(0, d)` |
| Clip.ClipLinesKept | main.py:83-101 | the loop succeeds iff every line clips; the kept segments are those of the overlapping lines, in file order, at most one per line |
| Clip.ClipLinesSegments | main.py:93-94 | every kept segment starts at or after 0 and ends after 0 |
| Plot.PlotWaveform | main.py:33-53 | the method returns the colour map of `Plot.Colors` and one trace per segment equal to `Plot.TraceOf`; every segment's label is a key of the colour map |
| Plot.Colors | main.py:33-38 | the colour map: a palette position for each label of the segments; its properties are in `Plot.ColorsCoverLabels` |
| Plot.Labels | main.py:37 | `list(set(...))` of the segment labels, in order of first use; its properties are in `Plot.LabelsEnumerate` |
| Plot.Palette | main.py:38 | the dict comprehension: label `i` of the list mapped to position `i`, a later duplicate overriding an earlier one; its properties are in `Plot.PaletteKeys` and `Plot.PalettePositions` |
| Plot.ColorsCoverLabels | main.py:33-38 | `colors[label]` never raises `KeyError`; the keys are exactly the set of labels; there are `num_labels` of them, each mapped to one of `num_labels` palette positions, and no two labels share a position |
| Plot.LabelsEnumerate | main.py:37 | `list(set(...))` lists every label once |
| Plot.PaletteKeys | main.py:38 | the dict comprehension has a key for each listed label and only those, each mapped below `len(labels)` |
| Plot.PalettePositions | main.py:38 | with distinct labels, label `i` gets palette entry `i` |
| Plot.DistinctCount | main.py:33-37 | a list that holds each label once is as long as the set of labels |
| Plot.SampleSpan | main.py:43-47 | `start_sample = int(start * sr)`; `end_sample = int((start + duration) * sr)`, lowered to `len(y)` when it is past the end |
| Plot.TraceOf | main.py:43-53 | one segment's trace: `len(range(start_sample, end_sample))` time points, `y[start_sample:end_sample]`, the label's colour and the label; its lengths are in `Plot.TraceLengths` |
| Plot.Traces | main.py:42-53 | one trace per segment |
| Plot.TraceLengths | main.py:52-53 | a trace never has more samples than the signal; a segment with a start and an end at or after 0 gets exactly one sample per time point |
| Plot.TraceNegativeStart | main.py:43-53 | an example of a segment starting before 0: start -2 and duration 3 at 1 Hz on 10 samples give start sample -2, so 3 time points but 0 samples |
| Detect.DetectLanguages | main.py:458-480 | the method returns what `Detect.Detection` decides: the start warning, a read error, the `None` start time error, or the plotted figure, together with whether the end warning was shown |
| Detect.Detection | main.py:458-480 | the run of `detect_languages`: the checks of `Detect.PlanFor`, then the window or the whole file, then the plot; its properties are in `Detect.DetectionWarnings`, `Detect.DetectionWindow` and `Detect.DetectionWholeFile` |
| Detect.PlanFor | main.py:464-478 | the run aborts iff a start is given past the end of the audio; it cuts a window iff both times are given and the start is inside, with duration `min(end, total) - start`; otherwise it reads the whole file; the end warning is shown iff the end is past the audio's end |
| Detect.DetectionWarnings | main.py:464-472 | the start warning ends the run exactly when the start is past the end; the end warning is shown exactly when the run gets past that check and the end is past the end |
| Detect.DetectionWindow | main.py:469-480 | with both times and the start inside the audio, the window ends at `min(end, total)`; the run fails iff clipping fails; the plot holds the window's samples at the same rate and the clipped segments, with matching trace lengths |
| Detect.WindowOutcome | main.py:474-480 | with both times and the start inside the audio, the outcome is drawing the split's result, or its error |
| Detect.DetectionWholeFile | main.py:477-480 | with a time missing and a given start inside the audio, the whole file is read with offset 0 and the whole signal plotted; without a start time a non-empty signal raises |
| Detect.DrawPlotted | main.py:480 | drawing raises only without a start time and with some non-empty time array; otherwise every label has a colour and there is one trace per segment |
| Detect.Draw | main.py:480 | `plot_waveform(y, sr, segments, start_time)`: the colour map of the segments and one trace per segment, or `TypeError` when there is no start time and some time array is non-empty; its properties are in `Detect.DrawPlotted` |
| Scenarios.SampleLineFields | main.py:19 | the sample RTTM line splits into its ten fields |
| Scenarios.SampleTiming | main.py:20-21 | the sample line's start is 2.0 and its duration 3.0 |
| Scenarios.SampleParse | main.py:15-24 | `parse_rttm` reads the sample line as `(2.0 + offset, 3.0, "A")` |
| Scenarios.SampleClip | main.py:83-101 | the sample line clips to its clipped segment when it overlaps the window, and gives nothing otherwise |
| Scenarios.SampleSignal | main.py:72-77 | 160000 samples at 16 kHz last 10 s, and `int(10 * 16000)` is 160000 |
| Scenarios.WholeWindow | main.py:70-103 | the window (0, 10) returns the whole signal and the segment unchanged |
| Scenarios.LateWindow | main.py:91-94 | the window from 3 s to 8 s turns the segment from 2 s to 5 s into `(0, 3)`: its duration is not shortened by the part before the window |

## Left out

- The Qt interface, dialogs, fonts and layout are not modelled, and neither is the parsing of the typed start and end times (`prompt_times`, `get_times`). `Detect.DetectLanguages` takes the two times as `Option<real>`.
- File I/O is not modelled. The RTTM file is given as a sequence of lines, the same lines for `parse_rttm` and `split_audio_and_rttm`. `librosa.load` is replaced by a sample sequence and a rate. `librosa.get_duration` is `len(y) / sr` of a mono signal.
- Drawing is not modelled: matplotlib figures, `adjust_alpha`, the legend, the grey full-signal trace and the time values of `samples_to_time`. A trace records its point count, its samples, its palette index and its label.
- The colour values of the `tab20` colormap are not modelled; a colour is its palette index `i` of `num_labels`.
- The `ValueError` that matplotlib raises when times and samples differ in length is not modelled. `Plot.TraceLengths` states when they agree, and `Plot.TraceNegativeStart` shows a case where they do not.
- Floating point is not modelled; times are exact reals. `t * sr` is computed as `Numeric.Times`, the exact product (`Numeric.TimesIsProduct`), so rounding in `int(t * sr)` is not captured.
- Decimal.ParseFloat: `float()` is modelled for sign, digits, a decimal point and an exponent only. `inf`, `nan`, underscores between digits and non-ASCII digits are read as not a number.
- Plot.ColorsCoverLabels: a colour is modelled as its palette position. `tab20` has 20 colours, so with more than 20 labels two different positions can give the same colour; the model proves distinct positions, not distinct colours.
- Plot.Labels: Python's set iteration order is not specified. The model lists labels in order of first use, and the colour contracts only state what holds for every order: coverage, the key set, the count and injectivity.
- Detect.Draw: `times + start_time` with `start_time = None` raises `TypeError` as soon as one time array is non-empty (`Detect.HasTimes`); an empty array gives no error. The model does not say which array fails first.
