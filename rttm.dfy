/** Reading NIST RTTM (Rich Transcription Time-Marked) lines into labelled
    segments: `parse_rttm` in main.py. Each line is split on whitespace;
    field 3 is the start time, field 4 the duration and field 7 the label.
    Nothing is validated, and the first bad line aborts the whole read. */
module Rttm {
  import opened Wrappers
  import Text
  import Decimal

  /** One `{"start", "duration", "label"}` dictionary of the segment list;
      `tag` is the "label" entry (`label` is a Dafny keyword). */
  datatype Segment = Segment(start: real, duration: real, tag: string)

  /** The exception a bad line raises: `IndexError` when a field is
      missing, `ValueError` when `float()` rejects a field. */
  datatype LineError = MissingField(index: nat) | NotANumber(index: nat)

  const StartField: nat := 3
  const DurationField: nat := 4
  const LabelField: nat := 7

  /** `parts[i]`. */
  function Field(parts: seq<string>, i: nat): (r: Result<string, LineError>)
    ensures r.Ok? <==> i < |parts|
    ensures r.Ok? ==> r.value == parts[i]
    ensures r.Err? ==> r.error == MissingField(i)
  {
    if i < |parts| then Ok(parts[i]) else Err(MissingField(i))
  }

  /** `float(parts[i])`. */
  function NumberField(parts: seq<string>, i: nat): (r: Result<real, LineError>)
    ensures r.Ok? <==> i < |parts| && Decimal.ParseFloat(parts[i]).Some?
    ensures r.Ok? ==> r.value == Decimal.ParseFloat(parts[i]).value
    ensures r.Err? ==> r.error == (if i < |parts| then NotANumber(i) else MissingField(i))
  {
    var text :- Field(parts, i);
    match Decimal.ParseFloat(text)
    case None => Err(NotANumber(i))
    case Some(v) => Ok(v)
  }

  /** The start and duration of a line, with the line's fields. */
  datatype Timing = Timing(start: real, duration: real, fields: seq<string>)

  /** `parts = line.strip().split()`. */
  function Fields(line: string): (parts: seq<string>) {
    Text.Split(Text.Strip(line))
  }

  /** `float(parts[3])`, then `float(parts[4])`: the decoding both readers
      share. */
  function TimingOf(parts: seq<string>): (r: Result<Timing, LineError>) {
    var start :- NumberField(parts, StartField);
    var duration :- NumberField(parts, DurationField);
    Ok(Timing(start, duration, parts))
  }

  /** The segment `parse_rttm` builds from a line's fields, its start
      shifted by `offset`; `parts[7]` is read last. */
  function SegmentOf(parts: seq<string>, offset: real): (r: Result<Segment, LineError>) {
    SegmentFrom(TimingOf(parts), offset)
  }

  /** The segment of a decoded start and duration: `parts[7]` as its label. */
  function SegmentFrom(timing: Result<Timing, LineError>, offset: real): (r: Result<Segment, LineError>) {
    var t :- timing;
    var tag :- Field(t.fields, LabelField);
    Ok(Segment(t.start + offset, t.duration, tag))
  }

  /** One line as `parse_rttm` reads it. */
  function DecodeLine(line: string, offset: real): (r: Result<Segment, LineError>) {
    SegmentOf(Fields(line), offset)
  }

  /** Reads `lines` one by one with `decode`, keeping the results in file
      order and stopping at the first line that fails. */
  function ReadAll<T>(lines: seq<string>, decode: string -> Result<T, LineError>): (r: Result<seq<T>, LineError>) {
    if lines == [] then Ok([])
    else
      var init :- ReadAll(lines[..|lines| - 1], decode);
      var item :- decode(lines[|lines| - 1]);
      Ok(init + [item])
  }

  function LineDecoder(offset: real): (decode: string -> Result<Segment, LineError>) {
    line => DecodeLine(line, offset)
  }

  /** The segment list `parse_rttm` returns, or the exception it raises:
      one segment per line, in file order, stopping at the first bad line. */
  function ParseLines(lines: seq<string>, offset: real): (r: Result<seq<Segment>, LineError>) {
    ReadAll(lines, LineDecoder(offset))
  }

  /** `parse_rttm(filename, offset)` over the file's lines: appends one
      segment per line to a list, and raises at the first bad line. */
  method ParseRttm(lines: seq<string>, offset: real) returns (r: Result<seq<Segment>, LineError>)
    ensures r == ParseLines(lines, offset)
  {
    var segments: seq<Segment> := [];
    var i := 0;
    while i < |lines|
      invariant 0 <= i <= |lines|
      invariant ParseLines(lines[..i], offset) == Ok(segments)
    {
      var decoded := DecodeLine(lines[i], offset);
      assert lines[..i + 1][..i] == lines[..i];
      if decoded.Err? {
        ParseLinesStopsAtError(lines, i + 1, offset);
        return Err(decoded.error);
      }
      segments := segments + [decoded.value];
      i := i + 1;
    }
    assert lines[..i] == lines;
    r := Ok(segments);
  }

  /** Once a prefix of the lines fails, the whole read fails the same way. */
  lemma {:induction false} ReadAllStopsAtError<T>(lines: seq<string>, k: nat, decode: string -> Result<T, LineError>)
    requires k <= |lines| && ReadAll(lines[..k], decode).Err?
    ensures ReadAll(lines, decode) == ReadAll(lines[..k], decode)
    decreases |lines| - k
  {
    if k < |lines| {
      assert lines[..k + 1][..k] == lines[..k];
      ReadAllStopsAtError(lines, k + 1, decode);
    } else {
      assert lines[..k] == lines;
    }
  }

  /** Reading one more line that decodes appends its item. */
  lemma ReadAllExtend<T>(lines: seq<string>, i: nat, decode: string -> Result<T, LineError>, items: seq<T>, item: T)
    requires i < |lines|
    requires ReadAll(lines[..i], decode) == Ok(items) && decode(lines[i]) == Ok(item)
    ensures ReadAll(lines[..i + 1], decode) == Ok(items + [item])
  {
    assert lines[..i + 1][..i] == lines[..i];
  }

  /** Reading one more line that fails fails with its error. */
  lemma ReadAllFailsAt<T>(lines: seq<string>, i: nat, decode: string -> Result<T, LineError>)
    requires i < |lines|
    requires ReadAll(lines[..i], decode).Ok? && decode(lines[i]).Err?
    ensures ReadAll(lines[..i + 1], decode) == Err(decode(lines[i]).error)
  {
    assert lines[..i + 1][..i] == lines[..i];
  }

  lemma ParseLinesStopsAtError(lines: seq<string>, k: nat, offset: real)
    requires k <= |lines| && ParseLines(lines[..k], offset).Err?
    ensures ParseLines(lines, offset) == ParseLines(lines[..k], offset)
  {
    ReadAllStopsAtError(lines, k, LineDecoder(offset));
  }

  /** A line decodes exactly when it has at least eight fields and fields
      3 and 4 are numbers; the segment then holds those fields. */
  lemma SegmentOfFields(parts: seq<string>, offset: real)
    ensures SegmentOf(parts, offset).Ok?
        <==> |parts| >= 8 && Decimal.ParseFloat(parts[3]).Some? && Decimal.ParseFloat(parts[4]).Some?
    ensures SegmentOf(parts, offset).Ok? ==>
      SegmentOf(parts, offset).value
        == Segment(Decimal.ParseFloat(parts[3]).value + offset, Decimal.ParseFloat(parts[4]).value, parts[7])
  {
  }

  /** The error names the first field, in Python's evaluation order, that is
      missing or is not a number. */
  lemma SegmentOfError(parts: seq<string>, offset: real)
    requires SegmentOf(parts, offset).Err?
    ensures match SegmentOf(parts, offset).error
      case MissingField(i) =>
        (i == StartField || i == DurationField || i == LabelField) && |parts| <= i
        && (i > StartField ==> Decimal.ParseFloat(parts[StartField]).Some?)
        && (i > DurationField ==> Decimal.ParseFloat(parts[DurationField]).Some?)
      case NotANumber(i) =>
        (i == StartField || i == DurationField) && i < |parts| && Decimal.ParseFloat(parts[i]).None?
        && (i == DurationField ==> Decimal.ParseFloat(parts[StartField]).Some?)
  {
  }

  /** A blank line (or one of whitespace only) aborts the read: `parts[3]`
      raises `IndexError`. */
  lemma BlankLineFails(line: string, offset: real)
    requires Text.AllSpace(line)
    ensures DecodeLine(line, offset) == Err(MissingField(StartField))
  {
    Text.SplitStrip(line);
    Text.SplitAllSpace(line);
  }

  /** A read succeeds exactly when every line decodes, and then holds one
      item per line, in order. */
  lemma {:induction false} ReadAllEvery<T>(lines: seq<string>, decode: string -> Result<T, LineError>)
    ensures ReadAll(lines, decode).Ok? <==> forall i | 0 <= i < |lines| :: decode(lines[i]).Ok?
    ensures ReadAll(lines, decode).Ok? ==>
      var items := ReadAll(lines, decode).value;
      |items| == |lines| && forall i | 0 <= i < |lines| :: items[i] == decode(lines[i]).value
  {
    if lines != [] {
      var init := lines[..|lines| - 1];
      ReadAllEvery(init, decode);
      assert forall i | 0 <= i < |init| :: lines[i] == init[i];
    }
  }

  /** A failed read fails with the error of its first bad line. */
  lemma {:induction false} ReadAllFirstError<T>(lines: seq<string>, decode: string -> Result<T, LineError>)
    requires ReadAll(lines, decode).Err?
    ensures exists k | 0 <= k < |lines| ::
      decode(lines[k]) == Err(ReadAll(lines, decode).error)
      && forall i | 0 <= i < k :: decode(lines[i]).Ok?
  {
    var init := lines[..|lines| - 1];
    var k := |lines| - 1;
    assert forall i | 0 <= i < |init| :: lines[i] == init[i];
    if ReadAll(init, decode).Err? {
      ReadAllFirstError(init, decode);
    } else {
      ReadAllEvery(init, decode);
      assert decode(lines[k]) == Err(ReadAll(lines, decode).error);
    }
  }

  /** The read succeeds exactly when every line decodes, and then gives one
      segment per line, in file order. */
  lemma ParseLinesAll(lines: seq<string>, offset: real)
    ensures ParseLines(lines, offset).Ok?
        <==> forall i | 0 <= i < |lines| :: DecodeLine(lines[i], offset).Ok?
    ensures ParseLines(lines, offset).Ok? ==>
      var segments := ParseLines(lines, offset).value;
      |segments| == |lines|
      && forall i | 0 <= i < |lines| :: segments[i] == DecodeLine(lines[i], offset).value
  {
    ReadAllEvery(lines, LineDecoder(offset));
  }

  /** A failed read fails with the error of its first bad line. */
  lemma ParseLinesFirstError(lines: seq<string>, offset: real)
    requires ParseLines(lines, offset).Err?
    ensures exists k | 0 <= k < |lines| ::
      DecodeLine(lines[k], offset) == Err(ParseLines(lines, offset).error)
      && forall i | 0 <= i < k :: DecodeLine(lines[i], offset).Ok?
  {
    ReadAllFirstError(lines, LineDecoder(offset));
  }

  /** A line with fewer than eight fields anywhere in the file makes the
      whole read fail, with no partial result. */
  lemma ShortLineFails(lines: seq<string>, offset: real, k: nat)
    requires k < |lines| && |Fields(lines[k])| < 8
    ensures ParseLines(lines, offset).Err?
  {
    SegmentOfFields(Fields(lines[k]), offset);
    ParseLinesAll(lines, offset);
  }

  /** Every start moved by `offset`. */
  function ShiftStarts(segments: seq<Segment>, offset: real): (r: seq<Segment>)
    ensures |r| == |segments|
  {
    seq(|segments|, i requires 0 <= i < |segments| => segments[i].(start := segments[i].start + offset))
  }

  function ShiftResult(r: Result<Segment, LineError>, offset: real): (shifted: Result<Segment, LineError>) {
    match r
    case Ok(s) => Ok(s.(start := s.start + offset))
    case Err(e) => Err(e)
  }

  /** A decoder whose results are another's with every start moved reads a
      file as the other does, with every start moved. */
  lemma {:induction false} ReadAllShift(lines: seq<string>, base: string -> Result<Segment, LineError>,
                                        decode: string -> Result<Segment, LineError>, offset: real)
    requires forall line :: decode(line) == ShiftResult(base(line), offset)
    ensures ReadAll(lines, decode)
         == match ReadAll(lines, base)
            case Ok(segments) => Ok(ShiftStarts(segments, offset))
            case Err(e) => Err(e)
  {
    if lines != [] {
      var init := lines[..|lines| - 1];
      ReadAllShift(init, base, decode, offset);
      var last := lines[|lines| - 1];
      if ReadAll(init, base).Ok? && base(last).Ok? {
        var segments := ReadAll(init, base).value;
        var s := base(last).value;
        assert ShiftStarts(segments + [s], offset) == ShiftStarts(segments, offset) + [s.(start := s.start + offset)];
      }
    }
  }

  /** Decoding with an offset is decoding with offset 0 and moving the start. */
  lemma SegmentOfOffset(parts: seq<string>, offset: real)
    ensures SegmentOf(parts, offset) == ShiftResult(SegmentOf(parts, 0.0), offset)
  {
    SegmentFromOffset(TimingOf(parts), offset);
  }

  lemma SegmentFromOffset(timing: Result<Timing, LineError>, offset: real)
    ensures SegmentFrom(timing, offset) == ShiftResult(SegmentFrom(timing, 0.0), offset)
  {
  }

  /** Reading with an offset is reading with offset 0 and then shifting
      every start by the offset; successes and errors are otherwise equal. */
  lemma ParseLinesOffset(lines: seq<string>, offset: real)
    ensures ParseLines(lines, offset)
         == match ParseLines(lines, 0.0)
            case Ok(segments) => Ok(ShiftStarts(segments, offset))
            case Err(e) => Err(e)
  {
    forall line
      ensures LineDecoder(offset)(line) == ShiftResult(LineDecoder(0.0)(line), offset)
    {
      SegmentOfOffset(Fields(line), offset);
    }
    ReadAllShift(lines, LineDecoder(0.0), LineDecoder(offset), offset);
  }
}
