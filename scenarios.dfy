/** Worked examples: one RTTM line `SPEAKER file 1 2.0 3.0 <NA> <NA> A <NA>
    <NA>` against a 10 second signal sampled at 16 kHz. */
module Scenarios {
  import opened Wrappers
  import Text
  import Decimal
  import Numeric
  import Rttm
  import Clip

  const SampleFields: seq<string> := ["SPEAKER", "file", "1", "2.0", "3.0", "<NA>", "<NA>", "A", "<NA>", "<NA>"]

  /** The fields joined by single spaces. */
  const SampleLine: string := Text.Join(SampleFields)

  /** Each of the ten texts is a field: non-empty and without whitespace. */
  lemma SampleFieldsAreFields()
    ensures forall i | 0 <= i < |SampleFields| :: Text.IsField(SampleFields[i])
  {
    assert Text.IsField("SPEAKER");
    assert Text.IsField("file");
    assert Text.IsField("1");
    assert Text.IsField("2.0");
    assert Text.IsField("3.0");
    assert Text.IsField("<NA>");
    assert Text.IsField("A");
  }

  /** The line splits into its ten fields. */
  lemma SampleLineFields()
    ensures Rttm.Fields(SampleLine) == SampleFields
  {
    SampleFieldsAreFields();
    Text.SplitJoin(SampleFields);
    Text.SplitStrip(SampleLine);
  }


  lemma StartValue()
    ensures Decimal.ParseFloat(SampleFields[3]) == Some(2.0)
  {
    assert SampleFields[3] == "2" + "." + "0";
    Decimal.ParseFloatPoint("2", "0");
  }

  lemma DurationValue()
    ensures Decimal.ParseFloat(SampleFields[4]) == Some(3.0)
  {
    assert SampleFields[4] == "3" + "." + "0";
    Decimal.ParseFloatPoint("3", "0");
  }

  /** The line's start and duration. */
  lemma SampleTiming(line: string)
    requires Rttm.Fields(line) == SampleFields
    ensures Rttm.TimingOf(Rttm.Fields(line)) == Ok(Rttm.Timing(2.0, 3.0, SampleFields))
  {
    StartValue();
    DurationValue();
  }

  /** A file of one line reads as that line's result. */
  lemma ReadOne<T>(line: string, decode: string -> Result<T, Rttm.LineError>, item: T)
    requires decode(line) == Ok(item)
    ensures Rttm.ReadAll([line], decode) == Ok([item])
  {
    assert [line][..0] == [];
    Rttm.ReadAllExtend([line], 0, decode, [], item);
    assert [line][..1] == [line];
    assert [] + [item] == [item];
  }

  /** `parse_rttm` reads the line as a segment from 2.0 to 5.0 labelled A,
      moved by the offset. */
  lemma SampleParse(line: string, offset: real)
    requires Rttm.Fields(line) == SampleFields
    ensures Rttm.ParseLines([line], offset) == Ok([Rttm.Segment(2.0 + offset, 3.0, "A")])
  {
    var segment := Rttm.Segment(2.0 + offset, 3.0, "A");
    assert Rttm.DecodeLine(line, offset) == Ok(segment) by {
      SampleTiming(line);
    }
    ReadOne(line, Rttm.LineDecoder(offset), segment);
  }

  /** The line's segment clipped to a window. */
  lemma SampleClip(line: string, ws: real, we: real)
    requires Rttm.Fields(line) == SampleFields
    ensures Clip.ClipLines([line], ws, we)
         == Ok(if Clip.Overlaps(2.0, 3.0, ws, we) then [Clip.Clipped(2.0, 3.0, "A", ws, we)] else [])
  {
    var kept := if Clip.Overlaps(2.0, 3.0, ws, we) then Some(Clip.Clipped(2.0, 3.0, "A", ws, we)) else None;
    assert Clip.ClipLine(line, ws, we) == Ok(kept) by {
      SampleTiming(line);
    }
    ReadOne(line, Clip.Clipper(ws, we), kept);
    assert Clip.Somes([kept]) == if kept.Some? then [kept.value] else [];
  }

  /** Both windows lie inside a 160000-sample signal at 16 kHz. */
  lemma SampleSignal(y: seq<real>)
    requires |y| == 160000
    ensures Clip.TotalDuration(|y|, 16000) == 10.0
    ensures Numeric.Trunc(Numeric.Times(10.0, 16000)) == 160000
  {
    Numeric.TimesIsProduct(10.0, 16000);
  }

  /** Window (0, 10): the whole signal and the segment as it is. */
  lemma WholeWindow(y: seq<real>)
    requires |y| == 160000
    ensures Clip.Split(y, 16000, [SampleLine], 0.0, 10.0)
         == Ok(Clip.Window(y, 16000, [Rttm.Segment(2.0, 3.0, "A")]))
  {
    SampleSignal(y);
    Numeric.TimesOfZero(16000);
    assert Clip.WindowEnd(0.0, 10.0, 10.0) == 10.0;
    assert Clip.WindowSamples(y, 16000, 0.0, 10.0) == y[0..160000];
    assert y[0..160000] == y;
    SampleLineFields();
    SampleClip(SampleLine, 0.0, 10.0);
  }

  /** Window (3, 5), that is 3 to 8 seconds: the segment 2 to 5 starts
      before the window, so it starts at 0, but keeps its full duration 3. */
  lemma LateWindow(y: seq<real>)
    requires |y| == 160000
    ensures Clip.Split(y, 16000, [SampleLine], 3.0, 5.0).Ok?
    ensures Clip.Split(y, 16000, [SampleLine], 3.0, 5.0).value.segments == [Rttm.Segment(0.0, 3.0, "A")]
  {
    SampleSignal(y);
    assert Clip.WindowEnd(3.0, 5.0, 10.0) == 8.0;
    SampleLineFields();
    SampleClip(SampleLine, 3.0, 8.0);
  }
}
