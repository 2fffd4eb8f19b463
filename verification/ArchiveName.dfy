/** Printing the file name of an archive batch, and reading a name back. */
module ArchiveName {
  import opened Wrappers
  import opened Numerals
  import opened ArchiveGrammar
  import opened AudioBitmap
  import opened Stamps

  /** A media segment as far as names go; a stream id stands for its 12-digit digest. */
  datatype Segment = Segment(clip: Clip, stream: Option<string>)

  /** `stamp` is the local time of the first segment, to the second. */
  datatype Batch = Batch(stamp: Stamp, firstSequence: nat, segments: seq<Segment>, objectId: string)

  predicate WellFormed(b: Batch) {
    && b.segments != []
    && Legal(b.stamp)
    && |b.objectId| == 12 && Hex(b.objectId)
    && forall i :: 0 <= i < |b.segments| && b.segments[i].stream.Some? ==>
         |b.segments[i].stream.value| == 12 && Hex(b.segments[i].stream.value)
  }

  function Clips(b: Batch): seq<Clip> {
    seq(|b.segments|, i requires 0 <= i < |b.segments| => b.segments[i].clip)
  }

  function Millis(b: Batch): nat { RoundMillis(Total(Clips(b))) }

  /** The stream of a batch that comes from one stream only. */
  function StreamOf(b: Batch): (r: Option<string>)
    ensures forall stream: string :: r == Some(stream) <==>
              b.segments != [] && forall i :: 0 <= i < |b.segments| ==> b.segments[i].stream == Some(stream)
  {
    if b.segments != [] && forall i :: 0 <= i < |b.segments| ==> b.segments[i].stream == b.segments[0].stream
    then b.segments[0].stream
    else None
  }

  function StreamTag(stream: Option<string>): string {
    match stream
    case None => "snone"
    case Some(digest) => "s" + digest
  }

  predicate Measured(clips: seq<Clip>) {
    exists k :: 0 <= k < |clips| && clips[k].measured
  }

  function AudioTagOf(clips: seq<Clip>): Option<AudioTag> {
    if !Measured(clips) then None
    else Some(AudioTag(Padded(Step(Total(clips)), 0, 10),
                       Padded(BitsValue(Marks(clips)), CeilDiv(|Marks(clips)|, 4), 16)))
  }

  method AudioFilenameTag(clips: seq<Clip>) returns (tag: Option<AudioTag>)
    ensures tag == AudioTagOf(clips)
  {
    if !Measured(clips) {
      return None;
    }
    var step, marks := FillSlots(clips);
    tag := Some(AudioTag(Padded(step, 0, 10), Padded(BitsValue(marks), CeilDiv(|marks|, 4), 16)));
  }

  function PrintedFields(b: Batch, encrypted: bool): Fields {
    Fields(StampText(b.stamp), Padded(b.firstSequence, 12, 10), Padded(Millis(b), 9, 10),
           StreamTag(StreamOf(b)), AudioTagOf(Clips(b)), b.objectId, encrypted)
  }

  /** The last component of the batch's object path. */
  function ArchiveFilename(b: Batch, encrypted: bool): string {
    Layout(PrintedFields(b, encrypted))
  }

  // ---- Reading ------------------------------------------------------------

  /** `start` is the instant in UTC. */
  datatype ParsedName = ParsedName(
    start: int, millis: nat, sequence: nat, stream: Option<string>,
    objectId: string, points: seq<Point>, encrypted: bool)

  /** Reading a name divides by the bitmap's step, which a foreign name may give as zero. */
  datatype Reading = NoMatch | DivisionByZero | Parsed(name: ParsedName)

  function ParseArchiveFilename(name: string): Reading {
    match Split(name)
    case Some(f) =>
      var stamp, millis := ReadStamp(f.stamp), Value(f.duration, 10);
      if stamp.None? then NoMatch
      else if f.audio.Some? && Value(f.audio.value.step, 10) == 0 then DivisionByZero
      else
        var points :=
          if f.audio.None? then []
          else DecodePoints(Value(f.audio.value.bits, 16), Value(f.audio.value.step, 10), millis);
        Parsed(ParsedName(UtcSeconds(stamp.value), millis, Value(f.sequence, 10),
                          if f.stream == "snone" then None else Some(f.stream[1..]),
                          f.objectId, points, f.encrypted))
    case None =>
      match SplitLegacy(name)
      case None => NoMatch
      case Some(f) =>
        if ReadStamp(f.stamp).None? then NoMatch
        else Parsed(ParsedName(UtcSeconds(ReadStamp(f.stamp).value), Value(f.duration, 10), Value(f.sequence, 10),
              None, f.objectId, [], false))
  }

  // ---- Round trip ---------------------------------------------------------

  /** The fixed-width fields hold the batch's numbers. */
  predicate Fits(b: Batch) {
    b.firstSequence < Power(10, 12) && Millis(b) < Power(10, 9)
  }

  /** What a name can tell of a batch. */
  function Recoverable(b: Batch, encrypted: bool): ParsedName {
    var clips := Clips(b);
    var points :=
      if Measured(clips) then DecodePoints(BitsValue(Marks(clips)), Step(Total(clips)), Millis(b)) else [];
    ParsedName(UtcSeconds(b.stamp), Millis(b), b.firstSequence, StreamOf(b), b.objectId, points, encrypted)
  }

  /** A printed name reads back to its batch exactly when the numbers fit their fields; when they
      do not, it is no archive name at all. */
  lemma {:induction false} NameRoundTrip(b: Batch, encrypted: bool)
    requires WellFormed(b)
    ensures ParseArchiveFilename(ArchiveFilename(b, encrypted))
         == if Fits(b) then Parsed(Recoverable(b, encrypted)) else NoMatch
  {
    hide Padded, Value, Power, AllDigits, RoundMillis, Total, Marks, BitsValue, Step, DecodePoints, IsAudio, Measured;
    hide Layout, Split, SplitLegacy, AudioTagOf, StreamOf, StreamTag, StampText, ReadStamp, UtcSeconds, Legal;
    StampRoundTrip(b.stamp);
    var f, clips := PrintedFields(b, encrypted), Clips(b);
    NoMeasure(clips);
    PaddedWidth(b.firstSequence, 12, 10);
    PaddedWidth(Millis(b), 9, 10);
    PaddedIsDigits(b.firstSequence, 12, 10);
    PaddedIsDigits(Millis(b), 9, 10);
    if Fits(b) {
      PaddedRoundTrip(b.firstSequence, 12, 10);
      PaddedRoundTrip(Millis(b), 9, 10);
      StreamTagIsValid(b);
      if Measured(clips) { AudioTagFits(clips); }
      assert Valid(f);
      SplitRoundTrip(f);
    } else {
      OverflowBreaksHead(f);
    }
  }

  /** A name of the first release tells its time, sequence number, duration and id, and nothing else. */
  lemma {:induction false} LegacyNameRoundTrip(s: Stamp, sequence: nat, millis: nat, objectId: string)
    requires Legal(s) && sequence < Power(10, 12) && millis < Power(10, 9) && |objectId| == 6 && Hex(objectId)
    ensures var f := LegacyFields(StampText(s), Padded(sequence, 12, 10), Padded(millis, 9, 10), objectId);
            ParseArchiveFilename(LegacyLayout(f))
            == Parsed(ParsedName(UtcSeconds(s), millis, sequence, None, objectId, [], false))
  {
    hide Padded, Value, Power, AllDigits, LegacyLayout, Split, SplitLegacy, StampText, ReadStamp, UtcSeconds, Legal;
    StampRoundTrip(s);
    PaddedWidth(sequence, 12, 10);
    PaddedWidth(millis, 9, 10);
    PaddedIsDigits(sequence, 12, 10);
    PaddedIsDigits(millis, 9, 10);
    PaddedRoundTrip(sequence, 12, 10);
    PaddedRoundTrip(millis, 9, 10);
    var f := LegacyFields(StampText(s), Padded(sequence, 12, 10), Padded(millis, 9, 10), objectId);
    LegacyRoundTrip(f);
    PatternsAreDisjoint(LegacyLayout(f));
  }

  lemma {:induction false} OneDigit(n: nat, width: nat)
    requires width >= 2
    ensures Padded(n, width, 10) == Padded(n / 10, width - 1, 10) + [DigitChar(n % 10)]
  {
    if n < 10 {
      assert n / 10 == 0 && n % 10 == n;
    }
  }

  lemma {:induction false} TwoDigits(n: nat)
    requires n < 100
    ensures Padded(n, 2, 10) == [DigitChar(n / 10), DigitChar(n % 10)]
  {
    OneDigit(n, 2);
    assert Padded(n / 10, 1, 10) == [DigitChar(n / 10)];
  }

  lemma {:induction false} Zeros(width: nat)
    requires width >= 1
    ensures Padded(0, width, 10) == seq(width, _ => '0')
  {
    if width > 1 {
      Zeros(width - 1);
      OneDigit(0, width);
    }
  }

  lemma {:induction false} SampleStamp(s: Stamp)
    requires s == Stamp(2026, 9, 4, 20, 0, 0, true, 8, 0)
    ensures StampText(s) == "20260904T200000+0800" && Legal(s) && UtcSeconds(s) == 63_924_120_000
  {
    TwoDigits(9);
    TwoDigits(4);
    TwoDigits(20);
    TwoDigits(0);
    TwoDigits(8);
    OneDigit(2026, 4);
    OneDigit(202, 3);
    MonthsBegin(s.year);
    hide Padded, DaysBeforeMonth;
  }

  lemma {:induction false} SampleSequence()
    ensures Padded(120, 12, 10) == "000000000120"
  {
    hide Padded;
    OneDigit(120, 12);
    OneDigit(12, 11);
    OneDigit(1, 10);
    Zeros(9);
  }

  lemma {:induction false} SampleDuration()
    ensures Padded(300_000, 9, 10) == "000300000"
  {
    hide Padded;
    OneDigit(300_000, 9);
    OneDigit(30_000, 8);
    OneDigit(3000, 7);
    OneDigit(300, 6);
    OneDigit(30, 5);
    OneDigit(3, 4);
    Zeros(3);
  }

  lemma {:induction false} SampleLayout(f: LegacyFields)
    requires f == LegacyFields("20260904T200000+0800", "000000000120", "000300000", "a1b2c3")
    ensures LegacyLayout(f) == "20260904T200000+0800_000000000120_000300000ms_a1b2c3.ts"
  {
    assert f.stamp + "_" + f.sequence == "20260904T200000+0800_000000000120";
    assert "_" + f.duration + "ms_" == "_000300000ms_";
    assert f.objectId + ".ts" == "a1b2c3.ts";
  }

  /** One such name, of a recording that began at noon UTC on the fourth of September 2026. */
  lemma {:induction false} SampleName(name: string)
    requires name == "20260904T200000+0800_000000000120_000300000ms_a1b2c3.ts"
    ensures ParseArchiveFilename(name)
         == Parsed(ParsedName(63_924_120_000, 300_000, 120, None, "a1b2c3", [], false))
  {
    hide Padded, ParseArchiveFilename, StampText, UtcSeconds, Legal, LegacyLayout, Power;
    var s := Stamp(2026, 9, 4, 20, 0, 0, true, 8, 0);
    var f := LegacyFields(StampText(s), Padded(120, 12, 10), Padded(300_000, 9, 10), "a1b2c3");
    SampleStamp(s);
    SampleSequence();
    SampleDuration();
    SampleLayout(f);
    Powers();
    LegacyNameRoundTrip(s, 120, 300_000, "a1b2c3");
  }

  lemma {:induction false} NoMeasure(clips: seq<Clip>)
    ensures AudioTagOf(clips).Some? <==> Measured(clips)
  {
  }

  lemma {:induction false} StreamTagIsValid(b: Batch)
    requires WellFormed(b)
    ensures IsStream(StreamTag(StreamOf(b)))
    ensures StreamTag(StreamOf(b)) == "snone" <==> StreamOf(b).None?
    ensures StreamOf(b).Some? ==> StreamTag(StreamOf(b))[1..] == StreamOf(b).value
  {
    var tag := StreamTag(StreamOf(b));
    if StreamOf(b).Some? {
      assert tag[1..] == StreamOf(b).value;
      assert |tag| == 13;
    }
  }

  /** Within range the step takes at most four digits and the bitmap at most 32. */
  lemma {:induction false} AudioTagFits(clips: seq<Clip>)
    requires Measured(clips) && RoundMillis(Total(clips)) < Power(10, 9)
    ensures var tag := AudioTagOf(clips).value;
            && IsAudio(tag)
            && Value(tag.step, 10) == Step(Total(clips))
            && Value(tag.bits, 16) == BitsValue(Marks(clips))
  {
    var total := Total(clips);
    var step, n := Step(total), |Marks(clips)|;
    Powers();
    RoundNear(total);
    CeilDivIs(total, MAX_SLOTS * MICROS, 9999);
    PaddedIsDigits(step, 0, 10);
    PaddedRoundTrip(step, 0, 10);
    ShortNumeral(step);
    var v, w := BitsValue(Marks(clips)), CeilDiv(n, 4);
    SlotBound(total);
    CeilDivIs(n, 4, 32);
    CeilDivIs(n, 4, 0);
    CeilDivIs(n, 4, w);
    BitsBound(Marks(clips), w);
    PaddedWidth(v, w, 16);
    PaddedIsDigits(v, w, 16);
    PaddedRoundTrip(v, w, 16);
  }

  lemma {:induction false} ShortNumeral(n: nat)
    requires n < 10_000
    ensures 1 <= |Padded(n, 0, 10)| <= 4
  {
    assert n / 10 < 1000 && n / 10 / 10 < 100 && n / 10 / 10 / 10 < 10;
    assert |Padded(n / 10 / 10 / 10, 0, 10)| == 1;
    assert |Padded(n / 10 / 10, 0, 10)| <= 2;
    assert |Padded(n / 10, 0, 10)| <= 3;
  }

  /** Four bits to a hexadecimal digit. */
  lemma {:induction false} BitsBound(bits: seq<bool>, w: nat)
    requires |bits| <= w * 4
    ensures BitsValue(bits) < Power(16, w)
    decreases w
  {
    if w > 0 {
      var k := 4 * (w - 1);
      if |bits| <= k {
        BitsBound(bits, w - 1);
      } else {
        BitsBound(bits[..k], w - 1);
        FourMoreBits(bits, k, Power(16, w - 1));
      }
    }
  }

  lemma {:induction false} FourMoreBits(bits: seq<bool>, k: nat, p: nat)
    requires k <= |bits| <= k + 4 && BitsValue(bits[..k]) < p
    ensures BitsValue(bits) < 16 * p
  {
    BitStep(bits, k);
    BitStep(bits, k + 1);
    BitStep(bits, k + 2);
    BitStep(bits, k + 3);
    assert bits[..|bits|] == bits;
  }

  lemma {:induction false} BitStep(bits: seq<bool>, k: nat)
    ensures k < |bits| ==> BitsValue(bits[..k + 1]) <= 2 * BitsValue(bits[..k]) + 1
  {
    if k < |bits| { assert bits[..k + 1][..k] == bits[..k]; }
  }

  /** A number too wide for its field puts a digit where the pattern wants a separator. */
  lemma {:induction false} OverflowBreaksHead(f: Fields)
    requires IsStamp(f.stamp) && Decimal(f.sequence) && Decimal(f.duration)
    requires |f.sequence| >= 12 && |f.duration| >= 9
    requires |f.sequence| > 12 || |f.duration| > 9
    ensures Split(Layout(f)).None? && SplitLegacy(Layout(f)).None?
  {
    var tail := f.stream + "_" + AudioText(f.audio) + TailText(f.objectId, f.encrypted);
    LayoutGroups(f, tail);
    hide Layout, Split, SplitLegacy;
    FieldAt(f.stamp, f.sequence, "_" + f.duration + ("ms_" + tail));
    FieldAt(f.stamp + "_" + f.sequence, f.duration, "ms_" + tail);
    if |f.sequence| == 12 {
      assert IsDigit(f.duration[9], 10);
    } else {
      assert IsDigit(f.sequence[12], 10);
    }
    HeadNeedsSeparators(Layout(f));
  }

  lemma {:induction false} LayoutGroups(f: Fields, tail: string)
    requires tail == f.stream + "_" + AudioText(f.audio) + TailText(f.objectId, f.encrypted)
    ensures Layout(f) == f.stamp + "_" + f.sequence + ("_" + f.duration + ("ms_" + tail))
    ensures Layout(f) == (f.stamp + "_" + f.sequence) + "_" + f.duration + ("ms_" + tail)
  {
  }

  lemma {:induction false} HeadNeedsSeparators(name: string)
    requires |name| >= HEAD && (IsDigit(name[33], 10) || IsDigit(name[43], 10))
    ensures Split(name).None? && SplitLegacy(name).None?
  {
    assert SplitHead(name).None? by {
      hide IsHead, Split, SplitLegacy;
      assert name[43..HEAD][0] == name[43];
    }
    hide SplitHead, SplitStream, SplitAudio, SplitTail;
  }

  lemma {:induction false} FieldAt(before: string, field: string, after: string)
    ensures var text := before + "_" + field + after;
            forall i :: 0 <= i < |field| ==> text[|before| + 1 + i] == field[i]
  {
  }

  // ---- Foreign names ------------------------------------------------------

  lemma {:induction false} ZeroValue(text: string)
    requires Decimal(text)
    ensures Value(text, 10) == 0 <==> forall i :: 0 <= i < |text| ==> text[i] == '0'
  {
    if text != "" {
      var init := text[..|text| - 1];
      assert forall i :: 0 <= i < |init| ==> init[i] == text[i];
      ZeroValue(init);
      assert IsDigit(text[|text| - 1], 10);
    }
  }

  /** Reading fails with a division by zero exactly on a name with a legal time whose bitmap step is
      all zeros. */
  lemma {:induction false} ZeroStepRaises(f: Fields)
    requires Valid(f)
    ensures ParseArchiveFilename(Layout(f)) == DivisionByZero
       <==> ReadStamp(f.stamp).Some? && f.audio.Some? && forall i :: 0 <= i < |f.audio.value.step| ==>
             f.audio.value.step[i] == '0'
  {
    SplitRoundTrip(f);
    if f.audio.Some? { ZeroValue(f.audio.value.step); }
  }
}
