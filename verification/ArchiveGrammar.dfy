/** The grammar of archive file names, and a splitter that decides it. */
module ArchiveGrammar {
  import opened Wrappers
  import opened Numerals

  datatype AudioTag = AudioTag(step: string, bits: string)

  /** The groups of the current name pattern. */
  datatype Fields = Fields(
    stamp: string, sequence: string, duration: string, stream: string,
    audio: Option<AudioTag>, objectId: string, encrypted: bool)

  predicate Decimal(text: string) { AllDigits(text, 10) }

  predicate Hex(text: string) { AllDigits(text, 16) }

  /** YYYYMMDDTHHMMSS, a sign and a four-digit offset. */
  predicate IsStamp(text: string) {
    && |text| == 20
    && Decimal(text[..8])
    && text[8] == 'T'
    && Decimal(text[9..15])
    && (text[15] == '+' || text[15] == '-')
    && Decimal(text[16..])
  }

  predicate IsStream(text: string) {
    text == "snone" || (|text| == 13 && text[0] == 's' && Hex(text[1..]))
  }

  predicate IsAudio(tag: AudioTag) {
    && 1 <= |tag.step| <= 4 && Decimal(tag.step)
    && 1 <= |tag.bits| <= 64 && Hex(tag.bits)
  }

  predicate IsHead(stamp: string, sequence: string, duration: string) {
    && IsStamp(stamp)
    && |sequence| == 12 && Decimal(sequence)
    && |duration| == 9 && Decimal(duration)
  }

  /** The character classes and widths that the pattern asks of its groups. */
  predicate Valid(f: Fields) {
    && IsHead(f.stamp, f.sequence, f.duration)
    && IsStream(f.stream)
    && (f.audio.Some? ==> IsAudio(f.audio.value))
    && |f.objectId| == 12 && Hex(f.objectId)
  }

  function HeadText(stamp: string, sequence: string, duration: string): string {
    stamp + "_" + sequence + "_" + duration + "ms_"
  }

  function AudioText(audio: Option<AudioTag>): string {
    match audio
    case None => ""
    case Some(tag) => "a" + tag.step + "x" + tag.bits + "_"
  }

  function TailText(objectId: string, encrypted: bool): string {
    objectId + if encrypted then ".ts.enc" else ".ts"
  }

  /** The name with these groups. A name matches the pattern, with groups f, when f is valid
      and this is the name. */
  function Layout(f: Fields): string {
    HeadText(f.stamp, f.sequence, f.duration) + f.stream + "_" + AudioText(f.audio) + TailText(f.objectId, f.encrypted)
  }

  // ---- Splitting a name ---------------------------------------------------

  const HEAD := 46

  function SplitHead(name: string): (r: Option<(string, string, string)>)
    ensures r.Some? ==>
              && |name| >= HEAD && IsHead(r.value.0, r.value.1, r.value.2)
              && name == HeadText(r.value.0, r.value.1, r.value.2) + name[HEAD..]
  {
    if |name| < HEAD then None
    else
      var stamp, sequence, duration := name[..20], name[21..33], name[34..43];
      if name[20] == '_' && name[33] == '_' && name[43..HEAD] == "ms_" && IsHead(stamp, sequence, duration) then
        assert name == HeadText(stamp, sequence, duration) + name[HEAD..];
        Some((stamp, sequence, duration))
      else None
  }

  /** The stream tag and what follows its underscore. */
  function SplitStream(text: string): (r: Option<(string, string)>)
    ensures r.Some? ==> IsStream(r.value.0) && text == r.value.0 + "_" + r.value.1
  {
    if |text| >= 6 && text[..6] == "snone_" then Some(("snone", text[6..]))
    else if |text| >= 14 && IsStream(text[..13]) && text[13] == '_' then Some((text[..13], text[14..]))
    else None
  }

  /** The length of the longest prefix of base-b digits. */
  function Run(text: string, base: Base): (n: nat)
    ensures n <= |text| && AllDigits(text[..n], base)
    ensures n < |text| ==> !IsDigit(text[n], base)
  {
    if text == "" || !IsDigit(text[0], base) then 0
    else
      var n := 1 + Run(text[1..], base);
      assert forall i :: 0 <= i < n ==> IsDigit(text[i], base) by {
        assert forall i :: 1 <= i < n ==> text[i] == text[1..][..n - 1][i - 1];
      }
      n
  }

  function CutRun(text: string, base: Base): (r: (string, string))
    ensures text == r.0 + r.1 && AllDigits(r.0, base)
  {
    (text[..Run(text, base)], text[Run(text, base)..])
  }

  function Starts(text: string, c: char): (b: bool)
    ensures b ==> text != "" && text == [c] + text[1..]
  {
    text != "" && text[0] == c
  }

  /** The optional audio group, and what follows it. */
  function SplitAudio(text: string): (r: (Option<AudioTag>, string))
    ensures text == AudioText(r.0) + r.1
    ensures r.0.Some? ==> IsAudio(r.0.value)
  {
    if !Starts(text, 'a') then (None, text)
    else
      var (step, afterStep) := CutRun(text[1..], 10);
      if !(1 <= |step| <= 4) || !Starts(afterStep, 'x') then (None, text)
      else
        var (bits, afterBits) := CutRun(afterStep[1..], 16);
        if !(1 <= |bits| <= 64) || !Starts(afterBits, '_') then (None, text)
        else
          GlueAudio(step, bits, afterBits[1..]);
          (Some(AudioTag(step, bits)), afterBits[1..])
  }

  lemma {:induction false} GlueAudio(step: string, bits: string, rest: string)
    ensures AudioText(Some(AudioTag(step, bits))) + rest == "a" + (step + ("x" + (bits + ("_" + rest))))
  {
  }

  function SplitTail(text: string): (r: Option<(string, bool)>)
    ensures r.Some? ==> |r.value.0| == 12 && Hex(r.value.0) && text == TailText(r.value.0, r.value.1)
  {
    if |text| < 12 || !Hex(text[..12]) then None
    else if text[12..] == ".ts" then Some((text[..12], false))
    else if text[12..] == ".ts.enc" then Some((text[..12], true))
    else None
  }

  lemma {:induction false} Glue(head: string, stream: string, audio: string, tail: string)
    ensures head + stream + "_" + audio + tail == head + (stream + "_" + (audio + tail))
  {
  }

  /** Decides the pattern: only valid groups, and only of this very name. */
  function Split(name: string): (r: Option<Fields>)
    ensures r.Some? ==> Valid(r.value) && Layout(r.value) == name
  {
    match SplitHead(name)
    case None => None
    case Some((stamp, sequence, duration)) =>
      match SplitStream(name[HEAD..])
      case None => None
      case Some((stream, rest)) =>
        var (audio, tail) := SplitAudio(rest);
        match SplitTail(tail)
        case None => None
        case Some((objectId, encrypted)) =>
          var f := Fields(stamp, sequence, duration, stream, audio, objectId, encrypted);
          Glue(HeadText(stamp, sequence, duration), stream, AudioText(audio), tail);
          Some(f)
  }

  // ---- Every valid layout is split into its own groups --------------------

  lemma {:induction false} HeadRoundTrip(stamp: string, sequence: string, duration: string, rest: string)
    requires IsHead(stamp, sequence, duration)
    ensures SplitHead(HeadText(stamp, sequence, duration) + rest) == Some((stamp, sequence, duration))
    ensures (HeadText(stamp, sequence, duration) + rest)[HEAD..] == rest
  {
    var name := HeadText(stamp, sequence, duration) + rest;
    assert name[..20] == stamp && name[21..33] == sequence && name[34..43] == duration;
    assert name[43..HEAD] == "ms_";
  }

  lemma {:induction false} StreamRoundTrip(stream: string, rest: string)
    requires IsStream(stream)
    ensures SplitStream(stream + "_" + rest) == Some((stream, rest))
  {
    var text := stream + "_" + rest;
    if stream == "snone" {
      assert text[..6] == "snone_" && text[6..] == rest;
    } else {
      assert text[1] == stream[1..][0] && IsDigit(text[1], 16);
      assert text[..6][1] == text[1] != 'n';
      assert text[..13] == stream && text[14..] == rest;
    }
  }

  lemma {:induction false} RunRoundTrip(digits: string, rest: string, base: Base)
    requires AllDigits(digits, base)
    requires rest != "" && !IsDigit(rest[0], base)
    ensures Run(digits + rest, base) == |digits|
  {
    if digits == "" {
      assert digits + rest == rest;
    } else {
      assert (digits + rest)[1..] == digits[1..] + rest;
      RunRoundTrip(digits[1..], rest, base);
    }
  }

  lemma {:induction false} CutRunRoundTrip(digits: string, rest: string, base: Base)
    requires AllDigits(digits, base)
    requires rest != "" && !IsDigit(rest[0], base)
    ensures CutRun(digits + rest, base) == (digits, rest)
  {
    RunRoundTrip(digits, rest, base);
  }

  lemma {:induction false} StartsWith(c: char, rest: string)
    ensures Starts([c] + rest, c) && ([c] + rest)[1..] == rest
  {
  }

  lemma {:induction false} AudioTagRoundTrip(tag: AudioTag, rest: string)
    requires IsAudio(tag)
    ensures SplitAudio(AudioText(Some(tag)) + rest) == (Some(tag), rest)
  {
    hide AudioText, CutRun, Starts;
    GlueAudio(tag.step, tag.bits, rest);
    StartsWith('_', rest);
    CutRunRoundTrip(tag.bits, "_" + rest, 16);
    StartsWith('x', tag.bits + ("_" + rest));
    CutRunRoundTrip(tag.step, "x" + (tag.bits + ("_" + rest)), 10);
    StartsWith('a', tag.step + ("x" + (tag.bits + ("_" + rest))));
  }

  /** Without an audio group none is found, although an object id may begin like one. */
  lemma {:induction false} NoAudioRoundTrip(objectId: string, encrypted: bool)
    requires |objectId| == 12 && Hex(objectId)
    ensures SplitAudio(TailText(objectId, encrypted)) == (None, TailText(objectId, encrypted))
  {
    assert 'x' !in TailText(objectId, encrypted) by {
      assert forall i :: 0 <= i < 12 ==> IsDigit(objectId[i], 16);
    }
    hide TailText, Hex;
    NeedsSeparator(TailText(objectId, encrypted));
  }

  /** Without its separator there is no audio group. */
  lemma {:induction false} NeedsSeparator(text: string)
    requires 'x' !in text
    ensures SplitAudio(text) == (None, text)
  {
    hide CutRun;
    if Starts(text, 'a') {
      var (step, afterStep) := CutRun(text[1..], 10);
      assert forall c :: c in afterStep ==> c in step + afterStep;
      assert forall c :: c in text[1..] ==> c in text;
    }
  }

  lemma {:induction false} TailRoundTrip(objectId: string, encrypted: bool)
    requires |objectId| == 12 && Hex(objectId)
    ensures SplitTail(TailText(objectId, encrypted)) == Some((objectId, encrypted))
  {
    var text := TailText(objectId, encrypted);
    assert text[..12] == objectId;
    assert text[12..] == if encrypted then ".ts.enc" else ".ts";
  }

  /** With `Split`'s own contract: the pattern is unambiguous, and `Split` finds its groups. */
  lemma {:induction false} SplitRoundTrip(f: Fields)
    requires Valid(f)
    ensures Split(Layout(f)) == Some(f)
  {
    var tail := AudioText(f.audio) + TailText(f.objectId, f.encrypted);
    var rest := f.stream + "_" + tail;
    Glue(HeadText(f.stamp, f.sequence, f.duration), f.stream, AudioText(f.audio), TailText(f.objectId, f.encrypted));
    HeadRoundTrip(f.stamp, f.sequence, f.duration, rest);
    StreamRoundTrip(f.stream, tail);
    TailRoundTrip(f.objectId, f.encrypted);
    match f.audio
    case Some(tag) => AudioTagRoundTrip(tag, TailText(f.objectId, f.encrypted));
    case None =>
      NoAudioRoundTrip(f.objectId, f.encrypted);
      assert tail == TailText(f.objectId, f.encrypted);
  }

  // ---- Names of the first release -----------------------------------------

  datatype LegacyFields = LegacyFields(stamp: string, sequence: string, duration: string, objectId: string)

  function LegacyLayout(f: LegacyFields): string {
    HeadText(f.stamp, f.sequence, f.duration) + f.objectId + ".ts"
  }

  function SplitLegacy(name: string): (r: Option<LegacyFields>)
    ensures r.Some? ==> LegacyLayout(r.value) == name && Hex(r.value.objectId) && IsStamp(r.value.stamp)
  {
    match SplitHead(name)
    case None => None
    case Some((stamp, sequence, duration)) =>
      var rest := name[HEAD..];
      if |rest| == 9 && Hex(rest[..6]) && rest[6..] == ".ts" then
        assert rest == rest[..6] + ".ts";
        Some(LegacyFields(stamp, sequence, duration, rest[..6]))
      else None
  }

  predicate IsLegacy(f: LegacyFields) {
    IsHead(f.stamp, f.sequence, f.duration) && |f.objectId| == 6 && Hex(f.objectId)
  }

  lemma {:induction false} LegacyRoundTrip(f: LegacyFields)
    requires IsLegacy(f)
    ensures SplitLegacy(LegacyLayout(f)) == Some(f)
  {
    HeadRoundTrip(f.stamp, f.sequence, f.duration, f.objectId + ".ts");
    hide SplitHead, HeadText, IsHead;
    assert LegacyLayout(f) == HeadText(f.stamp, f.sequence, f.duration) + (f.objectId + ".ts");
    assert (f.objectId + ".ts")[..6] == f.objectId && (f.objectId + ".ts")[6..] == ".ts";
  }

  /** No name belongs to both releases. */
  lemma {:induction false} PatternsAreDisjoint(name: string)
    ensures Split(name).None? || SplitLegacy(name).None?
  {
  }
}
