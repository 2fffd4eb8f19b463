/** The text of a Range header, `bytes=first-last`, either part of which may be missing. */
module RangeHeader {
  import opened Arithmetic
  import opened Wrappers
  import opened Numerals
  import opened ArchiveGrammar
  import opened RangeReader

  /** The ASCII characters that `strip` removes. */
  predicate IsBlank(c: char) {
    c == ' ' || '\t' <= c <= '\r' || '\U{1c}' <= c <= '\U{1f}'
  }

  function StripLeft(text: string): string {
    if text != "" && IsBlank(text[0]) then StripLeft(text[1..]) else text
  }

  function StripRight(text: string): string {
    if text != "" && IsBlank(text[|text| - 1]) then StripRight(text[..|text| - 1]) else text
  }

  function Strip(text: string): string { StripRight(StripLeft(text)) }

  predicate Blank(text: string) { forall i :: 0 <= i < |text| ==> IsBlank(text[i]) }

  /** Blanks around a text that neither begins nor ends with one do not matter. */
  lemma {:induction false} StripsBlanks(before: string, text: string, after: string)
    requires Blank(before) && Blank(after)
    requires text != "" && !IsBlank(text[0]) && !IsBlank(text[|text| - 1])
    ensures Strip(before + text + after) == text
  {
    StripsLeft(before, text + after);
    assert before + text + after == before + (text + after);
    StripsRight(text, after);
  }

  lemma {:induction false} StripsLeft(before: string, rest: string)
    requires Blank(before) && rest != "" && !IsBlank(rest[0])
    ensures StripLeft(before + rest) == rest
  {
    if before == "" {
      assert before + rest == rest;
    } else {
      assert (before + rest)[1..] == before[1..] + rest;
      StripsLeft(before[1..], rest);
    }
  }

  lemma {:induction false} StripsRight(text: string, after: string)
    requires Blank(after) && text != "" && !IsBlank(text[|text| - 1])
    ensures StripRight(text + after) == text
  {
    if after == "" {
      assert text + after == text;
    } else {
      var init := after[..|after| - 1];
      assert (text + after)[..|text + after| - 1] == text + init;
      StripsRight(text, init);
    }
  }

  const UNIT := "bytes="

  function HeaderText(first: string, last: string): string { UNIT + first + "-" + last }

  /** The pattern, with its two groups, at least one of which is not empty. */
  predicate Matches(text: string, first: string, last: string) {
    Decimal(first) && Decimal(last) && (first != "" || last != "") && text == HeaderText(first, last)
  }

  /** Finds only groups with which the text matches. */
  function Groups(text: string): (r: Option<(string, string)>)
    ensures r.Some? ==> Matches(text, r.value.0, r.value.1)
  {
    if |text| < 6 || text[..6] != UNIT then None
    else
      var (first, rest) := CutRun(text[6..], 10);
      if !Starts(rest, '-') then None
      else
        var (last, tail) := CutRun(rest[1..], 10);
        if tail != "" || (first == "" && last == "") then None
        else
          Whole(text, first, last, rest);
          Some((first, last))
  }

  lemma {:induction false} Whole(text: string, first: string, last: string, rest: string)
    requires |text| >= 6 && text[..6] == UNIT && text[6..] == first + rest && rest == "-" + last
    ensures text == HeaderText(first, last)
  {
    assert text == text[..6] + text[6..];
  }

  lemma {:induction false} RunOfAll(digits: string, base: Base)
    requires AllDigits(digits, base)
    ensures Run(digits, base) == |digits|
  {
    if digits != "" {
      RunOfAll(digits[1..], base);
    }
  }

  /** And finds them whenever there are any: the pattern is unambiguous. */
  lemma {:induction false} GroupsFound(text: string, first: string, last: string)
    requires Matches(text, first, last)
    ensures Groups(text) == Some((first, last))
  {
    assert text[..6] == UNIT && text[6..] == first + ("-" + last);
    CutRunRoundTrip(first, "-" + last, 10);
    StartsWith('-', last);
    RunOfAll(last, 10);
    assert last[..|last|] == last && last[|last|..] == "";
  }

  function SpecOf(first: string, last: string): RangeSpec {
    if first == "" then Suffix(Value(last, 10))
    else if last == "" then From(Value(first, 10))
    else FromTo(Value(first, 10), Value(last, 10))
  }

  /** Python refuses to read a number of more digits. */
  const MAX_DIGITS := 4300

  /** What comes of a header, or the failure of `int` on a number that is too long. */
  datatype HeaderReading = Asks(spec: RangeSpec) | TooLong

  function ReadHeader(value: Option<string>): HeaderReading {
    match value
    case None => Asks(Absent)
    case Some(text) =>
      match Groups(Strip(text))
      case None => Asks(Unreadable)
      case Some((first, last)) =>
        if |first| > MAX_DIGITS || |last| > MAX_DIGITS then TooLong else Asks(SpecOf(first, last))
  }

  /** A header that matches the pattern asks for what its numbers say, whatever blanks stand around
      it, unless a number is too long. */
  lemma {:induction false} HeaderIsRead(before: string, first: string, last: string, after: string)
    requires Blank(before) && Blank(after)
    requires Matches(HeaderText(first, last), first, last)
    ensures ReadHeader(Some(before + HeaderText(first, last) + after))
         == if |first| > MAX_DIGITS || |last| > MAX_DIGITS then TooLong
            else if first == "" then Asks(Suffix(Value(last, 10)))
            else if last == "" then Asks(From(Value(first, 10)))
            else Asks(FromTo(Value(first, 10), Value(last, 10)))
  {
    var text := HeaderText(first, last);
    EndsWithDigit(first, last);
    StripsBlanks(before, text, after);
    GroupsFound(text, first, last);
  }

  lemma {:induction false} EndsWithDigit(first: string, last: string)
    requires Decimal(last)
    ensures var text := HeaderText(first, last);
            text != "" && text[0] == 'b' && (text[|text| - 1] == '-' || IsDigit(text[|text| - 1], 10))
  {
    var text := HeaderText(first, last);
    if last != "" {
      assert text[|text| - 1] == last[|last| - 1];
    }
  }

  /** What comes of a request for a recording of `size` bytes; the header of an empty one is not read. */
  datatype Resolution = Selected(selection: Selection) | Unsatisfiable | NumberTooLong

  function Answer(r: Option<Selection>): Resolution {
    if r.Some? then Selected(r.value) else Unsatisfiable
  }

  function ResolveHeader(value: Option<string>, size: nat): Resolution {
    if size == 0 then Unsatisfiable
    else
      match ReadHeader(value)
      case TooLong => NumberTooLong
      case Asks(spec) => Answer(ResolveByteRange(spec, size))
  }

  /** A number as it may be written, with any zeros before it. */
  function Written(n: nat, width: nat): string { Padded(n, width, 10) }

  lemma {:induction false} WrittenIsNumber(n: nat, width: nat)
    ensures Decimal(Written(n, width)) && Written(n, width) != "" && Value(Written(n, width), 10) == n
  {
    PaddedIsDigits(n, width, 10);
    PaddedRoundTrip(n, width, 10);
    if width == 0 { PaddedIsLonger(n); }
  }

  lemma {:induction false} PaddedIsLonger(n: nat)
    ensures Padded(n, 0, 10) != ""
  {
  }

  lemma {:induction false} ReadPlainly(first: string, last: string, size: nat)
    requires Decimal(first) && Decimal(last) && (first != "" || last != "") && size > 0
    requires |first| <= MAX_DIGITS && |last| <= MAX_DIGITS
    ensures ResolveHeader(Some(HeaderText(first, last)), size)
         == if first == "" then Answer(ResolveByteRange(Suffix(Value(last, 10)), size))
            else if last == "" then Answer(ResolveByteRange(From(Value(first, 10)), size))
            else Answer(ResolveByteRange(FromTo(Value(first, 10), Value(last, 10)), size))
  {
    hide ReadHeader, Answer, ResolveByteRange, Requests, Value;
    HeaderIsRead("", first, last, "");
    assert "" + HeaderText(first, last) + "" == HeaderText(first, last);
  }

  /** No header at all asks for the whole recording. */
  lemma {:induction false} NoHeaderAsksForAll(size: nat)
    requires size > 0
    ensures ResolveHeader(None, size) == Selected(Selection(200, 0, size - 1))
  {
  }

  lemma {:induction false} Positions(n: nat, m: nat, size: nat)
    requires size > 0
    ensures Answer(ResolveByteRange(FromTo(n, m), size))
         == if n < size && n <= m then Selected(Selection(206, n, Min(m, size - 1))) else Unsatisfiable
    ensures Answer(ResolveByteRange(From(n), size))
         == if n < size then Selected(Selection(206, n, size - 1)) else Unsatisfiable
    ensures Answer(ResolveByteRange(Suffix(n), size))
         == if n > 0 then Selected(Selection(206, size - Min(n, size), size - 1)) else Unsatisfiable
  {
  }

  /** `bytes=n-m`: the positions from n to m that there are. */
  lemma {:induction false} ClosedRangeIsRead(n: nat, m: nat, size: nat, width: nat, width': nat)
    requires |Written(n, width)| <= MAX_DIGITS && |Written(m, width')| <= MAX_DIGITS && size > 0
    ensures ResolveHeader(Some("bytes=" + Written(n, width) + "-" + Written(m, width')), size)
         == if n < size && n <= m then Selected(Selection(206, n, Min(m, size - 1))) else Unsatisfiable
  {
    hide ResolveHeader, Answer, ResolveByteRange, Requests, Written, Value, Decimal;
    WrittenIsNumber(n, width);
    WrittenIsNumber(m, width');
    ReadPlainly(Written(n, width), Written(m, width'), size);
    Positions(n, m, size);
  }

  /** `bytes=n-`: the positions from n on. */
  lemma {:induction false} OpenRangeIsRead(n: nat, size: nat, width: nat)
    requires |Written(n, width)| <= MAX_DIGITS && size > 0
    ensures ResolveHeader(Some("bytes=" + Written(n, width) + "-"), size)
         == if n < size then Selected(Selection(206, n, size - 1)) else Unsatisfiable
  {
    hide ResolveHeader, Answer, ResolveByteRange, Requests, Written, Value;
    WrittenIsNumber(n, width);
    ReadPlainly(Written(n, width), "", size);
    Positions(n, n, size);
    hide Decimal;
    assert "bytes=" + Written(n, width) + "-" == HeaderText(Written(n, width), "");
  }

  /** `bytes=-n`: the last n positions, or all if there are fewer. */
  lemma {:induction false} SuffixRangeIsRead(n: nat, size: nat, width: nat)
    requires |Written(n, width)| <= MAX_DIGITS && size > 0
    ensures ResolveHeader(Some("bytes=-" + Written(n, width)), size)
         == if n > 0 then Selected(Selection(206, size - Min(n, size), size - 1)) else Unsatisfiable
  {
    hide ResolveHeader, Answer, ResolveByteRange, Requests, Written, Value;
    WrittenIsNumber(n, width);
    ReadPlainly("", Written(n, width), size);
    Positions(n, n, size);
    hide Decimal;
    assert "bytes=-" + Written(n, width) == HeaderText("", Written(n, width));
  }

  /** Any other header cannot be read. */
  lemma {:induction false} OthersAreUnreadable(text: string)
    ensures ReadHeader(Some(text)) == Asks(Unreadable) <==>
              forall first, last :: !Matches(Strip(text), first, last)
  {
    hide Strip;
    if ReadHeader(Some(text)) == Asks(Unreadable) {
      forall first, last
        ensures !Matches(Strip(text), first, last)
      {
        if Matches(Strip(text), first, last) {
          GroupsFound(Strip(text), first, last);
        }
      }
    }
  }
}
