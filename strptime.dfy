/** `datetime.strptime` and `strftime` for the two formats the reports use,
    "%Y-%m-%d %H:%M:%S" (the reference date) and "%d.%m.%Y %H:%M:%S" (the
    "Дата операции" cells).

    CPython turns a format into a regular expression: %Y is four digits,
    %m `1[0-2]|0[1-9]|[1-9]`, %d `3[01]|[12]\d|0[1-9]|[1-9]| [1-9]`, %H
    `2[0-3]|[0-1]\d|\d`, %M `[0-5]\d|\d`, %S `6[0-1]|[0-5]\d|\d`, and a space
    of the format becomes `\s+`. The expression is matched with
    leftmost-first backtracking (`Match` below tries the alternatives in
    that order), text left over is refused, and `datetime` then refuses
    year 0, a day past the end of the month and seconds 60 and 61.
    Unset fields default to 1900-01-01 00:00:00. */
module Strptime {
  import opened Text
  import opened Calendar
  import opened Outcomes

  datatype Directive = Year | Month | Day | Hour | Minute | Second

  /** One element of a format: a directive, a literal character, or a run
      of whitespace (what a space of the format stands for). */
  datatype Item = Num(d: Directive) | Lit(c: char) | Spaces

  const ReferenceFormat: seq<Item> :=
    [Num(Year), Lit('-'), Num(Month), Lit('-'), Num(Day), Spaces,
     Num(Hour), Lit(':'), Num(Minute), Lit(':'), Num(Second)]
  const ReferenceFormatText: string := "%Y-%m-%d %H:%M:%S"

  const OperationFormat: seq<Item> :=
    [Num(Day), Lit('.'), Num(Month), Lit('.'), Num(Year), Spaces,
     Num(Hour), Lit(':'), Num(Minute), Lit(':'), Num(Second)]
  const OperationFormatText: string := "%d.%m.%Y %H:%M:%S"

  /** The two-character alternatives of each directive's expression. */
  predicate TwoForm(d: Directive, a: char, b: char)
  {
    match d
    case Year => false
    case Month => (a == '1' && '0' <= b <= '2') || (a == '0' && '1' <= b <= '9')
    case Day =>
      || (a == '3' && '0' <= b <= '1')
      || ('1' <= a <= '2' && IsDigit(b))
      || (a == '0' && '1' <= b <= '9')
      || (a == ' ' && '1' <= b <= '9')
    case Hour => (a == '2' && '0' <= b <= '3') || ('0' <= a <= '1' && IsDigit(b))
    case Minute => '0' <= a <= '5' && IsDigit(b)
    case Second => (a == '6' && '0' <= b <= '1') || ('0' <= a <= '5' && IsDigit(b))
  }

  /** `int()` of a two-character field (" 5" reads as 5). */
  function TwoValue(d: Directive, a: char, b: char): int
    requires TwoForm(d, a, b)
  {
    if a == ' ' then DigitValue(b) else 10 * DigitValue(a) + DigitValue(b)
  }

  /** The one-character alternative of each directive's expression. */
  predicate OneForm(d: Directive, a: char)
  {
    match d
    case Year => false
    case Month => '1' <= a <= '9'
    case Day => '1' <= a <= '9'
    case _ => IsDigit(a)
  }

  /** The values a matched field can take. */
  predicate InRange(d: Directive, v: int)
  {
    match d
    case Year => 0 <= v <= 9999
    case Month => 1 <= v <= 12
    case Day => 1 <= v <= 31
    case Hour => 0 <= v <= 23
    case Minute => 0 <= v <= 59
    case Second => 0 <= v <= 61
  }

  type Fields = map<Directive, int>

  ghost predicate FieldsInRange(f: Fields)
  {
    forall d :: d in f ==> InRange(d, f[d])
  }

  /** The fields read so far and the text not yet consumed. */
  datatype Scan = Scan(fields: Fields, rest: string)

  function Record(d: Directive, v: int, m: Option<Scan>): Option<Scan>
  {
    if m.Some? then Some(Scan(m.value.fields[d := v], m.value.rest)) else None
  }

  /** Number of whitespace characters at the start of `s`. */
  function SpaceRun(s: string): (k: nat)
    ensures k <= |s|
    ensures forall i :: 0 <= i < k ==> IsSpace(s[i])
    ensures k < |s| ==> !IsSpace(s[k])
  {
    if s != [] && IsSpace(s[0]) then 1 + SpaceRun(s[1..]) else 0
  }

  /** The first match of `items` at the start of `s`, alternatives tried in
      the order of the expression. */
  function Match(items: seq<Item>, s: string): (r: Option<Scan>)
    ensures r.Some? ==> FieldsInRange(r.value.fields)
    decreases |items|, 0, 0
  {
    if items == [] then Some(Scan(map[], s))
    else match items[0]
      case Lit(c) =>
        if s != [] && s[0] == c then Match(items[1..], s[1..]) else None
      case Spaces =>
        TrySpaces(items[1..], s, SpaceRun(s))
      case Num(Year) =>
        if |s| >= 4 && IsDigit(s[0]) && IsDigit(s[1]) && IsDigit(s[2]) && IsDigit(s[3]) then
          var v := 1000 * DigitValue(s[0]) + 100 * DigitValue(s[1]) + 10 * DigitValue(s[2]) + DigitValue(s[3]);
          Record(Year, v, Match(items[1..], s[4..]))
        else None
      case Num(d) =>
        var two :=
          if |s| >= 2 && TwoForm(d, s[0], s[1])
          then Record(d, TwoValue(d, s[0], s[1]), Match(items[1..], s[2..]))
          else None;
        if two.Some? then two
        else if |s| >= 1 && OneForm(d, s[0]) then Record(d, DigitValue(s[0]), Match(items[1..], s[1..]))
        else None
  }

  /** `\s+` is greedy: the longest run of whitespace is tried first, then
      shorter ones. */
  function TrySpaces(rest: seq<Item>, s: string, k: nat): (r: Option<Scan>)
    requires k <= |s|
    ensures r.Some? ==> FieldsInRange(r.value.fields)
    decreases |rest|, 1, k
  {
    if k == 0 then None
    else
      var m := Match(rest, s[k..]);
      if m.Some? then m else TrySpaces(rest, s, k - 1)
  }

  function Default(d: Directive): int
  {
    if d == Year then 1900 else if d == Month || d == Day then 1 else 0
  }

  function Field(f: Fields, d: Directive): (v: int)
    requires FieldsInRange(f)
    ensures InRange(d, v)
  {
    if d in f then f[d] else Default(d)
  }

  /** `datetime.strptime(s, format)`: a valid datetime, or the ValueError. */
  function Parse(s: string, format: seq<Item>, formatText: string): (r: Result<DateTime>)
    ensures r.Ok? ==> Valid(r.value)
  {
    match Match(format, s)
    case None => Err(BadTime(NoMatch(s, formatText)))
    case Some(scan) =>
      if scan.rest != [] then Err(BadTime(Unconverted(scan.rest)))
      else
        var f := scan.fields;
        var t := DateTime(Field(f, Year), Field(f, Month), Field(f, Day),
                          Field(f, Hour), Field(f, Minute), Field(f, Second));
        if t.year < 1 then Err(BadTime(YearOutOfRange(t.year)))
        else if t.day > DaysInMonth(t.year, t.month) then Err(BadTime(DayOutOfRange))
        else if t.second > 59 then Err(BadTime(SecondOutOfRange))
        else Ok(t)
  }

  function ParseReference(s: string): (r: Result<DateTime>)
  {
    Parse(s, ReferenceFormat, ReferenceFormatText)
  }

  function ParseOperationDate(s: string): (r: Result<DateTime>)
  {
    Parse(s, OperationFormat, OperationFormatText)
  }

  // ---------------------------------------------------------------------
  // strftime

  function Value(t: DateTime, d: Directive): int
  {
    match d
    case Year => t.year
    case Month => t.month
    case Day => t.day
    case Hour => t.hour
    case Minute => t.minute
    case Second => t.second
  }

  /** Field values each directive's expression can read back: what
      `strftime` may be given here. Every valid datetime is one; so are
      year 0, 31 February and second 60. */
  predicate Renderable(t: DateTime)
  {
    && 0 <= t.year <= 9999 && 1 <= t.month <= 12 && 1 <= t.day <= 31
    && 0 <= t.hour <= 23 && 0 <= t.minute <= 59 && 0 <= t.second <= 61
  }

  /** Zero-padded two-digit text. */
  function Pad2(v: int): (s: string)
    requires 0 <= v <= 99
    ensures |s| == 2 && IsDigit(s[0]) && IsDigit(s[1])
    ensures 10 * DigitValue(s[0]) + DigitValue(s[1]) == v
  {
    [DigitChar(v / 10), DigitChar(v % 10)]
  }

  /** Zero-padded four-digit text. */
  function Pad4(v: int): (s: string)
    requires 0 <= v <= 9999
    ensures |s| == 4 && IsDigit(s[0]) && IsDigit(s[1]) && IsDigit(s[2]) && IsDigit(s[3])
    ensures 1000 * DigitValue(s[0]) + 100 * DigitValue(s[1]) + 10 * DigitValue(s[2]) + DigitValue(s[3]) == v
  {
    Pad2(v / 100) + Pad2(v % 100)
  }

  function RenderItem(it: Item, t: DateTime): string
    requires Renderable(t)
  {
    match it
    case Num(Year) => Pad4(t.year)
    case Num(d) => Pad2(Value(t, d))
    case Lit(c) => [c]
    case Spaces => " "
  }

  /** `t.strftime(format)`. */
  function Render(items: seq<Item>, t: DateTime): string
    requires Renderable(t)
  {
    if items == [] then "" else RenderItem(items[0], t) + Render(items[1..], t)
  }

  /** `datetime.now().strftime("%Y-%m-%d %H:%M:%S")`. */
  function FormatReference(t: DateTime): string
    requires Valid(t)
  {
    Render(ReferenceFormat, t)
  }

  // ---------------------------------------------------------------------
  // round trip

  /** Every whitespace run of the format is followed by something that
      cannot start with whitespace. */
  ghost predicate WellFormed(items: seq<Item>)
  {
    forall i :: 0 <= i < |items| && items[i] == Spaces ==>
      i + 1 < |items| && (items[i + 1].Num? || (items[i + 1].Lit? && !IsSpace(items[i + 1].c)))
  }

  /** The fields a format reads from a rendering of `t`. */
  function FieldsOf(items: seq<Item>, t: DateTime): (f: Fields)
    ensures forall d :: d in f <==> Num(d) in items
    ensures forall d :: d in f ==> f[d] == Value(t, d)
  {
    if items == [] then map[]
    else
      var f := FieldsOf(items[1..], t);
      assert forall d :: Num(d) in items <==> items[0] == Num(d) || Num(d) in items[1..];
      if items[0].Num? then f[items[0].d := Value(t, items[0].d)] else f
  }

  /** Every field of a valid datetime renders as a two-character form of
      its directive (the year as four digits). */
  lemma PaddedFieldMatches(t: DateTime, d: Directive)
    requires Renderable(t) && d != Year
    ensures TwoForm(d, Pad2(Value(t, d))[0], Pad2(Value(t, d))[1])
    ensures TwoValue(d, Pad2(Value(t, d))[0], Pad2(Value(t, d))[1]) == Value(t, d)
  {
  }

  /** One step of `Match` on a rendered literal. */
  lemma MatchLitStep(items: seq<Item>, after: string)
    requires items != [] && items[0].Lit?
    ensures Match(items, [items[0].c] + after) == Match(items[1..], after)
  {
    assert ([items[0].c] + after)[1..] == after;
  }

  /** One step of `Match` on a rendered space followed by a character that
      is not whitespace: the run has length one. */
  lemma MatchSpacesStep(items: seq<Item>, after: string)
    requires items != [] && items[0] == Spaces
    requires after != [] && !IsSpace(after[0])
    requires Match(items[1..], after).Some?
    ensures Match(items, " " + after) == Match(items[1..], after)
  {
    var s := " " + after;
    assert s[1..] == after && s[1] == after[0];
    assert SpaceRun(s[1..]) == 0;
    assert SpaceRun(s) == 1;
  }

  /** One step of `Match` on a rendered four-digit year. */
  lemma MatchYearStep(items: seq<Item>, t: DateTime, after: string)
    requires Renderable(t) && items != [] && items[0] == Num(Year)
    ensures Match(items, Pad4(t.year) + after) == Record(Year, t.year, Match(items[1..], after))
  {
    var s := Pad4(t.year) + after;
    assert s[..4] == Pad4(t.year) && s[4..] == after;
  }

  /** One step of `Match` on a rendered two-digit field. */
  lemma MatchFieldStep(items: seq<Item>, t: DateTime, after: string)
    requires Renderable(t) && items != [] && items[0].Num? && items[0].d != Year
    requires Match(items[1..], after).Some?
    ensures Match(items, Pad2(Value(t, items[0].d)) + after)
         == Record(items[0].d, Value(t, items[0].d), Match(items[1..], after))
  {
    var d := items[0].d;
    var s := Pad2(Value(t, d)) + after;
    PaddedFieldMatches(t, d);
    assert s[0] == Pad2(Value(t, d))[0] && s[1] == Pad2(Value(t, d))[1];
    assert s[2..] == after;
  }

  lemma WellFormedTail(items: seq<Item>)
    requires items != [] && WellFormed(items)
    ensures WellFormed(items[1..])
  {
    var rest := items[1..];
    forall i | 0 <= i < |rest| && rest[i] == Spaces
      ensures i + 1 < |rest| && (rest[i + 1].Num? || (rest[i + 1].Lit? && !IsSpace(rest[i + 1].c)))
    {
      assert items[i + 1] == Spaces;
    }
  }

  /** Reading a rendering back gives the rendered fields, whatever follows. */
  lemma {:induction false} MatchRender(items: seq<Item>, t: DateTime, tail: string)
    requires Renderable(t) && WellFormed(items)
    ensures Match(items, Render(items, t) + tail) == Some(Scan(FieldsOf(items, t), tail))
  {
    if items != [] {
      WellFormedTail(items);
      MatchRender(items[1..], t, tail);
      MatchRenderStep(items, t, tail);
    } else {
      assert Render(items, t) + tail == tail;
    }
  }

  /** One item of the format read back, given that the rest reads back. */
  lemma MatchRenderStep(items: seq<Item>, t: DateTime, tail: string)
    requires Renderable(t) && WellFormed(items) && items != []
    requires Match(items[1..], Render(items[1..], t) + tail) == Some(Scan(FieldsOf(items[1..], t), tail))
    ensures Match(items, Render(items, t) + tail) == Some(Scan(FieldsOf(items, t), tail))
  {
    var after := Render(items[1..], t) + tail;
    assert Render(items, t) + tail == RenderItem(items[0], t) + after;
    match items[0]
    case Lit(c) =>
      MatchLitStep(items, after);
    case Spaces =>
      MatchRenderSpaces(items, t, tail);
    case Num(Year) =>
      MatchYearStep(items, t, after);
    case Num(d) =>
      MatchFieldStep(items, t, after);
  }

  /** The single space rendered for `Spaces` is read back, and the next
      rendered character is not white space. */
  lemma MatchRenderSpaces(items: seq<Item>, t: DateTime, tail: string)
    requires Renderable(t) && WellFormed(items) && items != [] && items[0] == Spaces
    requires Match(items[1..], Render(items[1..], t) + tail).Some?
    ensures Match(items, " " + (Render(items[1..], t) + tail)) == Match(items[1..], Render(items[1..], t) + tail)
  {
    var rest := items[1..];
    var after := Render(rest, t) + tail;
    assert rest != [] && (rest[0].Num? || (rest[0].Lit? && !IsSpace(rest[0].c)));
    var head := RenderItem(rest[0], t);
    assert after == head + (Render(rest[1..], t) + tail);
    assert after[0] == head[0];
    MatchSpacesStep(items, after);
  }

  lemma ReferenceFormatWellFormed()
    ensures WellFormed(ReferenceFormat) && WellFormed(OperationFormat)
  {
  }

  lemma FieldsOfAll(items: seq<Item>, t: DateTime)
    requires Renderable(t)
    requires forall d: Directive :: Num(d) in items
    ensures FieldsInRange(FieldsOf(items, t))
    ensures forall d :: Field(FieldsOf(items, t), d) == Value(t, d)
  {
    var f := FieldsOf(items, t);
    forall d | d in f ensures InRange(d, f[d]) {
    }
  }

  /** What `Parse` makes of a match that read `t`'s fields and left `rest`. */
  lemma ParseOfScan(s: string, format: seq<Item>, formatText: string, f: Fields, t: DateTime, rest: string)
    requires Match(format, s) == Some(Scan(f, rest))
    requires FieldsInRange(f) && forall d :: Field(f, d) == Value(t, d)
    requires 1 <= t.month <= 12
    ensures Parse(s, format, formatText) == ParsedVerdict(t, rest)
  {
    var u := DateTime(Field(f, Year), Field(f, Month), Field(f, Day),
                      Field(f, Hour), Field(f, Minute), Field(f, Second));
    assert Field(f, Year) == t.year && Field(f, Month) == t.month && Field(f, Day) == t.day;
    assert Field(f, Hour) == t.hour && Field(f, Minute) == t.minute && Field(f, Second) == t.second;
    assert u == t;
  }

  /** The outcome for fields `t` and leftover text `rest`: leftover text is
      refused first, then year 0, then a day past the end of the month,
      then seconds 60 and 61. */
  function ParsedVerdict(t: DateTime, rest: string): (r: Result<DateTime>)
    requires 1 <= t.month <= 12
    ensures r.Ok? <==> rest == [] && 1 <= t.year && t.day <= DaysInMonth(t.year, t.month) && t.second <= 59
    ensures r.Ok? ==> r.value == t
  {
    if rest != [] then Err(BadTime(Unconverted(rest)))
    else if t.year < 1 then Err(BadTime(YearOutOfRange(t.year)))
    else if t.day > DaysInMonth(t.year, t.month) then Err(BadTime(DayOutOfRange))
    else if t.second > 59 then Err(BadTime(SecondOutOfRange))
    else Ok(t)
  }

  /** For a well-formed format naming every field, reading the rendering
      of `t` followed by any `tail` gives exactly `ParsedVerdict(t, tail)`. */
  lemma ParseRendered(format: seq<Item>, formatText: string, t: DateTime, tail: string)
    requires Renderable(t) && WellFormed(format)
    requires forall d: Directive :: Num(d) in format
    ensures Parse(Render(format, t) + tail, format, formatText) == ParsedVerdict(t, tail)
  {
    MatchRender(format, t, tail);
    FieldsOfAll(format, t);
    ParseOfScan(Render(format, t) + tail, format, formatText, FieldsOf(format, t), t, tail);
  }

  lemma FormatsNameEveryField()
    ensures forall d: Directive :: Num(d) in ReferenceFormat
    ensures forall d: Directive :: Num(d) in OperationFormat
  {
    forall d: Directive ensures Num(d) in ReferenceFormat && Num(d) in OperationFormat {
      match d
      case Year => assert ReferenceFormat[0] == Num(Year) && OperationFormat[4] == Num(Year);
      case Month => assert ReferenceFormat[2] == Num(Month) && OperationFormat[2] == Num(Month);
      case Day => assert ReferenceFormat[4] == Num(Day) && OperationFormat[0] == Num(Day);
      case Hour => assert ReferenceFormat[6] == Num(Hour) && OperationFormat[6] == Num(Hour);
      case Minute => assert ReferenceFormat[8] == Num(Minute) && OperationFormat[8] == Num(Minute);
      case Second => assert ReferenceFormat[10] == Num(Second) && OperationFormat[10] == Num(Second);
    }
  }

  /** Both the rendering alone and the rendering followed by `tail`. */
  lemma ParseRenderedWithTail(format: seq<Item>, formatText: string, t: DateTime, tail: string)
    requires Renderable(t) && WellFormed(format)
    requires forall d: Directive :: Num(d) in format
    ensures Parse(Render(format, t) + tail, format, formatText) == ParsedVerdict(t, tail)
    ensures Parse(Render(format, t), format, formatText) == ParsedVerdict(t, "")
  {
    ParseRendered(format, formatText, t, tail);
    ParseRendered(format, formatText, t, "");
    assert Render(format, t) + "" == Render(format, t);
  }

  /** `strptime(t.strftime(format), format) == t` for both formats, and
      what each refuses when given the rendering of a datetime that is not
      valid or followed by more text. */
  lemma ParseRender(t: DateTime, tail: string)
    requires Renderable(t)
    ensures ParseReference(Render(ReferenceFormat, t) + tail) == ParsedVerdict(t, tail)
    ensures ParseOperationDate(Render(OperationFormat, t) + tail) == ParsedVerdict(t, tail)
    ensures Valid(t) ==> ParseReference(Render(ReferenceFormat, t)) == Ok(t)
    ensures Valid(t) ==> ParseOperationDate(Render(OperationFormat, t)) == Ok(t)
  {
    ReferenceFormatWellFormed();
    FormatsNameEveryField();
    ParseRenderedWithTail(ReferenceFormat, ReferenceFormatText, t, tail);
    ParseRenderedWithTail(OperationFormat, OperationFormatText, t, tail);
  }
}
