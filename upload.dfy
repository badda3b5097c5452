/** The import script's data rules: reading dates out of the claim export,
    the five-column key of one treatment episode, and how rows already in the
    warehouse are found (patient ids in batches, then an exact key match) and
    dropped. */
module Upload {
  import opened Common
  import opened Text

  // ---- Calendar ----

  datatype Date = Date(year: nat, month: nat, day: nat)
  datatype DateTime = DateTime(date: Date, hour: nat, minute: nat, second: nat)

  predicate LeapYear(y: nat)
  {
    (y % 4 == 0 && y % 100 != 0) || y % 400 == 0
  }

  function DaysInMonth(y: nat, m: nat): nat
  {
    if m == 2 then (if LeapYear(y) then 29 else 28)
    else if m == 4 || m == 6 || m == 9 || m == 11 then 30
    else 31
  }

  /** What `datetime.date(y, m, d)` accepts. */
  predicate ValidDate(d: Date)
  {
    1 <= d.year <= 9999 && 1 <= d.month <= 12 && 1 <= d.day <= DaysInMonth(d.year, d.month)
  }

  predicate ValidDateTime(t: DateTime)
  {
    ValidDate(t.date) && t.hour < 24 && t.minute < 60 && t.second < 60
  }

  // ---- strptime ----

  /** One character position of a regular-expression alternative. */
  datatype CharClass = Exactly(c: char) | Between(lo: char, hi: char)

  predicate InClass(c: char, k: CharClass)
  {
    match k
    case Exactly(e) => c == e
    case Between(lo, hi) => lo <= c <= hi
  }

  /** A directive's pattern: its alternatives, in the order the regular
      expression tries them. */
  type Directive = seq<seq<CharClass>>

  const Digit: CharClass := Between('0', '9')
  /** `%Y`: `\d\d\d\d` */
  const YearRe: Directive := [[Digit, Digit, Digit, Digit]]
  /** `%m`: `1[0-2]|0[1-9]|[1-9]` */
  const MonthRe: Directive := [[Exactly('1'), Between('0', '2')], [Exactly('0'), Between('1', '9')], [Between('1', '9')]]
  /** `%d`: `3[01]|[12]\d|0[1-9]|[1-9]| [1-9]` */
  const DayRe: Directive :=
    [[Exactly('3'), Between('0', '1')], [Between('1', '2'), Digit], [Exactly('0'), Between('1', '9')],
     [Between('1', '9')], [Exactly(' '), Between('1', '9')]]
  /** `%H`: `2[0-3]|[0-1]\d|\d` */
  const HourRe: Directive := [[Exactly('2'), Between('0', '3')], [Between('0', '1'), Digit], [Digit]]
  /** `%M`: `[0-5]\d|\d` */
  const MinuteRe: Directive := [[Between('0', '5'), Digit], [Digit]]
  /** `%S`: `6[0-1]|[0-5]\d|\d` */
  const SecondRe: Directive := [[Exactly('6'), Between('0', '1')], [Between('0', '5'), Digit], [Digit]]

  /** The three layouts the export uses. */
  const DateLayout: seq<Directive> := [YearRe, MonthRe, DayRe]
  const MinuteLayout: seq<Directive> := [YearRe, MonthRe, DayRe, HourRe, MinuteRe]
  const SecondLayout: seq<Directive> := [YearRe, MonthRe, DayRe, HourRe, MinuteRe, SecondRe]

  predicate MatchesAt(s: string, pos: nat, alt: seq<CharClass>)
  {
    pos + |alt| <= |s| && forall i :: 0 <= i < |alt| ==> InClass(s[pos + i], alt[i])
  }

  /** The regular-expression engine matching directives from `pos`: the first
      alternative of the first directive with which the rest still matches,
      backtracking into later alternatives otherwise. Gives the captured
      texts and where the match ends. */
  function MatchFrom(s: string, pos: nat, ds: seq<Directive>): (r: Option<(seq<string>, nat)>)
    decreases |ds|, 0
    ensures r.Some? ==> |r.value.0| == |ds| && pos <= r.value.1 <= |s|
  {
    if ds == [] then (if pos <= |s| then Some(([], pos)) else None)
    else TryAlts(s, pos, ds[0], ds[1..])
  }

  function TryAlts(s: string, pos: nat, alts: Directive, rest: seq<Directive>): (r: Option<(seq<string>, nat)>)
    decreases |rest|, |alts|
    ensures r.Some? ==> |r.value.0| == |rest| + 1 && pos <= r.value.1 <= |s|
  {
    if alts == [] then None
    else if MatchesAt(s, pos, alts[0]) then
      match MatchFrom(s, pos + |alts[0]|, rest)
      case Some(m) => Some(([s[pos..pos + |alts[0]|]] + m.0, m.1))
      case None => TryAlts(s, pos, alts[1..], rest)
    else TryAlts(s, pos, alts[1..], rest)
  }

  /** `datetime.strptime`'s parsing step: the match must start at the
      beginning and leave no unconverted data. */
  function Strptime(s: string, ds: seq<Directive>): (r: Option<seq<string>>)
    ensures r.Some? ==> |r.value| == |ds|
  {
    match MatchFrom(s, 0, ds)
    case None => None
    case Some(m) => if m.1 == |s| then Some(m.0) else None
  }

  /** `int(...)` of a captured field: its digits, a leading space ignored. */
  function NumValue(s: string): nat
  {
    if s == [] then 0
    else NumValue(s[..|s| - 1]) * 10 + (if IsDigit(s[|s| - 1]) then DigitValue(s[|s| - 1]) else 0)
  }

  /** The date and time a successful parse describes, if the calendar allows it. */
  function ToDateTime(caps: seq<string>): (r: Option<DateTime>)
    requires |caps| >= 3
    ensures r.Some? ==> ValidDateTime(r.value)
    ensures r.Some? ==> r.value.date == Date(NumValue(caps[0]), NumValue(caps[1]), NumValue(caps[2]))
  {
    var t := DateTime(Date(NumValue(caps[0]), NumValue(caps[1]), NumValue(caps[2])),
                      if |caps| > 3 then NumValue(caps[3]) else 0,
                      if |caps| > 4 then NumValue(caps[4]) else 0,
                      if |caps| > 5 then NumValue(caps[5]) else 0);
    if ValidDateTime(t) then Some(t) else None
  }

  /** `str(int(val))` */
  function IntText(v: int): string
  {
    if v < 0 then "-" + Decimal(-v) else Decimal(v)
  }

  /** `parse_date_int`: a YYYYMMDD number to a date; none for a missing value
      or text that `%Y%m%d` does not read as a real date. */
  function ParseDateInt(val: Option<int>): (r: Option<Date>)
    ensures r.Some? ==> ValidDate(r.value)
    ensures val.None? ==> r.None?
  {
    if val.None? then None
    else
      match Strptime(IntText(val.value), DateLayout)
      case None => None
      case Some(caps) =>
        match ToDateTime(caps)
        case None => None
        case Some(t) => Some(t.date)
  }

  /** The whitespace `str.strip()` removes (ASCII). */
  predicate IsSpace(c: char)
  {
    c == ' ' || c == '\t' || c == '\n' || c == '\r' || c == '\U{B}' || c == '\U{C}'
  }

  function StripLeft(s: string, drop: char -> bool): (r: string)
    ensures |r| <= |s| && (r != [] ==> !drop(r[0]))
  {
    if s != [] && drop(s[0]) then StripLeft(s[1..], drop) else s
  }

  function StripRight(s: string): (r: string)
    ensures |r| <= |s| && (r != [] ==> !IsSpace(r[|r| - 1]))
  {
    if s != [] && IsSpace(s[|s| - 1]) then StripRight(s[..|s| - 1]) else s
  }

  /** `str(val).strip().lstrip("'")` */
  function Clean(s: string): (r: string)
    ensures r != [] ==> r[0] != '\''
  {
    StripLeft(StripLeft(StripRight(s), IsSpace), c => c == '\'')
  }

  /** `parse_datetime_str`: cleaned text of 12, 14 or 8 characters read as
      YYYYMMDDHHMM, YYYYMMDDHHMMSS or YYYYMMDD; anything else, or a reading that
      is not a real date and time, gives none. */
  function ParseDatetimeStr(val: Option<string>): (r: Option<DateTime>)
    ensures r.Some? ==> ValidDateTime(r.value)
    ensures val.None? ==> r.None?
    ensures val.Some? && |Clean(val.value)| != 12 && |Clean(val.value)| != 14 && |Clean(val.value)| != 8 ==> r.None?
  {
    if val.None? then None
    else
      var s := Clean(val.value);
      var caps := if |s| == 12 then Strptime(s, MinuteLayout)
                  else if |s| == 14 then Strptime(s, SecondLayout)
                  else if |s| == 8 then Strptime(s, DateLayout)
                  else None;
      if caps.None? then None else ToDateTime(caps.value)
  }

  // ---- Reading fixed-width text back ----

  /** `w` fits the alternative character by character. */
  predicate Fits(w: string, alt: seq<CharClass>)
  {
    |w| == |alt| && forall i :: 0 <= i < |w| ==> InClass(w[i], alt[i])
  }

  /** Alternative `k` is the first the directive tries that fits `w`, and the
      ones before it have the same width (so they fail on `w` alone). */
  predicate FirstFit(w: string, dir: Directive, k: nat)
  {
    k < |dir| && Fits(w, dir[k]) && forall j :: 0 <= j < k ==> |dir[j]| == |w| && !Fits(w, dir[j])
  }

  ghost predicate FirstFits(w: string, dir: Directive)
  {
    exists k :: FirstFit(w, dir, k)
  }

  function Concat(ps: seq<string>): (s: string)
  {
    if ps == [] then "" else ps[0] + Concat(ps[1..])
  }

  lemma {:induction false} TryAltsPicks(s: string, pos: nat, alts: Directive, rest: seq<Directive>, w: string, k: nat, m: (seq<string>, nat))
    requires FirstFit(w, alts, k)
    requires pos + |w| <= |s| && s[pos..pos + |w|] == w
    requires MatchFrom(s, pos + |w|, rest) == Some(m)
    ensures TryAlts(s, pos, alts, rest) == Some(([w] + m.0, m.1))
    decreases k
  {
    assert forall j :: 0 <= j < |w| ==> s[pos + j] == w[j];
    if k > 0 {
      assert !MatchesAt(s, pos, alts[0]);
      assert FirstFit(w, alts[1..], k - 1);
      TryAltsPicks(s, pos, alts[1..], rest, w, k - 1, m);
    } else {
      assert MatchesAt(s, pos, alts[0]);
    }
  }

  /** Text made of pieces that each fit their directive first is read back
      piece by piece. */
  lemma {:induction false} MatchPieces(s: string, pos: nat, ds: seq<Directive>, pieces: seq<string>)
    requires |pieces| == |ds|
    requires forall i :: 0 <= i < |ds| ==> FirstFits(pieces[i], ds[i])
    requires pos <= |s| && s[pos..] == Concat(pieces)
    ensures MatchFrom(s, pos, ds) == Some((pieces, |s|))
    decreases |ds|
  {
    if ds != [] {
      var w := pieces[0];
      assert Concat(pieces) == w + Concat(pieces[1..]);
      assert s[pos..pos + |w|] == w;
      assert s[pos + |w|..] == Concat(pieces[1..]);
      MatchPieces(s, pos + |w|, ds[1..], pieces[1..]);
      var k :| FirstFit(w, ds[0], k);
      TryAltsPicks(s, pos, ds[0], ds[1..], w, k, (pieces[1..], |s|));
      assert [w] + pieces[1..] == pieces;
    }
  }

  function DigitCode(d: nat): char
    requires d < 10
  {
    (d + '0' as int) as char
  }

  lemma DigitCharCode(d: nat)
    requires d < 10
    ensures DigitChar(d) == DigitCode(d)
  {
  }

  lemma Pad2Digits(n: nat)
    requires n < 100
    ensures Pad2(n) == [DigitCode(n / 10), DigitCode(n % 10)]
  {
    DigitCharCode(n / 10);
    DigitCharCode(n % 10);
    if n >= 10 {
      assert Decimal(n) == Decimal(n / 10) + [DigitChar(n % 10)];
    }
  }

  lemma MonthFits(m: nat)
    requires 1 <= m <= 12
    ensures FirstFits(Pad2(m), MonthRe)
  {
    Pad2Digits(m);
    if m >= 10 {
      assert FirstFit(Pad2(m), MonthRe, 0);
    } else {
      assert !InClass(Pad2(m)[0], MonthRe[0][0]);
      assert FirstFit(Pad2(m), MonthRe, 1);
    }
  }

  lemma DayFits(d: nat)
    requires 1 <= d <= 31
    ensures FirstFits(Pad2(d), DayRe)
  {
    Pad2Digits(d);
    var w := Pad2(d);
    var a, b := d / 10, d % 10;
    assert w[0] == DigitCode(a) && w[1] == DigitCode(b);
    if a == 3 {
      assert b <= 1;
      assert FirstFit(w, DayRe, 0);
    } else if a >= 1 {
      assert w[0] != '3';
      assert FirstFit(w, DayRe, 1);
    } else {
      assert b >= 1 && w[0] == '0';
      assert FirstFit(w, DayRe, 2);
    }
  }

  lemma HourFits(h: nat)
    requires h < 24
    ensures FirstFits(Pad2(h), HourRe)
  {
    Pad2Digits(h);
    if h >= 20 {
      assert FirstFit(Pad2(h), HourRe, 0);
    } else {
      assert !InClass(Pad2(h)[0], HourRe[0][0]);
      assert FirstFit(Pad2(h), HourRe, 1);
    }
  }

  lemma MinuteFits(m: nat)
    requires m < 60
    ensures FirstFits(Pad2(m), MinuteRe)
  {
    Pad2Digits(m);
    assert FirstFit(Pad2(m), MinuteRe, 0);
  }

  lemma SecondFits(s: nat)
    requires s < 60
    ensures FirstFits(Pad2(s), SecondRe)
  {
    Pad2Digits(s);
    assert !InClass(Pad2(s)[0], SecondRe[0][0]);
    assert FirstFit(Pad2(s), SecondRe, 1);
  }

  lemma YearFits(y: nat)
    requires 1000 <= y <= 9999
    ensures FirstFits(Decimal(y), YearRe)
  {
    YearLength(y);
    assert FirstFit(Decimal(y), YearRe, 0);
  }

  lemma YearLength(y: nat)
    requires 1000 <= y <= 9999
    ensures |Decimal(y)| == 4
  {
    var a := y / 10;
    assert 100 <= a <= 999;
    var b := a / 10;
    assert 10 <= b <= 99;
    var c := b / 10;
    assert 1 <= c <= 9;
    DecimalLengthStep(y);
    DecimalLengthStep(a);
    DecimalLengthStep(b);
  }

  lemma DecimalLengthStep(n: nat)
    requires n >= 10
    ensures |Decimal(n)| == |Decimal(n / 10)| + 1
  {
  }

  lemma {:induction false} NumValueOfDigits(s: string)
    requires AllDigits(s)
    ensures NumValue(s) == DecimalValue(s)
  {
    if s != [] {
      NumValueOfDigits(s[..|s| - 1]);
    }
  }

  lemma ReadPad2(n: nat)
    requires n < 100
    ensures NumValue(Pad2(n)) == n
  {
    NumValueOfDigits(Pad2(n));
    Pad2RoundTrip(n);
  }

  lemma ReadDecimal(n: nat)
    ensures NumValue(Decimal(n)) == n
  {
    NumValueOfDigits(Decimal(n));
    DecimalRoundTrip(n);
  }

  // ---- Round trips ----

  /** The fixed-width text of a date and time in one of the three layouts. */
  datatype Layout = Minutes | Seconds | DateOnly

  function Pieces(t: DateTime, layout: Layout): seq<string>
  {
    var d := [Decimal(t.date.year), Pad2(t.date.month), Pad2(t.date.day)];
    match layout
    case DateOnly => d
    case Minutes => d + [Pad2(t.hour), Pad2(t.minute)]
    case Seconds => d + [Pad2(t.hour), Pad2(t.minute), Pad2(t.second)]
  }

  function LayoutOf(layout: Layout): seq<Directive>
  {
    match layout
    case DateOnly => DateLayout
    case Minutes => MinuteLayout
    case Seconds => SecondLayout
  }

  /** What the layout leaves out is midnight / zero seconds. */
  predicate Representable(t: DateTime, layout: Layout)
  {
    ValidDateTime(t) && 1000 <= t.date.year &&
    (layout == DateOnly ==> t.hour == 0 && t.minute == 0) &&
    (layout != Seconds ==> t.second == 0)
  }

  lemma PiecesFit(t: DateTime, layout: Layout)
    requires Representable(t, layout)
    ensures |Pieces(t, layout)| == |LayoutOf(layout)|
    ensures forall i :: 0 <= i < |LayoutOf(layout)| ==> FirstFits(Pieces(t, layout)[i], LayoutOf(layout)[i])
  {
    YearFits(t.date.year);
    MonthFits(t.date.month);
    DayFits(t.date.day);
    HourFits(t.hour);
    MinuteFits(t.minute);
    SecondFits(t.second);
  }

  lemma PiecesRead(t: DateTime, layout: Layout)
    requires Representable(t, layout)
    ensures ToDateTime(Pieces(t, layout)) == Some(t)
  {
    ReadDecimal(t.date.year);
    ReadPad2(t.date.month);
    ReadPad2(t.date.day);
    ReadPad2(t.hour);
    ReadPad2(t.minute);
    ReadPad2(t.second);
  }

  lemma {:induction false} ConcatOfDigits(ps: seq<string>)
    requires forall i :: 0 <= i < |ps| ==> AllDigits(ps[i])
    ensures AllDigits(Concat(ps))
  {
    if ps != [] {
      ConcatOfDigits(ps[1..]);
    }
  }

  lemma {:induction false} ConcatOfPairs(ps: seq<string>)
    requires forall i :: 0 <= i < |ps| ==> |ps[i]| == 2
    ensures |Concat(ps)| == 2 * |ps|
  {
    if ps != [] {
      ConcatOfPairs(ps[1..]);
    }
  }

  lemma ConcatLength(t: DateTime, layout: Layout)
    requires Representable(t, layout)
    ensures |Concat(Pieces(t, layout))| == (match layout case DateOnly => 8 case Minutes => 12 case Seconds => 14)
    ensures Concat(Pieces(t, layout)) != [] && IsDigit(Concat(Pieces(t, layout))[0])
    ensures IsDigit(Concat(Pieces(t, layout))[|Concat(Pieces(t, layout))| - 1])
  {
    YearLength(t.date.year);
    var p := Pieces(t, layout);
    assert Concat(p) == p[0] + Concat(p[1..]);
    ConcatOfPairs(p[1..]);
    ConcatOfDigits(p);
  }

  lemma CleanLeavesDigits(s: string, quoted: bool)
    requires s != [] && IsDigit(s[0]) && IsDigit(s[|s| - 1])
    ensures Clean(if quoted then "'" + s else s) == s
  {
    var q := if quoted then "'" + s else s;
    assert StripRight(q) == q;
    assert StripLeft(q, IsSpace) == q;
    if quoted {
      assert q[1..] == s;
      assert StripLeft(q[1..], c => c == '\'') == s;
    }
  }

  /** The fixed-width text is parsed back into its own pieces. */
  lemma StrptimePieces(t: DateTime, layout: Layout)
    requires Representable(t, layout)
    ensures Strptime(Concat(Pieces(t, layout)), LayoutOf(layout)) == Some(Pieces(t, layout))
  {
    var text := Concat(Pieces(t, layout));
    PiecesFit(t, layout);
    assert text[0..] == text;
    MatchPieces(text, 0, LayoutOf(layout), Pieces(t, layout));
  }

  /** Text written in one of the three layouts, with or without the leading
      apostrophe spreadsheets add, reads back as the date and time it shows. */
  lemma ParseDatetimeStrRoundTrip(t: DateTime, layout: Layout, quoted: bool)
    requires Representable(t, layout)
    ensures var text := Concat(Pieces(t, layout));
      ParseDatetimeStr(Some(if quoted then "'" + text else text)) == Some(t)
  {
    var text := Concat(Pieces(t, layout));
    ConcatLength(t, layout);
    CleanLeavesDigits(text, quoted);
    StrptimePieces(t, layout);
    PiecesRead(t, layout);
  }

  lemma DecimalShift2(x: nat, n: nat, r: nat)
    requires n >= 1 && r < 100 && x == n * 100 + r
    ensures Decimal(x) == Decimal(n) + Pad2(r)
  {
    Pad2Digits(r);
    DigitCharCode(r % 10);
    DigitCharCode(r / 10);
    var q := n * 10 + r / 10;
    DecimalSnoc(x, q, r % 10);
    DecimalSnoc(q, n, r / 10);
  }

  lemma DecimalSnoc(x: nat, q: nat, c: nat)
    requires q >= 1 && c < 10 && x == q * 10 + c
    ensures Decimal(x) == Decimal(q) + [DigitChar(c)]
  {
    assert x / 10 == q && x % 10 == c;
  }

  lemma DateNumberText(d: Date)
    requires ValidDate(d) && 1000 <= d.year
    ensures IntText(d.year * 10000 + d.month * 100 + d.day) == Concat(Pieces(DateTime(d, 0, 0, 0), DateOnly))
  {
    DateNumberDecimal(d.year, d.month, d.day);
    DatePieces(d);
  }

  lemma DateNumberDecimal(y: nat, m: nat, d: nat)
    requires 1 <= y && m < 100 && d < 100
    ensures Decimal(y * 10000 + m * 100 + d) == Decimal(y) + Pad2(m) + Pad2(d)
  {
    var ym := y * 100 + m;
    var x := y * 10000 + m * 100 + d;
    assert x == ym * 100 + d;
    DecimalShift2(ym, y, m);
    DecimalShift2(x, ym, d);
    assert Decimal(x) == Decimal(ym) + Pad2(d);
  }

  lemma DatePieces(d: Date)
    ensures Concat(Pieces(DateTime(d, 0, 0, 0), DateOnly)) == Decimal(d.year) + Pad2(d.month) + Pad2(d.day)
  {
    assert Pieces(DateTime(d, 0, 0, 0), DateOnly) == [Decimal(d.year), Pad2(d.month), Pad2(d.day)];
    ConcatThree(Decimal(d.year), Pad2(d.month), Pad2(d.day));
  }

  lemma DateNumber(y: nat, m: nat, d: nat)
    ensures y * 10000 + m * 100 + d == (y * 100 + m) * 100 + d
  {
  }

  lemma ConcatThree(a: string, b: string, c: string)
    ensures Concat([a, b, c]) == a + b + c
  {
    assert [c][1..] == [];
    assert Concat([c]) == c + Concat([]);
    assert [b, c][1..] == [c];
    assert Concat([b, c]) == b + Concat([c]);
    assert [a, b, c][1..] == [b, c];
    assert Concat([a, b, c]) == a + Concat([b, c]);
  }

  /** A YYYYMMDD number of a real date with a four-digit year reads back as
      that date. */
  lemma ParseDateIntRoundTrip(d: Date)
    requires ValidDate(d) && 1000 <= d.year
    ensures ParseDateInt(Some(d.year * 10000 + d.month * 100 + d.day)) == Some(d)
  {
    var t := DateTime(d, 0, 0, 0);
    assert Representable(t, DateOnly);
    DateNumberText(d);
    StrptimePieces(t, DateOnly);
    PiecesRead(t, DateOnly);
  }

  lemma SevenDigitText()
    ensures IntText(2024115) == "2024115"
  {
    DecimalShift2(202, 2, 2);
    DecimalShift2(20241, 202, 41);
    DecimalShift2(2024115, 20241, 15);
  }

  lemma SevenDigitMatch()
    ensures Strptime("2024115", DateLayout) == Some(["2024", "11", "5"])
  {
    var s := "2024115";
    assert FirstFit("2024", YearRe, 0);
    assert FirstFit("11", MonthRe, 0);
    assert MatchesAt(s, 6, DayRe[3]) && !MatchesAt(s, 6, DayRe[0]) && !MatchesAt(s, 6, DayRe[1]) && !MatchesAt(s, 6, DayRe[2]);
    assert s[6..7] == "5";
    assert MatchFrom(s, 7, []) == Some(([], 7));
    assert DayRe[3..][0] == DayRe[3] && [s[6..7]] + [] == ["5"];
    assert TryAlts(s, 6, DayRe[3..], []) == Some((["5"], 7));
    assert TryAlts(s, 6, DayRe[2..], []) == TryAlts(s, 6, DayRe[3..], []) by { assert DayRe[2..][1..] == DayRe[3..]; }
    assert TryAlts(s, 6, DayRe[1..], []) == TryAlts(s, 6, DayRe[2..], []) by { assert DayRe[1..][1..] == DayRe[2..]; }
    assert TryAlts(s, 6, DayRe, []) == TryAlts(s, 6, DayRe[1..], []);
    assert [DayRe][1..] == [];
    assert MatchFrom(s, 6, [DayRe]) == Some((["5"], 7));
    assert s[4..6] == "11" && s[0..4] == "2024";
    assert [MonthRe, DayRe][1..] == [DayRe];
    assert MatchFrom(s, 4, [MonthRe, DayRe]) == TryAlts(s, 4, MonthRe, [DayRe]);
    TryAltsPicks(s, 4, MonthRe, [DayRe], "11", 0, (["5"], 7));
    assert ["11"] + ["5"] == ["11", "5"];
    TryAltsPicks(s, 0, YearRe, [MonthRe, DayRe], "2024", 0, (["11", "5"], 7));
    assert DateLayout[1..] == [MonthRe, DayRe];
    assert ["2024"] + ["11", "5"] == ["2024", "11", "5"];
    assert MatchFrom(s, 0, DateLayout) == Some((["2024", "11", "5"], 7));
  }

  lemma SevenDigitValues()
    ensures NumValue("2024") == 2024 && NumValue("11") == 11 && NumValue("5") == 5
  {
    assert Decimal(2024) == "2024" && Decimal(11) == "11" && Decimal(5) == "5";
    ReadDecimal(2024);
    ReadDecimal(11);
    ReadDecimal(5);
  }

  /** `%Y%m%d` does not insist on eight digits: the month takes "11" and the
      day the single "5" that is left. */
  lemma ParseDateIntSevenDigits()
    ensures ParseDateInt(Some(2024115)) == Some(Date(2024, 11, 5))
  {
    SevenDigitText();
    SevenDigitMatch();
    SevenDigitValues();
  }

  // ---- Duplicate detection ----

  /** `ROW_KEY_COLS`: facility, patient, kind of care, admission and
      discharge time identify one treatment episode. */
  datatype RowKey = RowKey(maCskcb: Option<string>, maBn: Option<string>, maLoaikcb: Option<int>,
                           ngayVao: Option<DateTime>, ngayRa: Option<DateTime>)

  /** A row of the export after its columns are typed; only the key matters here. */
  datatype Record = Record(key: RowKey, namQt: int, thangQt: int)

  /** The final mask compares each row's own key tuple with the tuples of
      the key join. Before the join, the facility and patient ids pass through
      `astype(str)`, which turns a missing id into the text "None"; the row's
      own tuple keeps `None`, so a row with a missing id never matches. The
      kind of care and the two times keep a missing value as NaN or NaT; the
      join pairs missing keys with missing keys, and the tuple lookup treats
      them as equal, so a missing part matches a missing remote part. */
  predicate HasIds(k: RowKey)
  {
    k.maCskcb.Some? && k.maBn.Some?
  }

  predicate IsDuplicate(r: Record, remote: seq<RowKey>)
  {
    HasIds(r.key) && r.key in remote
  }

  /** A row whose discharge time is missing is reported when the table holds
      the same key with a missing discharge time. */
  lemma MissingTimeMatchesMissing(t: DateTime)
    ensures var k := RowKey(Some("1"), Some("B"), Some(1), Some(t), None);
      IsDuplicate(Record(k, 2024, 1), [k])
  {
  }

  /** A row whose facility id is missing is never reported, whatever the
      table holds. */
  lemma MissingFacilityNeverDuplicate(r: Record, remote: seq<RowKey>)
    requires r.key.maCskcb.None?
    ensures !IsDuplicate(r, remote)
  {
  }

  /** The rows of the file already in the table, in file order. */
  function DuplicateRows(df: seq<Record>, remote: seq<RowKey>): (d: seq<Record>)
    ensures |d| <= |df|
  {
    if df == [] then []
    else
      var n := |df| - 1;
      DuplicateRows(df[..n], remote) + (if IsDuplicate(df[n], remote) then [df[n]] else [])
  }

  /** The duplicates are exactly the rows of the file that carry both ids
      and whose key, missing parts included, is in the table. */
  lemma {:induction false} DuplicateRowsMembers(df: seq<Record>, remote: seq<RowKey>)
    ensures forall r :: r in DuplicateRows(df, remote) <==> r in df && IsDuplicate(r, remote)
  {
    if df != [] {
      var n := |df| - 1;
      DuplicateRowsMembers(df[..n], remote);
      assert df == df[..n] + [df[n]];
    }
  }

  /** `df["ma_bn"].dropna().unique()`: each patient id once, in order of
      first appearance. */
  function PatientIds(df: seq<Record>): (ids: seq<string>)
    ensures forall x :: x in ids <==> exists i :: 0 <= i < |df| && df[i].key.maBn == Some(x)
    ensures forall i, j :: 0 <= i < j < |ids| ==> ids[i] != ids[j]
  {
    if df == [] then []
    else
      var n := |df| - 1;
      var init := PatientIds(df[..n]);
      assert forall i :: 0 <= i < n ==> df[..n][i] == df[i];
      if df[n].key.maBn.Some? && df[n].key.maBn.value !in init then init + [df[n].key.maBn.value] else init
  }

  const BatchSize: nat := 5000

  function Flatten(bs: seq<seq<string>>): (s: seq<string>)
  {
    if bs == [] then [] else Flatten(bs[..|bs| - 1]) + bs[|bs| - 1]
  }

  lemma {:induction false} InFlatten(bs: seq<seq<string>>, x: string)
    ensures x in Flatten(bs) <==> exists i :: 0 <= i < |bs| && x in bs[i]
  {
    if bs != [] {
      var n := |bs| - 1;
      InFlatten(bs[..n], x);
      assert forall i :: 0 <= i < n ==> bs[..n][i] == bs[i];
    }
  }

  /** The batch loop's slicing: consecutive chunks of at most 5000 ids
      that together are the list, `ceil(n / 5000)` of them. */
  method Batches(ids: seq<string>) returns (batches: seq<seq<string>>)
    ensures Flatten(batches) == ids
    ensures forall b :: b in batches ==> 1 <= |b| <= BatchSize
    ensures |batches| == (|ids| + BatchSize - 1) / BatchSize
  {
    batches := [];
    var i := 0;
    var covered := 0;
    while i < |ids|
      invariant i == |batches| * BatchSize
      invariant covered == (if i <= |ids| then i else |ids|)
      invariant i <= |ids| || (|batches| >= 1 && i - BatchSize < |ids|)
      invariant Flatten(batches) == ids[..covered]
      invariant forall b :: b in batches ==> 1 <= |b| <= BatchSize
      decreases |ids| - i
    {
      var hi := if i + BatchSize <= |ids| then i + BatchSize else |ids|;
      var batch := ids[i..hi];
      assert ids[..hi] == ids[..i] + batch;
      FlattenSnoc(batches, batch);
      batches := batches + [batch];
      i := i + BatchSize;
      covered := hi;
    }
    assert ids[..|ids|] == ids;
    BatchCount(|ids|, |batches|);
  }

  lemma FlattenSnoc(bs: seq<seq<string>>, b: seq<string>)
    ensures Flatten(bs + [b]) == Flatten(bs) + b
  {
    assert (bs + [b])[..|bs|] == bs;
  }

  lemma BatchCount(n: nat, k: nat)
    requires n == 0 ==> k == 0
    requires n > 0 ==> k >= 1 && (k - 1) * BatchSize < n <= k * BatchSize
    ensures k == (n + BatchSize - 1) / BatchSize
  {
  }

  /** `SELECT key columns FROM table WHERE ma_bn IN (batch)` */
  function QueryBatch(remote: seq<RowKey>, batch: seq<string>): (rows: seq<RowKey>)
    ensures forall k :: k in rows <==> k in remote && k.maBn.Some? && k.maBn.value in batch
  {
    if remote == [] then []
    else
      var n := |remote| - 1;
      var k := remote[n];
      QueryBatch(remote[..n], batch) + (if k.maBn.Some? && k.maBn.value in batch then [k] else [])
  }

  /** The batch loop of `check_duplicates`: every batch's result, the empty
      ones skipped, concatenated. */
  method FetchKeys(batches: seq<seq<string>>, remote: seq<RowKey>) returns (fetched: seq<RowKey>)
    ensures forall k :: k in fetched <==>
      k in remote && k.maBn.Some? && exists i :: 0 <= i < |batches| && k.maBn.value in batches[i]
  {
    fetched := [];
    var b := 0;
    while b < |batches|
      invariant 0 <= b <= |batches|
      invariant forall k :: k in fetched <==>
        k in remote && k.maBn.Some? && exists i :: 0 <= i < b && k.maBn.value in batches[i]
    {
      var result := QueryBatch(remote, batches[b]);
      if result != [] {
        fetched := fetched + result;
      }
      b := b + 1;
    }
  }

  /** Looking a row's key up among the fetched keys is looking it up in the
      whole table, since every id of the file was queried. */
  lemma FetchedSuffices(df: seq<Record>, remote: seq<RowKey>, fetched: seq<RowKey>, ids: seq<string>)
    requires forall i :: 0 <= i < |df| && df[i].key.maBn.Some? ==> df[i].key.maBn.value in ids
    requires forall k :: k in fetched <==> k in remote && k.maBn.Some? && k.maBn.value in ids
    ensures DuplicateRows(df, fetched) == DuplicateRows(df, remote)
  {
    forall i | 0 <= i < |df|
      ensures IsDuplicate(df[i], fetched) == IsDuplicate(df[i], remote)
    {
      SameVerdict(df[i], remote, fetched, ids);
    }
    SameDuplicates(df, fetched, remote);
  }

  lemma {:induction false} SameDuplicates(df: seq<Record>, a: seq<RowKey>, b: seq<RowKey>)
    requires forall i :: 0 <= i < |df| ==> IsDuplicate(df[i], a) == IsDuplicate(df[i], b)
    ensures DuplicateRows(df, a) == DuplicateRows(df, b)
  {
    if df != [] {
      var n := |df| - 1;
      assert forall i :: 0 <= i < n ==> df[..n][i] == df[i];
      SameDuplicates(df[..n], a, b);
      assert IsDuplicate(df[n], a) == IsDuplicate(df[n], b);
    }
  }

  lemma SameVerdict(r: Record, remote: seq<RowKey>, fetched: seq<RowKey>, ids: seq<string>)
    requires r.key.maBn.Some? ==> r.key.maBn.value in ids
    requires forall k :: k in fetched <==> k in remote && k.maBn.Some? && k.maBn.value in ids
    ensures IsDuplicate(r, fetched) == IsDuplicate(r, remote)
  {
  }

  /** `check_duplicates`: the rows of the file whose key is already in the
      table; none when the table does not exist yet. When nothing was fetched,
      or the key join is empty, the final mask would select nothing either. */
  method CheckDuplicates(tableExists: bool, df: seq<Record>, remote: seq<RowKey>) returns (dups: seq<Record>)
    ensures dups == (if tableExists then DuplicateRows(df, remote) else [])
  {
    if !tableExists {
      return [];
    }
    var ids := PatientIds(df);
    if ids == [] {
      NoIdsNoDuplicates(df, remote);
      return [];
    }
    var batches := Batches(ids);
    var fetched := FetchKeys(batches, remote);
    forall k
      ensures k in fetched <==> k in remote && k.maBn.Some? && k.maBn.value in ids
    {
      if k.maBn.Some? {
        InFlatten(batches, k.maBn.value);
      }
    }
    FetchedSuffices(df, remote, fetched, ids);
    if fetched == [] {
      NoKeysNoDuplicates(df);
      return [];
    }
    dups := DuplicateRows(df, fetched);
  }

  lemma {:induction false} NoIdsNoDuplicates(df: seq<Record>, remote: seq<RowKey>)
    requires forall i :: 0 <= i < |df| ==> df[i].key.maBn.None?
    ensures DuplicateRows(df, remote) == []
  {
    if df != [] {
      var n := |df| - 1;
      assert forall i :: 0 <= i < n ==> df[..n][i] == df[i];
      NoIdsNoDuplicates(df[..n], remote);
    }
  }

  lemma {:induction false} NoKeysNoDuplicates(df: seq<Record>)
    ensures DuplicateRows(df, []) == []
  {
    if df != [] {
      NoKeysNoDuplicates(df[..|df| - 1]);
    }
  }

  /** Choice 1: keep the rows whose key is not among the duplicates' keys. */
  function KeepNew(df: seq<Record>, dupKeys: set<RowKey>): (kept: seq<Record>)
    ensures forall r :: r in kept <==> r in df && r.key !in dupKeys
  {
    if df == [] then []
    else
      var n := |df| - 1;
      KeepNew(df[..n], dupKeys) + (if df[n].key !in dupKeys then [df[n]] else [])
  }

  function KeysOf(rows: seq<Record>): (ks: set<RowKey>)
    ensures forall k :: k in ks <==> exists r :: r in rows && r.key == k
  {
    set r | r in rows :: r.key
  }

  lemma {:induction false} SplitByKeys(df: seq<Record>, remote: seq<RowKey>, dupKeys: set<RowKey>)
    requires forall i :: 0 <= i < |df| ==> (df[i].key in dupKeys <==> IsDuplicate(df[i], remote))
    ensures multiset(KeepNew(df, dupKeys)) + multiset(DuplicateRows(df, remote)) == multiset(df)
  {
    if df != [] {
      var n := |df| - 1;
      assert forall i :: 0 <= i < n ==> df[..n][i] == df[i];
      SplitByKeys(df[..n], remote, dupKeys);
      assert df == df[..n] + [df[n]];
      var dup := IsDuplicate(df[n], remote);
      assert df[n].key in dupKeys <==> dup;
      MultisetSnoc(KeepNew(df[..n], dupKeys), DuplicateRows(df[..n], remote), df[..n], df[n], !dup);
    }
  }

  lemma MultisetSnoc<T>(kept: seq<T>, dups: seq<T>, prefix: seq<T>, x: T, keep: bool)
    requires multiset(kept) + multiset(dups) == multiset(prefix)
    ensures multiset(kept + (if keep then [x] else [])) + multiset(dups + (if keep then [] else [x]))
      == multiset(prefix + [x])
  {
  }

  /** Under choice 1 the kept rows and the duplicate rows split the file:
      together they are its rows, each exactly once. */
  lemma KeepNewPartition(df: seq<Record>, remote: seq<RowKey>)
    ensures multiset(KeepNew(df, KeysOf(DuplicateRows(df, remote)))) + multiset(DuplicateRows(df, remote)) == multiset(df)
    ensures forall r :: r in KeepNew(df, KeysOf(DuplicateRows(df, remote))) <==> r in df && !IsDuplicate(r, remote)
  {
    var dups := DuplicateRows(df, remote);
    DuplicateRowsMembers(df, remote);
    forall i | 0 <= i < |df|
      ensures df[i].key in KeysOf(dups) <==> IsDuplicate(df[i], remote)
    {
      if df[i].key in KeysOf(dups) {
        var r :| r in dups && r.key == df[i].key;
      } else {
        assert df[i] in df;
      }
    }
    SplitByKeys(df, remote, KeysOf(dups));
  }
}
