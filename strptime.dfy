/** `datetime.strptime` for the two formats the client uses,
    '%Y-%m-%d' and '%Y-%m-%d %H:%M:%S'.

    CPython compiles a format into a regular expression: each directive
    becomes a group of alternatives tried in order (%Y four `\d`; %m
    `1[0-2]|0[1-9]|[1-9]`; %d `3[0-1]|[1-2]\d|0[1-9]|[1-9]| [1-9]`; %H
    `2[0-3]|[0-1]\d|\d`; %M `[0-5]\d|\d`; %S `6[0-1]|[0-5]\d|\d`), a run of
    whitespace in the format becomes `\s+`, and everything else stands for
    itself.  The expression is matched at the start of the text with
    backtracking; text left after the match is refused, and so is a date
    or time that `datetime` does not accept.  `\d` and `\s` are the Unicode
    classes, and `int()` reads any decimal digit.  `Match` below is that
    matcher for this small pattern language. */
module Strptime {
  import opened Basics
  import opened Calendar
  import opened Json

  // ---------------------------------------------------------------------
  // Character classes

  /** The first code point of every run of ten decimal digits, ascending,
      as in the Unicode 15.0 tables of Python 3.12: `\d` matches exactly
      these runs, and `int()` reads the k-th character of a run as k. */
  const DigitZeros: seq<int> :=
      [0x30, 0x660, 0x6F0, 0x7C0, 0x966, 0x9E6, 0xA66, 0xAE6, 0xB66, 0xBE6]
    + [0xC66, 0xCE6, 0xD66, 0xDE6, 0xE50, 0xED0, 0xF20, 0x1040, 0x1090, 0x17E0]
    + [0x1810, 0x1946, 0x19D0, 0x1A80, 0x1A90, 0x1B50, 0x1BB0, 0x1C40, 0x1C50, 0xA620]
    + [0xA8D0, 0xA900, 0xA9D0, 0xA9F0, 0xAA50, 0xABF0, 0xFF10, 0x104A0, 0x10D30, 0x11066]
    + [0x110F0, 0x11136, 0x111D0, 0x112F0, 0x11450, 0x114D0, 0x11650, 0x116C0, 0x11730, 0x118E0]
    + [0x11950, 0x11C50, 0x11D50, 0x11DA0, 0x11F50, 0x16A60, 0x16AC0, 0x16B50, 0x1D7CE, 0x1D7D8]
    + [0x1D7E2, 0x1D7EC, 0x1D7F6, 0x1E140, 0x1E2F0, 0x1E4F0, 0x1E950, 0x1FBF0]

  /** The digit value of code point `c`, looking from the k-th run on. */
  function DigitFrom(c: int, k: nat): (r: Option<nat>)
    ensures r.Some? ==> r.value < 10
    ensures r.Some? ==> exists j :: k <= j < |DigitZeros| && c == DigitZeros[j] + r.value
    decreases |DigitZeros| - k
  {
    if k >= |DigitZeros| || c < DigitZeros[k] then None
    else if c < DigitZeros[k] + 10 then Some(c - DigitZeros[k])
    else DigitFrom(c, k + 1)
  }

  /** `\d`: a Unicode decimal digit. */
  predicate IsDigit(c: char)
  {
    DigitFrom(c as int, 0).Some?
  }

  /** What `int()` makes of one decimal digit. */
  function DigitValue(c: char): (v: nat)
    ensures v < 10
  {
    match DigitFrom(c as int, 0)
    case Some(v) => v
    case None => 0
  }

  /** The ASCII digits are digits with their usual values. */
  lemma AsciiDigit(c: char)
    requires '0' <= c <= '9'
    ensures IsDigit(c) && DigitValue(c) == c as int - '0' as int
  {
  }

  /** U+0660 to U+0669, the Arabic-Indic digits, are the second run. */
  lemma ArabicIndicDigit(c: char)
    requires '\U{0660}' <= c <= '\U{0669}'
    ensures IsDigit(c) && DigitValue(c) == c as int - 0x660
  {
    assert DigitZeros[0] == 0x30 && DigitZeros[1] == 0x660;
    assert DigitFrom(c as int, 1) == Some(c as int - 0x660);
  }

  /** Every digit is one of the runs of ten and stands for its place in it. */
  lemma DigitInRun(c: char)
    requires IsDigit(c)
    ensures exists j :: 0 <= j < |DigitZeros| && c as int == DigitZeros[j] + DigitValue(c)
  {
  }

  /** `\s`: the Unicode whitespace characters, as `str.isspace` has them. */
  predicate IsSpace(c: char)
  {
    c == '\t' || c == '\n' || c == '\U{000B}' || c == '\U{000C}' || c == '\r'
    || c == '\U{001C}' || c == '\U{001D}' || c == '\U{001E}' || c == '\U{001F}' || c == ' '
    || c == '\U{0085}' || c == '\U{00A0}' || c == '\U{1680}' || '\U{2000}' <= c <= '\U{200A}'
    || c == '\U{2028}' || c == '\U{2029}' || c == '\U{202F}' || c == '\U{205F}' || c == '\U{3000}'
  }

  /** Where the run of whitespace that starts at `i` ends. */
  function SpacesEnd(s: string, i: nat): (j: nat)
    requires i <= |s|
    ensures i <= j <= |s|
    ensures forall k :: i <= k < j ==> IsSpace(s[k])
    ensures j == |s| || !IsSpace(s[j])
    decreases |s| - i
  {
    if i < |s| && IsSpace(s[i]) then SpacesEnd(s, i + 1) else i
  }

  /** `int(digits)` for a run of decimal digits. */
  function Value(digits: string): nat
  {
    if digits == [] then 0 else 10 * Value(digits[..|digits| - 1]) + DigitValue(digits[|digits| - 1])
  }

  /** `int(t)` for the text a directive captured: digits, after a single
      space in the one alternative (%d's ` [1-9]`) that starts with one. */
  function IntOf(t: string): nat
  {
    if t != [] && t[0] == ' ' then Value(t[1..]) else Value(t)
  }

  // ---------------------------------------------------------------------
  // The patterns and the matcher

  /** One position of an alternative: a fixed character, a range of
      characters, or `\d`. */
  datatype Class = Char(c: char) | Range(lo: char, hi: char) | Digit

  predicate Matches(c: char, k: Class)
  {
    match k
    case Char(x) => c == x
    case Range(lo, hi) => lo <= c <= hi
    case Digit => IsDigit(c)
  }

  /** An element of a compiled format: a directive's group of alternatives,
      a character standing for itself, or `\s+`. */
  datatype Item = Group(alts: seq<seq<Class>>) | Literal(c: char) | Spaces

  /** A compiled format: its items in order. */
  datatype Pattern = End | Then(item: Item, next: Pattern)

  /** What a successful match captured, group by group, and where it ended. */
  datatype Found = Found(groups: seq<string>, end: nat)

  function Groups(p: Pattern): nat
  {
    match p
    case End => 0
    case Then(x, next) => (if x.Group? then 1 else 0) + Groups(next)
  }

  /** The alternative `alt` matches the characters from `i` on. */
  predicate AltAt(s: string, i: nat, alt: seq<Class>)
    requires i <= |s|
    ensures AltAt(s, i, alt) ==> i + |alt| <= |s|
    decreases |alt|
  {
    alt == [] || (i < |s| && Matches(s[i], alt[0]) && AltAt(s, i + 1, alt[1..]))
  }

  /** The capture `g` put in front of what the rest of the pattern found. */
  function Prefix(g: string, r: Option<Found>): (p: Option<Found>)
    ensures p.Some? <==> r.Some?
    ensures p.Some? ==> p.value.groups == [g] + r.value.groups && p.value.end == r.value.end
  {
    match r
    case None => None
    case Some(f) => Some(Found([g] + f.groups, f.end))
  }

  /** `p` matched at `i`, backtracking as the regular expression engine
      does: the first alternative (in order) and the longest run of
      whitespace with which the rest of the pattern matches win. */
  function Match(s: string, i: nat, p: Pattern): (r: Option<Found>)
    requires i <= |s|
    ensures r.Some? ==> i <= r.value.end <= |s|
    decreases p, 2, 0
  {
    match p
    case End => Some(Found([], i))
    case Then(Literal(c), next) => if i < |s| && s[i] == c then Match(s, i + 1, next) else None
    case Then(Spaces, next) => TrySpaces(s, i, SpacesEnd(s, i), next)
    case Then(Group(alts), next) => TryAlts(s, i, alts, next)
  }

  /** A group at `i`: its alternatives in order, each followed by `next`. */
  function TryAlts(s: string, i: nat, alts: seq<seq<Class>>, next: Pattern): (r: Option<Found>)
    requires i <= |s|
    ensures r.Some? ==> i <= r.value.end <= |s|
    decreases next, 3, |alts|
  {
    if alts == [] then None
    else if AltAt(s, i, alts[0]) && Match(s, i + |alts[0]|, next).Some?
    then Prefix(s[i..i + |alts[0]|], Match(s, i + |alts[0]|, next))
    else TryAlts(s, i, alts[1..], next)
  }

  /** `\s+` at `i`: the whitespace characters from `i` to `j`, then fewer,
      each followed by `next`; at least one is needed. */
  function TrySpaces(s: string, i: nat, j: nat, next: Pattern): (r: Option<Found>)
    requires i <= j <= |s|
    ensures r.Some? ==> i < r.value.end <= |s|
    decreases next, 3, j
  {
    if j <= i then None
    else if Match(s, j, next).Some? then Match(s, j, next)
    else TrySpaces(s, i, j - 1, next)
  }

  /** A match captures one text per group of the pattern. */
  lemma {:induction false} MatchGroups(s: string, i: nat, p: Pattern)
    requires i <= |s|
    ensures Match(s, i, p).Some? ==> |Match(s, i, p).value.groups| == Groups(p)
    decreases p, 2, 0
  {
    match p
    case End =>
    case Then(Literal(c), next) =>
      if i < |s| && s[i] == c {
        MatchGroups(s, i + 1, next);
      }
    case Then(Spaces, next) => SpacesGroups(s, i, SpacesEnd(s, i), next);
    case Then(Group(alts), next) => AltsGroups(s, i, alts, next);
  }

  lemma {:induction false} AltsGroups(s: string, i: nat, alts: seq<seq<Class>>, next: Pattern)
    requires i <= |s|
    ensures TryAlts(s, i, alts, next).Some? ==> |TryAlts(s, i, alts, next).value.groups| == 1 + Groups(next)
    decreases next, 3, |alts|
  {
    if alts != [] {
      if AltAt(s, i, alts[0]) && Match(s, i + |alts[0]|, next).Some? {
        MatchGroups(s, i + |alts[0]|, next);
      } else {
        AltsGroups(s, i, alts[1..], next);
      }
    }
  }

  lemma {:induction false} SpacesGroups(s: string, i: nat, j: nat, next: Pattern)
    requires i <= j <= |s|
    ensures TrySpaces(s, i, j, next).Some? ==> |TrySpaces(s, i, j, next).value.groups| == Groups(next)
    decreases next, 3, j
  {
    if j > i {
      if Match(s, j, next).Some? {
        MatchGroups(s, j, next);
      } else {
        SpacesGroups(s, i, j - 1, next);
      }
    }
  }

  const Year: Item := Group([[Digit, Digit, Digit, Digit]])
  const Month: Item := Group([[Char('1'), Range('0', '2')], [Char('0'), Range('1', '9')], [Range('1', '9')]])
  const Day: Item := Group([[Char('3'), Range('0', '1')], [Range('1', '2'), Digit], [Char('0'), Range('1', '9')],
                            [Range('1', '9')], [Char(' '), Range('1', '9')]])
  const Hour: Item := Group([[Char('2'), Range('0', '3')], [Range('0', '1'), Digit], [Digit]])
  const Minute: Item := Group([[Range('0', '5'), Digit], [Digit]])
  const Second: Item := Group([[Char('6'), Range('0', '1')], [Range('0', '5'), Digit], [Digit]])

  /** '%Y-%m-%d' compiled, followed by `next`. */
  function DatePattern(next: Pattern): Pattern
  {
    Then(Year, Then(Literal('-'), Then(Month, Then(Literal('-'), Then(Day, next)))))
  }

  /** What ' %H:%M:%S' adds to '%Y-%m-%d'. */
  const TimePattern: Pattern :=
    Then(Spaces, Then(Hour, Then(Literal(':'), Then(Minute, Then(Literal(':'), Then(Second, End))))))

  // ---------------------------------------------------------------------
  // strptime

  function NoMatch(s: string, format: string): Exception
  {
    ValueError("time data " + Quote(s) + " does not match format " + Quote(format))
  }

  function Unconverted(rest: string): Exception
  {
    ValueError("unconverted data remains: " + rest)
  }

  /** The checks of `datetime.date(year, month, day)`, in its order. */
  function CheckDate(d: Date): (r: Result<Date>)
    ensures r.Ok? <==> ValidDate(d)
    ensures r.Ok? ==> r.value == d
  {
    if !(1 <= d.year <= 9999) then Err(ValueError("year " + Decimal(d.year) + " is out of range"))
    else if !(1 <= d.month <= 12) then Err(ValueError("month must be in 1..12"))
    else if !(1 <= d.day <= DaysInMonth(d.year, d.month)) then Err(ValueError("day is out of range for month"))
    else Ok(d)
  }

  lemma YearZeroMessage(m: int, d: int)
    ensures CheckDate(Date(0, m, d)) == Err(ValueError("year 0 is out of range"))
  {
    assert Decimal(0) == "0" by {
      assert DigitChar(0) == '0';
    }
    assert "year " + "0" + " is out of range" == "year 0 is out of range";
  }

  lemma FebruaryThirtiethMessage()
    ensures CheckDate(Date(2024, 2, 30)) == Err(ValueError("day is out of range for month"))
  {
    assert DaysInMonth(2024, 2) == 29;
  }

  /** The checks of `datetime.datetime(...)`: the date's, then the time's. */
  function CheckDateTime(t: DateTime): (r: Result<DateTime>)
    ensures r.Ok? <==> ValidDateTime(t)
    ensures r.Ok? ==> r.value == t
  {
    match CheckDate(t.date)
    case Err(e) => Err(e)
    case Ok(_) =>
      if !(0 <= t.hour <= 23) then Err(ValueError("hour must be in 0..23"))
      else if !(0 <= t.minute <= 59) then Err(ValueError("minute must be in 0..59"))
      else if !(0 <= t.second <= 59) then Err(ValueError("second must be in 0..59"))
      else Ok(t)
  }

  /** `datetime.strptime(s, '%Y-%m-%d')`, or the ValueError it raises. */
  function ParseDate(s: string): (r: Result<Date>)
    ensures r.Ok? ==> ValidDate(r.value)
  {
    match Match(s, 0, DatePattern(End))
    case None => Err(NoMatch(s, "%Y-%m-%d"))
    case Some(f) =>
      if f.end < |s| then Err(Unconverted(s[f.end..]))
      else
        MatchGroups(s, 0, DatePattern(End));
        CheckDate(Date(IntOf(f.groups[0]), IntOf(f.groups[1]), IntOf(f.groups[2])))
  }

  /** `datetime.strptime(s, '%Y-%m-%d %H:%M:%S')`, or the ValueError it
      raises. */
  function ParseDateTime(s: string): (r: Result<DateTime>)
    ensures r.Ok? ==> ValidDateTime(r.value)
  {
    match Match(s, 0, DatePattern(TimePattern))
    case None => Err(NoMatch(s, "%Y-%m-%d %H:%M:%S"))
    case Some(f) =>
      if f.end < |s| then Err(Unconverted(s[f.end..]))
      else
        MatchGroups(s, 0, DatePattern(TimePattern));
        var g := f.groups;
        CheckDateTime(DateTime(Date(IntOf(g[0]), IntOf(g[1]), IntOf(g[2])), IntOf(g[3]), IntOf(g[4]), IntOf(g[5])))
  }

  // ---------------------------------------------------------------------
  // The matcher, step by step

  /** A group tries its first alternative, then the others. */
  lemma TryStep(s: string, i: nat, a: seq<Class>, more: seq<seq<Class>>, next: Pattern)
    requires i <= |s|
    ensures TryAlts(s, i, [a] + more, next)
         == if AltAt(s, i, a) && Match(s, i + |a|, next).Some?
            then Prefix(s[i..i + |a|], Match(s, i + |a|, next))
            else TryAlts(s, i, more, next)
  {
    assert ([a] + more)[0] == a && ([a] + more)[1..] == more;
  }

  lemma AltAt1(s: string, i: nat, a: Class)
    requires i <= |s|
    ensures AltAt(s, i, [a]) <==> i < |s| && Matches(s[i], a)
  {
    assert [a][1..] == [];
  }

  lemma AltAt2(s: string, i: nat, a: Class, b: Class)
    requires i <= |s|
    ensures AltAt(s, i, [a, b]) <==> i + 2 <= |s| && Matches(s[i], a) && Matches(s[i + 1], b)
  {
    assert [a, b][1..] == [b];
    if i < |s| {
      AltAt1(s, i + 1, b);
    }
  }

  /** A pattern that goes on with `c` fails where the text does not. */
  lemma LiteralMiss(s: string, i: nat, c: char, next: Pattern)
    requires i <= |s| && !(i < |s| && s[i] == c)
    ensures Match(s, i, Then(Literal(c), next)).None?
  {
  }

  /** A pattern that goes on with `\s+` fails where no whitespace follows. */
  lemma SpacesMiss(s: string, i: nat, next: Pattern)
    requires i <= |s| && !(i < |s| && IsSpace(s[i]))
    ensures Match(s, i, Then(Spaces, next)).None?
  {
  }

  /** `\s+` over a single whitespace character. */
  lemma SpaceStep(s: string, i: nat, next: Pattern)
    requires i < |s| && IsSpace(s[i]) && (i + 1 == |s| || !IsSpace(s[i + 1]))
    ensures Match(s, i, Then(Spaces, next)) == Match(s, i + 1, next)
  {
    assert SpacesEnd(s, i) == i + 1;
    assert TrySpaces(s, i, i, next) == None;
  }

  // ---------------------------------------------------------------------
  // How the patterns read the client's own texts

  /** `t` spells `n` as %m, %d, %H, %M and %S accept it: as two digits, or
      below ten as one digit without the leading zero. */
  predicate Spelled(t: string, n: nat)
  {
    n < 100 && (t == Pad2(n) || (n < 10 && t == [DigitChar(n)]))
  }

  lemma ValueLast(s: string, c: char)
    ensures Value(s + [c]) == 10 * Value(s) + DigitValue(c)
  {
    assert (s + [c])[..|s|] == s;
  }

  lemma ValuePad2(n: nat)
    requires n < 100
    ensures Value(Pad2(n)) == n
  {
    var p := Pad2(n);
    assert p[..1] == [] + [p[0]];
    assert p == p[..1] + [p[1]];
    ValueLast([], p[0]);
    ValueLast(p[..1], p[1]);
    AsciiDigit(p[0]);
    AsciiDigit(p[1]);
  }

  /** The value of four digits, place by place. */
  lemma Value4(t: string)
    requires |t| == 4
    ensures Value(t) == 1000 * DigitValue(t[0]) + 100 * DigitValue(t[1]) + 10 * DigitValue(t[2]) + DigitValue(t[3])
  {
    assert t[..1] == t[..0] + [t[0]];
    assert t[..2] == t[..1] + [t[1]];
    assert t[..3] == t[..2] + [t[2]];
    assert t == t[..3] + [t[3]];
    ValueLast(t[..0], t[0]);
    ValueLast(t[..1], t[1]);
    ValueLast(t[..2], t[2]);
    ValueLast(t[..3], t[3]);
  }

  lemma ValuePad4(n: nat)
    requires n < 10000
    ensures Value(Pad4(n)) == n
  {
    var p := Pad4(n);
    var hi, lo := n / 100, n % 100;
    Value4(p);
    AsciiDigit(p[0]);
    AsciiDigit(p[1]);
    AsciiDigit(p[2]);
    AsciiDigit(p[3]);
    assert DigitValue(p[0]) == hi / 10 && DigitValue(p[1]) == hi % 10;
    assert DigitValue(p[2]) == lo / 10 && DigitValue(p[3]) == lo % 10;
    assert Value(p) == 100 * (10 * (hi / 10) + hi % 10) + 10 * (lo / 10) + lo % 10;
  }

  lemma IntOfSpelled(t: string, n: nat)
    requires Spelled(t, n)
    ensures IntOf(t) == n
  {
    if t == Pad2(n) {
      ValuePad2(n);
    } else {
      assert t == [] + [DigitChar(n)];
      ValueLast([], DigitChar(n));
      AsciiDigit(DigitChar(n));
    }
  }

  lemma IntOfPad4(n: nat)
    requires n < 10000
    ensures IntOf(Pad4(n)) == n
  {
    ValuePad4(n);
  }

  /** `str(n)` for 1 <= n < 100 is a spelling %m, %d, %H, %M and %S accept. */
  lemma NatDecimalSpelled(n: nat)
    requires 1 <= n < 100
    ensures Spelled(NatDecimal(n), n)
  {
    if n >= 10 {
      assert NatDecimal(n / 10) == [DigitChar(n / 10)];
    }
  }

  /** Four characters that `\d\d\d\d` accepts. */
  predicate YearDigits(t: string)
  {
    |t| == 4 && forall k :: 0 <= k < 4 ==> IsDigit(t[k])
  }

  lemma Pad4Year(y: nat)
    requires y < 10000
    ensures YearDigits(Pad4(y))
  {
    forall k | 0 <= k < 4
      ensures IsDigit(Pad4(y)[k])
    {
      AsciiDigit(Pad4(y)[k]);
    }
  }

  /** %Y takes four digits, ASCII or not. */
  lemma YearAt(s: string, i: nat, next: Pattern)
    requires i + 4 <= |s| && YearDigits(s[i..i + 4])
    ensures Match(s, i, Then(Year, next)) == Prefix(s[i..i + 4], Match(s, i + 4, next))
  {
    forall k | i <= k < i + 4
      ensures IsDigit(s[k])
    {
      assert s[k] == s[i..i + 4][k - i];
    }
    var alt := [Digit, Digit, Digit, Digit];
    assert alt[1..] == [Digit, Digit, Digit];
    AltAt2(s, i + 2, Digit, Digit);
    assert AltAt(s, i + 1, alt[1..]);
    assert Year.alts == [alt] + [];
    TryStep(s, i, alt, [], next);
  }

  /** %m followed by '-' takes the digits in front of the '-'. */
  lemma MonthAt(s: string, i: nat, t: string, next: Pattern)
    requires (|t| == 1 && '1' <= t[0] <= '9')
             || (|t| == 2 && ((t[0] == '1' && '0' <= t[1] <= '2') || (t[0] == '0' && '1' <= t[1] <= '9')))
    requires i + |t| < |s| && s[i..i + |t|] == t && s[i + |t|] == '-'
    ensures Match(s, i, Then(Month, Then(Literal('-'), next))) == Prefix(t, Match(s, i + |t|, Then(Literal('-'), next)))
  {
    var rest := Then(Literal('-'), next);
    var a0, a1, a2 := [Char('1'), Range('0', '2')], [Char('0'), Range('1', '9')], [Range('1', '9')];
    assert Month.alts == [a0, a1, a2];
    TryStep(s, i, a0, [a1, a2], rest);
    TryStep(s, i, a1, [a2], rest);
    TryStep(s, i, a2, [], rest);
    AltAt2(s, i, Char('1'), Range('0', '2'));
    AltAt2(s, i, Char('0'), Range('1', '9'));
    AltAt1(s, i, Range('1', '9'));
    assert s[i] == t[0];
    if |t| == 2 {
      assert s[i + 1] == t[1];
      LiteralMiss(s, i + 1, '-', next);
    }
  }

  /** %d at the end of the pattern takes the first alternative that fits:
      two ASCII digits, or one digit that ends the text. */
  lemma DayLast(s: string, i: nat, t: string)
    requires (|t| == 1 && '1' <= t[0] <= '9' && i + 1 == |s|)
             || (|t| == 2 && ((t[0] == '3' && '0' <= t[1] <= '1') || ('1' <= t[0] <= '2' && '0' <= t[1] <= '9')
                              || (t[0] == '0' && '1' <= t[1] <= '9')))
    requires i + |t| <= |s| && s[i..i + |t|] == t
    ensures Match(s, i, Then(Day, End)) == Some(Found([t], i + |t|))
  {
    var a0, a1, a2, a3, a4 := [Char('3'), Range('0', '1')], [Range('1', '2'), Digit], [Char('0'), Range('1', '9')],
                              [Range('1', '9')], [Char(' '), Range('1', '9')];
    assert Day.alts == [a0, a1, a2, a3, a4];
    TryStep(s, i, a0, [a1, a2, a3, a4], End);
    TryStep(s, i, a1, [a2, a3, a4], End);
    TryStep(s, i, a2, [a3, a4], End);
    TryStep(s, i, a3, [a4], End);
    AltAt2(s, i, Char('3'), Range('0', '1'));
    AltAt2(s, i, Range('1', '2'), Digit);
    AltAt2(s, i, Char('0'), Range('1', '9'));
    AltAt1(s, i, Range('1', '9'));
    assert s[i] == t[0];
    if |t| == 2 {
      assert s[i + 1] == t[1];
      AsciiDigit(t[1]);
    }
    assert [t] + [] == [t];
  }

  /** %d followed by `\s+` takes the two digits in front of the whitespace. */
  lemma DayBeforeSpaces(s: string, i: nat, t: string, next: Pattern)
    requires |t| == 2 && ((t[0] == '3' && '0' <= t[1] <= '1') || ('1' <= t[0] <= '2' && '0' <= t[1] <= '9')
                          || (t[0] == '0' && '1' <= t[1] <= '9'))
    requires i + 2 <= |s| && s[i..i + 2] == t
    ensures Match(s, i, Then(Day, Then(Spaces, next))) == Prefix(t, Match(s, i + 2, Then(Spaces, next)))
  {
    var rest := Then(Spaces, next);
    var a0, a1, a2 := [Char('3'), Range('0', '1')], [Range('1', '2'), Digit], [Char('0'), Range('1', '9')];
    var late := [[Range('1', '9')], [Char(' '), Range('1', '9')]];
    assert Day.alts == [a0] + ([a1] + ([a2] + late));
    assert s[i] == t[0] && s[i + 1] == t[1];
    DayLateAlts(s, i, next);
    TryStep(s, i, a0, [a1] + ([a2] + late), rest);
    TryStep(s, i, a1, [a2] + late, rest);
    TryStep(s, i, a2, late, rest);
    AltAt2(s, i, Char('3'), Range('0', '1'));
    AltAt2(s, i, Range('1', '2'), Digit);
    AltAt2(s, i, Char('0'), Range('1', '9'));
    if '1' <= t[0] <= '2' {
      AsciiDigit(t[1]);
    }
  }

  /** Before `\s+`, the one-digit alternatives of %d fail in front of a
      second digit. */
  lemma DayLateAlts(s: string, i: nat, next: Pattern)
    requires i + 2 <= |s| && '0' <= s[i] <= '9' && '0' <= s[i + 1] <= '9'
    ensures TryAlts(s, i, [[Range('1', '9')], [Char(' '), Range('1', '9')]], Then(Spaces, next)) == None
  {
    var rest := Then(Spaces, next);
    AsciiDigit(s[i + 1]);
    SpacesMiss(s, i + 1, next);
    TryStep(s, i, [Range('1', '9')], [[Char(' '), Range('1', '9')]], rest);
    TryStep(s, i, [Char(' '), Range('1', '9')], [], rest);
    AltAt1(s, i, Range('1', '9'));
    AltAt2(s, i, Char(' '), Range('1', '9'));
  }

  /** %H followed by ':' takes the two digits in front of the ':'. */
  lemma HourAt(s: string, i: nat, t: string, next: Pattern)
    requires |t| == 2 && ((t[0] == '2' && '0' <= t[1] <= '3') || ('0' <= t[0] <= '1' && '0' <= t[1] <= '9'))
    requires i + 2 <= |s| && s[i..i + 2] == t
    ensures Match(s, i, Then(Hour, Then(Literal(':'), next))) == Prefix(t, Match(s, i + 2, Then(Literal(':'), next)))
  {
    var rest := Then(Literal(':'), next);
    var a0, a1, a2 := [Char('2'), Range('0', '3')], [Range('0', '1'), Digit], [Digit];
    assert Hour.alts == [a0, a1, a2];
    TryStep(s, i, a0, [a1, a2], rest);
    TryStep(s, i, a1, [a2], rest);
    TryStep(s, i, a2, [], rest);
    AltAt2(s, i, Char('2'), Range('0', '3'));
    AltAt2(s, i, Range('0', '1'), Digit);
    AltAt1(s, i, Digit);
    assert s[i] == t[0] && s[i + 1] == t[1];
    AsciiDigit(t[1]);
    LiteralMiss(s, i + 1, ':', next);
  }

  /** %M followed by ':' takes the two digits in front of the ':'. */
  lemma MinuteAt(s: string, i: nat, t: string, next: Pattern)
    requires |t| == 2 && '0' <= t[0] <= '5' && '0' <= t[1] <= '9'
    requires i + 2 <= |s| && s[i..i + 2] == t
    ensures Match(s, i, Then(Minute, Then(Literal(':'), next))) == Prefix(t, Match(s, i + 2, Then(Literal(':'), next)))
  {
    var rest := Then(Literal(':'), next);
    var a0, a1 := [Range('0', '5'), Digit], [Digit];
    assert Minute.alts == [a0, a1];
    TryStep(s, i, a0, [a1], rest);
    TryStep(s, i, a1, [], rest);
    AltAt2(s, i, Range('0', '5'), Digit);
    AltAt1(s, i, Digit);
    assert s[i] == t[0] && s[i + 1] == t[1];
    AsciiDigit(t[1]);
    LiteralMiss(s, i + 1, ':', next);
  }

  /** %S at the end of the pattern takes two ASCII digits from 00 to 59. */
  lemma SecondLast(s: string, i: nat, t: string)
    requires |t| == 2 && '0' <= t[0] <= '5' && '0' <= t[1] <= '9'
    requires i + 2 <= |s| && s[i..i + 2] == t
    ensures Match(s, i, Then(Second, End)) == Some(Found([t], i + 2))
  {
    var a0, a1, a2 := [Char('6'), Range('0', '1')], [Range('0', '5'), Digit], [Digit];
    assert Second.alts == [a0, a1, a2];
    TryStep(s, i, a0, [a1, a2], End);
    TryStep(s, i, a1, [a2], End);
    AltAt2(s, i, Char('6'), Range('0', '1'));
    AltAt2(s, i, Range('0', '5'), Digit);
    assert s[i] == t[0] && s[i + 1] == t[1];
    AsciiDigit(t[1]);
    assert [t] + [] == [t];
  }

  lemma MonthSpelled(t: string, m: nat)
    requires 1 <= m <= 12 && Spelled(t, m)
    ensures (|t| == 1 && '1' <= t[0] <= '9')
            || (|t| == 2 && ((t[0] == '1' && '0' <= t[1] <= '2') || (t[0] == '0' && '1' <= t[1] <= '9')))
  {
  }

  lemma DaySpelled(t: string, d: nat)
    requires 1 <= d <= 31 && Spelled(t, d)
    ensures (|t| == 1 && '1' <= t[0] <= '9')
            || (|t| == 2 && ((t[0] == '3' && '0' <= t[1] <= '1') || ('1' <= t[0] <= '2' && '0' <= t[1] <= '9')
                             || (t[0] == '0' && '1' <= t[1] <= '9')))
  {
  }

  lemma HourSpelled(h: nat)
    requires h <= 23
    ensures var t := Pad2(h);
      (t[0] == '2' && '0' <= t[1] <= '3') || ('0' <= t[0] <= '1' && '0' <= t[1] <= '9')
  {
  }

  lemma SixtySpelled(n: nat)
    requires n <= 59
    ensures '0' <= Pad2(n)[0] <= '5'
  {
  }

  /** Where the pieces of "Y-M-D" sit at the start of `s`. */
  lemma DateTextAt(s: string, yt: string, mt: string, dt: string)
    requires |yt| == 4 && 6 + |mt| + |dt| <= |s| && s[..6 + |mt| + |dt|] == yt + "-" + mt + "-" + dt
    ensures s[0..4] == yt && s[4] == '-' && s[5..5 + |mt|] == mt && s[5 + |mt|] == '-'
    ensures s[6 + |mt|..6 + |mt| + |dt|] == dt
  {
    var pre := yt + "-" + mt + "-" + dt;
    assert s[0..4] == pre[0..4];
    assert s[5..5 + |mt|] == pre[5..5 + |mt|];
    assert s[6 + |mt|..6 + |mt| + |dt|] == pre[6 + |mt|..6 + |mt| + |dt|];
  }

  /** A pattern that goes on with `c` steps over it where the text has it. */
  lemma LiteralHit(s: string, i: nat, c: char, next: Pattern)
    requires i < |s| && s[i] == c
    ensures Match(s, i, Then(Literal(c), next)) == Match(s, i + 1, next)
  {
  }

  /** The fields of a text that starts "Y-M-", the month with or without a
      leading zero, up to the day. */
  lemma DateHead(s: string, mt: string, dayOn: Pattern)
    requires 4 <= |s| && YearDigits(s[0..4])
    requires (|mt| == 1 && '1' <= mt[0] <= '9')
             || (|mt| == 2 && ((mt[0] == '1' && '0' <= mt[1] <= '2') || (mt[0] == '0' && '1' <= mt[1] <= '9')))
    requires 6 + |mt| <= |s| && s[4] == '-' && s[5..5 + |mt|] == mt && s[5 + |mt|] == '-'
    ensures Match(s, 0, DatePattern(dayOn)) == Prefix(s[0..4], Prefix(mt, Match(s, 6 + |mt|, Then(Day, dayOn))))
  {
    var dayAt := Then(Day, dayOn);
    var monthOn := Then(Literal('-'), dayAt);
    var yearOn := Then(Literal('-'), Then(Month, monthOn));
    YearAt(s, 0, yearOn);
    LiteralHit(s, 4, '-', Then(Month, monthOn));
    MonthAt(s, 5, mt, dayAt);
    LiteralHit(s, 5 + |mt|, '-', dayAt);
  }

  /** "Y-M-D" at the start of `s`, with nothing after it in the pattern. */
  lemma DateFields(s: string, yt: string, m: nat, d: nat, mt: string, dt: string)
    requires YearDigits(yt) && 1 <= m <= 12 && 1 <= d <= 31 && Spelled(mt, m) && Spelled(dt, d)
    requires 6 + |mt| + |dt| <= |s| && s[..6 + |mt| + |dt|] == yt + "-" + mt + "-" + dt
    requires |dt| == 2 || 6 + |mt| + |dt| == |s|
    ensures Match(s, 0, DatePattern(End)) == Some(Found([yt, mt, dt], 6 + |mt| + |dt|))
  {
    DateTextAt(s, yt, mt, dt);
    MonthSpelled(mt, m);
    DateHead(s, mt, End);
    DaySpelled(dt, d);
    DayLast(s, 6 + |mt|, dt);
    assert [yt] + ([mt] + [dt]) == [yt, mt, dt];
  }

  /** "YYYY-MM-DD" at the start of `s`, with `\s+` next in the pattern. */
  lemma DateBeforeTime(s: string, y: nat, m: nat, d: nat, next: Pattern)
    requires y < 10000 && 1 <= m <= 12 && 1 <= d <= 31
    requires 10 <= |s| && s[..10] == Pad4(y) + "-" + Pad2(m) + "-" + Pad2(d)
    ensures Match(s, 0, DatePattern(Then(Spaces, next)))
         == Prefix(Pad4(y), Prefix(Pad2(m), Prefix(Pad2(d), Match(s, 10, Then(Spaces, next)))))
  {
    DateTextAt(s, Pad4(y), Pad2(m), Pad2(d));
    MonthSpelled(Pad2(m), m);
    Pad4Year(y);
    DateHead(s, Pad2(m), Then(Spaces, next));
    DaySpelled(Pad2(d), d);
    DayBeforeSpaces(s, 8, Pad2(d), next);
  }

  /** Where the pieces of " HH:MM:SS" sit from `p` on. */
  lemma TimeTextAt(s: string, p: nat, ht: string, mt: string, st: string)
    requires |ht| == 2 && |mt| == 2 && |st| == 2
    requires p + 9 == |s| && s[p + 1..] == ht + ":" + mt + ":" + st
    ensures s[p + 1..p + 3] == ht && s[p + 3] == ':' && s[p + 4..p + 6] == mt && s[p + 6] == ':'
    ensures s[p + 7..p + 9] == st
  {
    var post := ht + ":" + mt + ":" + st;
    assert s[p + 1..p + 3] == post[0..2];
    assert s[p + 3] == post[2];
    assert s[p + 4..p + 6] == post[3..5];
    assert s[p + 6] == post[5];
    assert s[p + 7..p + 9] == post[6..8];
  }

  /** The fields of " HH:MM:SS" at `p`, the first character any whitespace,
      ending the text. */
  lemma TimeFields(s: string, p: nat, h: nat, mi: nat, sec: nat)
    requires h <= 23 && mi <= 59 && sec <= 59
    requires p + 9 == |s| && IsSpace(s[p]) && s[p + 1..] == Pad2(h) + ":" + Pad2(mi) + ":" + Pad2(sec)
    ensures Match(s, p, TimePattern) == Some(Found([Pad2(h), Pad2(mi), Pad2(sec)], |s|))
  {
    TimeTextAt(s, p, Pad2(h), Pad2(mi), Pad2(sec));
    assert s[p + 1] == Pad2(h)[0];
    HourSpelled(h);
    SixtySpelled(mi);
    SixtySpelled(sec);
    var secondOn := Then(Literal(':'), Then(Second, End));
    SpaceStep(s, p, Then(Hour, Then(Literal(':'), Then(Minute, secondOn))));
    HourAt(s, p + 1, Pad2(h), Then(Minute, secondOn));
    MinuteAt(s, p + 4, Pad2(mi), Then(Second, End));
    SecondLast(s, p + 7, Pad2(sec));
    assert [Pad2(h)] + ([Pad2(mi)] + [Pad2(sec)]) == [Pad2(h), Pad2(mi), Pad2(sec)];
  }

  // ---------------------------------------------------------------------
  // Properties

  /** "Y-M-D", each of M and D with or without its leading zero, is read as
      that date when it exists, and otherwise raises datetime's ValueError
      for it ("year 0 is out of range", "day is out of range for month"). */
  lemma ParseDateFields(yt: string, m: nat, d: nat, mt: string, dt: string)
    requires YearDigits(yt) && 1 <= m <= 12 && 1 <= d <= 31 && Spelled(mt, m) && Spelled(dt, d)
    ensures ParseDate(yt + "-" + mt + "-" + dt) == CheckDate(Date(Value(yt), m, d))
  {
    var s := yt + "-" + mt + "-" + dt;
    assert s[..|s|] == s;
    DateFields(s, yt, m, d, mt, dt);
    assert IntOf(yt) == Value(yt) by {
      assert IsDigit(yt[0]);
    }
    IntOfSpelled(mt, m);
    IntOfSpelled(dt, d);
  }

  /** A date in the right shape followed by any further text raises
      "unconverted data remains" with that text. */
  lemma ParseDateTrailing(y: nat, m: nat, d: nat, tail: string)
    requires y < 10000 && 1 <= m <= 12 && 1 <= d <= 31 && tail != []
    ensures ParseDate(Pad4(y) + "-" + Pad2(m) + "-" + Pad2(d) + tail) == Err(Unconverted(tail))
  {
    var s := Pad4(y) + "-" + Pad2(m) + "-" + Pad2(d) + tail;
    assert s[..10] == Pad4(y) + "-" + Pad2(m) + "-" + Pad2(d);
    Pad4Year(y);
    DateFields(s, Pad4(y), m, d, Pad2(m), Pad2(d));
    assert s[10..] == tail;
  }

  /** "Y-M-D", any one whitespace character, "HH:MM:SS" is read as that
      moment when it exists, and otherwise raises datetime's ValueError. */
  lemma ParseDateTimeFields(y: nat, m: nat, d: nat, h: nat, mi: nat, sec: nat, sep: char)
    requires y < 10000 && 1 <= m <= 12 && 1 <= d <= 31 && h <= 23 && mi <= 59 && sec <= 59 && IsSpace(sep)
    ensures ParseDateTime(Pad4(y) + "-" + Pad2(m) + "-" + Pad2(d) + [sep] + Pad2(h) + ":" + Pad2(mi) + ":" + Pad2(sec))
         == CheckDateTime(DateTime(Date(y, m, d), h, mi, sec))
  {
    var s := Pad4(y) + "-" + Pad2(m) + "-" + Pad2(d) + [sep] + Pad2(h) + ":" + Pad2(mi) + ":" + Pad2(sec);
    assert s[..10] == Pad4(y) + "-" + Pad2(m) + "-" + Pad2(d);
    assert s[10] == sep && s[11..] == Pad2(h) + ":" + Pad2(mi) + ":" + Pad2(sec);
    DateTimeFields(s, y, m, d, h, mi, sec);
    IntOfPad4(y);
    IntOfSpelled(Pad2(m), m);
    IntOfSpelled(Pad2(d), d);
    IntOfSpelled(Pad2(h), h);
    IntOfSpelled(Pad2(mi), mi);
    IntOfSpelled(Pad2(sec), sec);
  }

  /** The six fields of "YYYY-MM-DD HH:MM:SS", the separator any whitespace. */
  lemma DateTimeFields(s: string, y: nat, m: nat, d: nat, h: nat, mi: nat, sec: nat)
    requires y < 10000 && 1 <= m <= 12 && 1 <= d <= 31 && h <= 23 && mi <= 59 && sec <= 59
    requires |s| == 19 && s[..10] == Pad4(y) + "-" + Pad2(m) + "-" + Pad2(d) && IsSpace(s[10])
    requires s[11..] == Pad2(h) + ":" + Pad2(mi) + ":" + Pad2(sec)
    ensures Match(s, 0, DatePattern(TimePattern)) == Some(Found([Pad4(y), Pad2(m), Pad2(d), Pad2(h), Pad2(mi), Pad2(sec)], 19))
  {
    var time := Match(s, 10, TimePattern);
    assert time == Some(Found([Pad2(h), Pad2(mi), Pad2(sec)], 19)) by {
      TimeFields(s, 10, h, mi, sec);
    }
    assert Match(s, 0, DatePattern(TimePattern)) == Prefix(Pad4(y), Prefix(Pad2(m), Prefix(Pad2(d), time))) by {
      DateBeforeTime(s, y, m, d, TimePattern.next);
    }
    assert [Pad4(y)] + ([Pad2(m)] + ([Pad2(d)] + [Pad2(h), Pad2(mi), Pad2(sec)]))
        == [Pad4(y), Pad2(m), Pad2(d), Pad2(h), Pad2(mi), Pad2(sec)];
  }

  /** Without whitespace after the date, '%Y-%m-%d %H:%M:%S' does not match. */
  lemma ParseDateTimeNeedsSpace(y: nat, m: nat, d: nat, tail: string)
    requires y < 10000 && 1 <= m <= 12 && 1 <= d <= 31 && (tail == [] || !IsSpace(tail[0]))
    ensures var s := Pad4(y) + "-" + Pad2(m) + "-" + Pad2(d) + tail;
      ParseDateTime(s) == Err(NoMatch(s, "%Y-%m-%d %H:%M:%S"))
  {
    var s := Pad4(y) + "-" + Pad2(m) + "-" + Pad2(d) + tail;
    assert s[..10] == Pad4(y) + "-" + Pad2(m) + "-" + Pad2(d);
    assert 10 < |s| ==> s[10] == tail[0];
    DateBeforeTime(s, y, m, d, TimePattern.next);
    SpacesMiss(s, 10, TimePattern.next);
  }
}
