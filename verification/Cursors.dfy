/** The text form `YYYYMMDD_hour` of a cursor, as the engine prints it and `fetch_page` reads it. */
module Cursors {
  import opened Wrappers
  import opened Hours
  import opened Calendar

  // ---------------------------------------------------------------- printing

  function Digit(d: int): char
    requires 0 <= d <= 9
  {
    (('0' as int) + d) as char
  }

  function Digits2(n: int): string
    requires 0 <= n <= 99
  {
    [Digit(n / 10), Digit(n % 10)]
  }

  /** `%Y%m%d` for a year of four digits. */
  function PrintDate(d: Date): string
    requires 0 <= d.year <= 9999 && 1 <= d.month <= 12 && 1 <= d.day <= 31
  {
    Digits2(d.year / 100) + Digits2(d.year % 100) + Digits2(d.month) + Digits2(d.day)
  }

  /** A number without leading zeros, as Rust prints an hour. */
  function PrintHour(hour: int): string
    requires 0 <= hour < 24
  {
    if hour < 10 then [Digit(hour)] else Digits2(hour)
  }

  /** The cursor of day `day` (since 1970) and hour `hour`. */
  function Print(day: int, hour: int): string
    requires FourDigitYear(day) && 0 <= hour < 24
  {
    DayOfDate(day);
    FourDigits(day);
    PrintDate(DateOf(day)) + "_" + PrintHour(hour)
  }

  /** Hours that a cursor of four-digit years can name. */
  predicate Printable(h: int) {
    FourDigitYear(DayOf(h))
  }

  function PrintCursor(h: int): string
    requires Printable(h)
  {
    Print(DayOf(h), HourOfDay(h))
  }

  // ----------------------------------------------------------------- reading

  predicate IsDigit(c: char) {
    '0' <= c <= '9'
  }

  function ValueOf(c: char): (v: int)
    requires IsDigit(c)
  {
    (c as int) - ('0' as int)
  }

  /** Reads at most `width` digits: how many there are, and their value on top of `acc`. */
  function ScanNumber(s: string, width: nat, acc: int): (int, int)
    decreases width
  {
    if width == 0 || s == [] || !IsDigit(s[0]) then (0, acc)
    else
      var rest := ScanNumber(s[1..], width - 1, 10 * acc + ValueOf(s[0]));
      (rest.0 + 1, rest.1)
  }

  lemma {:induction false} ScanWithin(s: string, width: nat, acc: int)
    ensures 0 <= ScanNumber(s, width, acc).0 <= |s|
    decreases width
  {
    if width > 0 && s != [] && IsDigit(s[0]) {
      ScanWithin(s[1..], width - 1, 10 * acc + ValueOf(s[0]));
    }
  }

  /** `NaiveDate::parse_from_str(s, "%Y%m%d")` on text of digits. */
  function ParseDate(s: string): Option<Date> {
    ScanWithin(s, 4, 0);
    var y := ScanNumber(s, 4, 0);
    if y.0 == 0 then None else
    var s1 := s[y.0..];
    ScanWithin(s1, 2, 0);
    var m := ScanNumber(s1, 2, 0);
    if m.0 == 0 then None else
    var s2 := s1[m.0..];
    var d := ScanNumber(s2, 2, 0);
    if d.0 == 0 || d.0 != |s2| || !ValidDate(Date(y.1, m.1, d.1)) then None
    else Some(Date(y.1, m.1, d.1))
  }

  const U32_MODULUS: int := 0x1_0000_0000

  /** `str::parse::<u32>`: an optional plus sign, then digits, within 32 bits. */
  function ParseU32(s: string): Option<int> {
    var digits := if s != [] && s[0] == '+' then s[1..] else s;
    var n := ScanNumber(digits, |digits|, 0);
    if digits == [] || n.0 != |digits| || n.1 >= U32_MODULUS then None else Some(n.1)
  }

  function Find(s: string, c: char): (i: nat)
    ensures i <= |s|
  {
    if s == [] || s[0] == c then 0 else 1 + Find(s[1..], c)
  }

  /** `str::split` by one character. */
  function Split(s: string, c: char): (parts: seq<string>)
    ensures |parts| >= 1
    decreases |s|
  {
    var i := Find(s, c);
    if i == |s| then [s] else [s[..i]] + Split(s[i + 1..], c)
  }

  datatype Parsed =
    | At(hour: int)       // a position, as an hour index
    | FromStart           // not two parts: the code falls back to `start_from`
    | Rejected            // Error::Validation
    | Panic               // `and_hms_opt(hour, 0, 0).unwrap()` on an hour of 24 or more

  function ParseCursor(s: string): Parsed {
    var parts := Split(s, '_');
    if |parts| != 2 then FromStart else
    match ParseDate(parts[0])
    case None => Rejected
    case Some(date) =>
      match ParseU32(parts[1])
      case None => Rejected
      case Some(hour) =>
        if hour >= 24 then Panic else At(DayNumber(date) * 24 + hour)
  }

  // -------------------------------------------------------------- round trip

  lemma DigitBack(d: int)
    requires 0 <= d <= 9
    ensures IsDigit(Digit(d)) && ValueOf(Digit(d)) == d && Digit(d) != '_' && Digit(d) != '+'
  {
  }

  lemma ScanTwo(n: int, tail: string, acc: int)
    requires 0 <= n <= 99
    ensures ScanNumber(Digits2(n) + tail, 2, acc) == (2, 100 * acc + n)
  {
  }

  lemma ScanFour(a: int, b: int, tail: string)
    requires 0 <= a <= 99 && 0 <= b <= 99
    ensures ScanNumber(Digits2(a) + Digits2(b) + tail, 4, 0) == (4, 100 * a + b)
  {
  }

  lemma ScanSplits(a: string, b: string)
    ensures (a + b)[|a|..] == b
  {
  }

  lemma ParsePieces(a: int, b: int, m: int, d: int)
    requires 0 <= a <= 99 && 0 <= b <= 99 && 0 <= m <= 99 && 0 <= d <= 99
    ensures ParseDate(Digits2(a) + Digits2(b) + Digits2(m) + Digits2(d)) ==
            (var date := Date(100 * a + b, m, d); if ValidDate(date) then Some(date) else None)
  {
    var y, rest := Digits2(a) + Digits2(b), Digits2(m) + Digits2(d);
    assert y + Digits2(m) + Digits2(d) == y + rest;
    ScanFour(a, b, rest);
    ScanSplits(y, rest);
    ScanTwo(m, Digits2(d), 0);
    ScanSplits(Digits2(m), Digits2(d));
    ScanTwo(d, [], 0);
    assert Digits2(d) + [] == Digits2(d);
  }

  lemma ParsePrintedDate(d: Date)
    requires ValidDate(d) && d.year <= 9999
    ensures d.day <= 31
    ensures ParseDate(PrintDate(d)) == Some(d)
  {
    DayAtMost31(IsLeap(d.year), d.month, d.day);
    ParsePieces(d.year / 100, d.year % 100, d.month, d.day);
    assert 100 * (d.year / 100) + d.year % 100 == d.year;
  }

  lemma ParsePrintedHour(hour: int)
    requires 0 <= hour < 24
    ensures '_' !in PrintHour(hour)
    ensures ParseU32(PrintHour(hour)) == Some(hour)
  {
    if hour < 10 {
      DigitBack(hour);
      var s := PrintHour(hour);
      assert ScanNumber(s[1..], 0, hour) == (0, hour);
    } else {
      DigitBack(hour / 10);
      DigitBack(hour % 10);
      ScanTwo(hour, [], 0);
      assert Digits2(hour) + [] == Digits2(hour);
    }
  }

  lemma {:induction false} FindFirst(a: string, b: string, c: char)
    requires c !in a
    ensures Find(a + [c] + b, c) == |a|
    decreases |a|
  {
    if a != [] {
      FindFirst(a[1..], b, c);
      assert (a + [c] + b)[1..] == a[1..] + [c] + b;
    }
  }

  lemma {:induction false} FindNowhere(b: string, c: char)
    requires c !in b
    ensures Find(b, c) == |b|
    decreases |b|
  {
    if b != [] {
      FindNowhere(b[1..], c);
    }
  }

  lemma SplitOnce(a: string, b: string, c: char)
    requires c !in a && c !in b
    ensures Split(a + [c] + b, c) == [a, b]
  {
    FindFirst(a, b, c);
    FindNowhere(b, c);
    var s := a + [c] + b;
    assert s[..|a|] == a && s[|a| + 1..] == b;
  }

  lemma PrintedDateHasNoMark(d: Date)
    requires 0 <= d.year <= 9999 && 1 <= d.month <= 12 && 1 <= d.day <= 31
    ensures '_' !in PrintDate(d)
  {
  }

  lemma ParsePrinted(d: Date, hour: int)
    requires ValidDate(d) && d.year <= 9999 && 0 <= hour < 24
    ensures d.day <= 31
    ensures ParseCursor(PrintDate(d) + "_" + PrintHour(hour)) == At(DayNumber(d) * 24 + hour)
  {
    ParsePrintedDate(d);
    ParsePrintedHour(hour);
    PrintedDateHasNoMark(d);
    SplitOnce(PrintDate(d), PrintHour(hour), '_');
  }

  lemma PrintRoundTrip(day: int, hour: int)
    requires FourDigitYear(day) && 0 <= hour < 24
    ensures ParseCursor(Print(day, hour)) == At(day * 24 + hour)
  {
    DayOfDate(day);
    FourDigits(day);
    ParsePrinted(DateOf(day), hour);
  }

  /** Reading back a printed cursor gives the hour it was printed for: it is accepted and never panics. */
  lemma CursorRoundTrip(h: int)
    requires Printable(h)
    ensures ParseCursor(PrintCursor(h)) == At(h)
  {
    PrintRoundTrip(DayOf(h), HourOfDay(h));
  }

  /** Printing a time's date and hour of day, and reading it back, truncates the time to its hour. */
  lemma TimeRoundTrip(t: int)
    requires Printable(HourOf(t))
    ensures ParseCursor(PrintCursor(HourOf(t))) == At(HourOf(t))
    ensures HourStart(HourOf(t)) <= t < HourStart(HourOf(t) + 1)
  {
    CursorRoundTrip(HourOf(t));
    HourBounds(t);
  }

  /** Two printed cursors are equal only if they name the same hour. */
  lemma PrintInjective(g: int, h: int)
    requires Printable(g) && Printable(h) && PrintCursor(g) == PrintCursor(h)
    ensures g == h
  {
    CursorRoundTrip(g);
    CursorRoundTrip(h);
  }

  // ---------------------------------------------------------------- the format

  lemma ScanEight(a: int, b: int, m: int, d: int)
    requires 0 <= a <= 99 && 0 <= b <= 99 && 0 <= m <= 99 && 0 <= d <= 99
    ensures var s := Digits2(a) + Digits2(b) + Digits2(m) + Digits2(d);
            |s| == 8 && ScanNumber(s, 8, 0) == (8, 1_000_000 * a + 10_000 * b + 100 * m + d)
  {
    assert Digits2(a) + Digits2(b) + Digits2(m) + Digits2(d) == Digits2(a) + (Digits2(b) + (Digits2(m) + Digits2(d)));
    ScanMore(a, Digits2(b) + (Digits2(m) + Digits2(d)), 6, 0);
    ScanSix(b, m, d, a);
  }

  lemma ScanSix(b: int, m: int, d: int, acc: int)
    requires 0 <= b <= 99 && 0 <= m <= 99 && 0 <= d <= 99
    ensures ScanNumber(Digits2(b) + (Digits2(m) + Digits2(d)), 6, acc) ==
            (6, 1_000_000 * acc + 10_000 * b + 100 * m + d)
  {
    ScanMore(b, Digits2(m) + Digits2(d), 4, acc);
    ScanMore(m, Digits2(d), 2, 100 * acc + b);
    assert Digits2(d) + [] == Digits2(d);
    ScanTwo(d, [], 10_000 * acc + 100 * b + m);
  }

  lemma ScanMore(n: int, tail: string, width: nat, acc: int)
    requires 0 <= n <= 99
    ensures var rest := ScanNumber(tail, width, 100 * acc + n);
            ScanNumber(Digits2(n) + tail, width + 2, acc) == (rest.0 + 2, rest.1)
  {
    var s := Digits2(n) + tail;
    DigitBack(n / 10);
    DigitBack(n % 10);
    assert s[1..] == [Digit(n % 10)] + tail;
    assert s[1..][1..] == tail;
  }

  /** The printed date is the eight-digit number that writes year, month and day in that order. */
  lemma DateFormat(d: Date)
    requires ValidDate(d) && d.year <= 9999
    ensures d.day <= 31 && |PrintDate(d)| == 8
    ensures ScanNumber(PrintDate(d), 8, 0) == (8, 10_000 * d.year + 100 * d.month + d.day)
  {
    DayAtMost31(IsLeap(d.year), d.month, d.day);
    ScanEight(d.year / 100, d.year % 100, d.month, d.day);
  }

  /** A printed cursor is the date of its day, an underscore, and the hour of the day without a leading zero. */
  lemma CursorFormat(h: int)
    requires Printable(h)
    ensures var s, d := PrintCursor(h), DateOf(DayOf(h));
            && ValidDate(d) && d.year <= 9999 && d.day <= 31
            && |s| == (if HourOfDay(h) < 10 then 10 else 11) && s[..8] == PrintDate(d) && s[8] == '_'
            && ScanNumber(s[9..], 2, 0) == (|s| - 9, HourOfDay(h))
  {
    var d := DateOf(DayOf(h));
    DayOfDate(DayOf(h));
    FourDigits(DayOf(h));
    DateFormat(d);
    HourFormat(HourOfDay(h));
    var s := PrintCursor(h);
    assert s == PrintDate(d) + "_" + PrintHour(HourOfDay(h));
    assert s[9..] == PrintHour(HourOfDay(h));
  }

  lemma HourFormat(hour: int)
    requires 0 <= hour < 24
    ensures |PrintHour(hour)| == (if hour < 10 then 1 else 2)
    ensures ScanNumber(PrintHour(hour), 2, 0) == (|PrintHour(hour)|, hour)
  {
    if hour < 10 {
      DigitBack(hour);
      assert PrintHour(hour)[1..] == [];
    } else {
      ScanTwo(hour, [], 0);
      assert Digits2(hour) + [] == Digits2(hour);
    }
  }

  // ----------------------------------------------------------- numbers as texts

  predicate AllDigits(s: string) {
    forall i :: 0 <= i < |s| ==> IsDigit(s[i])
  }

  lemma {:induction false} ScanSnoc(s: string, c: char, acc: int)
    requires AllDigits(s) && IsDigit(c)
    ensures ScanNumber(s, |s|, acc).0 == |s|
    ensures ScanNumber(s + [c], |s| + 1, acc) == (|s| + 1, 10 * ScanNumber(s, |s|, acc).1 + ValueOf(c))
    decreases |s|
  {
    if s == [] {
      assert (s + [c])[1..] == [];
    } else {
      assert (s + [c])[1..] == s[1..] + [c];
      ScanSnoc(s[1..], c, 10 * acc + ValueOf(s[0]));
    }
  }

  lemma {:induction false} ScanIsNumber(s: string)
    requires AllDigits(s)
    ensures ScanNumber(s, |s|, 0) == (|s|, NumberOf(s))
    decreases |s|
  {
    if s != [] {
      var n := |s| - 1;
      ScanIsNumber(s[..n]);
      ScanSnoc(s[..n], s[n], 0);
      assert s == s[..n] + [s[n]];
    }
  }

  lemma {:induction false} ScanStops(s: string, width: nat, acc: int)
    requires width <= |s| && ScanNumber(s, width, acc).0 == width
    ensures forall i :: 0 <= i < width ==> IsDigit(s[i])
    decreases width
  {
    if width > 0 {
      ScanStops(s[1..], width - 1, 10 * acc + ValueOf(s[0]));
      assert forall i :: 1 <= i < width ==> s[i] == s[1..][i - 1];
    }
  }

  /** An hour text is a number below 2^32 in decimal digits, perhaps after a plus sign. */
  lemma ParseU32Exact(s: string)
    ensures var digits := if s != [] && s[0] == '+' then s[1..] else s;
            ParseU32(s) == if digits != [] && AllDigits(digits) && NumberOf(digits) < 4_294_967_296
                           then Some(NumberOf(digits)) else None
  {
    var digits := if s != [] && s[0] == '+' then s[1..] else s;
    if AllDigits(digits) {
      ScanIsNumber(digits);
    } else if ScanNumber(digits, |digits|, 0).0 == |digits| {
      ScanStops(digits, |digits|, 0);
    }
  }

  // ------------------------------------------------------- texts that are refused

  /** Nor is one with two underscores or more. */
  lemma MoreMarksStartOver(a: string, b: string, c: string)
    requires '_' !in a && '_' !in b
    ensures ParseCursor(a + "_" + (b + "_" + c)) == FromStart
  {
    var tail := b + "_" + c;
    var s := a + "_" + tail;
    FindFirst(a, tail, '_');
    FindFirst(b, c, '_');
    assert s[..|a|] == a && s[|a| + 1..] == tail && tail[|b| + 1..] == c;
    assert |Split(tail, '_')| >= 2;
  }

  /** A text without an underscore is no position. */
  lemma NoMarkStartsOver(s: string)
    requires '_' !in s
    ensures ParseCursor(s) == FromStart
  {
    FindNowhere(s, '_');
  }

  /** A date with anything after its eight digits is rejected. */
  lemma TrailingTextIsRejected(a: int, b: int, m: int, d: int, more: string)
    requires 0 <= a <= 99 && 0 <= b <= 99 && 0 <= m <= 99 && 0 <= d <= 99 && more != []
    ensures ParseDate(Digits2(a) + Digits2(b) + (Digits2(m) + (Digits2(d) + more))) == None
  {
    var y, rest := Digits2(a) + Digits2(b), Digits2(m) + (Digits2(d) + more);
    ScanFour(a, b, rest);
    ScanSplits(y, rest);
    ScanTwo(m, Digits2(d) + more, 0);
    ScanSplits(Digits2(m), Digits2(d) + more);
    ScanTwo(d, more, 0);
  }

  lemma ParseTwoDigitHour(n: int)
    requires 10 <= n <= 99
    ensures '_' !in Digits2(n) && ParseU32(Digits2(n)) == Some(n)
  {
    DigitBack(n / 10);
    DigitBack(n % 10);
    ScanTwo(n, [], 0);
    assert Digits2(n) + [] == Digits2(n);
  }

  /** Eight digits and an hour of two: a date that does not exist is rejected, and an hour of 24 or more panics. */
  lemma BadDateOrHour(a: int, b: int, m: int, d: int, n: int)
    requires 0 <= a <= 99 && 0 <= b <= 99 && 0 <= m <= 99 && 0 <= d <= 99 && 10 <= n <= 99
    ensures ParseCursor(Digits2(a) + Digits2(b) + Digits2(m) + Digits2(d) + "_" + Digits2(n)) ==
            var date := Date(100 * a + b, m, d);
            if !ValidDate(date) then Rejected else if n >= 24 then Panic else At(DayNumber(date) * 24 + n)
  {
    var text := Digits2(a) + Digits2(b) + Digits2(m) + Digits2(d);
    ParsePieces(a, b, m, d);
    ParseTwoDigitHour(n);
    NoMarkInDigits(a, b, m, d);
    SplitOnce(text, Digits2(n), '_');
  }

  lemma NoMarkInDigits(a: int, b: int, m: int, d: int)
    requires 0 <= a <= 99 && 0 <= b <= 99 && 0 <= m <= 99 && 0 <= d <= 99
    ensures '_' !in Digits2(a) + Digits2(b) + Digits2(m) + Digits2(d)
  {
  }
}
