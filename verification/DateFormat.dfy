/**
The date formatter: an unbounded expansion as the reference, and the program's writer into a
buffer of fixed size.  A C string is modelled as the characters before its terminator.
*/
module DateFormat {
  import opened Widths

  const DIGIT_ROOM := 8

  // ----- Decimal fields -----

  function Digit(d: nat): char
    requires d < 10
  {
    '0' + d as char
  }

  /** The last w decimal digits of n, all of them shown. */
  function Decimal(n: nat, w: nat): string {
    if w == 0 then "" else Decimal(n / 10, w - 1) + [Digit(n % 10)]
  }

  /** The last w decimal digits of n without those in front of its first nonzero digit. */
  function Trimmed(n: nat, w: nat): string {
    if n == 0 || w == 0 then "" else Trimmed(n / 10, w - 1) + [Digit(n % 10)]
  }

  function FieldWidth(len: int): nat {
    if len < 0 then 0 else if len < DIGIT_ROOM then len else DIGIT_ROOM
  }

  /** The text of a numeric field; zero is shown even where no width is given. */
  function FieldText(n: nat, len: int, zeroPadded: bool): string {
    var w := FieldWidth(len);
    if n == 0 then Decimal(0, if zeroPadded && w > 0 then w else 1)
    else if zeroPadded then Decimal(n, w) else Trimmed(n, w)
  }

  function Pow10(w: nat): (p: nat)
    ensures p > 0
  {
    if w == 0 then 1 else 10 * Pow10(w - 1)
  }

  function ValueOf(s: string): int {
    if s == "" then 0 else 10 * ValueOf(s[..|s| - 1]) + (s[|s| - 1] as int - '0' as int)
  }

  lemma {:induction false} MulAtLeast(d: int, m: nat)
    requires d >= 1
    ensures d * m >= m
  {
    assert d * m == (d - 1) * m + m;
  }

  lemma {:induction false} ModUnique(n: nat, m: nat, a: nat, r: nat)
    requires m > 0 && n == a * m + r && r < m
    ensures n % m == r
  {
    var q, d := n / m, n / m - a;
    assert n == m * q + n % m;
    assert d * m == q * m - a * m;
    if d >= 1 { MulAtLeast(d, m); }
    if d <= -1 { MulAtLeast(-d, m); }
  }

  lemma {:induction false} ModByTens(n: nat, p: nat)
    requires p > 0
    ensures n % (10 * p) == 10 * (n / 10 % p) + n % 10
  {
    var q, r := n / 10, n % 10;
    var a, b := q / p, q % p;
    assert q == a * p + b;
    assert n == 10 * (a * p + b) + r == a * (10 * p) + (10 * b + r);
    ModUnique(n, 10 * p, a, 10 * b + r);
  }

  /** A padded field is the decimal of n modulo the power of ten, with exactly w digits. */
  lemma {:induction false} DecimalValue(n: nat, w: nat)
    ensures |Decimal(n, w)| == w
    ensures forall i :: 0 <= i < w ==> '0' <= Decimal(n, w)[i] <= '9'
    ensures ValueOf(Decimal(n, w)) == n % Pow10(w)
  {
    if w > 0 {
      DecimalValue(n / 10, w - 1);
      ModByTens(n, Pow10(w - 1));
      assert Decimal(n, w)[..w - 1] == Decimal(n / 10, w - 1);
    }
  }

  /** A padded field of width 1 to 8 has exactly that many digits; wider ones stop at eight. */
  lemma {:induction false} PaddedFieldValue(n: nat, len: int)
    requires len >= 1
    ensures var w := if len < 8 then len else 8;
            |FieldText(n, len, true)| == w && ValueOf(FieldText(n, len, true)) == n % Pow10(w)
  {
    DecimalValue(n, FieldWidth(len));
  }

  /** Without a width nothing is shown but a zero. */
  lemma {:induction false} NoWidth(n: nat, len: int, zeroPadded: bool)
    requires len <= 0
    ensures FieldText(n, len, zeroPadded) == if n == 0 then "0" else ""
  {
    assert Decimal(0, 1) == Decimal(0, 0) + [Digit(0)] == "0";
  }

  // ----- The expansion without a limit -----

  datatype Tm = Tm(mday: int, wday: nat, mon: nat, year: int, hour: nat, min: int, sec: int)

  predicate ValidTm(t: Tm) {
    t.wday < 7 && t.mon < 12
  }

  const DAYS := ["Sunday", "Monday", "Tuesday", "Wednesday", "Thursday", "Friday", "Saturday"]
  const DAYS_ABBREV := ["Sun", "Mon", "Tue", "Wed", "Thu", "Fri", "Sat"]
  const MONTHS := ["January", "February", "March", "Apri", "May", "June", "July", "August",
                   "September", "October", "November", "December"]
  const MONTHS_ABBREV := ["Jan", "Feb", "Mar", "Apr", "May", "Jun", "Jul", "Aug", "Sep", "Oct", "Nov", "Dec"]
  const YEAR_BASE := 1900

  /** Signed numbers are converted to the unsigned 64-bit argument type. */
  function ToSize(x: int): nat {
    x % SIZE_RANGE
  }

  function Padded(x: int, len: int): string {
    FieldText(ToSize(x), len, true)
  }

  /** What a format specifier stands for; an unknown one for nothing. */
  function Specifier(c: char, t: Tm, msec: nat, width: int): string
    requires ValidTm(t)
  {
    match c
    case '%' => "%"
    case 'd' => Padded(t.mday, 2)
    case 'a' => DAYS_ABBREV[t.wday]
    case 'A' => DAYS[t.wday]
    case 'M' => Padded(t.mon + 1, 2)
    case 'b' => MONTHS_ABBREV[t.mon]
    case 'B' => MONTHS[t.mon]
    case 'y' => Padded(t.year + YEAR_BASE, 2)
    case 'Y' => Padded(t.year + YEAR_BASE, 4)
    case 'h' => Padded(t.hour % 12, 2)
    case 'H' => Padded(t.hour, 2)
    case 'm' => Padded(t.min, 2)
    case 's' => Padded(t.sec, 2)
    case 'z' => Padded(msec, width)
    case 'g' => Padded(msec, width)
    case 'F' => if t.hour >= 12 then "PM" else "AM"
    case _ => ""
  }

  // ----- What the specifiers show -----

  /** The field reads as the number, in exactly w characters. */
  predicate Shows(text: string, n: int, w: nat) {
    |text| == w && ValueOf(text) == n && forall i :: 0 <= i < w ==> '0' <= text[i] <= '9'
  }

  lemma {:induction false} PaddedShows(n: nat, w: nat)
    requires 1 <= w <= 8 && n < Pow10(w) && n < SIZE_RANGE
    ensures Shows(Padded(n, w), n, w) && Padded(n, w) == Decimal(n, w)
  {
    DecimalValue(n, w);
    SmallMod(n, Pow10(w));
    SmallMod(n, SIZE_RANGE);
  }

  lemma {:induction false} SmallMod(n: nat, m: nat)
    requires n < m
    ensures n % m == n
  {}

  predicate InRange(t: Tm) {
    && 1 <= t.mday <= 31 && t.wday < 7 && t.mon < 12 && 0 <= t.year + 1900 < 10000
    && t.hour < 24 && 0 <= t.min < 60 && 0 <= t.sec <= 60
  }

  lemma {:induction false} Powers()
    ensures Pow10(1) == 10 && Pow10(2) == 100 && Pow10(4) == 10000
  {
    assert Pow10(0) == 1 && Pow10(3) == 1000;
  }

  /** Every numeric specifier reads back as its own field. */
  lemma {:induction false} SpecifiersShow(t: Tm, msec: nat, width: nat)
    requires InRange(t) && 1 <= width <= 8 && msec < Pow10(width) && msec < SIZE_RANGE
    ensures Shows(Specifier('d', t, msec, width), t.mday, 2) && Shows(Specifier('M', t, msec, width), t.mon + 1, 2)
    ensures Shows(Specifier('Y', t, msec, width), 1900 + t.year, 4)
    ensures Shows(Specifier('H', t, msec, width), t.hour, 2) && Shows(Specifier('m', t, msec, width), t.min, 2)
    ensures Shows(Specifier('h', t, msec, width), if t.hour < 12 then t.hour else t.hour - 12, 2)
    ensures Shows(Specifier('s', t, msec, width), t.sec, 2)
    ensures Shows(Specifier('z', t, msec, width), msec, width) && Shows(Specifier('g', t, msec, width), msec, width)
  {
    Powers();
    hide Padded, Pow10, Shows, Specifier;
    SpecifierFields(t, msec, width);
    PaddedShows(t.mday, 2);
    PaddedShows(t.mon + 1, 2);
    PaddedShows(1900 + t.year, 4);
    PaddedShows(t.hour, 2);
    PaddedShows(if t.hour < 12 then t.hour else t.hour - 12, 2);
    PaddedShows(t.min, 2);
    PaddedShows(t.sec, 2);
    PaddedShows(msec, width);
  }

  lemma {:induction false} SpecifierFields(t: Tm, msec: nat, width: nat)
    requires InRange(t)
    ensures Specifier('d', t, msec, width) == Padded(t.mday, 2)
    ensures Specifier('M', t, msec, width) == Padded(t.mon + 1, 2)
    ensures Specifier('Y', t, msec, width) == Padded(1900 + t.year, 4)
    ensures Specifier('H', t, msec, width) == Padded(t.hour, 2)
    ensures Specifier('h', t, msec, width) == Padded(if t.hour < 12 then t.hour else t.hour - 12, 2)
    ensures Specifier('m', t, msec, width) == Padded(t.min, 2) && Specifier('s', t, msec, width) == Padded(t.sec, 2)
    ensures Specifier('z', t, msec, width) == Specifier('g', t, msec, width) == Padded(msec, width)
  {
    hide Padded;
  }

  /** The short year shows the last two digits. */
  lemma {:induction false} ShortYear(t: Tm, msec: nat, width: int)
    requires InRange(t)
    ensures |Specifier('y', t, msec, width)| == 2 && ValueOf(Specifier('y', t, msec, width)) == (1900 + t.year) % 100
  {
    Powers();
    PaddedFieldValue(ToSize(t.year + YEAR_BASE), 2);
    SmallMod(t.year + YEAR_BASE, SIZE_RANGE);
    hide FieldText, Pow10, ValueOf;
  }

  /** The half of the day, and the names of days and months with their three-letter forms. */
  lemma {:induction false} NamesShow(t: Tm, msec: nat, width: int)
    requires InRange(t)
    ensures Specifier('F', t, msec, width) == if t.hour < 12 then "AM" else "PM"
    ensures Specifier('A', t, msec, width)
            == ["Sun", "Mon", "Tues", "Wednes", "Thurs", "Fri", "Satur"][t.wday] + "day"
    ensures Specifier('B', t, msec, width)
            == if t.mon < 8 then ["January", "February", "March", "Apri", "May", "June", "July", "August"][t.mon]
               else ["Septem", "Octo", "Novem", "Decem"][t.mon - 8] + "ber"
    ensures Specifier('a', t, msec, width) == Specifier('A', t, msec, width)[..3]
    ensures Specifier('b', t, msec, width) == Specifier('B', t, msec, width)[..3]
  {}

  /** A negative field is shown as the last digits of its 64-bit conversion: -1 ends in 15. */
  lemma {:induction false} NegativeField()
    ensures ValueOf(Padded(-1, 2)) == 15
  {
    Powers();
    PaddedFieldValue(ToSize(-1), 2);
    hide FieldText, Pow10, ValueOf;
  }

  /** The expansion of the format from position i on; a lone '%' at the end stands for itself. */
  function Expand(format: string, i: nat, t: Tm, msec: nat, width: int): string
    requires i <= |format| && ValidTm(t)
    decreases |format| - i
  {
    if i == |format| then ""
    else if format[i] == '%' && i + 1 < |format| then
      Specifier(format[i + 1], t, msec, width) + Expand(format, i + 2, t, msec, width)
    else [format[i]] + Expand(format, i + 1, t, msec, width)
  }

  // ----- Writing into a buffer -----

  function Min(a: nat, b: nat): nat {
    if a < b then a else b
  }

  /** buf holds as much of text as fits between `at` and `lim`. */
  ghost predicate Written(before: seq<char>, after: seq<char>, at: nat, lim: nat, text: string, end: nat) {
    && |after| == |before| && at <= lim <= |before|
    && end == Min(at + |text|, lim)
    && (forall i :: 0 <= i < at ==> after[i] == before[i])
    && (forall i :: at <= i < end ==> after[i] == text[i - at])
    && (forall i :: end <= i < |before| ==> after[i] == before[i] || (i < lim && after[i] == '\0'))
  }

  /** Copies a string up to the limit; the terminator is written too if there is room, but not passed. */
  method AddToBuff(str: string, buf: array<char>, at: nat, lim: nat) returns (end: nat)
    requires at <= lim <= buf.Length
    requires NoTerminator(str)
    modifies buf
    ensures Written(old(buf[..]), buf[..], at, lim, str, end)
    ensures end < lim ==> buf[end] == '\0'
  {
    end := at;
    var i := 0;
    while end < lim
      invariant 0 <= i <= |str| && end == at + i <= lim
      invariant Written(old(buf[..]), buf[..], at, lim, str[..i], end)
    {
      var c := if i < |str| then str[i] else '\0';
      buf[end] := c;
      if c == '\0' { return; }
      i := i + 1;
      end := end + 1;
    }
  }

  /** Formats a number backwards in a local buffer of ten characters, then copies it. */
  method ConvertAndAddToBuff(n0: nat, len0: int, buf: array<char>, at: nat, lim: nat,
        zeroPadded: bool)
    returns (end: nat)
    requires at <= lim <= buf.Length
    modifies buf
    ensures Written(old(buf[..]), buf[..], at, lim, FieldText(n0, len0, zeroPadded), end)
  {
    var text := FormatField(n0, len0, zeroPadded);
    FieldHasNoTerminator(n0, len0, zeroPadded);
    end := AddToBuff(text, buf, at, lim);
  }

  /** How many characters may still be written: limited by the field and by the local buffer. */
  function Remaining(len: int, p: nat): nat {
    if len < 0 then 0 else Min(len, p)
  }

  /** Writes the digits of n0 > 0 from the end of the local buffer towards its start. */
  method WriteDigits(local: array<char>, n0: nat, len0: int) returns (p: nat, n: nat, len: int)
    requires local.Length == 10 && n0 > 0
    modifies local
    ensures p <= DIGIT_ROOM && (n == 0 || Remaining(len, p) == 0)
    ensures var w := FieldWidth(len0);
            && Decimal(n0, w) == Decimal(n, Remaining(len, p)) + local[p..DIGIT_ROOM]
            && Trimmed(n0, w) == local[p..DIGIT_ROOM]
  {
    p, n, len := DIGIT_ROOM, n0, len0;
    ghost var w := FieldWidth(len0);
    assert local[p..DIGIT_ROOM] == "";
    while n > 0 && p > 0 && len > 0
      invariant p <= DIGIT_ROOM
      invariant Decimal(n0, w) == Decimal(n, Remaining(len, p)) + local[p..DIGIT_ROOM]
      invariant Trimmed(n0, w) == Trimmed(n, Remaining(len, p)) + local[p..DIGIT_ROOM]
      decreases n
    {
      ghost var done := local[p..DIGIT_ROOM];
      DecimalStep(n, Remaining(len, p), done);
      p := p - 1;
      local[p] := Digit(n % 10);
      assert local[p..DIGIT_ROOM] == [Digit(n % 10)] + done;
      n, len := n / 10, len - 1;
    }
    assert Trimmed(n, Remaining(len, p)) == "";
  }

  /** Writes zeros in front until the field or the local buffer is full. */
  method WriteZeros(local: array<char>, p0: nat, len0: int) returns (p: nat)
    requires local.Length == 10 && p0 <= DIGIT_ROOM
    modifies local
    ensures p <= DIGIT_ROOM
    ensures local[p..DIGIT_ROOM] == Decimal(0, Remaining(len0, p0)) + old(local[p0..DIGIT_ROOM])
  {
    p := p0;
    var len := len0;
    ghost var tail := local[p0..DIGIT_ROOM];
    while p > 0 && len > 0
      invariant p <= DIGIT_ROOM
      invariant Decimal(0, Remaining(len0, p0)) + tail == Decimal(0, Remaining(len, p)) + local[p..DIGIT_ROOM]
      decreases p
    {
      ghost var done := local[p..DIGIT_ROOM];
      DecimalStep(0, Remaining(len, p), done);
      p := p - 1;
      local[p] := '0';
      assert local[p..DIGIT_ROOM] == [Digit(0)] + done;
      len := len - 1;
    }
  }

  /** The text left in the local buffer, from the last character written to the terminator. */
  method FormatField(n0: nat, len0: int, zeroPadded: bool) returns (text: string)
    ensures text == FieldText(n0, len0, zeroPadded)
  {
    var local := new char[10](_ => '\0');
    var p: nat, n: nat, len := DIGIT_ROOM, n0, len0;
    if n > 0 {
      p, n, len := WriteDigits(local, n0, len0);
    } else {
      p := p - 1;
      local[p] := '0';
      len := len - 1;
      assert local[p..DIGIT_ROOM] == Decimal(0, 1);
    }
    if zeroPadded {
      ghost var tail := local[p..DIGIT_ROOM];
      if n0 == 0 { ZeroField(len0, p); }
      assert FieldText(n0, len0, true) == Decimal(0, Remaining(len, p)) + tail;
      p := WriteZeros(local, p, len);
    }
    text := local[p..DIGIT_ROOM];
  }

  lemma {:induction false} ZeroField(len: int, p: nat)
    requires p == DIGIT_ROOM - 1
    ensures FieldText(0, len, true) == Decimal(0, Remaining(len - 1, p)) + Decimal(0, 1)
  {
    assert Decimal(0, 1) == Decimal(0, 0) + [Digit(0)] == [Digit(0)];
    assert "" + Decimal(0, 1) == Decimal(0, 1);
  }

  lemma {:induction false} DecimalStep(n: nat, w: nat, done: string)
    requires w > 0
    ensures Decimal(n, w) + done == Decimal(n / 10, w - 1) + ([Digit(n % 10)] + done)
    ensures n > 0 ==> Trimmed(n, w) + done == Trimmed(n / 10, w - 1) + ([Digit(n % 10)] + done)
  {}

  // ----- The formatter -----

  lemma {:induction false} WrittenThen(s0: seq<char>, s1: seq<char>, s2: seq<char>, at: nat, mid: nat, end: nat,
        lim: nat,
                                       text: string, more: string)
    requires Written(s0, s1, at, lim, text, mid) && Written(s1, s2, mid, lim, more, end)
    ensures Written(s0, s2, at, lim, text + more, end)
  {}

  predicate NoTerminator(s: string) {
    forall i :: 0 <= i < |s| ==> s[i] != '\0'
  }

  lemma {:induction false} NamesHaveNoTerminator(t: Tm)
    requires ValidTm(t)
    ensures NoTerminator(DAYS[t.wday]) && NoTerminator(DAYS_ABBREV[t.wday])
    ensures NoTerminator(MONTHS[t.mon]) && NoTerminator(MONTHS_ABBREV[t.mon])
  {}

  /** Writes what one specifier other than '%%' stands for. */
  method AddSpecifier(c: char, buf: array<char>, at: nat, lim: nat, t: Tm, msec: nat, width: int) returns (end: nat)
    requires at <= lim <= buf.Length && ValidTm(t) && msec < SIZE_RANGE && c != '%'
    modifies buf
    ensures Written(old(buf[..]), buf[..], at, lim, Specifier(c, t, msec, width), end)
  {
    NamesHaveNoTerminator(t);
    hide FieldText, Written;
    match c {
      case 'd' => end := ConvertAndAddToBuff(ToSize(t.mday), 2, buf, at, lim, true);
      case 'a' => end := AddToBuff(DAYS_ABBREV[t.wday], buf, at, lim);
      case 'A' => end := AddToBuff(DAYS[t.wday], buf, at, lim);
      case 'M' => end := ConvertAndAddToBuff(ToSize(t.mon + 1), 2, buf, at, lim, true);
      case 'b' => end := AddToBuff(MONTHS_ABBREV[t.mon], buf, at, lim);
      case 'B' => end := AddToBuff(MONTHS[t.mon], buf, at, lim);
      case 'y' => end := ConvertAndAddToBuff(ToSize(t.year + YEAR_BASE), 2, buf, at, lim, true);
      case 'Y' => end := ConvertAndAddToBuff(ToSize(t.year + YEAR_BASE), 4, buf, at, lim, true);
      case 'h' => end := ConvertAndAddToBuff(ToSize(t.hour % 12), 2, buf, at, lim, true);
      case 'H' => end := ConvertAndAddToBuff(ToSize(t.hour), 2, buf, at, lim, true);
      case 'm' => end := ConvertAndAddToBuff(ToSize(t.min), 2, buf, at, lim, true);
      case 's' => end := ConvertAndAddToBuff(ToSize(t.sec), 2, buf, at, lim, true);
      case 'z' => end := ConvertAndAddToBuff(msec, width, buf, at, lim, true);
      case 'g' => end := ConvertAndAddToBuff(msec, width, buf, at, lim, true);
      case 'F' => end := AddToBuff(if t.hour >= 12 then "PM" else "AM", buf, at, lim);
      case _ =>
        end := at;
        NothingWritten(buf[..], at, lim);
    }
  }

  lemma {:induction false} NothingWritten(s: seq<char>, at: nat, lim: nat)
    requires at <= lim <= |s|
    ensures Written(s, s, at, lim, "", at)
  {}

  /** A full buffer already holds the prefix of any longer text. */
  lemma {:induction false} FullBuffer(before: seq<char>, after: seq<char>, lim: nat, text: string, rest: string)
    requires Written(before, after, 0, lim, text, lim)
    ensures Written(before, after, 0, lim, text + rest, lim)
  {}

  /** Writes one character of the format itself. */
  method AddLiteral(c: char, buf: array<char>, at: nat, lim: nat)
    requires at < lim <= buf.Length
    modifies buf
    ensures Written(old(buf[..]), buf[..], at, lim, [c], at + 1)
  {
    buf[at] := c;
  }

  /**
  Expands a format into a buffer of bufSz characters: it holds exactly the prefix of the unbounded
  expansion that fits, nothing past the limit changes, and what lies between is old or zero.
  */
  method ParseFormat(buf: array<char>, bufSz: nat, format: string, t: Tm, msec: nat, width: int) returns (end: nat)
    requires bufSz <= buf.Length && ValidTm(t) && msec < SIZE_RANGE
    modifies buf
    ensures Written(old(buf[..]), buf[..], 0, bufSz, Expand(format, 0, t, msec, width), end)
  {
    ghost var before, text, rest := buf[..], "", Expand(format, 0, t, msec, width);
    ghost var all := rest;
    end := 0;
    var i := 0;
    NothingWritten(before, 0, bufSz);
    hide Written, Specifier, Expand;
    while i < |format|
      invariant 0 <= i <= |format| && end <= bufSz
      invariant rest == Expand(format, i, t, msec, width) && all == text + rest
      invariant Written(before, buf[..], 0, bufSz, text, end)
    {
      ghost var mid := buf[..];
      if format[i] == '%' && i + 1 < |format| && format[i + 1] != '%' {
        var next := AddSpecifier(format[i + 1], buf, end, bufSz, t, msec, width);
        ghost var part := Specifier(format[i + 1], t, msec, width);
        SpecifierExpansion(format, i, t, msec, width);
        WrittenThen(before, mid, buf[..], 0, end, next, bufSz, text, part);
        WrittenEnd(mid, buf[..], end, bufSz, part, next);
        rest := Expand(format, i + 2, t, msec, width);
        Reassociate(text, part, rest);
        text, end, i := text + part, next, i + 2;
      } else {
        ghost var step := if format[i] == '%' && i + 1 < |format| then 2 else 1;
        if end == bufSz {
          FullBuffer(before, buf[..], bufSz, text, rest);
          return;
        }
        AddLiteral(format[i], buf, end, bufSz);
        WrittenThen(before, mid, buf[..], 0, end, end + 1, bufSz, text, [format[i]]);
        LiteralExpansion(format, i, t, msec, width);
        rest := Expand(format, i + step, t, msec, width);
        Reassociate(text, [format[i]], rest);
        text, end := text + [format[i]], end + 1;
        i := i + if format[i] == '%' && i + 1 < |format| then 2 else 1;
      }
    }
    ExpandEnd(format, t, msec, width);
    assert text + "" == text;
  }

  lemma {:induction false} Reassociate(a: string, b: string, c: string)
    ensures (a + b) + c == a + (b + c)
  {}

  lemma {:induction false} ExpandEnd(format: string, t: Tm, msec: nat, width: int)
    requires ValidTm(t)
    ensures Expand(format, |format|, t, msec, width) == ""
  {}

  lemma {:induction false} SpecifierExpansion(format: string, i: nat, t: Tm, msec: nat, width: int)
    requires i + 1 < |format| && format[i] == '%' && ValidTm(t)
    ensures Expand(format, i, t, msec, width)
            == Specifier(format[i + 1], t, msec, width) + Expand(format, i + 2, t, msec, width)
  {}

  lemma {:induction false} WrittenEnd(before: seq<char>, after: seq<char>, at: nat, lim: nat, text: string, end: nat)
    requires Written(before, after, at, lim, text, end)
    ensures end <= lim
  {}

  lemma {:induction false} LiteralExpansion(format: string, i: nat, t: Tm, msec: nat, width: int)
    requires i < |format| && ValidTm(t)
    requires !(format[i] == '%' && i + 1 < |format| && format[i + 1] != '%')
    ensures var step := if format[i] == '%' && i + 1 < |format| then 2 else 1;
            Expand(format, i, t, msec, width) == [format[i]] + Expand(format, i + step, t, msec, width)
  {}

  const STAMP_SIZE := 30

  /**
  The time stamp as a string: characters up to the first terminator in a zeroed buffer of thirty.
  There is a terminator exactly when the expansion is shorter than the buffer, and then the string
  is the whole expansion.
  */
  method TimeStamp(format: string, t: Tm, msec: nat, width: int) returns (text: string, terminated: bool)
    requires ValidTm(t) && msec < SIZE_RANGE && NoTerminator(format)
    ensures terminated <==> |Expand(format, 0, t, msec, width)| < 30
    ensures terminated ==> text == Expand(format, 0, t, msec, width)
  {
    var buf := new char[STAMP_SIZE](_ => '\0');
    var end := ParseFormat(buf, STAMP_SIZE, format, t, msec, width);
    ghost var all := Expand(format, 0, t, msec, width);
    ExpandHasNoTerminator(format, 0, t, msec, width);
    hide Expand;
    var n := 0;
    while n < STAMP_SIZE && buf[n] != '\0'
      invariant n <= STAMP_SIZE
      invariant forall i :: 0 <= i < n ==> buf[i] != '\0'
    {
      n := n + 1;
    }
    ghost var after := buf[..];
    assert forall i :: 0 <= i < end ==> after[i] == all[i];
    assert forall i :: end <= i < STAMP_SIZE ==> after[i] == '\0';
    assert n < STAMP_SIZE ==> after[n] == buf[n];
    assert end < STAMP_SIZE ==> after[end] == buf[end];
    assert n == end;
    text, terminated := buf[..n], n < STAMP_SIZE;
    if terminated { assert text == all; }
  }

  /** The format of the program's own log lines. */
  const LOG_FORMAT := "%Y-%M-%d %H:%m:%s.%g"

  lemma {:induction false} LogTime(t: Tm, msec: nat, width: nat)
    requires InRange(t)
    ensures Expand(LOG_FORMAT, 9, t, msec, width)
            == Specifier('H', t, msec, width) + ":" + Specifier('m', t, msec, width) + ":"
               + Specifier('s', t, msec, width) + "." + Specifier('g', t, msec, width)
  {
    hide Expand, Specifier;
    var f := LOG_FORMAT;
    SpecifierExpansion(f, 9, t, msec, width);
    LiteralExpansion(f, 11, t, msec, width);
    SpecifierExpansion(f, 12, t, msec, width);
    LiteralExpansion(f, 14, t, msec, width);
    SpecifierExpansion(f, 15, t, msec, width);
    LiteralExpansion(f, 17, t, msec, width);
    SpecifierExpansion(f, 18, t, msec, width);
    ExpandEnd(f, t, msec, width);
  }

  lemma {:induction false} LogDate(t: Tm, msec: nat, width: nat)
    requires InRange(t)
    ensures Expand(LOG_FORMAT, 0, t, msec, width)
            == Specifier('Y', t, msec, width) + "-" + Specifier('M', t, msec, width) + "-"
               + Specifier('d', t, msec, width) + " " + Expand(LOG_FORMAT, 9, t, msec, width)
  {
    hide Expand, Specifier;
    var f := LOG_FORMAT;
    SpecifierExpansion(f, 0, t, msec, width);
    LiteralExpansion(f, 2, t, msec, width);
    SpecifierExpansion(f, 3, t, msec, width);
    LiteralExpansion(f, 5, t, msec, width);
    SpecifierExpansion(f, 6, t, msec, width);
    LiteralExpansion(f, 8, t, msec, width);
  }

  /**
  The stamp of a log line: year, month, day, hour, minute, second and fraction stand at their
  places, each in its digits, and the stamp fits.
  */
  lemma {:induction false} LogStamp(t: Tm, msec: nat, width: nat)
    requires InRange(t) && 1 <= width <= 8 && msec < Pow10(width) && msec < SIZE_RANGE
    ensures var text := Expand(LOG_FORMAT, 0, t, msec, width);
            && |text| == 20 + width < 30
            && Shows(text[0..4], 1900 + t.year, 4) && text[4] == '-'
            && Shows(text[5..7], t.mon + 1, 2) && text[7] == '-'
            && Shows(text[8..10], t.mday, 2) && text[10] == ' '
            && Shows(text[11..13], t.hour, 2) && text[13] == ':'
            && Shows(text[14..16], t.min, 2) && text[16] == ':'
            && Shows(text[17..19], t.sec, 2) && text[19] == '.'
            && Shows(text[20..], msec, width)
  {
    hide Expand, Specifier, Shows, Pow10;
    LogDate(t, msec, width);
    LogTime(t, msec, width);
    SpecifiersShow(t, msec, width);
    var y, mo, d := Specifier('Y', t, msec, width), Specifier('M', t, msec, width), Specifier('d', t, msec, width);
    var h, mi, s := Specifier('H', t, msec, width), Specifier('m', t, msec, width), Specifier('s', t, msec, width);
    var g := Specifier('g', t, msec, width);
    assert |y| == 4 && |mo| == 2 && |d| == 2 && |h| == 2 && |mi| == 2 && |s| == 2 && |g| == width by {
      Lengths(y, 1900 + t.year, 4);
      Lengths(mo, t.mon + 1, 2);
      Lengths(d, t.mday, 2);
      Lengths(h, t.hour, 2);
      Lengths(mi, t.min, 2);
      Lengths(s, t.sec, 2);
      Lengths(g, msec, width);
    }
    Layout(y, mo, d, "-", " ", h + ":" + mi + ":" + s + "." + g);
    Layout(h, mi, s, ":", ".", g);
    var text, time := Expand(LOG_FORMAT, 0, t, msec, width), h + ":" + mi + ":" + s + "." + g;
    Within(text, 11, time, 0, 2);
    Within(text, 11, time, 2, 3);
    Within(text, 11, time, 3, 5);
    Within(text, 11, time, 5, 6);
    Within(text, 11, time, 6, 8);
    Within(text, 11, time, 8, 9);
    assert text[20..] == text[11..][9..];
  }

  lemma {:induction false} Lengths(text: string, n: int, w: nat)
    requires Shows(text, n, w)
    ensures |text| == w
  {}

  /** Where the parts of a joined text stand. */
  lemma {:induction false} Layout(a: string, b: string, c: string, sep: string, end: string, rest: string)
    requires |b| == 2 && |c| == 2 && |sep| == 1 && |end| == 1
    ensures var text, n := a + sep + b + sep + c + end + rest, |a|;
            && |text| == n + 7 + |rest| && text[0..n] == a && text[n + 1..n + 3] == b && text[n + 4..n + 6] == c
            && text[n] == sep[0] && text[n + 3] == sep[0] && text[n + 6] == end[0] && text[n + 7..] == rest
  {}

  lemma {:induction false} Within(text: string, n: nat, rest: string, i: nat, j: nat)
    requires n <= |text| && text[n..] == rest && i < j <= |rest|
    ensures text[n + i..n + j] == rest[i..j] && text[n + i] == rest[i]
  {
    var part := text[n + i..n + j];
    forall k | 0 <= k < j - i ensures part[k] == rest[i..j][k] {
      assert part[k] == text[n + i + k] == text[n..][i + k];
    }
    assert part == rest[i..j];
    assert text[n + i] == text[n..][i];
  }

  const LONG_FORMAT := "%A, %d %B %Y %F"

  lemma {:induction false} LongSpecifiers(t: Tm, msec: nat, width: int)
    requires ValidTm(t) && t.wday == 3 && t.mon == 8
    ensures |Specifier('A', t, msec, width)| == 9 && |Specifier('d', t, msec, width)| == 2
    ensures |Specifier('B', t, msec, width)| == 9 && |Specifier('Y', t, msec, width)| == 4
    ensures |Specifier('F', t, msec, width)| == 2
  {
    PaddedFieldValue(ToSize(t.mday), 2);
    PaddedFieldValue(ToSize(t.year + YEAR_BASE), 4);
    hide FieldText;
  }

  lemma {:induction false} LongTail(t: Tm, msec: nat, width: int)
    requires ValidTm(t) && t.wday == 3 && t.mon == 8
    ensures |Expand(LONG_FORMAT, 7, t, msec, width)| == 17
  {
    hide Expand, Specifier;
    var f := LONG_FORMAT;
    LongSpecifiers(t, msec, width);
    SpecifierExpansion(f, 7, t, msec, width);
    LiteralExpansion(f, 9, t, msec, width);
    SpecifierExpansion(f, 10, t, msec, width);
    LiteralExpansion(f, 12, t, msec, width);
    SpecifierExpansion(f, 13, t, msec, width);
    ExpandEnd(f, t, msec, width);
  }

  /** A stamp that is cut off: on any Wednesday in September this format needs 31 characters. */
  lemma {:induction false} StampOverflows(t: Tm, msec: nat, width: int)
    requires ValidTm(t) && t.wday == 3 && t.mon == 8
    ensures |Expand(LONG_FORMAT, 0, t, msec, width)| == 31 && 31 >= STAMP_SIZE && NoTerminator(LONG_FORMAT)
  {
    hide Expand, Specifier;
    var f := LONG_FORMAT;
    LongSpecifiers(t, msec, width);
    LongTail(t, msec, width);
    SpecifierExpansion(f, 0, t, msec, width);
    LiteralExpansion(f, 2, t, msec, width);
    LiteralExpansion(f, 3, t, msec, width);
    SpecifierExpansion(f, 4, t, msec, width);
    LiteralExpansion(f, 6, t, msec, width);
  }

  lemma {:induction false} ExpandHasNoTerminator(format: string, i: nat, t: Tm, msec: nat, width: int)
    requires i <= |format| && ValidTm(t) && NoTerminator(format)
    ensures NoTerminator(Expand(format, i, t, msec, width))
    decreases |format| - i
  {
    if i < |format| {
      if format[i] == '%' && i + 1 < |format| {
        SpecifierHasNoTerminator(format[i + 1], t, msec, width);
        ExpandHasNoTerminator(format, i + 2, t, msec, width);
      } else {
        ExpandHasNoTerminator(format, i + 1, t, msec, width);
      }
    }
  }

  lemma {:induction false} SpecifierHasNoTerminator(c: char, t: Tm, msec: nat, width: int)
    requires ValidTm(t)
    ensures NoTerminator(Specifier(c, t, msec, width))
  {
    NamesHaveNoTerminator(t);
    forall x: int, len: int ensures NoTerminator(Padded(x, len)) {
      FieldHasNoTerminator(ToSize(x), len, true);
    }
    hide Padded;
  }

  lemma {:induction false} FieldHasNoTerminator(n: nat, len: int, zeroPadded: bool)
    ensures NoTerminator(FieldText(n, len, zeroPadded))
  {
    var w := FieldWidth(len);
    DigitsHaveNoTerminator(0, if zeroPadded && w > 0 then w else 1);
    DigitsHaveNoTerminator(n, w);
  }

  lemma {:induction false} DigitsHaveNoTerminator(n: nat, w: nat)
    ensures NoTerminator(Decimal(n, w)) && NoTerminator(Trimmed(n, w))
  {
    if w > 0 { DigitsHaveNoTerminator(n / 10, w - 1); }
  }
}
