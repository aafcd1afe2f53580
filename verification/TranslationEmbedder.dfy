/**
The translation embedder writes a file's bytes as a C++ string initialiser.  The reference is the
language itself: hexadecimal escapes take as many digits as follow, and adjacent literals are
joined after their escapes have been read (sections 2.14.3 and 2.2 of ISO C++11).
*/
module TranslationEmbedder {
  import opened Wrappers

  type Byte = b: nat | b < 256

  const INT_MAX := 0x7fff_ffff

  // ----- What is written -----

  function HexDigit(d: nat): char
    requires d < 16
  {
    if d < 10 then '0' + d as char else 'a' + (d - 10) as char
  }

  /** A byte as an escape of exactly two digits. */
  function Escape(b: Byte): string {
    ['\\', 'x', HexDigit(b / 16), HexDigit(b % 16)]
  }

  function Decimal(n: nat): string {
    if n < 10 then ['0' + n as char] else Decimal(n / 10) + ['0' + (n % 10) as char]
  }

  const QUOTE := "\""
  const OPEN_LINE := "\n  \""

  /** What follows the last literal: the length and the end of the initialiser. */
  function Closing(n: nat): string {
    ",\n  " + Decimal(n) + ");\n\n"
  }

  /** What is still to be written after j bytes. */
  function Rest(bytes: seq<Byte>, j: nat): string
    requires j <= |bytes|
    decreases |bytes| - j
  {
    if j == |bytes| then QUOTE + Closing(|bytes|)
    else (if j % 16 == 0 then (if j > 0 then QUOTE else "") + OPEN_LINE else "") + Escape(bytes[j]) + Rest(bytes, j + 1)
  }

  /** Writes one file's initialiser, sixteen bytes to a line. */
  method EmitInitialiser(bytes: seq<Byte>) returns (out: string)
    requires |bytes| <= INT_MAX
    ensures out == Rest(bytes, 0)
    ensures LexInitialiser(out) == if bytes == [] then None else Some(bytes)
  {
    out := "";
    for j := 0 to |bytes|
      invariant out + Rest(bytes, j) == Rest(bytes, 0)
    {
      ghost var before := out;
      if j % 16 == 0 {
        if j > 0 { out := out + QUOTE; }
        out := out + OPEN_LINE;
      }
      out := out + Escape(bytes[j]);
      RestStep(bytes, j, before, out);
    }
    out := out + QUOTE + Closing(|bytes|);
    EmbeddingRoundTrip(bytes);
  }

  lemma {:induction false} RestStep(bytes: seq<Byte>, j: nat, before: string, out: string)
    requires j < |bytes|
    requires out == (if j % 16 != 0 then before else if j > 0 then before + QUOTE + OPEN_LINE else before + OPEN_LINE)
                    + Escape(bytes[j])
    ensures out + Rest(bytes, j + 1) == before + Rest(bytes, j)
  {}

  // ----- How the language reads it -----

  predicate IsHex(c: char) {
    '0' <= c <= '9' || 'a' <= c <= 'f' || 'A' <= c <= 'F'
  }

  function HexValue(c: char): nat
    requires IsHex(c)
  {
    if c <= '9' then (c - '0') as nat else if c <= 'F' then (c - 'A') as nat + 10 else (c - 'a') as nat + 10
  }

  /** Sixteen digits, the letters in either case. */
  lemma {:induction false} HexDigitsRead(d: nat)
    requires d < 16
    ensures IsHex(HexDigit(d)) && HexValue(HexDigit(d)) == d
    ensures d >= 10 ==> IsHex(HexDigit(d) - 32 as char) && HexValue(HexDigit(d) - 32 as char) == d
  {}

  /** The longest run of hexadecimal digits: its value so far and what follows it. */
  function HexRun(s: string, value: nat): (nat, string) {
    if s == "" || !IsHex(s[0]) then (value, s) else HexRun(s[1..], 16 * value + HexValue(s[0]))
  }

  lemma {:induction false} HexRunShrinks(s: string, value: nat)
    ensures |HexRun(s, value).1| <= |s|
    decreases |s|
  {
    if s != "" && IsHex(s[0]) { HexRunShrinks(s[1..], 16 * value + HexValue(s[0])); }
  }

  datatype Lexed = Lexed(bytes: seq<Byte>, rest: string)

  function Prepended(b: nat, r: Option<Lexed>): Option<Lexed> {
    if r.None? || b >= 256 then None else Some(Lexed([b] + r.value.bytes, r.value.rest))
  }

  /** Reads on inside a literal, and through all literals that follow it directly. */
  function InLiteral(s: string): Option<Lexed>
    decreases |s|
  {
    if s == "" || s[0] == '\n' then None
    else if s[0] == '"' then Between(s[1..])
    else if s[0] == '\\' then
      if |s| < 3 || s[1] != 'x' || !IsHex(s[2]) then None
      else
        HexRunShrinks(s[2..], 0);
        var (value, after) := HexRun(s[2..], 0);
        Prepended(value, InLiteral(after))
    else Prepended(s[0] as nat, InLiteral(s[1..]))
  }

  /** Between literals only white space may stand. */
  function Between(s: string): Option<Lexed>
    decreases |s|
  {
    if s == "" then Some(Lexed([], s))
    else if s[0] == ' ' || s[0] == '\n' then Between(s[1..])
    else if s[0] == '"' then InLiteral(s[1..])
    else Some(Lexed([], s))
  }

  function SkipSpace(s: string): string {
    if s != "" && (s[0] == ' ' || s[0] == '\n') then SkipSpace(s[1..]) else s
  }

  function ReadDecimal(s: string, value: nat): (nat, string) {
    if s == "" || !('0' <= s[0] <= '9') then (value, s) else ReadDecimal(s[1..], 10 * value + (s[0] - '0') as nat)
  }

  /** The string that the initialiser constructs: the first n characters of the literal and its terminator. */
  function LexInitialiser(text: string): Option<seq<Byte>> {
    var start := SkipSpace(text);
    if start == "" || start[0] != '"' then None
    else match InLiteral(start[1..])
      case None => None
      case Some(Lexed(bytes, rest)) =>
        if rest == "" || rest[0] != ',' then None
        else
          var (n, after) := ReadDecimal(SkipSpace(rest[1..]), 0);
          if after == "" || after[0] != ')' || n > |bytes| + 1 then None
          else Some((bytes + [0])[..n])
  }

  // ----- The round trip -----

  /** An escape followed by anything but a hexadecimal digit reads as its byte. */
  lemma {:induction false} EscapeReads(b: Byte, rest: string)
    requires rest != "" && !IsHex(rest[0])
    ensures InLiteral(Escape(b) + rest) == Prepended(b, InLiteral(rest))
  {
    var s := Escape(b) + rest;
    HexDigitsRead(b / 16);
    HexDigitsRead(b % 16);
    hide HexDigit;
    var run := s[2..];
    assert run[0] == HexDigit(b / 16) && run[1..][0] == HexDigit(b % 16) && run[1..][1..] == rest;
    assert HexRun(rest, 16 * (b / 16) + b % 16) == (b, rest);
    assert HexRun(run[1..], b / 16) == (b, rest);
    assert HexRun(run, 0) == (b, rest);
  }

  lemma {:induction false} RestFirst(bytes: seq<Byte>, j: nat)
    requires 0 < j <= |bytes|
    ensures Rest(bytes, j) != "" && !IsHex(Rest(bytes, j)[0])
  {}

  lemma {:induction false} LineBreakReads(s: string)
    ensures InLiteral(QUOTE + OPEN_LINE + s) == InLiteral(s)
  {
    var t := QUOTE + OPEN_LINE + s;
    assert t[1..] == OPEN_LINE + s;
    assert Between(OPEN_LINE + s) == Between("  \"" + s) by { assert (OPEN_LINE + s)[1..] == "  \"" + s; }
    assert Between("  \"" + s) == Between(" \"" + s) by { assert ("  \"" + s)[1..] == " \"" + s; }
    assert Between(" \"" + s) == Between("\"" + s) by { assert (" \"" + s)[1..] == "\"" + s; }
    assert ("\"" + s)[1..] == s;
  }

  lemma {:induction false} ClosingReads(n: nat)
    ensures InLiteral(QUOTE + Closing(n)) == Some(Lexed([], Closing(n)))
  {
    assert (QUOTE + Closing(n))[1..] == Closing(n);
    assert Closing(n)[0] == ',';
  }

  lemma {:induction false} RestLine(bytes: seq<Byte>, j: nat)
    requires 0 < j < |bytes|
    ensures var line := Escape(bytes[j]) + Rest(bytes, j + 1);
            Rest(bytes, j) == if j % 16 == 0 then QUOTE + OPEN_LINE + line else line
  {}

  lemma {:induction false} RestEnd(bytes: seq<Byte>)
    ensures Rest(bytes, |bytes|) == QUOTE + Closing(|bytes|)
  {}

  lemma {:induction false} RestReads(bytes: seq<Byte>, j: nat)
    requires 0 < j <= |bytes|
    ensures InLiteral(Rest(bytes, j)) == Some(Lexed(bytes[j..], Closing(|bytes|)))
    decreases |bytes| - j
  {
    hide InLiteral, Closing, Escape, Rest;
    if j == |bytes| {
      RestEnd(bytes);
      ClosingReads(|bytes|);
      assert bytes[j..] == [];
    } else {
      RestReads(bytes, j + 1);
      RestFirst(bytes, j + 1);
      var line := Escape(bytes[j]) + Rest(bytes, j + 1);
      EscapeReads(bytes[j], Rest(bytes, j + 1));
      assert [bytes[j]] + bytes[j + 1..] == bytes[j..];
      RestLine(bytes, j);
      if j % 16 == 0 { LineBreakReads(line); }
    }
  }

  /** Reading the digits of n from nothing is having read n. */
  lemma {:induction false} DecimalReadsFrom(n: nat, rest: string)
    ensures ReadDecimal(Decimal(n) + rest, 0) == ReadDecimal(rest, n)
  {
    if n < 10 {
      assert (Decimal(n) + rest)[1..] == rest;
    } else {
      var last := ['0' + (n % 10) as char];
      assert Decimal(n) + rest == Decimal(n / 10) + (last + rest);
      DecimalReadsFrom(n / 10, last + rest);
      assert (last + rest)[1..] == rest;
    }
  }

  lemma {:induction false} LengthReads(n: nat)
    ensures ReadDecimal(SkipSpace(Closing(n)[1..]), 0) == (n, ");\n\n")
  {
    var digits := Decimal(n) + ");\n\n";
    assert Closing(n)[1..] == "\n  " + digits;
    DecimalFirst(n);
    assert SkipSpace(digits) == digits;
    assert (" " + digits)[1..] == digits && ("  " + digits)[1..] == " " + digits;
    assert ("\n  " + digits)[1..] == "  " + digits;
    assert SkipSpace(" " + digits) == digits;
    assert SkipSpace("  " + digits) == SkipSpace(" " + digits);
    assert SkipSpace("\n  " + digits) == SkipSpace("  " + digits);
    DecimalReadsFrom(n, ");\n\n");
  }

  lemma {:induction false} DecimalFirst(n: nat)
    ensures Decimal(n) != "" && '0' <= Decimal(n)[0] <= '9'
  {
    if n >= 10 { DecimalFirst(n / 10); }
  }

  lemma {:induction false} OpenLineSkips(line: string)
    ensures SkipSpace(OPEN_LINE + line) == QUOTE + line
  {
    var s := OPEN_LINE + line;
    assert s[1..] == "  \"" + line && s[1..][1..] == " \"" + line && s[1..][1..][1..] == "\"" + line;
    assert SkipSpace("\"" + line) == "\"" + line;
    assert SkipSpace(" \"" + line) == SkipSpace("\"" + line);
    assert SkipSpace("  \"" + line) == SkipSpace(" \"" + line);
  }

  /** A file's bytes, embedded and read by the language, come back; an empty file gives no valid text. */
  lemma {:induction false} EmbeddingRoundTrip(bytes: seq<Byte>)
    ensures LexInitialiser(Rest(bytes, 0)) == if bytes == [] then None else Some(bytes)
  {
    var n := |bytes|;
    if n == 0 {
      EmptyFileUnreadable();
    } else {
      var line := Escape(bytes[0]) + Rest(bytes, 1);
      assert Rest(bytes, 0) == OPEN_LINE + line;
      OpenLineSkips(line);
      assert (QUOTE + line)[1..] == line;
      RestFirst(bytes, 1);
      EscapeReads(bytes[0], Rest(bytes, 1));
      RestReads(bytes, 1);
      assert [bytes[0]] + bytes[1..] == bytes;
      LengthReads(n);
      assert Closing(n)[0] == ',';
      assert (bytes + [0])[..n] == bytes;
      hide InLiteral, SkipSpace, ReadDecimal, Rest;
    }
  }

  lemma {:induction false} EmptyFileUnreadable()
    ensures LexInitialiser(Rest([], 0)) == None
  {
    var text := QUOTE + Closing(0);
    assert SkipSpace(text) == text;
    var inside := text[1..];
    assert inside[0] == ',' && inside[1] == '\n';
    assert inside[1..][0] == '\n';
    assert InLiteral(inside[1..]) == None;
    assert InLiteral(inside) == None;
  }
}
