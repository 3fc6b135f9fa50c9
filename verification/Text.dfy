/** Lines of text: splitting at newlines, joining, cutting prefixes, decimal numbers. */
module Text {
  import opened Prelude

  type Str = seq<char>

  const NL := '\n'

  predicate IsLine(s: Str) {
    NL !in s
  }

  predicate AreLines(lines: seq<Str>) {
    forall i :: 0 <= i < |lines| ==> IsLine(lines[i])
  }

  /** The pieces of `s` between newlines; always at least one. */
  function Split(s: Str): (lines: seq<Str>)
    ensures lines != [] && AreLines(lines)
  {
    if s == [] then [[]]
    else
      var rest := Split(s[1..]);
      if s[0] == NL then [[]] + rest else [[s[0]] + rest[0]] + rest[1..]
  }

  /** Pieces put together with a newline between any two. */
  function Join(lines: seq<Str>): Str {
    if lines == [] then []
    else if |lines| == 1 then lines[0]
    else lines[0] + [NL] + Join(lines[1..])
  }

  /** Every line followed by a newline, as a script prints them. */
  function Printed(lines: seq<Str>): Str {
    if lines == [] then [] else lines[0] + [NL] + Printed(lines[1..])
  }

  lemma {:induction false} SplitAfterLine(l: Str, s: Str)
    requires IsLine(l)
    ensures Split(l + [NL] + s) == [l] + Split(s)
  {
    var t := l + [NL] + s;
    if l == [] {
      assert t[0] == NL && t[1..] == s;
    } else {
      assert t[0] == l[0] && t[1..] == l[1..] + [NL] + s;
      SplitAfterLine(l[1..], s);
      assert [l[0]] + l[1..] == l;
    }
  }

  lemma {:induction false} SplitPrinted(lines: seq<Str>, s: Str)
    requires AreLines(lines)
    ensures Split(Printed(lines) + s) == lines + Split(s)
  {
    if lines == [] {
      assert Printed(lines) + s == s;
    } else {
      var rest := Printed(lines[1..]);
      calc {
        Split(Printed(lines) + s);
        { assert Printed(lines) + s == lines[0] + [NL] + (rest + s); }
        Split(lines[0] + [NL] + (rest + s));
        { SplitAfterLine(lines[0], rest + s); }
        [lines[0]] + Split(rest + s);
        { SplitPrinted(lines[1..], s); }
        [lines[0]] + (lines[1..] + Split(s));
        { assert [lines[0]] + lines[1..] == lines; }
        lines + Split(s);
      }
    }
  }

  lemma {:induction false} JoinSplit(s: Str)
    ensures Join(Split(s)) == s
  {
    if s != [] {
      JoinSplit(s[1..]);
      var rest := Split(s[1..]);
      if |rest| > 1 && s[0] != NL {
        assert Split(s)[1..] == rest[1..];
      } else if s[0] == NL {
        assert Split(s)[1..] == rest;
      }
    }
  }

  lemma {:induction false} PrintedIsJoined(lines: seq<Str>)
    requires lines != []
    ensures Printed(lines) == Join(lines) + [NL]
  {
    if |lines| == 1 {
      assert Printed(lines[1..]) == [];
    } else {
      PrintedIsJoined(lines[1..]);
      assert lines[0] + [NL] + (Join(lines[1..]) + [NL]) == Join(lines) + [NL];
    }
  }

  /** Printing a text followed by a newline prints its lines. */
  lemma PrintedSplit(s: Str)
    ensures Printed(Split(s)) == s + [NL]
  {
    PrintedIsJoined(Split(s));
    JoinSplit(s);
  }

  // ---------------------------------------------------------------- prefixes and words

  predicate HasPrefix(s: Str, p: Str) {
    |p| <= |s| && s[..|p|] == p
  }

  /** What follows the prefix, if `s` has it. */
  function CutPrefix(s: Str, p: Str): Option<Str> {
    if HasPrefix(s, p) then Some(s[|p|..]) else None
  }

  /** What stands before and after the first space; all of it and nothing if there is none. */
  function Cut(s: Str): (Str, Str) {
    if s == [] then ([], [])
    else if s[0] == ' ' then ([], s[1..])
    else var (a, b) := Cut(s[1..]); ([s[0]] + a, b)
  }

  lemma {:induction false} CutAtSpace(a: Str, b: Str)
    requires ' ' !in a
    ensures Cut(a + [' '] + b) == (a, b)
  {
    var s := a + [' '] + b;
    if a == [] {
      assert s[0] == ' ' && s[1..] == b;
    } else {
      assert s[0] == a[0] && s[1..] == a[1..] + [' '] + b;
      CutAtSpace(a[1..], b);
      assert [a[0]] + a[1..] == a;
    }
  }

  lemma {:induction false} CutWord(a: Str)
    requires ' ' !in a
    ensures Cut(a) == (a, [])
  {
    if a != [] {
      CutWord(a[1..]);
      assert [a[0]] + a[1..] == a;
    }
  }

  predicate IsSpace(c: char) {
    c == ' ' || c == '\t' || c == '\n' || c == '\r'
  }

  function Trim(s: Str): Str {
    if s != [] && IsSpace(s[0]) then Trim(s[1..])
    else if s != [] && IsSpace(s[|s| - 1]) then Trim(s[..|s| - 1])
    else s
  }

  /** No space at either end. */
  predicate Trimmed(s: Str) {
    s == [] || (!IsSpace(s[0]) && !IsSpace(s[|s| - 1]))
  }

  // ---------------------------------------------------------------- decimal numbers

  predicate IsDigit(c: char) {
    '0' <= c <= '9'
  }

  predicate IsNumber(s: Str) {
    s != [] && forall c | c in s :: IsDigit(c)
  }

  function DigitChar(d: nat): (c: char)
    requires d < 10
    ensures IsDigit(c)
  {
    '0' + d as char
  }

  function DigitValue(c: char): (d: nat)
    requires IsDigit(c)
    ensures d < 10
  {
    (c - '0') as nat
  }

  function Decimal(n: nat): (s: Str)
    ensures IsNumber(s)
  {
    if n < 10 then [DigitChar(n)] else Decimal(n / 10) + [DigitChar(n % 10)]
  }

  function Value(s: Str): nat
    requires forall c | c in s :: IsDigit(c)
  {
    if s == [] then 0 else 10 * Value(s[..|s| - 1]) + DigitValue(s[|s| - 1])
  }

  lemma {:induction false} ValueOfDecimal(n: nat)
    ensures Value(Decimal(n)) == n
  {
    if n < 10 {
      assert Decimal(n)[..0] == [];
    } else {
      ValueOfDecimal(n / 10);
      assert Decimal(n)[..|Decimal(n)| - 1] == Decimal(n / 10);
    }
  }

  /** A number as the parser reads it: digits within 64 bits. */
  function ParseNumber(s: Str): Option<nat> {
    if IsNumber(s) && Value(s) <= MAX_INT64 then Some(Value(s)) else None
  }

  lemma DecimalIsInjective(m: nat, n: nat)
    requires Decimal(m) == Decimal(n)
    ensures m == n
  {
    ValueOfDecimal(m);
    ValueOfDecimal(n);
  }
}
