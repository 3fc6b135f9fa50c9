/** The text of a relay configuration. Deployment compares texts and restarts a relay only
    where they differ, so a text has to determine the configuration it was rendered from.
  */
module RelayConfig {
  import opened Prelude
  import opened Text
  import opened RelayChain

  const QUOTE := '"'
  const BACKSLASH := '\\'

  /** Which characters print as themselves, by a table of the language's library. All that
      matters here is that a newline does not. */
  type Graphic = char -> bool

  predicate IsTable(g: Graphic) {
    !g(NL)
  }

  // ---------------------------------------------------------------- hexadecimal digits

  function HexDigit(d: nat): (c: char)
    requires d < 16
    ensures c != NL
  {
    "0123456789abcdef"[d]
  }

  function HexDigitValue(c: char): nat {
    if '0' <= c <= '9' then (c - '0') as nat
    else if 'a' <= c <= 'f' then (c - 'a') as nat + 10
    else 0
  }

  function Hex(n: nat, width: nat): (s: Str)
    ensures |s| == width && IsLine(s)
  {
    if width == 0 then [] else Hex(n / 16, width - 1) + [HexDigit(n % 16)]
  }

  function HexValue(s: Str): nat {
    if s == [] then 0 else 16 * HexValue(s[..|s| - 1]) + HexDigitValue(s[|s| - 1])
  }

  function Pow16(width: nat): nat {
    if width == 0 then 1 else 16 * Pow16(width - 1)
  }

  lemma {:induction false} HexRoundTrip(n: nat, width: nat)
    requires n < Pow16(width)
    ensures HexValue(Hex(n, width)) == n
  {
    if width > 0 {
      HexRoundTrip(n / 16, width - 1);
      assert Hex(n, width)[..width - 1] == Hex(n / 16, width - 1);
      DigitRoundTrip(n % 16);
    }
  }

  lemma DigitRoundTrip(d: nat)
    requires d < 16
    ensures HexDigitValue(HexDigit(d)) == d
  {
  }

  // ---------------------------------------------------------------- quoting

  /** The letter that stands for a control character behind a backslash. */
  function Letter(c: char): Option<char> {
    match c as int
    case 7 => Some('a')
    case 8 => Some('b')
    case 12 => Some('f')
    case 10 => Some('n')
    case 13 => Some('r')
    case 9 => Some('t')
    case 11 => Some('v')
    case _ => None
  }

  function Escape(g: Graphic, c: char): (s: Str)
    ensures s != []
  {
    var code := c as int;
    if c == QUOTE || c == BACKSLASH then [BACKSLASH, c]
    else if g(c) then [c]
    else if Letter(c).Some? then [BACKSLASH, Letter(c).value]
    else if code < 32 || code == 127 then [BACKSLASH, 'x'] + Hex(code, 2)
    else if code < 0x1_0000 then [BACKSLASH, 'u'] + Hex(code, 4)
    else [BACKSLASH, 'U'] + Hex(code, 8)
  }

  function Escaped(g: Graphic, s: Str): Str {
    if s == [] then [] else Escape(g, s[0]) + Escaped(g, s[1..])
  }

  function Quoted(g: Graphic, s: Str): Str {
    [QUOTE] + Escaped(g, s) + [QUOTE]
  }

  /** Reading an escaped text back: the code of its first character, and how many characters
      stand for it. */
  function First(t: Str): (int, nat) {
    if t == [] then (0, 0)
    else if t[0] != BACKSLASH || |t| == 1 then (t[0] as int, 1)
    else
      match t[1]
      case 'a' => (7, 2)
      case 'b' => (8, 2)
      case 'f' => (12, 2)
      case 'n' => (10, 2)
      case 'r' => (13, 2)
      case 't' => (9, 2)
      case 'v' => (11, 2)
      case 'x' => if |t| < 4 then (0, 0) else (HexValue(t[2..4]), 4)
      case 'u' => if |t| < 6 then (0, 0) else (HexValue(t[2..6]), 6)
      case 'U' => if |t| < 10 then (0, 0) else (HexValue(t[2..10]), 10)
      case c => (c as int, 2)
  }

  lemma FirstOfHex(mark: char, code: nat, width: nat, rest: Str)
    requires code < Pow16(width)
    ensures var t := [BACKSLASH, mark] + Hex(code, width) + rest;
            |t| >= width + 2 && t[0] == BACKSLASH && t[1] == mark && HexValue(t[2..width + 2]) == code
  {
    var t := [BACKSLASH, mark] + Hex(code, width) + rest;
    assert t[2..width + 2] == Hex(code, width);
    HexRoundTrip(code, width);
  }

  lemma Powers()
    ensures Pow16(2) == 0x100 && Pow16(4) == 0x1_0000 && Pow16(8) == 0x1_0000_0000
  {
    assert Pow16(1) == 16;
    assert Pow16(3) == 0x1000;
    assert Pow16(5) == 0x10_0000;
    assert Pow16(6) == 0x100_0000;
    assert Pow16(7) == 0x1000_0000;
  }

  lemma FirstOfEscaped(g: Graphic, c: char, rest: Str)
    ensures First(Escape(g, c) + rest) == (c as int, |Escape(g, c)|)
  {
    var code := c as int;
    Powers();
    if c == QUOTE || c == BACKSLASH || g(c) || Letter(c).Some? {
    } else if code < 32 || code == 127 {
      FirstOfHex('x', code, 2, rest);
    } else if code < 0x1_0000 {
      FirstOfHex('u', code, 4, rest);
    } else {
      FirstOfHex('U', code, 8, rest);
    }
  }

  lemma {:induction false} EscapedIsInjective(g: Graphic, s: Str, t: Str)
    requires Escaped(g, s) == Escaped(g, t)
    ensures s == t
  {
    if s != [] && t != [] {
      FirstOfEscaped(g, s[0], Escaped(g, s[1..]));
      FirstOfEscaped(g, t[0], Escaped(g, t[1..]));
      assert s[0] == t[0];
      assert Escaped(g, s[1..]) == Escaped(g, s)[|Escape(g, s[0])|..];
      assert Escaped(g, t[1..]) == Escaped(g, t)[|Escape(g, t[0])|..];
      EscapedIsInjective(g, s[1..], t[1..]);
      assert s == [s[0]] + s[1..] && t == [t[0]] + t[1..];
    }
  }

  lemma {:induction false} EscapedIsLine(g: Graphic, s: Str)
    requires IsTable(g)
    ensures IsLine(Escaped(g, s))
  {
    if s != [] {
      EscapedIsLine(g, s[1..]);
      EscapeIsLine(g, s[0]);
    }
  }

  lemma EscapeIsLine(g: Graphic, c: char)
    requires IsTable(g)
    ensures IsLine(Escape(g, c))
  {
    assert NL as int == 10;
  }

  // ---------------------------------------------------------------- the file

  function Field(g: Graphic, name: Str, s: Str): Str {
    name + (" = " + Quoted(g, s))
  }

  lemma FieldIsInjective(g: Graphic, name: Str, s: Str, t: Str)
    requires Field(g, name, s) == Field(g, name, t)
    ensures s == t
  {
    assert Quoted(g, s) == Field(g, name, s)[|name| + 3..];
    assert Quoted(g, t) == Field(g, name, t)[|name| + 3..];
    assert Escaped(g, s) == Quoted(g, s)[1..|Quoted(g, s)| - 1];
    assert Escaped(g, t) == Quoted(g, t)[1..|Quoted(g, t)| - 1];
    EscapedIsInjective(g, s, t);
  }

  function LogPath(slug: Str): Str {
    "/var/log/fluxlite/" + slug + ".log"
  }

  function Switch(name: Str, on: bool): Str {
    name + (if on then " = true" else " = false")
  }

  const NOTICE: Str := "# Managed by fluxlite." + (" Manual edits are" + " overwritten on apply.")

  lemma NoticeIsLine()
    ensures IsLine(NOTICE)
  {
    assert IsLine("# Managed by fluxlite.") && IsLine(" Manual edits are") && IsLine(" overwritten on apply.");
  }

  function Heading(g: Graphic, c: Config): seq<Str> {
    [NOTICE, "# route: " + c.slug, "",
     "[log]", "level = \"warn\"", Field(g, "output", LogPath(c.slug)), "",
     "[network]", "no_tcp = false", Switch("use_udp", c.udp)]
  }

  function Endpoint(g: Graphic, c: Config): seq<Str> {
    ["", "[[endpoints]]", Field(g, "listen", c.listen), Field(g, "remote", c.remote)]
  }

  function LinesOf(g: Graphic, c: Config): seq<Str> {
    Heading(g, c) + (if c.ipv6Only then ["ipv6_only = true"] else []) + Endpoint(g, c)
  }

  function Render(g: Graphic, c: Config): Str {
    Printed(LinesOf(g, c))
  }

  /** The slug, which also stands in a comment, is one line. All else is quoted. */
  predicate Renderable(c: Config) {
    IsLine(c.slug)
  }

  lemma FieldIsLine(g: Graphic, name: Str, s: Str)
    requires IsTable(g) && IsLine(name)
    ensures IsLine(Field(g, name, s))
  {
    EscapedIsLine(g, s);
  }

  lemma HeadingLines(g: Graphic, c: Config)
    requires IsLine(NOTICE) && IsLine(c.slug) && IsLine(Field(g, "output", LogPath(c.slug)))
    ensures AreLines(Heading(g, c))
  {
    assert IsLine("# route: " + c.slug);
    assert IsLine("[log]") && IsLine("level = \"warn\"") && IsLine("[network]") && IsLine("no_tcp = false");
    assert IsLine(Switch("use_udp", true)) && IsLine(Switch("use_udp", false));
  }

  lemma EndpointLines(g: Graphic, c: Config)
    requires IsTable(g)
    ensures AreLines(Endpoint(g, c))
  {
    FieldIsLine(g, "listen", c.listen);
    FieldIsLine(g, "remote", c.remote);
    assert IsLine("[[endpoints]]");
  }

  lemma RenderableLines(g: Graphic, c: Config)
    requires IsTable(g) && Renderable(c)
    ensures AreLines(LinesOf(g, c))
  {
    NoticeIsLine();
    FieldIsLine(g, "output", LogPath(c.slug));
    HeadingLines(g, c);
    EndpointLines(g, c);
    assert IsLine("ipv6_only = true");
  }

  /** Two configurations with the same text are the same. */
  lemma RenderIsInjective(g: Graphic, c: Config, d: Config)
    requires IsTable(g) && Renderable(c) && Renderable(d) && Render(g, c) == Render(g, d)
    ensures c == d
  {
    RenderableLines(g, c);
    RenderableLines(g, d);
    SplitPrinted(LinesOf(g, c), []);
    SplitPrinted(LinesOf(g, d), []);
    assert Render(g, c) + [] == Render(g, c);
    var blank: seq<Str> := [[]];
    assert LinesOf(g, c) == (LinesOf(g, c) + blank)[..|LinesOf(g, c) + blank| - 1];
    assert LinesOf(g, d) == (LinesOf(g, d) + blank)[..|LinesOf(g, d) + blank| - 1];
    SameLines(g, c, d);
  }

  lemma SameLines(g: Graphic, c: Config, d: Config)
    requires LinesOf(g, c) == LinesOf(g, d)
    ensures c == d
  {
    var cs, ds := LinesOf(g, c), LinesOf(g, d);
    assert |cs| == if c.ipv6Only then 15 else 14;
    assert |ds| == if d.ipv6Only then 15 else 14;
    assert Heading(g, c) == cs[..10] && Heading(g, d) == ds[..10];
    assert Endpoint(g, c) == cs[|cs| - 4..] && Endpoint(g, d) == ds[|ds| - 4..];
    SameHeading(g, c, d);
    assert Endpoint(g, c)[2] == Field(g, "listen", c.listen) && Endpoint(g, c)[3] == Field(g, "remote", c.remote);
    FieldIsInjective(g, "listen", c.listen, d.listen);
    FieldIsInjective(g, "remote", c.remote, d.remote);
  }

  lemma SameHeading(g: Graphic, c: Config, d: Config)
    requires Heading(g, c) == Heading(g, d)
    ensures c.slug == d.slug && c.udp == d.udp
  {
    assert Heading(g, c)[1] == "# route: " + c.slug && Heading(g, d)[1] == "# route: " + d.slug;
    assert c.slug == Heading(g, c)[1][|"# route: "|..];
    assert Heading(g, c)[9] == Switch("use_udp", c.udp) && Heading(g, d)[9] == Switch("use_udp", d.udp);
    assert |Switch("use_udp", true)| != |Switch("use_udp", false)|;
  }
}
