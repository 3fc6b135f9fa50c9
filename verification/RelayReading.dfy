/** What the text of a relay configuration tells the relay that is started with it: a reader
    of the format the relay expects, written without regard to how the panel renders it.

    A line is a section heading, a comment, or a key and a value. Quoted values know the
    escapes of a TOML basic string and no others (TOML v1.0.0, "String").
  */
module RelayReading {
  import opened Prelude
  import opened Text
  import opened RelayChain
  import opened RelayConfig

  // ---------------------------------------------------------------- the reader

  /** A quoted text, as the codes of its characters. */
  type Codes = seq<int>

  datatype Point = Point(listen: Codes, remote: Codes)

  /** All that the relay acts on: which protocols it relays, whether its sockets exclude IPv4,
      and from where to where. */
  datatype Meaning = Meaning(tcp: bool, udp: bool, ipv6Only: bool, points: seq<Point>)

  datatype Section = Network | Endpoints | Elsewhere

  datatype Reader = Reader(section: Section, meaning: Meaning)

  /** The rest of a quoted value, behind its opening quote; none if it is not well-formed. */
  function Unquoted(t: Str): Option<Codes> {
    if t == [] then None
    else if t[0] == QUOTE then (if |t| == 1 then Some([]) else None)
    else if ((t[0] as int) < 32 && t[0] != '\t') || t[0] as int == 127 then None
    else if t[0] == BACKSLASH && (|t| == 1 || t[1] !in {'b', 't', 'n', 'f', 'r', QUOTE, BACKSLASH, 'u', 'U'}) then None
    else
      var (code, n) := First(t);
      if n == 0 || n > |t| then None
      else
        match Unquoted(t[n..])
        case None => None
        case Some(rest) => Some([code] + rest)
  }

  datatype Value = Quotation(codes: Codes) | Truth(on: bool) | Malformed

  function ValueOf(s: Str): Value {
    if s == "true" then Truth(true)
    else if s == "false" then Truth(false)
    else if s != [] && s[0] == QUOTE then
      match Unquoted(s[1..])
      case Some(codes) => Quotation(codes)
      case None => Malformed
    else Malformed
  }

  /** A setting of a section; those that say nothing of relaying are skipped. */
  function Set(r: Reader, key: Str, v: Value): Option<Reader> {
    var m := r.meaning;
    if v.Malformed? then None
    else if r.section.Network? && key == "no_tcp" && v.Truth? then Some(r.(meaning := m.(tcp := !v.on)))
    else if r.section.Network? && key == "use_udp" && v.Truth? then Some(r.(meaning := m.(udp := v.on)))
    else if r.section.Network? && key == "ipv6_only" && v.Truth? then Some(r.(meaning := m.(ipv6Only := v.on)))
    else if r.section.Endpoints? && m.points != [] && v.Quotation? && (key == "listen" || key == "remote") then
      var last := |m.points| - 1;
      var p := m.points[last];
      var q := if key == "listen" then p.(listen := v.codes) else p.(remote := v.codes);
      Some(r.(meaning := m.(points := m.points[last := q])))
    else Some(r)
  }

  function ReadLine(r: Reader, line: Str): Option<Reader> {
    if line == [] || line[0] == '#' then Some(r)
    else if line == "[network]" then Some(r.(section := Network))
    else if line == "[[endpoints]]" then
      Some(Reader(Endpoints, r.meaning.(points := r.meaning.points + [Point([], [])])))
    else if line[0] == '[' then Some(r.(section := Elsewhere))
    else
      var (key, rest) := Cut(line);
      if HasPrefix(rest, "= ") then Set(r, key, ValueOf(rest[2..])) else None
  }

  function ReadLines(r: Reader, lines: seq<Str>): Option<Reader>
    decreases |lines|
  {
    if lines == [] then Some(r)
    else
      match ReadLine(r, lines[0])
      case None => None
      case Some(next) => ReadLines(next, lines[1..])
  }

  /** What a relay does that says nothing to the contrary: relay TCP only. */
  const DEFAULTS := Meaning(true, false, false, [])

  function Read(text: Str): Option<Meaning> {
    match ReadLines(Reader(Elsewhere, DEFAULTS), Split(text))
    case None => None
    case Some(r) => Some(r.meaning)
  }

  // ---------------------------------------------------------------- what the panel writes is what is read

  function CodesOf(s: Str): Codes {
    if s == [] then [] else [s[0] as int] + CodesOf(s[1..])
  }

  lemma {:induction false} CodesAreInjective(s: Str, t: Str)
    requires CodesOf(s) == CodesOf(t)
    ensures s == t
  {
    if s != [] && t != [] {
      assert CodesOf(s)[0] == CodesOf(t)[0] && CodesOf(s)[1..] == CodesOf(s[1..]) && CodesOf(t)[1..] == CodesOf(t[1..]);
      CodesAreInjective(s[1..], t[1..]);
      assert s == [s[0]] + s[1..] && t == [t[0]] + t[1..];
    }
  }

  /** No control character prints as itself. */
  ghost predicate Prints(g: Graphic) {
    forall c | g(c) :: c as int >= 32 && c as int != 127
  }

  /** The character is written in a way the format knows: it is no control character, or one
      that has an escape of its own. */
  predicate Spelled(c: char) {
    (c as int >= 32 && c as int != 127) || c as int in {8, 9, 10, 12, 13}
  }

  predicate AllSpelled(s: Str) {
    forall i | 0 <= i < |s| :: Spelled(s[i])
  }

  lemma UnquotedFirst(g: Graphic, c: char, rest: Str)
    requires Prints(g)
    ensures var t := Escape(g, c) + rest;
            Unquoted(t) == if !Spelled(c) || Unquoted(rest).None? then None
                           else Some([c as int] + Unquoted(rest).value)
  {
    var t := Escape(g, c) + rest;
    FirstOfEscaped(g, c, rest);
    assert t[|Escape(g, c)|..] == rest;
    assert t[0] == Escape(g, c)[0];
    if |Escape(g, c)| > 1 {
      assert t[1] == Escape(g, c)[1];
    }
  }

  /** A quoted text is read as it was, if all of its characters have a spelling, and not at all
      otherwise. */
  lemma {:induction false} UnquotedEscaped(g: Graphic, s: Str)
    requires Prints(g)
    ensures Unquoted(Escaped(g, s) + [QUOTE]) == if AllSpelled(s) then Some(CodesOf(s)) else None
  {
    if s == [] {
      assert Escaped(g, s) + [QUOTE] == [QUOTE];
    } else {
      var rest := Escaped(g, s[1..]) + [QUOTE];
      UnquotedEscaped(g, s[1..]);
      UnquotedFirst(g, s[0], rest);
      assert Escaped(g, s) + [QUOTE] == Escape(g, s[0]) + rest;
      assert AllSpelled(s) <==> Spelled(s[0]) && AllSpelled(s[1..]) by {
        assert forall i | 1 <= i < |s| :: s[i] == s[1..][i - 1];
      }
    }
  }

  lemma ReadSetting(r: Reader, key: Str, value: Str)
    requires key != [] && ' ' !in key && key[0] != '#' && key[0] != '['
    ensures ReadLine(r, key + (" = " + value)) == Set(r, key, ValueOf(value))
  {
    var line, rest := key + (" = " + value), "= " + value;
    assert line == key + [' '] + rest;
    CutAtSpace(key, rest);
    assert rest[..2] == "= " && rest[2..] == value;
    assert line[0] == key[0];
  }

  lemma ValueOfQuoted(g: Graphic, s: Str)
    requires Prints(g)
    ensures ValueOf(Quoted(g, s)) == if AllSpelled(s) then Quotation(CodesOf(s)) else Malformed
  {
    assert Quoted(g, s)[0] == QUOTE && Quoted(g, s)[1..] == Escaped(g, s) + [QUOTE];
    UnquotedEscaped(g, s);
  }

  lemma ReadField(g: Graphic, r: Reader, key: Str, s: Str)
    requires Prints(g) && key != [] && ' ' !in key && key[0] != '#' && key[0] != '['
    ensures ReadLine(r, Field(g, key, s)) == if AllSpelled(s) then Set(r, key, Quotation(CodesOf(s))) else None
  {
    ReadSetting(r, key, Quoted(g, s));
    ValueOfQuoted(g, s);
  }

  lemma ReadSwitch(r: Reader, key: Str, on: bool)
    requires key != [] && ' ' !in key && key[0] != '#' && key[0] != '['
    ensures ReadLine(r, Switch(key, on)) == Set(r, key, Truth(on))
  {
    ReadSetting(r, key, if on then "true" else "false");
    assert Switch(key, on) == key + (" = " + if on then "true" else "false");
  }

  lemma {:induction false} ReadMore(r: Reader, a: seq<Str>, b: seq<Str>)
    ensures ReadLines(r, a + b) == match ReadLines(r, a) { case None => None case Some(next) => ReadLines(next, b) }
    decreases |a|
  {
    if a == [] {
      assert a + b == b;
    } else {
      assert (a + b)[0] == a[0] && (a + b)[1..] == a[1..] + b;
      match ReadLine(r, a[0])
      case None =>
      case Some(next) => ReadMore(next, a[1..], b);
    }
  }

  lemma ReadOne(r: Reader, line: Str)
    ensures ReadLines(r, [line]) == ReadLine(r, line)
  {
    assert [line][1..] == [];
  }

  /** What the configuration asks of its relay. */
  function MeaningOf(c: Config): Meaning {
    Meaning(true, c.udp, c.ipv6Only, [Point(CodesOf(c.listen), CodesOf(c.remote))])
  }

  predicate Spellable(c: Config) {
    AllSpelled(c.slug) && AllSpelled(c.listen) && AllSpelled(c.remote)
  }

  lemma SpelledTogether(a: Str, b: Str)
    ensures AllSpelled(a + b) <==> AllSpelled(a) && AllSpelled(b)
  {
    assert forall i | 0 <= i < |a| :: (a + b)[i] == a[i];
    assert forall i | 0 <= i < |b| :: (a + b)[|a| + i] == b[i];
  }

  lemma LogPathSpelled(slug: Str)
    ensures AllSpelled(LogPath(slug)) <==> AllSpelled(slug)
  {
    SpelledTogether("/var/log/fluxlite/" + slug, ".log");
    SpelledTogether("/var/log/fluxlite/", slug);
  }

  lemma ReadLevel(r: Reader)
    requires r.section.Elsewhere?
    ensures ReadLine(r, "level = \"warn\"") == Some(r)
  {
    var g: Graphic := c => 'a' <= c <= 'z';
    assert Escape(g, 'w') == "w" && Escape(g, 'a') == "a" && Escape(g, 'r') == "r" && Escape(g, 'n') == "n";
    assert "n"[1..] == "" && "rn"[1..] == "n" && "arn"[1..] == "rn" && "warn"[1..] == "arn";
    assert Escaped(g, "n") == "n" && Escaped(g, "rn") == "rn";
    assert Escaped(g, "arn") == "arn" && Escaped(g, "warn") == "warn";
    ReadField(g, r, "level", "warn");
    assert Field(g, "level", "warn") == "level = \"warn\"";
    assert AllSpelled("warn");
  }

  /** One line read, and one more after lines read before. */
  function Then(r: Option<Reader>, line: Str): Option<Reader> {
    match r { case None => None case Some(at) => ReadLine(at, line) }
  }

  lemma ReadThree(r: Reader, a: Str, b: Str, c: Str)
    ensures ReadLines(r, [a, b, c]) == Then(Then(ReadLine(r, a), b), c)
  {
    ReadMore(r, [a], [b, c]);
    ReadOne(r, a);
    assert [a] + [b, c] == [a, b, c] && [b] + [c] == [b, c];
    if ReadLine(r, a).Some? {
      var at := ReadLine(r, a).value;
      ReadMore(at, [b], [c]);
      ReadOne(at, b);
      if ReadLine(at, b).Some? {
        ReadOne(ReadLine(at, b).value, c);
      }
    }
  }

  lemma ReadFour(r: Reader, a: Str, b: Str, c: Str, d: Str)
    ensures ReadLines(r, [a, b, c, d]) == Then(Then(Then(ReadLine(r, a), b), c), d)
  {
    assert [a] + [b, c, d] == [a, b, c, d];
    ReadMore(r, [a], [b, c, d]);
    ReadOne(r, a);
    if ReadLine(r, a).Some? {
      ReadThree(ReadLine(r, a).value, b, c, d);
    }
  }

  lemma ReadSections(r: Reader)
    ensures ReadLine(r, "") == Some(r)
    ensures ReadLine(r, "[log]") == Some(r.(section := Elsewhere))
    ensures ReadLine(r, "[network]") == Some(r.(section := Network))
    ensures ReadLine(r, "[[endpoints]]") ==
              Some(Reader(Endpoints, r.meaning.(points := r.meaning.points + [Point([], [])])))
  {
    assert |"[log]"| != |"[network]"| && |"[log]"| != |"[[endpoints]]"| && |"[network]"| != |"[[endpoints]]"|;
  }

  lemma ReadComment(r: Reader, line: Str)
    requires line != [] && line[0] == '#'
    ensures ReadLine(r, line) == Some(r)
  {
  }

  lemma ReadLogPart(g: Graphic, c: Config, r: Reader)
    requires Prints(g) && r.section.Elsewhere?
    ensures ReadLines(r, ["[log]", "level = \"warn\"", Field(g, "output", LogPath(c.slug)), ""]) ==
              if AllSpelled(c.slug) then Some(r) else None
  {
    var output := Field(g, "output", LogPath(c.slug));
    ReadSections(r);
    ReadLevel(r);
    ReadField(g, r, "output", LogPath(c.slug));
    LogPathSpelled(c.slug);
    SkipElsewhere(r, "output", Quotation(CodesOf(LogPath(c.slug))));
    ReadFour(r, "[log]", "level = \"warn\"", output, "");
    assert r.(section := Elsewhere) == r;
  }

  lemma SkipElsewhere(r: Reader, key: Str, v: Value)
    requires r.section.Elsewhere? && !v.Malformed?
    ensures Set(r, key, v) == Some(r)
  {
  }

  lemma SetNetwork(r: Reader, on: bool)
    requires r.section.Network?
    ensures Set(r, "no_tcp", Truth(on)) == Some(r.(meaning := r.meaning.(tcp := !on)))
    ensures Set(r, "use_udp", Truth(on)) == Some(r.(meaning := r.meaning.(udp := on)))
    ensures Set(r, "ipv6_only", Truth(on)) == Some(r.(meaning := r.meaning.(ipv6Only := on)))
  {
    assert |"no_tcp"| == 6 && |"use_udp"| == 7 && |"ipv6_only"| == 9;
  }

  lemma SetEndpoint(r: Reader, listen: Codes, remote: Codes)
    requires r.section.Endpoints? && |r.meaning.points| == 1
    ensures Set(r, "listen", Quotation(listen)) ==
              Some(r.(meaning := r.meaning.(points := [r.meaning.points[0].(listen := listen)])))
    ensures Set(r, "remote", Quotation(remote)) ==
              Some(r.(meaning := r.meaning.(points := [r.meaning.points[0].(remote := remote)])))
  {
    assert "listen"[0] != "remote"[0];
    var p := r.meaning.points;
    assert p[0 := p[0].(listen := listen)] == [p[0].(listen := listen)];
    assert p[0 := p[0].(remote := remote)] == [p[0].(remote := remote)];
  }

  lemma ReadNetworkPart(c: Config, r: Reader)
    requires r.section.Elsewhere? && r.meaning == DEFAULTS
    ensures ReadLines(r, ["[network]", "no_tcp = false", Switch("use_udp", c.udp)]) ==
              Some(Reader(Network, DEFAULTS.(udp := c.udp)))
  {
    var inside := Reader(Network, DEFAULTS);
    assert "no_tcp = false" == Switch("no_tcp", false);
    ReadSections(r);
    ReadSwitch(inside, "no_tcp", false);
    ReadSwitch(inside, "use_udp", c.udp);
    SetNetwork(inside, false);
    SetNetwork(inside, c.udp);
    ReadThree(r, "[network]", "no_tcp = false", Switch("use_udp", c.udp));
  }

  lemma ReadComments(slug: Str, r: Reader)
    ensures ReadLines(r, [NOTICE, "# route: " + slug, ""]) == Some(r)
  {
    assert NOTICE[0] == '#' && ("# route: " + slug)[0] == '#';
    ReadComment(r, NOTICE);
    ReadComment(r, "# route: " + slug);
    ReadSections(r);
    ReadThree(r, NOTICE, "# route: " + slug, "");
  }

  lemma ReadHeading(g: Graphic, c: Config)
    requires Prints(g)
    ensures ReadLines(Reader(Elsewhere, DEFAULTS), Heading(g, c)) ==
              if AllSpelled(c.slug) then Some(Reader(Network, DEFAULTS.(udp := c.udp))) else None
  {
    var r := Reader(Elsewhere, DEFAULTS);
    var a := [NOTICE, "# route: " + c.slug, ""];
    var b := ["[log]", "level = \"warn\"", Field(g, "output", LogPath(c.slug)), ""];
    var d := ["[network]", "no_tcp = false", Switch("use_udp", c.udp)];
    assert Heading(g, c) == a + (b + d);
    ReadComments(c.slug, r);
    ReadMore(r, a, b + d);
    ReadLogPart(g, c, r);
    ReadMore(r, b, d);
    ReadNetworkPart(c, r);
  }

  lemma ReadEndpoint(g: Graphic, c: Config, r: Reader)
    requires Prints(g) && r.meaning.points == []
    ensures ReadLines(r, Endpoint(g, c)) ==
              if AllSpelled(c.listen) && AllSpelled(c.remote)
              then Some(Reader(Endpoints, r.meaning.(points := [Point(CodesOf(c.listen), CodesOf(c.remote))])))
              else None
  {
    var at := Reader(Endpoints, r.meaning.(points := [Point([], [])]));
    var heard := Reader(Endpoints, r.meaning.(points := [Point(CodesOf(c.listen), [])]));
    assert r.meaning.points + [Point([], [])] == [Point([], [])];
    ReadSections(r);
    ReadField(g, at, "listen", c.listen);
    SetEndpoint(at, CodesOf(c.listen), []);
    ReadField(g, heard, "remote", c.remote);
    SetEndpoint(heard, [], CodesOf(c.remote));
    ReadFour(r, "", "[[endpoints]]", Field(g, "listen", c.listen), Field(g, "remote", c.remote));
  }

  lemma ReadFamily(c: Config, r: Reader)
    requires r.section.Network?
    ensures ReadLines(r, if c.ipv6Only then ["ipv6_only = true"] else []) ==
              Some(r.(meaning := r.meaning.(ipv6Only := c.ipv6Only || r.meaning.ipv6Only)))
  {
    if c.ipv6Only {
      assert "ipv6_only = true" == Switch("ipv6_only", true);
      ReadSwitch(r, "ipv6_only", true);
      SetNetwork(r, true);
      ReadOne(r, "ipv6_only = true");
    }
  }

  lemma ReadAllLines(g: Graphic, c: Config)
    requires Prints(g)
    ensures ReadLines(Reader(Elsewhere, DEFAULTS), LinesOf(g, c)) ==
              if Spellable(c) then Some(Reader(Endpoints, MeaningOf(c))) else None
  {
    var r := Reader(Elsewhere, DEFAULTS);
    var family := if c.ipv6Only then ["ipv6_only = true"] else [];
    assert LinesOf(g, c) == Heading(g, c) + (family + Endpoint(g, c));
    ReadMore(r, Heading(g, c), family + Endpoint(g, c));
    ReadHeading(g, c);
    if AllSpelled(c.slug) {
      var inside := Reader(Network, DEFAULTS.(udp := c.udp));
      var next := inside.(meaning := inside.meaning.(ipv6Only := c.ipv6Only));
      ReadMore(inside, family, Endpoint(g, c));
      ReadFamily(c, inside);
      ReadEndpoint(g, c, next);
    }
  }

  /** Reading the text of a configuration gives exactly what the configuration asks for: TCP
      and, if wanted, UDP, the right family, and one endpoint that listens and forwards as
      planned. If and only if some character has no spelling in the format it cannot be
      read, and no relay starts with it. */
  lemma ReadInvertsRender(g: Graphic, c: Config)
    requires Prints(g) && Renderable(c)
    ensures Read(Render(g, c)) == if Spellable(c) then Some(MeaningOf(c)) else None
  {
    var r := Reader(Elsewhere, DEFAULTS);
    assert IsTable(g) by {
      assert NL as int == 10;
    }
    RenderableLines(g, c);
    SplitPrinted(LinesOf(g, c), []);
    assert Render(g, c) + [] == Render(g, c);
    var blank: Str := [];
    ReadMore(r, LinesOf(g, c), [blank]);
    ReadAllLines(g, c);
    if Spellable(c) {
      ReadOne(Reader(Endpoints, MeaningOf(c)), blank);
    }
  }
}
