/** Compiling a route into one relay configuration per hop, and what the configurations do
    together once they lie on their machines.

    A relay accepts connections on a wildcard address and forwards them to its remote; the
    remote of every hop but the last is the next hop's host and port. Configurations are
    files keyed by the route's slug, so a machine keeps at most one per route. A fleet runs
    every file on every machine, and a connection goes wherever some file sends it: nothing
    but the files decides, which is what makes it worth proving that they decide on the
    right path.
  */
module RelayChain {
  import opened Prelude
  import opened Text
  import opened PortAllocation

  datatype Node = Node(host: Str, ipv6Entry: Str)

  datatype Route = Route(slug: Str, target: Str, udp: bool, listenIPv6: bool, hops: seq<Hop>)

  datatype Config = Config(slug: Str, udp: bool, ipv6Only: bool, listen: Str, remote: Str)

  // ---------------------------------------------------------------- addresses

  /** Host and port as one string, an IPv6 literal in brackets. */
  function JoinHostPort(host: Str, port: nat): Str {
    (if ':' in host then ['['] + host + [']'] else host) + [':'] + Decimal(port)
  }

  lemma {:induction false} LastColon(a: Str, b: Str, c: Str, d: Str)
    requires a + [':'] + b == c + [':'] + d && ':' !in b && ':' !in d
    ensures a == c && b == d
  {
    var s := a + [':'] + b;
    assert s == c + [':'] + d;
    assert s[|a|] == ':' && s[|c|] == ':';
    assert forall k | |a| < k < |s| :: s[k] == b[k - |a| - 1];
    assert forall k | |c| < k < |s| :: s[k] == d[k - |c| - 1];
    assert |a| == |c|;
    assert a == s[..|a|] && b == s[|a| + 1..];
  }

  /** An address names one host and one port. */
  lemma JoinIsInjective(h: Str, p: nat, g: Str, q: nat)
    requires JoinHostPort(h, p) == JoinHostPort(g, q)
    ensures h == g && p == q
  {
    var a := if ':' in h then ['['] + h + [']'] else h;
    var c := if ':' in g then ['['] + g + [']'] else g;
    LastColon(a, Decimal(p), c, Decimal(q));
    DecimalIsInjective(p, q);
    if ':' in h && ':' in g {
      assert h == a[1..|a| - 1] && g == c[1..|c| - 1];
    }
    assert ':' in h ==> ':' in a;
    assert ':' in g ==> ':' in c;
  }

  datatype Family = IPv4 | IPv6

  /** The address that stands for all of a machine's own addresses of one family. */
  function Wildcard(f: Family, port: nat): Str {
    JoinHostPort(if f.IPv4? then "0.0.0.0" else "::", port)
  }

  /** Only the entry widens to IPv6, and only on a node whose IPv6 address is its own. */
  function ListenAddress(r: Route, n: Node, order: int, port: nat): Str {
    if r.listenIPv6 && order == 0 && n.ipv6Entry == [] then Wildcard(IPv6, port) else Wildcard(IPv4, port)
  }

  lemma WildcardIsInjective(f: Family, p: nat, g: Family, q: nat)
    requires Wildcard(f, p) == Wildcard(g, q)
    ensures f == g && p == q
  {
    JoinIsInjective(if f.IPv4? then "0.0.0.0" else "::", p, if g.IPv4? then "0.0.0.0" else "::", q);
    assert "0.0.0.0"[0] != "::"[0];
  }

  /** Only the IPv6 wildcard starts with a bracket. */
  lemma BracketMeansIPv6(f: Family, p: nat)
    ensures HasPrefix(Wildcard(f, p), "[") <==> f.IPv6?
  {
    if f.IPv4? {
      assert Wildcard(f, p)[0] == '0';
    } else {
      assert "::"[0] == ':';
      assert Wildcard(f, p)[..1] == "[";
    }
  }

  // ---------------------------------------------------------------- compiling a route

  /** Ports are natural numbers and hops are numbered by position. */
  predicate Numbered(hops: seq<Hop>) {
    forall i | 0 <= i < |hops| :: hops[i].order == i && hops[i].port >= 0
  }

  predicate Known(fleet: map<int, Node>, r: Route) {
    forall i | 0 <= i < |r.hops| :: r.hops[i].node in fleet
  }

  function ConfigOf(fleet: map<int, Node>, r: Route, i: nat): Config
    requires Known(fleet, r) && Numbered(r.hops) && i < |r.hops|
  {
    var h := r.hops[i];
    var listen := ListenAddress(r, fleet[h.node], h.order, h.port);
    Config(r.slug, r.udp, HasPrefix(listen, "["), listen,
           if i == |r.hops| - 1 then r.target
           else JoinHostPort(fleet[r.hops[i + 1].node].host, r.hops[i + 1].port))
  }

  datatype HopPlan = HopPlan(hop: Hop, config: Config)

  ghost function PlanOf(fleet: map<int, Node>, r: Route): (plan: seq<HopPlan>)
    requires Known(fleet, r) && Numbered(r.hops)
    ensures |plan| == |r.hops|
    ensures forall i | 0 <= i < |plan| :: plan[i] == HopPlan(r.hops[i], ConfigOf(fleet, r, i))
  {
    seq(|r.hops|, i requires 0 <= i < |r.hops| => HopPlan(r.hops[i], ConfigOf(fleet, r, i)))
  }

  datatype Plan = Plan(hops: seq<HopPlan>) | NoHops | UnknownNode(hop: nat)

  /** What a hop's configuration says, letter by letter: it listens on all addresses of one
      family, and forwards to the next hop's host and port or to the route's target. */
  predicate SpelledOut(fleet: map<int, Node>, r: Route, i: nat, c: Config)
    requires Known(fleet, r) && Numbered(r.hops) && i < |r.hops|
  {
    var wide := i == 0 && r.listenIPv6 && |fleet[r.hops[0].node].ipv6Entry| == 0;
    && c.slug == r.slug && c.udp == r.udp && c.ipv6Only == wide
    && c.listen == (if wide then "[::]:" else "0.0.0.0:") + Decimal(r.hops[i].port)
    && c.remote ==
         if i + 1 == |r.hops| then r.target
         else
           var next := r.hops[i + 1];
           var host := fleet[next.node].host;
           (if ':' in host then "[" + host + "]:" else host + ":") + Decimal(next.port)
  }

  lemma ConfigSpelledOut(fleet: map<int, Node>, r: Route, i: nat)
    requires Known(fleet, r) && Numbered(r.hops) && i < |r.hops|
    ensures SpelledOut(fleet, r, i, ConfigOf(fleet, r, i))
  {
    OnlyTheEntryWidens(fleet, r, i);
    var digits := Decimal(r.hops[i].port);
    assert ':' in "::" && ':' !in "0.0.0.0";
    assert ['['] + "::" + [']'] + [':'] == "[::]:" && "0.0.0.0" + [':'] == "0.0.0.0:";
    if i + 1 < |r.hops| {
      var host := fleet[r.hops[i + 1].node].host;
      assert ['['] + host + [']'] + [':'] == "[" + host + "]:";
    }
  }

  method Build(fleet: map<int, Node>, r: Route) returns (p: Plan)
    requires Numbered(r.hops)
    ensures p.NoHops? <==> r.hops == []
    ensures p.UnknownNode? ==>
              p.hop < |r.hops| && r.hops[p.hop].node !in fleet && forall i | 0 <= i < p.hop :: r.hops[i].node in fleet
    ensures p.Plan? <==> r.hops != [] && Known(fleet, r)
    ensures p.Plan? ==> p.hops == PlanOf(fleet, r)
    ensures p.Plan? ==> forall i | 0 <= i < |r.hops| :: SpelledOut(fleet, r, i, p.hops[i].config)
  {
    if |r.hops| == 0 {
      return Plan.NoHops;
    }
    var i := 0;
    while i < |r.hops|
      invariant 0 <= i <= |r.hops|
      invariant forall j | 0 <= j < i :: r.hops[j].node in fleet
    {
      if r.hops[i].node !in fleet {
        return Plan.UnknownNode(i);
      }
      i := i + 1;
    }
    var plans: seq<HopPlan> := [];
    i := 0;
    while i < |r.hops|
      invariant 0 <= i <= |r.hops| && |plans| == i
      invariant forall j | 0 <= j < i :: plans[j] == HopPlan(r.hops[j], ConfigOf(fleet, r, j))
    {
      var h := r.hops[i];
      var remote := r.target;
      if i < |r.hops| - 1 {
        var next := r.hops[i + 1];
        remote := JoinHostPort(fleet[next.node].host, next.port);
      }
      var listen := ListenAddress(r, fleet[h.node], h.order, h.port);
      var ipv6Only := HasPrefix(listen, "[");
      plans := plans + [HopPlan(h, Config(r.slug, r.udp, ipv6Only, listen, remote))];
      i := i + 1;
    }
    forall j | 0 <= j < |r.hops| ensures SpelledOut(fleet, r, j, plans[j].config) {
      ConfigSpelledOut(fleet, r, j);
    }
    p := Plan(plans);
  }

  /** The family a hop accepts. */
  function FamilyOf(fleet: map<int, Node>, r: Route, i: nat): Family
    requires Known(fleet, r) && i < |r.hops|
  {
    if i == 0 && r.listenIPv6 && fleet[r.hops[0].node].ipv6Entry == [] then IPv6 else IPv4
  }

  /** A hop excludes IPv4 exactly when it is the entry of a route that asks for IPv6, on a
      node holding its own address; otherwise it binds the IPv4 wildcard. */
  lemma OnlyTheEntryWidens(fleet: map<int, Node>, r: Route, i: nat)
    requires Known(fleet, r) && Numbered(r.hops) && i < |r.hops|
    ensures ConfigOf(fleet, r, i).listen == Wildcard(FamilyOf(fleet, r, i), r.hops[i].port)
    ensures ConfigOf(fleet, r, i).ipv6Only <==> FamilyOf(fleet, r, i).IPv6?
  {
    BracketMeansIPv6(FamilyOf(fleet, r, i), r.hops[i].port);
  }

  // ---------------------------------------------------------------- the files of a fleet

  /** The files on all machines, by node and slug. */
  type Files = map<(int, Str), Config>

  /** Files after writing hop `i` of a plan and all behind it, the last hop first. */
  ghost function Written(plan: seq<HopPlan>, files: Files, i: nat): Files
    requires i <= |plan|
    decreases |plan| - i
  {
    if i == |plan| then files
    else Written(plan, files, i + 1)[(plan[i].hop.node, plan[i].config.slug) := plan[i].config]
  }

  ghost function File(files: Files, node: int, slug: Str): Option<Config> {
    if (node, slug) in files then Some(files[(node, slug)]) else None
  }

  ghost predicate Sound(fleet: map<int, Node>, routes: seq<Route>) {
    forall m | 0 <= m < |routes| ::
      routes[m].hops != [] && Known(fleet, routes[m]) && Numbered(routes[m].hops)
  }

  /** Files once every route is deployed, each by one pass from its last hop to its entry. */
  ghost function Deployed(fleet: map<int, Node>, routes: seq<Route>): Files
    requires Sound(fleet, routes)
  {
    if routes == [] then map[]
    else
      var last := |routes| - 1;
      Written(PlanOf(fleet, routes[last]), Deployed(fleet, routes[..last]), 0)
  }

  /** The first hop at or after `i` on a node; the number of hops if there is none. */
  ghost function FirstVisit(hops: seq<Hop>, node: int, i: nat): (j: nat)
    requires i <= |hops|
    ensures i <= j <= |hops|
    ensures j < |hops| ==> hops[j].node == node
    ensures forall k | i <= k < j :: hops[k].node != node
    decreases |hops| - i
  {
    if i == |hops| || hops[i].node == node then i else FirstVisit(hops, node, i + 1)
  }

  lemma {:induction false} WrittenAt(plan: seq<HopPlan>, hops: seq<Hop>, own: Str, files: Files, i: nat,
                                     node: int, slug: Str)
    requires |plan| == |hops| && i <= |plan|
    requires forall j | 0 <= j < |plan| :: plan[j].hop == hops[j] && plan[j].config.slug == own
    ensures var j := FirstVisit(hops, node, i);
            File(Written(plan, files, i), node, slug) ==
              if slug == own && j < |hops| then Some(plan[j].config) else File(files, node, slug)
    decreases |plan| - i
  {
    if i < |plan| {
      WrittenAt(plan, hops, own, files, i + 1, node, slug);
    }
  }

  ghost predicate DistinctSlugs(routes: seq<Route>) {
    forall m, k | 0 <= m < k < |routes| :: routes[m].slug != routes[k].slug
  }

  /** What the last route's pass changed: the files under its slug on its own nodes. */
  lemma DeployedAt(fleet: map<int, Node>, routes: seq<Route>, node: int, slug: Str)
    requires routes != [] && Sound(fleet, routes)
    ensures var before := routes[..|routes| - 1];
            var r := routes[|routes| - 1];
            var j := FirstVisit(r.hops, node, 0);
            Sound(fleet, before) &&
            File(Deployed(fleet, routes), node, slug) ==
              if slug == r.slug && j < |r.hops| then Some(ConfigOf(fleet, r, j))
              else File(Deployed(fleet, before), node, slug)
  {
    var before := routes[..|routes| - 1];
    var r := routes[|routes| - 1];
    WrittenAt(PlanOf(fleet, r), r.hops, r.slug, Deployed(fleet, before), 0, node, slug);
  }

  /** A file is there because some route has that slug and visits that node, and it is the
      configuration of that route's first hop there. */
  lemma {:induction false} FileIsFirstVisit(fleet: map<int, Node>, routes: seq<Route>, node: int, slug: Str)
      returns (m: nat)
    requires Sound(fleet, routes) && DistinctSlugs(routes)
    requires File(Deployed(fleet, routes), node, slug).Some?
    ensures m < |routes| && routes[m].slug == slug && FirstVisit(routes[m].hops, node, 0) < |routes[m].hops|
    ensures File(Deployed(fleet, routes), node, slug) ==
              Some(ConfigOf(fleet, routes[m], FirstVisit(routes[m].hops, node, 0)))
  {
    var last := |routes| - 1;
    DeployedAt(fleet, routes, node, slug);
    if slug == routes[last].slug && FirstVisit(routes[last].hops, node, 0) < |routes[last].hops| {
      m := last;
    } else {
      m := FileIsFirstVisit(fleet, routes[..last], node, slug);
    }
  }

  lemma {:induction false} FirstVisitHasFile(fleet: map<int, Node>, routes: seq<Route>, m: nat, node: int)
    requires Sound(fleet, routes) && DistinctSlugs(routes) && m < |routes|
    requires FirstVisit(routes[m].hops, node, 0) < |routes[m].hops|
    ensures File(Deployed(fleet, routes), node, routes[m].slug) ==
              Some(ConfigOf(fleet, routes[m], FirstVisit(routes[m].hops, node, 0)))
  {
    DeployedAt(fleet, routes, node, routes[m].slug);
    if m < |routes| - 1 {
      FirstVisitHasFile(fleet, routes[..|routes| - 1], m, node);
    }
  }

  // ---------------------------------------------------------------- running the fleet

  /** One owner per node and port, over all routes. */
  ghost predicate OneOwner(routes: seq<Route>) {
    forall m, i, k, j | 0 <= m < |routes| && 0 <= i < |routes[m].hops| && 0 <= k < |routes| && 0 <= j < |routes[k].hops|
                        && routes[m].hops[i].node == routes[k].hops[j].node
                        && routes[m].hops[i].port == routes[k].hops[j].port ::
      m == k && i == j
  }

  ghost predicate DistinctHosts(fleet: map<int, Node>) {
    forall a, b | a in fleet && b in fleet && fleet[a].host == fleet[b].host :: a == b
  }

  /** Some file on `node` listens on `listen` and forwards to `remote`. */
  ghost predicate Forwards(files: Files, node: int, listen: Str, remote: Str) {
    exists slug ::
      File(files, node, slug).Some? && File(files, node, slug).value.listen == listen
      && File(files, node, slug).value.remote == remote
  }

  /** The family in which a host is dialled. */
  function DialledAs(host: Str): Family {
    if ':' in host then IPv6 else IPv4
  }

  /** A connection accepted on `path[0]`, over family `f` at `port`, can travel the nodes of
      `path`, after which the last of them dials `out`. */
  ghost predicate Travels(fleet: map<int, Node>, files: Files, path: seq<int>, f: Family, port: nat, out: Str)
    decreases |path|
  {
    if path == [] then false
    else if |path| == 1 then Forwards(files, path[0], Wildcard(f, port), out)
    else
      path[1] in fleet &&
      exists next: nat ::
        && Forwards(files, path[0], Wildcard(f, port), JoinHostPort(fleet[path[1]].host, next))
        && Travels(fleet, files, path[1..], DialledAs(fleet[path[1]].host), next, out)
  }

  ghost predicate Deployable(fleet: map<int, Node>, routes: seq<Route>) {
    Sound(fleet, routes) && DistinctSlugs(routes) && OneOwner(routes) && DistinctHosts(fleet)
  }

  /** Whatever listens on a hop's node and port, in either family, is that hop. */
  lemma ListenerIsOwner(fleet: map<int, Node>, routes: seq<Route>, m: nat, i: nat, f: Family, remote: Str)
    requires Deployable(fleet, routes) && m < |routes| && i < |routes[m].hops|
    ensures Forwards(Deployed(fleet, routes), routes[m].hops[i].node, Wildcard(f, routes[m].hops[i].port), remote)
            <==> FirstVisit(routes[m].hops, routes[m].hops[i].node, 0) == i
                 && f == FamilyOf(fleet, routes[m], i) && remote == ConfigOf(fleet, routes[m], i).remote
  {
    var files := Deployed(fleet, routes);
    var h := routes[m].hops[i];
    if slug :| File(files, h.node, slug).Some? && File(files, h.node, slug).value.listen == Wildcard(f, h.port)
               && File(files, h.node, slug).value.remote == remote {
      var k := FileIsFirstVisit(fleet, routes, h.node, slug);
      var j := FirstVisit(routes[k].hops, h.node, 0);
      OnlyTheEntryWidens(fleet, routes[k], j);
      WildcardIsInjective(f, h.port, FamilyOf(fleet, routes[k], j), routes[k].hops[j].port);
      assert m == k && i == j;
    }
    if FirstVisit(routes[m].hops, h.node, 0) == i {
      FirstVisitHasFile(fleet, routes, m, h.node);
      OnlyTheEntryWidens(fleet, routes[m], i);
    }
  }

  /** Hops `i` and later each come first on their node, and all after `i` are dialled over IPv4. */
  ghost predicate Clear(fleet: map<int, Node>, r: Route, i: nat)
    requires Known(fleet, r)
  {
    && (forall j | i <= j < |r.hops| :: FirstVisit(r.hops, r.hops[j].node, 0) == j)
    && (forall j | i < j < |r.hops| :: ':' !in fleet[r.hops[j].node].host)
  }

  ghost function NodesFrom(r: Route, i: nat): (path: seq<int>)
    requires i <= |r.hops|
    ensures |path| == |r.hops| - i
    ensures forall j | 0 <= j < |path| :: path[j] == r.hops[i + j].node
  {
    seq(|r.hops| - i, j requires 0 <= j < |r.hops| - i => r.hops[i + j].node)
  }

  /** One relay step of a travelling connection: from hop `i` to hop `i + 1` and nowhere else. */
  lemma OneStep(fleet: map<int, Node>, routes: seq<Route>, m: nat, i: nat, path: seq<int>, f: Family, out: Str)
    requires Deployable(fleet, routes) && m < |routes|
    requires i + 1 < |routes[m].hops| && |path| > 1 && path[0] == routes[m].hops[i].node
    ensures var r := routes[m];
            var next := r.hops[i + 1];
            Travels(fleet, Deployed(fleet, routes), path, f, r.hops[i].port, out)
            <==> FirstVisit(r.hops, r.hops[i].node, 0) == i && f == FamilyOf(fleet, r, i)
                 && path[1] == next.node
                 && Travels(fleet, Deployed(fleet, routes), path[1..], DialledAs(fleet[next.node].host), next.port, out)
  {
    var r := routes[m];
    var next := r.hops[i + 1];
    var files := Deployed(fleet, routes);
    ListenerIsOwner(fleet, routes, m, i, f, ConfigOf(fleet, r, i).remote);
    if path[1] in fleet {
      forall port: nat | Forwards(files, path[0], Wildcard(f, r.hops[i].port), JoinHostPort(fleet[path[1]].host, port))
        ensures path[1] == next.node && port == next.port
        ensures FirstVisit(r.hops, r.hops[i].node, 0) == i && f == FamilyOf(fleet, r, i)
      {
        ListenerIsOwner(fleet, routes, m, i, f, JoinHostPort(fleet[path[1]].host, port));
        JoinIsInjective(fleet[path[1]].host, port, fleet[next.node].host, next.port);
      }
    }
  }

  /** The last hop dials the route's target. */
  lemma LastStep(fleet: map<int, Node>, routes: seq<Route>, m: nat, i: nat, path: seq<int>, f: Family, out: Str)
    requires Deployable(fleet, routes) && m < |routes|
    requires i + 1 == |routes[m].hops| && |path| == 1 && path[0] == routes[m].hops[i].node
    ensures Travels(fleet, Deployed(fleet, routes), path, f, routes[m].hops[i].port, out)
            <==> FirstVisit(routes[m].hops, routes[m].hops[i].node, 0) == i && f == FamilyOf(fleet, routes[m], i)
                 && out == routes[m].target
  {
    ListenerIsOwner(fleet, routes, m, i, f, out);
  }

  lemma LastHop(fleet: map<int, Node>, r: Route, i: nat, path: seq<int>)
    requires Known(fleet, r) && i + 1 == |r.hops| && |path| == 1 && path[0] == r.hops[i].node
    ensures path == NodesFrom(r, i)
    ensures Clear(fleet, r, i) <==> FirstVisit(r.hops, r.hops[i].node, 0) == i
  {
  }

  lemma PathSplits(r: Route, i: nat, path: seq<int>)
    requires i + 1 < |r.hops| && |path| == |r.hops| - i && path[0] == r.hops[i].node
    ensures path == NodesFrom(r, i) <==> path[1] == r.hops[i + 1].node && path[1..] == NodesFrom(r, i + 1)
  {
    assert NodesFrom(r, i)[1..] == NodesFrom(r, i + 1);
    assert path == [path[0]] + path[1..];
    assert NodesFrom(r, i) == [path[0]] + NodesFrom(r, i + 1);
  }

  lemma ClearSplits(fleet: map<int, Node>, r: Route, i: nat)
    requires Known(fleet, r) && i + 1 < |r.hops|
    ensures Clear(fleet, r, i) <==> FirstVisit(r.hops, r.hops[i].node, 0) == i
                                    && ':' !in fleet[r.hops[i + 1].node].host && Clear(fleet, r, i + 1)
  {
  }

  lemma {:induction false} TravelsFrom(fleet: map<int, Node>, routes: seq<Route>, m: nat, i: nat, path: seq<int>,
                                       f: Family, out: Str)
    requires Deployable(fleet, routes) && m < |routes|
    requires i < |routes[m].hops| && |path| == |routes[m].hops| - i && path[0] == routes[m].hops[i].node
    ensures Travels(fleet, Deployed(fleet, routes), path, f, routes[m].hops[i].port, out)
            <==> f == FamilyOf(fleet, routes[m], i) && Clear(fleet, routes[m], i)
                 && path == NodesFrom(routes[m], i) && out == routes[m].target
    decreases |path|
  {
    var r := routes[m];
    if |path| == 1 {
      LastStep(fleet, routes, m, i, path, f, out);
      LastHop(fleet, r, i, path);
    } else {
      var next := r.hops[i + 1];
      OneStep(fleet, routes, m, i, path, f, out);
      PathSplits(r, i, path);
      ClearSplits(fleet, r, i);
      if path[1] == next.node {
        TravelsFrom(fleet, routes, m, i + 1, path[1..], DialledAs(fleet[next.node].host), out);
      }
    }
  }

  /** No node twice, and no hop behind the entry dialled as an IPv6 literal. */
  ghost predicate Passable(fleet: map<int, Node>, r: Route)
    requires Known(fleet, r)
  {
    && (forall i, j | 0 <= i < j < |r.hops| :: r.hops[i].node != r.hops[j].node)
    && (forall j | 0 < j < |r.hops| :: ':' !in fleet[r.hops[j].node].host)
  }

  /** Whatever other routes are deployed, a connection to a route's entry travels the route's
      nodes in order and ends by dialling its target, and can travel no other way: provided
      the route is passable, and otherwise it does not get through at all. */
  lemma ConnectionReachesTarget(fleet: map<int, Node>, routes: seq<Route>, m: nat, path: seq<int>, out: Str)
    requires Deployable(fleet, routes) && m < |routes|
    requires |path| == |routes[m].hops| && path[0] == routes[m].hops[0].node
    ensures Travels(fleet, Deployed(fleet, routes), path, FamilyOf(fleet, routes[m], 0), routes[m].hops[0].port, out)
            <==> Passable(fleet, routes[m]) && path == NodesFrom(routes[m], 0) && out == routes[m].target
  {
    var r := routes[m];
    TravelsFrom(fleet, routes, m, 0, path, FamilyOf(fleet, r, 0), out);
    if Passable(fleet, r) {
      forall j | 0 <= j < |r.hops|
        ensures FirstVisit(r.hops, r.hops[j].node, 0) == j
      {
        assert FirstVisit(r.hops, r.hops[j].node, 0) <= j;
      }
    }
    if Clear(fleet, r, 0) {
      forall i, j | 0 <= i < j < |r.hops|
        ensures r.hops[i].node != r.hops[j].node
      {
        assert FirstVisit(r.hops, r.hops[i].node, 0) == i && FirstVisit(r.hops, r.hops[j].node, 0) == j;
      }
    }
  }

  /** Every port other routes hold is known to the allocation. */
  ghost predicate UsageCovers(machines: map<int, Machine>, routes: seq<Route>) {
    forall m, i | 0 <= m < |routes| && 0 <= i < |routes[m].hops| && routes[m].hops[i].node in machines
                  && machines[routes[m].hops[i].node].used.Some? ::
      routes[m].hops[i].port in machines[routes[m].hops[i].node].used.value
  }

  /** Adding a route with allocated ports keeps one owner per node and port. */
  lemma AllocationKeepsOneOwner(machines: map<int, Machine>, udp: bool, entry: Option<int>, hops: seq<Hop>,
                                routes: seq<Route>, r: Route)
    requires OneOwner(routes) && UsageCovers(machines, routes)
    requires Assignment(machines, udp, entry, hops, r.hops)
    ensures OneOwner(routes + [r])
  {
    var all := routes + [r];
    forall m, i, k, j | 0 <= m < |all| && 0 <= i < |all[m].hops| && 0 <= k < |all| && 0 <= j < |all[k].hops|
                        && all[m].hops[i].node == all[k].hops[j].node && all[m].hops[i].port == all[k].hops[j].port
      ensures m == k && i == j
    {
      if m == |routes| {
        assert hops[i].node == r.hops[i].node && Free(machines[hops[i].node], r.hops[i].port);
      }
      if k == |routes| {
        assert hops[j].node == r.hops[j].node && Free(machines[hops[j].node], r.hops[j].port);
      }
    }
  }
}
