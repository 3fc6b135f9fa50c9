/** From deployed machines to delivered connections: once the relays of all routes run what
    was planned, as successful passes leave them, the running processes alone carry every
    connection along its route.
  */
module Delivery {
  import opened Prelude
  import opened Text
  import PortAllocation
  import opened RelayChain
  import opened RelayConfig
  import opened RelayReading
  import A = Applier

  /** What one pass over a route's machines is asked to bring about. */
  ghost function Targets(g: Graphic, fleet: map<int, Node>, r: Route): (ts: seq<A.Target>)
    requires Known(fleet, r) && Numbered(r.hops)
    ensures |ts| == |r.hops|
    ensures forall i | 0 <= i < |ts| :: ts[i] == A.Target(r.hops[i].node, Render(g, ConfigOf(fleet, r, i)))
  {
    seq(|r.hops|, i requires 0 <= i < |r.hops| => A.Target(r.hops[i].node, Render(g, ConfigOf(fleet, r, i))))
  }

  /** The machines as each route's deployment sees them, by slug. */
  type Views = map<Str, map<int, A.Machine>>

  predicate Runs(views: Views, node: int, slug: Str) {
    slug in views && node in views[slug] && views[slug][node].running.Some?
  }

  /** Every hop of the route runs its planned configuration. */
  ghost predicate Up(g: Graphic, fleet: map<int, Node>, r: Route, views: Views, version: Str)
    requires Known(fleet, r) && Numbered(r.hops)
  {
    forall i | 0 <= i < |r.hops| ::
      Runs(views, r.hops[i].node, r.slug)
      && A.RunsPlan(views[r.slug][r.hops[i].node], Render(g, ConfigOf(fleet, r, i)), version)
  }

  predicate Visits(r: Route, node: int) {
    exists i :: 0 <= i < |r.hops| && r.hops[i].node == node
  }

  /** All routes are up, and no relay runs that is not theirs. */
  ghost predicate AllUp(g: Graphic, fleet: map<int, Node>, routes: seq<Route>, views: Views, version: Str)
    requires Sound(fleet, routes)
  {
    && (forall m | 0 <= m < |routes| :: Up(g, fleet, routes[m], views, version))
    && (forall node, slug | Runs(views, node, slug) ::
          exists m :: 0 <= m < |routes| && routes[m].slug == slug && Visits(routes[m], node))
  }

  /** `files` are what the running relays read in the texts they were started with. */
  ghost predicate Loaded(views: Views, files: Files) {
    forall node, slug ::
      && (File(files, node, slug).Some? <==> Runs(views, node, slug))
      && (File(files, node, slug).Some? ==>
            && File(files, node, slug).value.slug == slug
            && Read(views[slug][node].running.value.config) == Some(MeaningOf(File(files, node, slug).value)))
  }

  /** A meaning and a slug make up a configuration. */
  lemma MeaningDetermines(c: Config, d: Config)
    requires MeaningOf(c) == MeaningOf(d) && c.slug == d.slug
    ensures c == d
  {
    assert MeaningOf(c).points[0] == MeaningOf(d).points[0];
    CodesAreInjective(c.listen, d.listen);
    CodesAreInjective(c.remote, d.remote);
  }

  /** No slug contains a newline. */
  ghost predicate PlainSlugs(routes: seq<Route>) {
    forall m | 0 <= m < |routes| :: IsLine(routes[m].slug)
  }

  /** What runs on a machine under a route's slug is that route's first hop there. */
  lemma RunsFirstVisit(g: Graphic, fleet: map<int, Node>, routes: seq<Route>, views: Views, version: Str, files: Files,
                       m: nat, node: int)
    requires Deployable(fleet, routes) && Prints(g) && PlainSlugs(routes) && m < |routes|
    requires Up(g, fleet, routes[m], views, version) && Loaded(views, files)
    requires FirstVisit(routes[m].hops, node, 0) < |routes[m].hops|
    ensures Runs(views, node, routes[m].slug)
    ensures File(files, node, routes[m].slug) == File(Deployed(fleet, routes), node, routes[m].slug)
  {
    var j := FirstVisit(routes[m].hops, node, 0);
    assert Runs(views, routes[m].hops[j].node, routes[m].slug);
    ReadInvertsRender(g, ConfigOf(fleet, routes[m], j));
    MeaningDetermines(File(files, node, routes[m].slug).value, ConfigOf(fleet, routes[m], j));
    FirstVisitHasFile(fleet, routes, m, node);
  }

  lemma RunningIsDeployed(g: Graphic, fleet: map<int, Node>, routes: seq<Route>, views: Views, version: Str,
                          files: Files, node: int, slug: Str)
    requires Deployable(fleet, routes) && Prints(g) && PlainSlugs(routes)
    requires AllUp(g, fleet, routes, views, version) && Loaded(views, files)
    ensures File(files, node, slug) == File(Deployed(fleet, routes), node, slug)
  {
    if Runs(views, node, slug) {
      var m :| 0 <= m < |routes| && routes[m].slug == slug && Visits(routes[m], node);
      RunsFirstVisit(g, fleet, routes, views, version, files, m, node);
    } else if File(Deployed(fleet, routes), node, slug).Some? {
      var m := FileIsFirstVisit(fleet, routes, node, slug);
      RunsFirstVisit(g, fleet, routes, views, version, files, m, node);
    }
  }

  /** The configurations that run are exactly those a deployment of all routes writes. */
  lemma FleetRunsItsPlans(g: Graphic, fleet: map<int, Node>, routes: seq<Route>, views: Views, version: Str,
                          files: Files)
    requires Deployable(fleet, routes) && Prints(g) && PlainSlugs(routes)
    requires AllUp(g, fleet, routes, views, version) && Loaded(views, files)
    ensures files == Deployed(fleet, routes)
  {
    var written := Deployed(fleet, routes);
    forall node, slug
      ensures File(files, node, slug) == File(written, node, slug)
    {
      RunningIsDeployed(g, fleet, routes, views, version, files, node, slug);
    }
    SameFiles(files, written);
  }

  /** A machine runs one configuration per route, so a route that is up visits none twice. */
  lemma UpVisitsOnce(g: Graphic, fleet: map<int, Node>, routes: seq<Route>, views: Views, version: Str,
                     m: nat, i: nat, j: nat)
    requires Deployable(fleet, routes) && Prints(g) && PlainSlugs(routes) && m < |routes|
    requires Up(g, fleet, routes[m], views, version)
    requires i < j < |routes[m].hops|
    ensures routes[m].hops[i].node != routes[m].hops[j].node
  {
    var r := routes[m];
    if r.hops[i].node == r.hops[j].node {
      assert IsTable(g) by {
        assert NL as int == 10;
      }
      RenderIsInjective(g, ConfigOf(fleet, r, i), ConfigOf(fleet, r, j));
      OnlyTheEntryWidens(fleet, r, i);
      OnlyTheEntryWidens(fleet, r, j);
      WildcardIsInjective(FamilyOf(fleet, r, i), r.hops[i].port, FamilyOf(fleet, r, j), r.hops[j].port);
      assert false;
    }
  }

  lemma UpIsPassable(g: Graphic, fleet: map<int, Node>, routes: seq<Route>, views: Views, version: Str, m: nat)
    requires Deployable(fleet, routes) && Prints(g) && PlainSlugs(routes) && m < |routes|
    requires Up(g, fleet, routes[m], views, version)
    ensures Passable(fleet, routes[m]) <==> DialledOverIPv4(fleet, routes[m])
  {
    forall i, j | 0 <= i < j < |routes[m].hops|
      ensures routes[m].hops[i].node != routes[m].hops[j].node
    {
      UpVisitsOnce(g, fleet, routes, views, version, m, i, j);
    }
  }

  /** No hop behind the entry has an IPv6 literal for a host. */
  predicate DialledOverIPv4(fleet: map<int, Node>, r: Route)
    requires Known(fleet, r)
  {
    forall j | 0 < j < |r.hops| :: DialledAs(fleet[r.hops[j].node].host).IPv4?
  }

  /** With all routes up, a connection accepted at a route's entry travels the route's nodes
      in order and dials its target, and goes nowhere else: if and only if no hop behind
      the entry is dialled as an IPv6 literal. */
  lemma RoutesThatAreUpDeliver(g: Graphic, fleet: map<int, Node>, routes: seq<Route>, views: Views, version: Str,
                               files: Files, m: nat, path: seq<int>, out: Str)
    requires Deployable(fleet, routes) && Prints(g) && PlainSlugs(routes) && m < |routes|
    requires AllUp(g, fleet, routes, views, version) && Loaded(views, files)
    requires |path| == |routes[m].hops| && path[0] == routes[m].hops[0].node
    ensures Travels(fleet, files, path, FamilyOf(fleet, routes[m], 0), routes[m].hops[0].port, out)
            <==> DialledOverIPv4(fleet, routes[m]) && path == NodesFrom(routes[m], 0) && out == routes[m].target
  {
    FleetRunsItsPlans(g, fleet, routes, views, version, files);
    UpIsPassable(g, fleet, routes, views, version, m);
    ConnectionReachesTarget(fleet, routes, m, path, out);
  }

  lemma SameFiles(a: Files, b: Files)
    requires forall node, slug :: File(a, node, slug) == File(b, node, slug)
    ensures a == b
  {
    forall k
      ensures k in a <==> k in b
      ensures k in a ==> a[k] == b[k]
    {
      assert File(a, k.0, k.1) == File(b, k.0, k.1);
    }
  }

  /** A fully successful pass leaves the route up exactly if it did not find a stale relay on
      any of its machines. */
  lemma SuccessfulPassIsUp(g: Graphic, fleet: map<int, Node>, r: Route, faults: seq<A.Faults>, outcomes: seq<A.Outcome>,
                           version: Str, was: map<int, A.Machine>, now: map<int, A.Machine>, views: Views)
    requires Known(fleet, r) && Numbered(r.hops) && r.slug in views && views[r.slug] == now
    requires |faults| == |r.hops| && A.SplitsAt(Targets(g, fleet, r), outcomes, version, was, now, -1)
    requires forall i | 0 <= i < |r.hops| :: r.hops[i].node in was
    requires A.Verdicts(Targets(g, fleet, r), faults, version, was, outcomes)
    requires A.Left(Targets(g, fleet, r), faults, version, was, now, outcomes)
    ensures Up(g, fleet, r, views, version) <==>
              forall i | 0 <= i < |r.hops| :: !A.Stale(was[r.hops[i].node], Render(g, ConfigOf(fleet, r, i)), version)
  {
    forall i | 0 <= i < |r.hops|
      ensures A.RunsPlan(now[r.hops[i].node], Render(g, ConfigOf(fleet, r, i)), version)
              <==> !A.Stale(was[r.hops[i].node], Render(g, ConfigOf(fleet, r, i)), version)
    {
      A.SuccessRunsPlan(Targets(g, fleet, r), faults, outcomes, version, was, now, i);
      assert Targets(g, fleet, r)[i].node == r.hops[i].node;
    }
  }

  // ---------------------------------------------------------------- fleets that are up

  /** No route visits a machine twice. */
  ghost predicate NoneRevisits(routes: seq<Route>) {
    forall m, i, j | 0 <= m < |routes| && 0 <= i < j < |routes[m].hops| ::
      routes[m].hops[i].node != routes[m].hops[j].node
  }

  function Relay(text: Str, version: Str): A.Machine {
    A.Machine(A.Systemd, Some(version), true, true, text, Some(A.Process(text, version)))
  }

  /** Machines with one relay running for each of the files. */
  function RelaysOf(g: Graphic, files: Files, version: Str): Views {
    map slug | slug in Slugs(files) :: Relays(g, files, slug, version)
  }

  function Slugs(files: Files): set<Str> {
    set k | k in files :: k.1
  }

  function Relays(g: Graphic, files: Files, slug: Str, version: Str): map<int, A.Machine> {
    map k | k in files && k.1 == slug :: k.0 := Relay(Render(g, files[k]), version)
  }

  lemma RelayRuns(g: Graphic, files: Files, version: Str, node: int, slug: Str)
    ensures Runs(RelaysOf(g, files, version), node, slug) <==> File(files, node, slug).Some?
    ensures File(files, node, slug).Some? ==>
              RelaysOf(g, files, version)[slug][node] == Relay(Render(g, File(files, node, slug).value), version)
  {
    if (node, slug) in files {
      assert (node, slug).1 in Slugs(files);
      assert (node, slug).0 in Relays(g, files, slug, version);
    }
  }

  /** Every character of every planned configuration has a spelling in the format. */
  ghost predicate AllSpellable(fleet: map<int, Node>, routes: seq<Route>)
    requires Sound(fleet, routes)
  {
    forall m, i | 0 <= m < |routes| && 0 <= i < |routes[m].hops| :: Spellable(ConfigOf(fleet, routes[m], i))
  }

  /** A fleet can be up as all these results assume exactly if none of its routes visits a
      machine twice and all its configurations can be spelled: then one relay for each
      deployed file brings it up. */
  lemma FleetCanBeUp(g: Graphic, fleet: map<int, Node>, routes: seq<Route>, version: Str)
    requires Deployable(fleet, routes) && Prints(g) && PlainSlugs(routes)
    ensures (exists views, files :: AllUp(g, fleet, routes, views, version) && Loaded(views, files))
            <==> NoneRevisits(routes) && AllSpellable(fleet, routes)
    ensures var files := Deployed(fleet, routes);
            NoneRevisits(routes) && AllSpellable(fleet, routes) ==>
              && AllUp(g, fleet, routes, RelaysOf(g, files, version), version)
              && Loaded(RelaysOf(g, files, version), files)
  {
    var files := Deployed(fleet, routes);
    if NoneRevisits(routes) && AllSpellable(fleet, routes) {
      DeployedIsUp(g, fleet, routes, version);
      DeployedIsLoaded(g, fleet, routes, version);
      assert AllUp(g, fleet, routes, RelaysOf(g, files, version), version);
    }
    forall views, some, m, i, j |
      && AllUp(g, fleet, routes, views, version) && Loaded(views, some)
      && 0 <= m < |routes| && 0 <= i < j < |routes[m].hops|
      ensures routes[m].hops[i].node != routes[m].hops[j].node
    {
      UpVisitsOnce(g, fleet, routes, views, version, m, i, j);
    }
    forall views, some, m, i |
      && AllUp(g, fleet, routes, views, version) && Loaded(views, some)
      && 0 <= m < |routes| && 0 <= i < |routes[m].hops|
      ensures Spellable(ConfigOf(fleet, routes[m], i))
    {
      UpIsSpelled(g, fleet, routes, views, version, some, m, i);
    }
  }

  /** A relay that runs could read its text. */
  lemma UpIsSpelled(g: Graphic, fleet: map<int, Node>, routes: seq<Route>, views: Views, version: Str, files: Files,
                    m: nat, i: nat)
    requires Deployable(fleet, routes) && Prints(g) && PlainSlugs(routes) && m < |routes| && i < |routes[m].hops|
    requires Up(g, fleet, routes[m], views, version) && Loaded(views, files)
    ensures Spellable(ConfigOf(fleet, routes[m], i))
  {
    var node, slug := routes[m].hops[i].node, routes[m].slug;
    assert Runs(views, node, slug);
    ReadInvertsRender(g, ConfigOf(fleet, routes[m], i));
  }

  lemma DeployedIsUp(g: Graphic, fleet: map<int, Node>, routes: seq<Route>, version: Str)
    requires Deployable(fleet, routes) && NoneRevisits(routes)
    ensures AllUp(g, fleet, routes, RelaysOf(g, Deployed(fleet, routes), version), version)
  {
    var files := Deployed(fleet, routes);
    var views := RelaysOf(g, files, version);
    forall m | 0 <= m < |routes|
      ensures Up(g, fleet, routes[m], views, version)
    {
      DeployedRouteIsUp(g, fleet, routes, version, m);
    }
    forall node, slug | Runs(views, node, slug)
      ensures exists m :: 0 <= m < |routes| && routes[m].slug == slug && Visits(routes[m], node)
    {
      RelayRuns(g, files, version, node, slug);
      var m := FileIsFirstVisit(fleet, routes, node, slug);
      assert routes[m].hops[FirstVisit(routes[m].hops, node, 0)].node == node;
      assert Visits(routes[m], node);
    }
  }

  lemma DeployedRouteIsUp(g: Graphic, fleet: map<int, Node>, routes: seq<Route>, version: Str, m: nat)
    requires Deployable(fleet, routes) && NoneRevisits(routes) && m < |routes|
    ensures Up(g, fleet, routes[m], RelaysOf(g, Deployed(fleet, routes), version), version)
  {
    var r := routes[m];
    forall i | 0 <= i < |r.hops|
      ensures Runs(RelaysOf(g, Deployed(fleet, routes), version), r.hops[i].node, r.slug)
      ensures A.RunsPlan(RelaysOf(g, Deployed(fleet, routes), version)[r.slug][r.hops[i].node],
                         Render(g, ConfigOf(fleet, r, i)), version)
    {
      assert FirstVisit(r.hops, r.hops[i].node, 0) == i;
      FirstVisitHasFile(fleet, routes, m, r.hops[i].node);
      RelayRuns(g, Deployed(fleet, routes), version, r.hops[i].node, r.slug);
    }
  }

  lemma DeployedIsLoaded(g: Graphic, fleet: map<int, Node>, routes: seq<Route>, version: Str)
    requires Deployable(fleet, routes) && Prints(g) && PlainSlugs(routes) && AllSpellable(fleet, routes)
    ensures Loaded(RelaysOf(g, Deployed(fleet, routes), version), Deployed(fleet, routes))
  {
    var files := Deployed(fleet, routes);
    forall node, slug
      ensures File(files, node, slug).Some? <==> Runs(RelaysOf(g, files, version), node, slug)
      ensures File(files, node, slug).Some? ==>
                && File(files, node, slug).value.slug == slug
                && Read(RelaysOf(g, files, version)[slug][node].running.value.config)
                   == Some(MeaningOf(File(files, node, slug).value))
    {
      RelayRuns(g, files, version, node, slug);
      if File(files, node, slug).Some? {
        var m := FileIsFirstVisit(fleet, routes, node, slug);
        ReadInvertsRender(g, File(files, node, slug).value);
      }
    }
  }

  /** On a fleet brought up that way every connection is delivered along its route, again
      exactly if no hop behind the entry is dialled as an IPv6 literal. */
  lemma UpFleetDelivers(g: Graphic, fleet: map<int, Node>, routes: seq<Route>, version: Str, m: nat)
    requires Deployable(fleet, routes) && Prints(g) && PlainSlugs(routes) && NoneRevisits(routes) && m < |routes|
    requires AllSpellable(fleet, routes)
    ensures var r, files := routes[m], Deployed(fleet, routes);
            && AllUp(g, fleet, routes, RelaysOf(g, files, version), version)
            && Loaded(RelaysOf(g, files, version), files)
            && (Travels(fleet, files, NodesFrom(r, 0), FamilyOf(fleet, r, 0), r.hops[0].port, r.target)
                <==> DialledOverIPv4(fleet, r))
  {
    var files := Deployed(fleet, routes);
    FleetCanBeUp(g, fleet, routes, version);
    RoutesThatAreUpDeliver(g, fleet, routes, RelaysOf(g, files, version), version, files, m,
                           NodesFrom(routes[m], 0), routes[m].target);
  }

  function TwoNodes(front: Str, back: Str): map<int, Node> {
    map[1 := Node(front, []), 2 := Node(back, [])]
  }

  function TwoHops(target: Str, port: nat, next: nat): Route {
    Route("a", target, false, false, [PortAllocation.Hop(0, 1, port), PortAllocation.Hop(1, 2, next)])
  }

  lemma TwoHopsAreSound(front: Str, back: Str, target: Str, port: nat, next: nat)
    ensures Sound(TwoNodes(front, back), [TwoHops(target, port, next)])
    ensures PlainSlugs([TwoHops(target, port, next)]) && DistinctSlugs([TwoHops(target, port, next)])
  {
  }

  lemma TwoHopsOwnPorts(target: Str, port: nat, next: nat)
    ensures OneOwner([TwoHops(target, port, next)]) && NoneRevisits([TwoHops(target, port, next)])
  {
  }

  lemma TwoHopsAreDeployable(front: Str, back: Str, target: Str, port: nat, next: nat)
    requires front != back
    ensures var fleet, routes := TwoNodes(front, back), [TwoHops(target, port, next)];
            Deployable(fleet, routes) && PlainSlugs(routes) && NoneRevisits(routes)
  {
    TwoHopsAreSound(front, back, target, port, next);
    TwoHopsOwnPorts(target, port, next);
    assert DistinctHosts(TwoNodes(front, back));
  }

  lemma DecimalSpelled(n: nat)
    ensures AllSpelled(Decimal(n))
  {
    assert IsNumber(Decimal(n));
  }

  lemma JoinSpelled(host: Str, port: nat)
    requires AllSpelled(host)
    ensures AllSpelled(JoinHostPort(host, port))
  {
    DecimalSpelled(port);
    SpelledTogether([':'], Decimal(port));
    SpelledTogether(host, [']']);
    SpelledTogether(['['], host + [']']);
    assert ['['] + host + [']'] == ['['] + (host + [']']);
    var address := if ':' in host then ['['] + host + [']'] else host;
    SpelledTogether(address, [':'] + Decimal(port));
    assert JoinHostPort(host, port) == address + ([':'] + Decimal(port));
  }

  lemma TwoHopsSpellable(front: Str, back: Str, target: Str, port: nat, next: nat)
    requires front != back && AllSpelled(back) && AllSpelled(target)
    ensures Sound(TwoNodes(front, back), [TwoHops(target, port, next)])
            && AllSpellable(TwoNodes(front, back), [TwoHops(target, port, next)])
  {
    var fleet, r := TwoNodes(front, back), TwoHops(target, port, next);
    JoinSpelled(back, next);
    JoinSpelled("0.0.0.0", port);
    JoinSpelled("0.0.0.0", next);
    OnlyTheEntryWidens(fleet, r, 0);
    OnlyTheEntryWidens(fleet, r, 1);
    assert Spellable(ConfigOf(fleet, r, 0)) && Spellable(ConfigOf(fleet, r, 1));
  }

  lemma TwoHopsPath(front: Str, back: Str, target: Str, port: nat, next: nat)
    ensures var fleet, r := TwoNodes(front, back), TwoHops(target, port, next);
            && Known(fleet, r) && NodesFrom(r, 0) == [1, 2] && FamilyOf(fleet, r, 0).IPv4?
            && (DialledOverIPv4(fleet, r) <==> ':' !in back)
  {
    var fleet, r := TwoNodes(front, back), TwoHops(target, port, next);
    assert NodesFrom(r, 0) == [1] + NodesFrom(r, 1);
    assert DialledOverIPv4(fleet, r) <==> DialledAs(fleet[r.hops[1].node].host).IPv4?;
  }

  /** The smallest fleet that relays: it can be up, and then its connections go from the first
      node over the second to the target exactly if the second is dialled over IPv4. */
  lemma TwoHopsDeliver(g: Graphic, version: Str, front: Str, back: Str, target: Str, port: nat, next: nat)
    requires Prints(g) && front != back && AllSpelled(back) && AllSpelled(target)
    ensures var fleet, routes := TwoNodes(front, back), [TwoHops(target, port, next)];
            && Deployable(fleet, routes) && PlainSlugs(routes)
            && var files := Deployed(fleet, routes);
               && AllUp(g, fleet, routes, RelaysOf(g, files, version), version)
               && Loaded(RelaysOf(g, files, version), files)
               && (Travels(fleet, files, [1, 2], IPv4, port, target) <==> ':' !in back)
  {
    var fleet, r := TwoNodes(front, back), TwoHops(target, port, next);
    TwoHopsAreDeployable(front, back, target, port, next);
    TwoHopsPath(front, back, target, port, next);
    TwoHopsSpellable(front, back, target, port, next);
    UpFleetDelivers(g, fleet, [r], version, 0);
  }
}
