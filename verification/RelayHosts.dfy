/** A machine that carries the relays of several routes: they share one build, and under
    systemd one service definition, while each pass deals with a single route.

    What a pass does to its own route is `Applier.HopLeft`; here is what it does to the others.
  */
module RelayHosts {
  import opened Prelude
  import opened Text
  import A = Applier

  /** One route's relay: the configuration on disk and what its process was started with. */
  datatype Relay = Relay(config: Str, running: Option<A.Process>)

  /** `unit` and `told` are about the definition that all relays share under systemd,
      `scripts` are the routes with a current script of their own under OpenRC. */
  datatype Host = Host(
    init: A.Init, build: Option<Str>, unit: bool, told: bool, scripts: set<Str>, relays: map<Str, Relay>)

  function RelayOf(h: Host, slug: Str): Relay {
    if slug in h.relays then h.relays[slug] else Relay([], None)
  }

  /** The machine as far as one route concerns it. */
  function View(h: Host, slug: Str): A.Machine {
    var r := RelayOf(h, slug);
    if h.init.Systemd? then A.Machine(h.init, h.build, h.unit, h.told, r.config, r.running)
    else A.Machine(h.init, h.build, slug in h.scripts, false, r.config, r.running)
  }

  /** The host after one route's part of it became `m`. */
  function With(h: Host, slug: Str, m: A.Machine): Host {
    var relays := h.relays[slug := Relay(m.config, m.running)];
    if h.init.Systemd? then h.(build := m.build, unit := m.unit, told := m.told, relays := relays)
    else h.(build := m.build, scripts := if m.unit then h.scripts + {slug} else h.scripts, relays := relays)
  }

  /** How far a removal got. */
  datatype Removal = Untouched | Stopped | Deleted | Reloaded

  datatype Event =
    | Deploy(slug: Str, pass: A.Pass)
    | Install(version: Str, faults: A.Faults)     // the build alone, for no route
    | Remove(slug: Str, how: Removal)

  function Removed(h: Host, slug: Str, how: Removal): Host {
    match how
    case Untouched => h
    case Stopped => h.(relays := h.relays[slug := RelayOf(h, slug).(running := None)])
    case _ =>
      h.(relays := h.relays - {slug}, scripts := h.scripts - {slug},
         told := h.told || (how.Reloaded? && h.init.Systemd?))
  }

  function Next(h: Host, e: Event): Host {
    match e
    case Deploy(slug, p) => With(h, slug, A.HopLeft(p.target, p.version, View(h, slug), p.faults))
    case Install(version, f) => if f.connect then h else h.(build := A.Installed(View(h, []), version, f).build)
    case Remove(slug, how) => Removed(h, slug, how)
  }

  /** The view is all there is to one route: a pass sees it and leaves it as one hop does. */
  lemma DeployIsOneHop(h: Host, slug: Str, p: A.Pass)
    ensures View(Next(h, Deploy(slug, p)), slug) == A.HopLeft(p.target, p.version, View(h, slug), p.faults)
  {
    A.HopOnShared(p.target, p.version, View(h, slug), p.faults);
    ViewOfWith(h, slug, A.HopLeft(p.target, p.version, View(h, slug), p.faults));
  }

  lemma ViewOfWith(h: Host, slug: Str, m: A.Machine)
    requires m.init == h.init && (View(h, slug).unit ==> m.unit) && (!m.init.Systemd? ==> !m.told)
    ensures View(With(h, slug, m), slug) == m
  {
  }

  // ---------------------------------------------------------------- relays of other routes

  predicate OfRoute(e: Event, slug: Str) {
    !e.Install? && e.slug == slug
  }

  /** The event uploads the build it wants. */
  predicate Uploads(h: Host, e: Event) {
    match e
    case Remove(_, _) => false
    case Deploy(_, p) => h.build != Some(p.version) && A.UploadWorks(p.faults)
    case Install(version, f) => h.build != Some(version) && A.UploadWorks(f)
  }

  function Wanted(e: Event): Str
    requires !e.Remove?
  {
    if e.Deploy? then e.pass.version else e.version
  }

  lemma BuildAfter(h: Host, e: Event)
    ensures Next(h, e).build == if Uploads(h, e) then Some(Wanted(e)) else h.build
  {
    if e.Deploy? {
      A.HopOnShared(e.pass.target, e.pass.version, View(h, e.slug), e.pass.faults);
    }
  }

  /** An event that is not of a route leaves that route's file and process alone. */
  lemma OthersKept(h: Host, e: Event, slug: Str)
    requires !OfRoute(e, slug)
    ensures RelayOf(Next(h, e), slug) == RelayOf(h, slug) && Next(h, e).init == h.init
  {
  }

  /** Another route's pass, or an installation, replaces another build by the planned one under
      a running relay whose file is as planned and which does not run the plan. */
  predicate UpgradedUnder(h: Host, e: Event, slug: Str, config: Str, version: Str) {
    var m := View(h, slug);
    && !OfRoute(e, slug) && Uploads(h, e) && Wanted(e) == version && h.build.Some?
    && m.config == config && m.running.Some? && !A.RunsPlan(m, config, version)
  }

  /** That is exactly when an event of no concern to a route makes its relay stale. Nothing has
      to go wrong for it. */
  lemma OthersMakeStale(h: Host, e: Event, slug: Str, config: Str, version: Str)
    requires !OfRoute(e, slug)
    ensures !A.Stale(View(h, slug), config, version) && A.Stale(View(Next(h, e), slug), config, version)
            <==> UpgradedUnder(h, e, slug, config, version)
  {
    BuildAfter(h, e);
    OthersKept(h, e, slug);
  }

  /** The route's own pass fails at the restart, or a reply of it gets lost, as
      `A.NoRestartReaches` says. */
  predicate FailedUnder(h: Host, e: Event, slug: Str, version: Str) {
    e.Deploy? && e.slug == slug && A.NoRestartReaches(e.pass.target, version, View(h, slug), e.pass.faults)
  }

  /** Every event aims at the same build, and those of the route at the same configuration. */
  predicate SamePlan(e: Event, slug: Str, config: Str, version: Str) {
    && (e.Remove? ==> e.slug != slug)
    && (!e.Remove? ==> Wanted(e) == version)
    && (e.Deploy? && e.slug == slug ==> e.pass.target.config == config)
  }

  lemma StaleKept(h: Host, e: Event, slug: Str, config: Str, version: Str)
    requires SamePlan(e, slug, config, version) && A.Stale(View(h, slug), config, version)
    ensures A.Stale(View(Next(h, e), slug), config, version)
    ensures RelayOf(Next(h, e), slug).running == RelayOf(h, slug).running
  {
    if OfRoute(e, slug) {
      DeployIsOneHop(h, slug, e.pass);
      A.LeavesStale(e.pass.target, version, View(h, slug), e.pass.faults);
    } else {
      BuildAfter(h, e);
      OthersKept(h, e, slug);
    }
  }

  predicate IsRun(hosts: seq<Host>, events: seq<Event>) {
    |hosts| == |events| + 1 && forall i | 0 <= i < |events| :: hosts[i + 1] == Next(hosts[i], events[i])
  }

  predicate MadeStale(h: Host, e: Event, slug: Str, config: Str, version: Str) {
    UpgradedUnder(h, e, slug, config, version) || FailedUnder(h, e, slug, version)
  }

  lemma StaleAfter(h: Host, e: Event, slug: Str, config: Str, version: Str)
    requires SamePlan(e, slug, config, version)
    ensures A.Stale(View(Next(h, e), slug), config, version)
            <==> A.Stale(View(h, slug), config, version) || MadeStale(h, e, slug, config, version)
  {
    if A.Stale(View(h, slug), config, version) {
      StaleKept(h, e, slug, config, version);
    } else if OfRoute(e, slug) {
      DeployIsOneHop(h, slug, e.pass);
      A.LeavesStale(e.pass.target, version, View(h, slug), e.pass.faults);
    } else {
      OthersMakeStale(h, e, slug, config, version);
    }
  }

  ghost predicate SomeMadeStale(hosts: seq<Host>, events: seq<Event>, n: nat, slug: Str, config: Str, version: Str)
    requires |hosts| == |events| + 1 && n <= |events|
  {
    exists k :: 0 <= k < n && MadeStale(hosts[k], events[k], slug, config, version)
  }

  lemma SomeMadeStaleNext(hosts: seq<Host>, events: seq<Event>, n: nat, slug: Str, config: Str, version: Str)
    requires |hosts| == |events| + 1 && n < |events|
    ensures SomeMadeStale(hosts, events, n + 1, slug, config, version) <==>
              || SomeMadeStale(hosts, events, n, slug, config, version)
              || MadeStale(hosts[n], events[n], slug, config, version)
  {
  }

  /** Over any run of passes of any routes, installations and removals of other routes, with
      one build in view, a route's relay is stale exactly if it was at the start, or at some
      moment another route's pass or an installation upgraded the build under it, or its own
      pass failed under it. */
  lemma {:induction false} StaleExactly(hosts: seq<Host>, events: seq<Event>, n: nat, slug: Str, config: Str,
                                        version: Str)
    requires IsRun(hosts, events) && n <= |events|
    requires forall i | 0 <= i < n :: SamePlan(events[i], slug, config, version)
    ensures A.Stale(View(hosts[n], slug), config, version) <==>
              || A.Stale(View(hosts[0], slug), config, version)
              || SomeMadeStale(hosts, events, n, slug, config, version)
  {
    if n > 0 {
      StaleExactly(hosts, events, n - 1, slug, config, version);
      StaleAfter(hosts[n - 1], events[n - 1], slug, config, version);
      SomeMadeStaleNext(hosts, events, n - 1, slug, config, version);
    }
  }

  /** Two routes over an older build: a faultless pass of one upgrades it and restarts its own
      relay; a faultless pass of the other then reports its relay as unchanged, on the old
      build. */
  lemma UpgradeReachesOneRoute(a: Str, b: Str, old': Str, version: Str, ca: Str, cb: Str)
    requires a != b && old' != version
    ensures var h := Host(A.Systemd, Some(old'), true, true, {},
                          map[a := Relay(ca, Some(A.Process(ca, old'))), b := Relay(cb, Some(A.Process(cb, old')))]);
            var pa := A.Pass(A.Target(1, ca), version, A.NoFaults());
            var pb := A.Pass(A.Target(1, cb), version, A.NoFaults());
            var h1 := Next(h, Deploy(a, pa));
            && A.HopVerdict(pa.target, version, View(h, a), A.NoFaults()).RealmUpgraded?
            && A.RunsPlan(View(h1, a), ca, version)
            && A.HopVerdict(pb.target, version, View(h1, b), A.NoFaults()).Unchanged?
            && A.Stale(View(Next(h1, Deploy(b, pb)), b), cb, version)
  {
  }

  // ---------------------------------------------------------------- the shared definition

  predicate Untold(h: Host) {
    h.init.Systemd? && h.unit && !h.told
  }

  predicate Reloads(e: Event) {
    e.Remove? && e.how.Reloaded?
  }

  lemma UntoldAfter(h: Host, e: Event)
    requires h.init.Systemd? && h.unit
    ensures Next(h, e).init.Systemd? && Next(h, e).unit
    ensures Untold(Next(h, e)) <==> Untold(h) && !Reloads(e)
  {
    if e.Deploy? {
      A.LeavesUntold(e.pass.target, e.pass.version, View(h, e.slug), e.pass.faults);
    }
  }

  /** Once the current definition is on disk, only the removal of some route makes up for a
      reload that was not done: no pass of any route and no installation ever does. */
  lemma {:induction false} UntoldExactly(hosts: seq<Host>, events: seq<Event>, n: nat)
    requires IsRun(hosts, events) && n <= |events| && hosts[0].init.Systemd? && hosts[0].unit
    ensures hosts[n].init.Systemd? && hosts[n].unit
    ensures Untold(hosts[n]) <==> Untold(hosts[0]) && forall k | 0 <= k < n :: !Reloads(events[k])
  {
    if n > 0 {
      UntoldExactly(hosts, events, n - 1);
      UntoldAfter(hosts[n - 1], events[n - 1]);
    }
  }
}
