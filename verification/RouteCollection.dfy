/** One round of reading the machines' byte counters: which counter belongs to which hop of
    which route, and what the round records.

    A machine reports one counter per route slug. A round looks the pair of slug and machine
    up in an index made from the routes, and records what it finds.
  */
module RouteCollection {
  import opened Prelude
  import opened Text
  import opened Calendar
  import opened RouteAccounting

  datatype Leg = Leg(order: int, node: int)

  datatype Path = Path(id: int, slug: Str, legs: seq<Leg>)

  datatype Counter = Counter(slug: Str, rawIn: nat, rawOut: nat)

  /** What a round gets from a machine. */
  datatype Reply = Offline | Unread | Counters(counters: seq<Counter>)

  datatype Machine = Machine(node: int, reply: Reply)

  datatype Ref = Ref(route: int, hop: int, isEntry: bool)

  type Index = map<Str, map<int, Ref>>

  // ---------------------------------------------------------------- the index

  /** The lowest order of a route's hops; zero if it has none. */
  method EntryHopOrder(legs: seq<Leg>) returns (entry: int)
    ensures entry == EntryOrder(legs)
  {
    entry := 0;
    for i := 0 to |legs|
      invariant entry == EntryOrder(legs[..i])
    {
      assert legs[..i + 1][..i] == legs[..i];
      if i == 0 || legs[i].order < entry {
        entry := legs[i].order;
      }
    }
    assert legs[..|legs|] == legs;
  }

  function EntryOrder(legs: seq<Leg>): int {
    if legs == [] then 0
    else
      var rest := EntryOrder(legs[..|legs| - 1]);
      if |legs| == 1 || legs[|legs| - 1].order < rest then legs[|legs| - 1].order else rest
  }

  /** It is the order of a hop, and no hop has a lower one. */
  lemma {:induction false} EntryIsLeast(legs: seq<Leg>)
    requires legs != []
    ensures exists i :: 0 <= i < |legs| && legs[i].order == EntryOrder(legs)
    ensures forall i | 0 <= i < |legs| :: EntryOrder(legs) <= legs[i].order
  {
    var n := |legs| - 1;
    if n == 0 {
      assert legs[0].order == EntryOrder(legs);
    } else {
      EntryIsLeast(legs[..n]);
      var i :| 0 <= i < n && legs[..n][i].order == EntryOrder(legs[..n]);
      assert legs[i].order == EntryOrder(legs[..n]);
      assert legs[n].order < EntryOrder(legs[..n]) ==> legs[n].order == EntryOrder(legs);
      assert forall k | 0 <= k < n :: legs[..n][k] == legs[k];
    }
  }

  function RefTo(p: Path, leg: Leg): Ref {
    Ref(p.id, leg.order, leg.order == EntryOrder(p.legs))
  }

  /** The references of a route's first `n` hops, by machine; a later one replaces an earlier. */
  function ByNode(p: Path, n: nat): map<int, Ref>
    requires n <= |p.legs|
  {
    if n == 0 then map[] else ByNode(p, n - 1)[p.legs[n - 1].node := RefTo(p, p.legs[n - 1])]
  }

  function IndexOf(paths: seq<Path>): Index {
    if paths == [] then map[]
    else
      var p := paths[|paths| - 1];
      IndexOf(paths[..|paths| - 1])[p.slug := ByNode(p, |p.legs|)]
  }

  method BuildIndex(paths: seq<Path>) returns (index: Index)
    ensures index == IndexOf(paths)
  {
    index := map[];
    for i := 0 to |paths|
      invariant index == IndexOf(paths[..i])
    {
      var p := paths[i];
      var entry := EntryHopOrder(p.legs);
      var byNode: map<int, Ref> := map[];
      for j := 0 to |p.legs|
        invariant byNode == ByNode(p, j)
      {
        byNode := byNode[p.legs[j].node := Ref(p.id, p.legs[j].order, p.legs[j].order == entry)];
      }
      index := index[p.slug := byNode];
      assert paths[..i + 1][..i] == paths[..i];
    }
    assert paths[..|paths|] == paths;
  }

  function Lookup(index: Index, slug: Str, node: int): Option<Ref> {
    if slug in index && node in index[slug] then Some(index[slug][node]) else None
  }

  predicate DistinctRoutes(paths: seq<Path>) {
    forall i, j | 0 <= i < j < |paths| :: paths[i].slug != paths[j].slug && paths[i].id != paths[j].id
  }

  predicate DistinctOrders(p: Path) {
    forall i, j | 0 <= i < j < |p.legs| :: p.legs[i].order != p.legs[j].order
  }

  lemma {:induction false} LookupInPath(p: Path, n: nat, i: nat)
    requires i < n <= |p.legs| && DistinctOrders(p)
    ensures p.legs[i].node in ByNode(p, n)
    ensures ByNode(p, n)[p.legs[i].node] == RefTo(p, p.legs[i]) <==>
              forall j | i < j < n :: p.legs[j].node != p.legs[i].node
  {
    if i < n - 1 {
      LookupInPath(p, n - 1, i);
    }
  }

  lemma {:induction false} IndexHasPath(paths: seq<Path>, m: nat)
    requires m < |paths| && DistinctRoutes(paths)
    ensures paths[m].slug in IndexOf(paths) && IndexOf(paths)[paths[m].slug] == ByNode(paths[m], |paths[m].legs|)
  {
    if m < |paths| - 1 {
      IndexHasPath(paths[..|paths| - 1], m);
    }
  }

  /** A counter is attributed to the hop it was counted at if and only if the route does not
      come back to that machine further on. */
  lemma CounterFindsItsHop(paths: seq<Path>, m: nat, i: nat)
    requires m < |paths| && DistinctRoutes(paths) && DistinctOrders(paths[m]) && i < |paths[m].legs|
    ensures var p := paths[m];
            Lookup(IndexOf(paths), p.slug, p.legs[i].node) == Some(RefTo(p, p.legs[i])) <==>
              forall j | i < j < |p.legs| :: p.legs[j].node != p.legs[i].node
  {
    IndexHasPath(paths, m);
    LookupInPath(paths[m], |paths[m].legs|, i);
  }

  lemma {:induction false} RefIsOfPath(p: Path, n: nat, node: int)
    requires n <= |p.legs| && node in ByNode(p, n)
    ensures exists i :: 0 <= i < n && p.legs[i].node == node && ByNode(p, n)[node] == RefTo(p, p.legs[i])
  {
    if p.legs[n - 1].node == node {
      assert ByNode(p, n)[node] == RefTo(p, p.legs[n - 1]);
    } else {
      RefIsOfPath(p, n - 1, node);
    }
  }

  /** Whatever is found is a hop of a route with that slug, on that machine. */
  predicate FoundIn(p: Path, slug: Str, node: int, r: Ref) {
    p.slug == slug && exists i :: 0 <= i < |p.legs| && p.legs[i].node == node && r == RefTo(p, p.legs[i])
  }

  lemma {:induction false} FoundIsHop(paths: seq<Path>, slug: Str, node: int)
    requires Lookup(IndexOf(paths), slug, node).Some?
    ensures exists m :: 0 <= m < |paths| && FoundIn(paths[m], slug, node, Lookup(IndexOf(paths), slug, node).value)
  {
    var n := |paths| - 1;
    var p := paths[n];
    if p.slug == slug {
      RefIsOfPath(p, |p.legs|, node);
      assert FoundIn(paths[n], slug, node, Lookup(IndexOf(paths), slug, node).value);
    } else {
      FoundIsHop(paths[..n], slug, node);
      var m :| 0 <= m < n && FoundIn(paths[..n][m], slug, node, Lookup(IndexOf(paths[..n]), slug, node).value);
      assert paths[..n][m] == paths[m];
    }
  }

  // ---------------------------------------------------------------- a round

  /** The sample a counter gives, if its hop is known and the write goes through. */
  function SampleOf(index: Index, node: int, c: Counter, day: Date, fails: set<(int, Str)>): seq<Sample> {
    match Lookup(index, c.slug, node)
    case None => []
    case Some(r) =>
      if (node, c.slug) in fails then [] else [Sample(r.route, r.hop, c.rawIn, c.rawOut, day, r.isEntry)]
  }

  function SamplesOf(index: Index, node: int, counters: seq<Counter>, day: Date, fails: set<(int, Str)>): seq<Sample> {
    if counters == [] then []
    else
      var n := |counters| - 1;
      SamplesOf(index, node, counters[..n], day, fails) + SampleOf(index, node, counters[n], day, fails)
  }

  function Collected(index: Index, machines: seq<Machine>, day: Date, fails: set<(int, Str)>): seq<Sample> {
    if machines == [] then []
    else
      var n := |machines| - 1;
      Collected(index, machines[..n], day, fails)
      + if machines[n].reply.Counters? then SamplesOf(index, machines[n].node, machines[n].reply.counters, day, fails)
        else []
  }

  predicate AllValid(samples: seq<Sample>) {
    forall i | 0 <= i < |samples| :: Valid(samples[i].day)
  }

  function RecordAll(t: Tables, samples: seq<Sample>): Tables
    requires AllValid(samples)
  {
    if samples == [] then t
    else RecordedIn(RecordAll(t, samples[..|samples| - 1]), samples[|samples| - 1])
  }

  lemma RecordLast(t: Tables, a: seq<Sample>, s: Sample)
    requires AllValid(a) && Valid(s.day)
    ensures AllValid(a + [s]) && RecordAll(t, a + [s]) == RecordedIn(RecordAll(t, a), s)
  {
    assert (a + [s])[..|a|] == a;
  }

  lemma {:induction false} RecordMore(t: Tables, a: seq<Sample>, b: seq<Sample>)
    requires AllValid(a) && AllValid(b)
    ensures AllValid(a + b) && RecordAll(t, a + b) == RecordAll(RecordAll(t, a), b)
  {
    if b == [] {
      assert a + b == a;
    } else {
      var n := |b| - 1;
      RecordMore(t, a, b[..n]);
      RecordLast(t, a + b[..n], b[n]);
      assert a + b == a + b[..n] + [b[n]];
    }
  }

  lemma {:induction false} SamplesDated(index: Index, node: int, counters: seq<Counter>, day: Date,
                                        fails: set<(int, Str)>)
    requires Valid(day)
    ensures AllValid(SamplesOf(index, node, counters, day, fails))
  {
    if counters != [] {
      SamplesDated(index, node, counters[..|counters| - 1], day, fails);
    }
  }

  lemma {:induction false} CollectedDated(index: Index, machines: seq<Machine>, day: Date, fails: set<(int, Str)>)
    requires Valid(day)
    ensures AllValid(Collected(index, machines, day, fails))
  {
    if machines != [] {
      var n := |machines| - 1;
      CollectedDated(index, machines[..n], day, fails);
      if machines[n].reply.Counters? {
        SamplesDated(index, machines[n].node, machines[n].reply.counters, day, fails);
      }
    }
  }

  /** Reads the machines in order until cancelled, and records every counter whose hop is
      known. A machine that is offline or does not answer is passed over. */
  method CollectTraffic(store: TrafficStore, paths: seq<Path>, machines: seq<Machine>, day: Date,
                        fails: set<(int, Str)>, cancelledAt: nat)
    requires Valid(day)
    modifies store
    ensures var done := machines[..if cancelledAt < |machines| then cancelledAt else |machines|];
            && AllValid(Collected(IndexOf(paths), done, day, fails))
            && (forall s | s in Collected(IndexOf(paths), done, day, fails) :: Attributed(paths, s))
            && store.tables == RecordAll(old(store.tables), Collected(IndexOf(paths), done, day, fails))
  {
    var index := BuildIndex(paths);
    var i := 0;
    CollectedDated(index, machines[..0], day, fails);
    while i < |machines| && i < cancelledAt
      invariant i <= |machines| && i <= cancelledAt
      invariant AllValid(Collected(index, machines[..i], day, fails))
      invariant store.tables == RecordAll(old(store.tables), Collected(index, machines[..i], day, fails))
    {
      assert machines[..i + 1][..i] == machines[..i] && machines[..i + 1][i] == machines[i];
      CollectedDated(index, machines[..i + 1], day, fails);
      if machines[i].reply.Counters? {
        SamplesDated(index, machines[i].node, machines[i].reply.counters, day, fails);
        ghost var samples := SamplesOf(index, machines[i].node, machines[i].reply.counters, day, fails);
        RecordMore(old(store.tables), Collected(index, machines[..i], day, fails), samples);
        RecordCounters(store, index, machines[i].node, machines[i].reply.counters, day, fails);
      } else {
        assert Collected(index, machines[..i + 1], day, fails) == Collected(index, machines[..i], day, fails);
      }
      i := i + 1;
    }
    assert machines[..|machines|] == machines;
    CollectedAttributed(paths, machines[..i], day, fails);
  }

  /** All counters of one machine. */
  method RecordCounters(store: TrafficStore, index: Index, node: int, counters: seq<Counter>, day: Date,
                        fails: set<(int, Str)>)
    requires Valid(day)
    modifies store
    ensures AllValid(SamplesOf(index, node, counters, day, fails))
    ensures store.tables == RecordAll(old(store.tables), SamplesOf(index, node, counters, day, fails))
  {
    for i := 0 to |counters|
      invariant AllValid(SamplesOf(index, node, counters[..i], day, fails))
      invariant store.tables == RecordAll(old(store.tables), SamplesOf(index, node, counters[..i], day, fails))
    {
      var c := counters[i];
      assert counters[..i + 1][..i] == counters[..i] && counters[..i + 1][i] == c;
      SamplesDated(index, node, counters[..i + 1], day, fails);
      RecordMore(old(store.tables), SamplesOf(index, node, counters[..i], day, fails),
                 SampleOf(index, node, c, day, fails));
      if c.slug in index && node in index[c.slug] {
        var r := index[c.slug][node];
        if (node, c.slug) !in fails {
          var s := Sample(r.route, r.hop, c.rawIn, c.rawOut, day, r.isEntry);
          assert [s][..0] == [];
          store.RecordTraffic(s);
        }
      }
    }
    assert counters[..|counters|] == counters;
  }

  // ---------------------------------------------------------------- what a round records

  /** The route's last hop on the machine is its `i`-th, and is what the reference says. */
  predicate RefersTo(p: Path, i: int, node: int, r: Ref) {
    && 0 <= i < |p.legs| && p.legs[i].node == node && (forall j | i < j < |p.legs| :: p.legs[j].node != node)
    && r.route == p.id && r.hop == p.legs[i].order
    && (r.isEntry <==> forall j | 0 <= j < |p.legs| :: p.legs[i].order <= p.legs[j].order)
  }

  lemma {:induction false} LastOnNode(p: Path, n: nat, node: int) returns (i: int)
    requires n <= |p.legs|
    ensures node in ByNode(p, n) <==> i >= 0
    ensures i >= 0 ==> i < n && p.legs[i].node == node && ByNode(p, n)[node] == RefTo(p, p.legs[i])
    ensures forall j | 0 <= j < n && i < j :: p.legs[j].node != node
  {
    if n == 0 {
      i := -1;
    } else if p.legs[n - 1].node == node {
      i := n - 1;
    } else {
      i := LastOnNode(p, n - 1, node);
    }
  }

  /** The index knows of a slug and a machine exactly the last hop there of the route with
      that slug. */
  lemma LookupIsLastHop(paths: seq<Path>, m: nat, node: int, r: Ref)
    requires m < |paths| && DistinctRoutes(paths)
    ensures Lookup(IndexOf(paths), paths[m].slug, node) == Some(r) <==> exists i :: RefersTo(paths[m], i, node, r)
  {
    var p := paths[m];
    IndexHasPath(paths, m);
    var i := LastOnNode(p, |p.legs|, node);
    if i >= 0 {
      EntryIsLeast(p.legs);
      assert RefersTo(p, i, node, RefTo(p, p.legs[i]));
      forall j | RefersTo(p, j, node, r) ensures j == i {
      }
    }
  }

  lemma {:induction false} UnknownSlug(paths: seq<Path>, slug: Str, node: int)
    requires forall m | 0 <= m < |paths| :: paths[m].slug != slug
    ensures Lookup(IndexOf(paths), slug, node) == None
  {
    if paths != [] {
      UnknownSlug(paths[..|paths| - 1], slug, node);
    }
  }

  /** The sample is that of a counter: its readings under the route with its slug, at that
      route's last hop on the machine, and an entry reading exactly if no hop is lower. */
  ghost predicate Reads(paths: seq<Path>, node: int, c: Counter, day: Date, s: Sample) {
    && s.rawIn == c.rawIn && s.rawOut == c.rawOut && s.day == day
    && exists m, i :: 0 <= m < |paths| && paths[m].slug == c.slug
                      && RefersTo(paths[m], i, node, Ref(s.route, s.hop, s.isEntry))
  }

  lemma SampleReads(paths: seq<Path>, node: int, c: Counter, day: Date, fails: set<(int, Str)>, s: Sample)
    requires DistinctRoutes(paths)
    ensures s in SampleOf(IndexOf(paths), node, c, day, fails) <==>
              (node, c.slug) !in fails && Reads(paths, node, c, day, s)
  {
    var r := Ref(s.route, s.hop, s.isEntry);
    if m: nat :| m < |paths| && paths[m].slug == c.slug {
      LookupIsLastHop(paths, m, node, r);
      assert forall k | 0 <= k < |paths| && paths[k].slug == c.slug :: k == m;
    } else {
      UnknownSlug(paths, c.slug, node);
    }
  }

  lemma {:induction false} SamplesRead(paths: seq<Path>, node: int, counters: seq<Counter>, day: Date,
                                       fails: set<(int, Str)>, s: Sample)
    requires DistinctRoutes(paths)
    ensures s in SamplesOf(IndexOf(paths), node, counters, day, fails) <==>
              exists c :: c in counters && (node, c.slug) !in fails && Reads(paths, node, c, day, s)
  {
    if counters != [] {
      var n := |counters| - 1;
      SamplesRead(paths, node, counters[..n], day, fails, s);
      SampleReads(paths, node, counters[n], day, fails, s);
      assert counters == counters[..n] + [counters[n]];
    }
  }

  ghost predicate ReadFrom(paths: seq<Path>, m: Machine, day: Date, fails: set<(int, Str)>, s: Sample) {
    m.reply.Counters?
    && exists c :: c in m.reply.counters && (m.node, c.slug) !in fails && Reads(paths, m.node, c, day, s)
  }

  /** A round collects exactly the readings of the counters the machines report under a known
      slug and machine, but for those whose write fails. */
  lemma {:induction false} CollectedIsRead(paths: seq<Path>, machines: seq<Machine>, day: Date,
                                           fails: set<(int, Str)>, s: Sample)
    requires DistinctRoutes(paths)
    ensures s in Collected(IndexOf(paths), machines, day, fails) <==>
              exists m :: m in machines && ReadFrom(paths, m, day, fails, s)
  {
    if machines != [] {
      var n := |machines| - 1;
      CollectedIsRead(paths, machines[..n], day, fails, s);
      if machines[n].reply.Counters? {
        SamplesRead(paths, machines[n].node, machines[n].reply.counters, day, fails, s);
        assert s in SamplesOf(IndexOf(paths), machines[n].node, machines[n].reply.counters, day, fails)
               <==> ReadFrom(paths, machines[n], day, fails, s);
      }
      assert s in Collected(IndexOf(paths), machines, day, fails) <==>
               s in Collected(IndexOf(paths), machines[..n], day, fails) || ReadFrom(paths, machines[n], day, fails, s);
      assert machines == machines[..n] + [machines[n]];
      assert forall m | m in machines :: m in machines[..n] || m == machines[n];
      assert machines[n] in machines;
    }
  }

  // ---------------------------------------------------------------- entry hops

  /** The sample is one a round over these routes may record. */
  ghost predicate Attributed(paths: seq<Path>, s: Sample) {
    exists slug, node :: Lookup(IndexOf(paths), slug, node) == Some(Ref(s.route, s.hop, s.isEntry))
  }

  lemma {:induction false} SamplesAttributed(paths: seq<Path>, node: int, counters: seq<Counter>, day: Date,
                                             fails: set<(int, Str)>)
    ensures forall s | s in SamplesOf(IndexOf(paths), node, counters, day, fails) :: Attributed(paths, s)
  {
    if counters != [] {
      var n := |counters| - 1;
      SamplesAttributed(paths, node, counters[..n], day, fails);
      forall s | s in SampleOf(IndexOf(paths), node, counters[n], day, fails)
        ensures Attributed(paths, s)
      {
        assert Lookup(IndexOf(paths), counters[n].slug, node) == Some(Ref(s.route, s.hop, s.isEntry));
      }
    }
  }

  lemma {:induction false} CollectedAttributed(paths: seq<Path>, machines: seq<Machine>, day: Date,
                                               fails: set<(int, Str)>)
    ensures forall s | s in Collected(IndexOf(paths), machines, day, fails) :: Attributed(paths, s)
  {
    if machines != [] {
      var n := |machines| - 1;
      CollectedAttributed(paths, machines[..n], day, fails);
      if machines[n].reply.Counters? {
        SamplesAttributed(paths, machines[n].node, machines[n].reply.counters, day, fails);
      }
    }
  }

  /** All readings in the changes come from rounds over these routes. */
  ghost predicate FromRounds(changes: seq<Change>, paths: seq<Path>) {
    forall i | 0 <= i < |changes| :: changes[i].Record? ==> Attributed(paths, changes[i].sample)
  }

  /** Rounds mark a route's readings as entry readings exactly at its lowest hop. */
  lemma RoundsFixEntry(changes: seq<Change>, paths: seq<Path>, m: nat)
    requires FromRounds(changes, paths) && DistinctRoutes(paths) && m < |paths|
    ensures FixedEntry(changes, paths[m].id, EntryOrder(paths[m].legs))
  {
    forall i | 0 <= i < |changes| && changes[i].Record? && changes[i].sample.route == paths[m].id
      ensures changes[i].sample.isEntry <==> changes[i].sample.hop == EntryOrder(paths[m].legs)
    {
      var s := changes[i].sample;
      var slug, node :| Lookup(IndexOf(paths), slug, node) == Some(Ref(s.route, s.hop, s.isEntry));
      FoundIsHop(paths, slug, node);
      var k :| 0 <= k < |paths| && FoundIn(paths[k], slug, node, Ref(s.route, s.hop, s.isEntry));
      assert paths[k].id == paths[m].id && k == m;
    }
  }

  /** What each sample adds, recorded after those before it, fits the signed columns. */
  predicate Fits(t: Tables, samples: seq<Sample>)
    requires AllValid(samples)
  {
    samples == []
    || (var init, s := samples[..|samples| - 1], samples[|samples| - 1];
        Fits(t, init) && DeltaOf(RecordAll(t, init), s, false) >= 0 && DeltaOf(RecordAll(t, init), s, true) >= 0)
  }

  lemma HistoryGrows(tables: seq<Tables>, changes: seq<Change>, s: Sample, t: Tables)
    requires IsHistory(tables, changes) && Valid(s.day) && t == RecordedIn(tables[|changes|], s)
    requires DeltaOf(tables[|changes|], s, false) >= 0 && DeltaOf(tables[|changes|], s, true) >= 0
    ensures IsHistory(tables + [t], changes + [Record(s)])
  {
    var more, later := changes + [Record(s)], tables + [t];
    forall i | 0 <= i < |more|
      ensures Dated(more[i]) && later[i + 1] == Apply(later[i], more[i])
      ensures more[i].Record? ==>
                DeltaOf(later[i], more[i].sample, false) >= 0 && DeltaOf(later[i], more[i].sample, true) >= 0
    {
      if i < |changes| {
        assert more[i] == changes[i] && later[i] == tables[i] && later[i + 1] == tables[i + 1];
      }
    }
  }

  lemma RoundsGrow(changes: seq<Change>, paths: seq<Path>, s: Sample)
    requires FromRounds(changes, paths) && Attributed(paths, s)
    ensures FromRounds(changes + [Record(s)], paths)
  {
  }

  /** Recording the samples of a round, as CollectTraffic does, continues a history of rounds
      over the same routes. */
  lemma {:induction false} RoundContinues(tables: seq<Tables>, changes: seq<Change>, paths: seq<Path>,
                                          samples: seq<Sample>)
      returns (tables': seq<Tables>, changes': seq<Change>)
    requires IsHistory(tables, changes) && FromRounds(changes, paths)
    requires AllValid(samples) && Fits(tables[|changes|], samples)
    requires forall s | s in samples :: Attributed(paths, s)
    ensures IsHistory(tables', changes') && FromRounds(changes', paths)
    ensures |changes'| == |changes| + |samples| && tables <= tables' && changes <= changes'
    ensures tables'[|changes'|] == RecordAll(tables[|changes|], samples)
    decreases |samples|
  {
    tables', changes' := tables, changes;
    if samples != [] {
      var n := |samples| - 1;
      var s := samples[n];
      tables', changes' := RoundContinues(tables, changes, paths, samples[..n]);
      assert s in samples;
      var t := RecordedIn(tables'[|changes'|], s);
      HistoryGrows(tables', changes', s, t);
      RoundsGrow(changes', paths, s);
      tables', changes' := tables' + [t], changes' + [Record(s)];
    }
  }

  /** So after any rounds and forgotten baselines a route's buckets together are its lowest
      hop's running total. */
  lemma RoundsSumToEntryTotal(tables: seq<Tables>, changes: seq<Change>, n: nat, paths: seq<Path>, m: nat)
    requires IsHistory(tables, changes) && n <= |changes|
    requires FromRounds(changes, paths) && DistinctRoutes(paths) && m < |paths|
    ensures HopBytes(tables[n], paths[m].id, EntryOrder(paths[m].legs))
            == SumSince(tables[n].daily, paths[m].id, DayString(Date(0, 1, 1)))
  {
    RoundsFixEntry(changes, paths, m);
    DailyBucketsSumToTotal(tables, changes, n, paths[m].id, EntryOrder(paths[m].legs));
  }
}
