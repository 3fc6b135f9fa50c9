/** Giving every hop of a route a listen port from its node's pool.

    Hops are served in order, each with the lowest port of its node's pool that no other
    route uses and no earlier hop of this route holds; the operator may name the first
    hop's port. The scan is greedy, so the point to prove is that it never misses: it fails
    exactly when no choice of ports works.
  */
module PortAllocation {
  import opened Prelude

  datatype Hop = Hop(order: int, node: int, port: int)

  /** A node as the lookup answers for it during one allocation. `used` is absent when the
      ports in use could not be read. */
  datatype Machine = Machine(portStart: int, portEnd: int, probed: bool, passesUDP: Option<bool>,
                             used: Option<set<int>>)

  datatype Error =
    | NoHops
    | UnknownNode(hop: nat)
    | NotProbed(hop: nat)
    | UDPUnsupported(hop: nat)
    | UsageUnknown(hop: nat)
    | EntryOutOfPool
    | EntryTaken
    | PoolEmpty(hop: nat)

  datatype Result = Allocated(hops: seq<Hop>) | Rejected(error: Error)

  predicate Ready(m: Machine, udp: bool) {
    m.probed && (udp ==> m.passesUDP != Some(false)) && m.used.Some?
  }

  predicate Free(m: Machine, port: int) {
    m.portStart <= port <= m.portEnd && m.used.Some? && port !in m.used.value
  }

  /** `placed` is an answer for `hops`: the same hops with usable ports, no two hops on one
      node sharing a port, and the requested port at the entry. */
  ghost predicate Assignment(fleet: map<int, Machine>, udp: bool, entry: Option<int>,
                             hops: seq<Hop>, placed: seq<Hop>) {
    && |placed| == |hops| > 0
    && (forall i | 0 <= i < |hops| :: placed[i] == hops[i].(port := placed[i].port))
    && (forall i | 0 <= i < |hops| ::
          hops[i].node in fleet && Ready(fleet[hops[i].node], udp) && Free(fleet[hops[i].node], placed[i].port))
    && (forall i, j | 0 <= i < j < |hops| :: hops[i].node == hops[j].node ==> placed[i].port != placed[j].port)
    && (entry.Some? ==> placed[0].port == entry.value)
  }

  ghost predicate Assignable(fleet: map<int, Machine>, udp: bool, entry: Option<int>, hops: seq<Hop>) {
    exists placed :: Assignment(fleet, udp, entry, hops, placed)
  }

  /** An answer, hop by hop: its node was probed and passes what the route carries, and its port
      is in the node's pool, in nobody's use and no other hop's on that node. */
  ghost predicate Works(fleet: map<int, Machine>, udp: bool, entry: Option<int>, hops: seq<Hop>, placed: seq<Hop>) {
    && |hops| > 0 && |placed| == |hops| && (entry.Some? ==> placed[0].port == entry.value)
    && (forall i | 0 <= i < |hops| ::
          && placed[i].order == hops[i].order && placed[i].node == hops[i].node && hops[i].node in fleet
          && var m := fleet[hops[i].node];
             && m.probed && !(udp && m.passesUDP == Some(false))
             && m.portStart <= placed[i].port <= m.portEnd
             && m.used.Some? && placed[i].port !in m.used.value)
    && (forall i, j | 0 <= i < |hops| && 0 <= j < |hops| && hops[i].node == hops[j].node
                      && placed[i].port == placed[j].port :: i == j)
  }

  lemma WorksIsAssignment(fleet: map<int, Machine>, udp: bool, entry: Option<int>, hops: seq<Hop>, placed: seq<Hop>)
    ensures Works(fleet, udp, entry, hops, placed) <==> Assignment(fleet, udp, entry, hops, placed)
  {
  }

  lemma AnswersAreWorks(fleet: map<int, Machine>, udp: bool, entry: Option<int>, hops: seq<Hop>)
    ensures (exists placed :: Works(fleet, udp, entry, hops, placed)) <==> Assignable(fleet, udp, entry, hops)
  {
    forall placed ensures Works(fleet, udp, entry, hops, placed) <==> Assignment(fleet, udp, entry, hops, placed) {
      WorksIsAssignment(fleet, udp, entry, hops, placed);
    }
  }

  /** The ports the first `k` hops hold on a node. */
  ghost function Held(placed: seq<Hop>, node: int, k: nat): set<int>
    requires k <= |placed|
  {
    if k == 0 then {}
    else if placed[k - 1].node == node then Held(placed, node, k - 1) + {placed[k - 1].port}
    else Held(placed, node, k - 1)
  }

  ghost function Visits(hops: seq<Hop>, node: int, k: nat): nat
    requires k <= |hops|
  {
    if k == 0 then 0
    else Visits(hops, node, k - 1) + if hops[k - 1].node == node then 1 else 0
  }

  lemma {:induction false} HeldMember(placed: seq<Hop>, node: int, k: nat, port: int)
    requires k <= |placed|
    ensures port in Held(placed, node, k) <==>
              exists j :: 0 <= j < k && placed[j].node == node && placed[j].port == port
  {
    if k > 0 {
      HeldMember(placed, node, k - 1, port);
      assert placed[k - 1].node == node && placed[k - 1].port == port ==> port in Held(placed, node, k);
    }
  }

  lemma {:induction false} HeldPrefix(placed: seq<Hop>, next: Hop, node: int, k: nat)
    requires k <= |placed|
    ensures Held(placed + [next], node, k) == Held(placed, node, k)
  {
    if k > 0 {
      HeldPrefix(placed, next, node, k - 1);
    }
  }

  lemma HeldNext(placed: seq<Hop>, next: Hop, node: int)
    ensures Held(placed + [next], node, |placed| + 1)
            == Held(placed, node, |placed|) + if next.node == node then {next.port} else {}
  {
    HeldPrefix(placed, next, node, |placed|);
  }

  /** Hops that share no port on a node hold as many ports there as they visit it. */
  lemma {:induction false} HeldCounts(fleet: map<int, Machine>, udp: bool, entry: Option<int>,
                                      hops: seq<Hop>, placed: seq<Hop>, node: int, k: nat)
    requires Assignment(fleet, udp, entry, hops, placed) && k <= |hops|
    ensures |Held(placed, node, k)| == Visits(hops, node, k)
  {
    if k > 0 {
      HeldCounts(fleet, udp, entry, hops, placed, node, k - 1);
      assert placed[k - 1].node == hops[k - 1].node;
      if placed[k - 1].node == node {
        HeldMember(placed, node, k - 1, placed[k - 1].port);
        assert forall j | 0 <= j < k - 1 && placed[j].node == node :: hops[j].node == hops[k - 1].node;
      }
    }
  }

  lemma {:induction false} SubsetSize<T>(a: set<T>, b: set<T>)
    requires a <= b
    ensures |a| <= |b|
  {
    if |a| > 0 {
      var x :| x in a;
      SubsetSize(a - {x}, b - {x});
    }
  }

  lemma VisitsPrefix(hops: seq<Hop>, n: nat, node: int, k: nat)
    requires k <= n <= |hops|
    ensures Visits(hops[..n], node, k) == Visits(hops, node, k)
  {
    if k > 0 {
      VisitsPrefix(hops, n, node, k - 1);
    }
  }

  lemma PrefixAssignable(fleet: map<int, Machine>, udp: bool, entry: Option<int>, hops: seq<Hop>, n: nat)
    requires Assignable(fleet, udp, entry, hops) && 0 < n <= |hops|
    ensures Assignable(fleet, udp, entry, hops[..n])
  {
    var placed :| Assignment(fleet, udp, entry, hops, placed);
    assert Assignment(fleet, udp, entry, hops[..n], placed[..n]);
  }

  /** Pigeonhole: if the hops before `n` hold every free port of the next hop's node, then
      no other choice of ports has room for that hop either. */
  lemma FullPoolIsUnassignable(fleet: map<int, Machine>, udp: bool, entry: Option<int>,
                               hops: seq<Hop>, placed: seq<Hop>, n: nat, m: Machine)
    requires 0 < n < |hops| && Assignment(fleet, udp, entry, hops[..n], placed)
    requires hops[n].node in fleet && m == fleet[hops[n].node]
    requires forall p | Free(m, p) :: p in Held(placed, hops[n].node, n)
    ensures !Assignable(fleet, udp, entry, hops)
  {
    if other: seq<Hop> :| Assignment(fleet, udp, entry, hops, other) {
      var node := hops[n].node;
      HeldCounts(fleet, udp, entry, hops, other, node, n + 1);
      HeldCounts(fleet, udp, entry, hops[..n], placed, node, n);
      VisitsPrefix(hops, n, node, n);
      forall p | p in Held(other, node, n + 1)
        ensures p in Held(placed, node, n)
      {
        HeldMember(other, node, n + 1, p);
        var j :| 0 <= j < n + 1 && other[j].node == node && other[j].port == p;
        assert hops[j].node == node;
      }
      SubsetSize(Held(other, node, n + 1), Held(placed, node, n));
      assert false;
    }
  }

  /** The lowest port of the pool that is neither used nor reserved. */
  method FirstFree(m: Machine, used: set<int>, reserved: set<int>) returns (r: Option<int>)
    requires m.used == Some(used)
    ensures r.Some? ==> Free(m, r.value) && r.value !in reserved
    ensures r.Some? ==> forall p | Free(m, p) && p < r.value :: p in reserved
    ensures r.None? ==> forall p | Free(m, p) :: p in reserved
  {
    var p := m.portStart;
    while p <= m.portEnd
      invariant m.portStart <= p
      invariant forall q | Free(m, q) && q < p :: q in reserved
    {
      if p !in used && p !in reserved {
        return Some(p);
      }
      p := p + 1;
    }
    r := None;
  }

  /** What each complaint means: the first hop that cannot be served, and why. */
  ghost predicate Explains(fleet: map<int, Machine>, udp: bool, entry: Option<int>, hops: seq<Hop>, e: Error) {
    match e
    case NoHops => hops == []
    case UnknownNode(i) => FirstBad(fleet, udp, entry, hops, i) && hops[i].node !in fleet
    case NotProbed(i) =>
      FirstBad(fleet, udp, entry, hops, i) && hops[i].node in fleet && !fleet[hops[i].node].probed
    case UDPUnsupported(i) =>
      && FirstBad(fleet, udp, entry, hops, i) && hops[i].node in fleet
      && udp && fleet[hops[i].node].passesUDP == Some(false)
    case UsageUnknown(i) =>
      FirstBad(fleet, udp, entry, hops, i) && hops[i].node in fleet && fleet[hops[i].node].used.None?
    case EntryOutOfPool =>
      && FirstBad(fleet, udp, entry, hops, 0) && hops[0].node in fleet && entry.Some?
      && !(fleet[hops[0].node].portStart <= entry.value <= fleet[hops[0].node].portEnd)
    case EntryTaken =>
      && FirstBad(fleet, udp, entry, hops, 0) && hops[0].node in fleet && entry.Some?
      && fleet[hops[0].node].used.Some? && entry.value in fleet[hops[0].node].used.value
    case PoolEmpty(i) =>
      FirstBad(fleet, udp, entry, hops, i) && hops[i].node in fleet && Ready(fleet[hops[i].node], udp)
  }

  /** The hops before `i` have an answer, and no answer reaches hop `i`. */
  ghost predicate FirstBad(fleet: map<int, Machine>, udp: bool, entry: Option<int>, hops: seq<Hop>, i: nat) {
    && i < |hops|
    && (i > 0 ==> Assignable(fleet, udp, entry, hops[..i]))
    && !Assignable(fleet, udp, entry, hops[..i + 1])
  }

  lemma FirstBadDecides(fleet: map<int, Machine>, udp: bool, entry: Option<int>, hops: seq<Hop>, i: nat)
    requires FirstBad(fleet, udp, entry, hops, i)
    ensures !Assignable(fleet, udp, entry, hops)
  {
    if Assignable(fleet, udp, entry, hops) {
      PrefixAssignable(fleet, udp, entry, hops, i + 1);
    }
  }

  /** The answer so far: the hops before `i` have their ports. */
  ghost predicate Served(fleet: map<int, Machine>, udp: bool, entry: Option<int>, hops: seq<Hop>,
                         placed: seq<Hop>, i: nat) {
    i <= |hops| && |placed| == i && (i > 0 ==> Assignment(fleet, udp, entry, hops[..i], placed))
  }

  /** A node that cannot serve, or an entry port that cannot be had, stops every choice. */
  lemma Unserved(fleet: map<int, Machine>, udp: bool, entry: Option<int>, hops: seq<Hop>, placed: seq<Hop>, i: nat)
    requires i < |hops| && Served(fleet, udp, entry, hops, placed, i)
    requires hops[i].node !in fleet || !Ready(fleet[hops[i].node], udp)
             || (i == 0 && entry.Some? && !Free(fleet[hops[i].node], entry.value))
    ensures FirstBad(fleet, udp, entry, hops, i) && !Assignable(fleet, udp, entry, hops)
  {
    var upto := hops[..i + 1];
    assert upto[i] == hops[i];
    assert !Assignable(fleet, udp, entry, upto);
    FirstBadDecides(fleet, udp, entry, hops, i);
  }

  lemma Exhausted(fleet: map<int, Machine>, udp: bool, entry: Option<int>, hops: seq<Hop>, placed: seq<Hop>, i: nat)
    requires i < |hops| && Served(fleet, udp, entry, hops, placed, i) && hops[i].node in fleet
    requires i == 0 ==> entry.None?
    requires forall p | Free(fleet[hops[i].node], p) :: p in Held(placed, hops[i].node, i)
    ensures FirstBad(fleet, udp, entry, hops, i) && !Assignable(fleet, udp, entry, hops)
  {
    var upto := hops[..i + 1];
    assert upto[i] == hops[i] && upto[..i] == hops[..i];
    if i > 0 {
      FullPoolIsUnassignable(fleet, udp, entry, upto, placed, i, fleet[hops[i].node]);
    } else {
      assert forall p :: !Free(fleet[hops[i].node], p);
    }
    FirstBadDecides(fleet, udp, entry, hops, i);
  }

  /** One more hop served: its port is free and not held by an earlier hop. */
  lemma Extended(fleet: map<int, Machine>, udp: bool, entry: Option<int>, hops: seq<Hop>, placed: seq<Hop>,
                 i: nat, port: int)
    requires i < |hops| && Served(fleet, udp, entry, hops, placed, i)
    requires hops[i].node in fleet && Ready(fleet[hops[i].node], udp) && Free(fleet[hops[i].node], port)
    requires port !in Held(placed, hops[i].node, i)
    requires i == 0 && entry.Some? ==> port == entry.value
    ensures Served(fleet, udp, entry, hops, placed + [hops[i].(port := port)], i + 1)
  {
    var upto := hops[..i + 1];
    var more := placed + [hops[i].(port := port)];
    assert forall j | 0 <= j < i :: hops[..i][j] == upto[j];
    forall j | 0 <= j < i && upto[j].node == upto[i].node
      ensures more[j].port != more[i].port
    {
      HeldMember(placed, hops[i].node, i, port);
      assert placed[j].node == hops[i].node;
    }
  }

  /** Every port chosen by the scan is the lowest its node had left at that point. */
  ghost predicate Lowest(fleet: map<int, Machine>, entry: Option<int>, placed: seq<Hop>) {
    forall j, p | 0 <= j < |placed| && (j > 0 || entry.None?) && placed[j].node in fleet
                  && Free(fleet[placed[j].node], p) && p < placed[j].port ::
      p in Held(placed, placed[j].node, j)
  }

  lemma LowestExtended(fleet: map<int, Machine>, entry: Option<int>, placed: seq<Hop>, next: Hop)
    requires Lowest(fleet, entry, placed) && next.node in fleet
    requires |placed| > 0 || entry.None? ==>
               forall p | Free(fleet[next.node], p) && p < next.port :: p in Held(placed, next.node, |placed|)
    ensures Lowest(fleet, entry, placed + [next])
  {
    forall n: int, k: nat | k <= |placed|
      ensures Held(placed + [next], n, k) == Held(placed, n, k)
    {
      HeldPrefix(placed, next, n, k);
    }
  }

  function ReservedOn(reserved: map<int, set<int>>, node: int): set<int> {
    if node in reserved then reserved[node] else {}
  }

  method Allocate(fleet: map<int, Machine>, hops: seq<Hop>, udp: bool, entry: Option<int>) returns (r: Result)
    ensures r.Allocated? <==> Assignable(fleet, udp, entry, hops)
    ensures r.Allocated? ==> Assignment(fleet, udp, entry, hops, r.hops)
    ensures r.Allocated? ==> Lowest(fleet, entry, r.hops)
    ensures r.Rejected? ==> Explains(fleet, udp, entry, hops, r.error)
  {
    if |hops| == 0 {
      return Rejected(NoHops);
    }
    var reserved: map<int, set<int>> := map[];
    var out := hops;
    var i := 0;
    while i < |hops|
      invariant 0 <= i <= |hops| && |out| == |hops| && out[i..] == hops[i..]
      invariant Served(fleet, udp, entry, hops, out[..i], i)
      invariant forall n: int :: ReservedOn(reserved, n) == Held(out[..i], n, i)
      invariant Lowest(fleet, entry, out[..i])
    {
      ghost var placed := out[..i];
      var node := out[i].node;
      assert out[i] == hops[i];
      if node !in fleet {
        Unserved(fleet, udp, entry, hops, placed, i);
        return Rejected(UnknownNode(i));
      }
      var m := fleet[node];
      if !m.probed {
        Unserved(fleet, udp, entry, hops, placed, i);
        return Rejected(NotProbed(i));
      }
      if udp && m.passesUDP == Some(false) {
        Unserved(fleet, udp, entry, hops, placed, i);
        return Rejected(UDPUnsupported(i));
      }
      if m.used.None? {
        Unserved(fleet, udp, entry, hops, placed, i);
        return Rejected(UsageUnknown(i));
      }
      var port;
      if i == 0 && entry.Some? {
        port := entry.value;
        if port < m.portStart || port > m.portEnd {
          Unserved(fleet, udp, entry, hops, placed, i);
          return Rejected(EntryOutOfPool);
        }
        if port in m.used.value || port in ReservedOn(reserved, node) {
          Unserved(fleet, udp, entry, hops, placed, i);
          return Rejected(EntryTaken);
        }
      } else {
        var found := FirstFree(m, m.used.value, ReservedOn(reserved, node));
        if found.None? {
          Exhausted(fleet, udp, entry, hops, placed, i);
          return Rejected(PoolEmpty(i));
        }
        port := found.value;
      }
      Extended(fleet, udp, entry, hops, placed, i, port);
      out := out[i := out[i].(port := port)];
      reserved := reserved[node := ReservedOn(reserved, node) + {port}];
      ghost var next := hops[i].(port := port);
      assert out[..i + 1] == placed + [next];
      LowestExtended(fleet, entry, placed, next);
      forall n: int
        ensures ReservedOn(reserved, n) == Held(out[..i + 1], n, i + 1)
      {
        HeldNext(placed, next, n);
      }
      i := i + 1;
    }
    assert out[..i] == out && hops[..i] == hops;
    r := Allocated(out);
  }
}
