/** Byte accounting of one sing-box node against writers with stale snapshots.

    The kernel's counters only grow while the machine stays up. The collector folds a
    reading into the row in two steps, a read and a write of the usage columns; a top-up is
    one addition to one column; status samplers and others write back a whole row they read
    at any earlier time, and so does the collector once it has stopped an exhausted node.
    Runs stay within one period: no usage reset, no period roll and no kernel restart.
  */
module SingBoxAccounting {
  import opened Prelude
  import Readings

  /** One direction's usage in the period, and the counter reading it includes. */
  datatype Meter = Meter(used: int, raw: nat)

  /** Folds a reading in; a reading below the last one means the counter restarted. */
  function Fold(m: Meter, reading: nat): Meter {
    var delta := reading - m.raw;
    Meter(m.used + (if m.raw == 0 || delta < 0 then reading else delta), reading)
  }

  /** A fold keeps usage and reading in step exactly if the reading is not older than the
      one on record. */
  lemma FoldKeepsOffset(m: Meter, reading: nat)
    ensures Fold(m, reading).used - reading == m.used - m.raw <==> reading >= m.raw
  {
  }

  datatype Status = Unknown | Running | Stopped | Exhausted | Expired | Error

  datatype Row = Row(
    traffic: (Meter, Meter),   // in, out
    baseQuota: nat, topUp: nat,
    paused: bool, enabled: bool, status: Status,
    periodStart: int, periodEnd: int, periodDays: int)

  function Capped(x: int): int {
    if x > MAX_INT64 then MAX_INT64 else x
  }

  function QuotaBytes(u: Row): int {
    if u.baseQuota == 0 then 0 else Capped(u.baseQuota + u.topUp)
  }

  function UsedBytes(u: Row): int {
    Capped(u.traffic.0.used + u.traffic.1.used)
  }

  function Recorded(u: Row, reading: (nat, nat)): Row {
    var v := u.(traffic := (Fold(u.traffic.0, reading.0), Fold(u.traffic.1, reading.1)));
    if QuotaBytes(v) > 0 && UsedBytes(v) >= QuotaBytes(v) then v.(paused := true) else v
  }

  /** A quota is used up: only a positive base makes one, a top-up raises it, and usage and
      quota beyond the largest 64-bit integer count as that. */
  predicate UsedUp(u: Row) {
    var used, quota := u.traffic.0.used + u.traffic.1.used, u.baseQuota + u.topUp;
    u.baseQuota > 0 && (used >= quota || used >= MAX_INT64)
  }

  /** What a reading leaves of a row, column by column. */
  predicate RecordEnds(was: Row, reading: (nat, nat), now: Row) {
    && now == was.(traffic := now.traffic, paused := now.paused)
    && now.traffic.0.raw == reading.0 && now.traffic.1.raw == reading.1
    && now.traffic.0.used - was.traffic.0.used ==
         (if reading.0 < was.traffic.0.raw then reading.0 else reading.0 - was.traffic.0.raw)
    && now.traffic.1.used - was.traffic.1.used ==
         (if reading.1 < was.traffic.1.raw then reading.1 else reading.1 - was.traffic.1.raw)
    && (now.paused <==> was.paused || UsedUp(now))
  }

  lemma RecordOutcome(u: Row, reading: (nat, nat))
    ensures RecordEnds(u, reading, Recorded(u, reading))
  {
  }

  /** A top-up of `n` lets exactly `n` more bytes through before a node with a quota is paused,
      and none that has no quota. */
  lemma TopUpMovesPausePoint(u: Row, n: nat, more: (nat, nat))
    requires more.0 + more.1 == n
    requires u.traffic.0.used + u.traffic.1.used + n < MAX_INT64
    ensures var raised := u.(topUp := u.topUp + n);
            var used := raised.(traffic := (Meter(u.traffic.0.used + more.0, u.traffic.0.raw),
                                            Meter(u.traffic.1.used + more.1, u.traffic.1.raw)));
            (QuotaBytes(used) > 0 && UsedBytes(used) >= QuotaBytes(used)
             <==> QuotaBytes(u) > 0 && UsedBytes(u) >= QuotaBytes(u))
            && (UsedUp(used) <==> UsedUp(u))
  {
  }

  // ---------------------------------------------------------------- interleavings

  datatype State = State(
    row: Row,
    kernel: (nat, nat),
    snapshots: map<nat, Row>,        // rows read by writers that have not written back yet
    sample: Option<(nat, nat)>,      // the collector's reading
    loaded: Option<Row>,             // the row it read to fold the reading into
    held: Option<Row>)               // the row it is about to write back as stopped

  datatype Event =
    | Traffic(more: (nat, nat))
    | Snapshot(writer: nat)
    | WriteBack(writer: nat, enabled: bool, status: Status, resumed: bool)
    | Grant(bytes: nat)
    | Sample
    | Load
    | Store
    | Settle       // the collector stopped the node
    | GiveUp       // or could not

  predicate Enabled(s: State, e: Event) {
    match e
    case Traffic(_) => true
    case Snapshot(w) => w !in s.snapshots
    case WriteBack(w, _, _, _) => w in s.snapshots
    case Grant(bytes) => bytes > 0
    case Sample => s.sample.None? && s.held.None?
    case Load => s.sample.Some? && s.loaded.None?
    case Store => s.sample.Some? && s.loaded.Some?
    case Settle => s.held.Some?
    case GiveUp => s.held.Some?
  }

  function Next(s: State, e: Event): State
    requires Enabled(s, e)
  {
    match e
    case Traffic(more) => s.(kernel := (s.kernel.0 + more.0, s.kernel.1 + more.1))
    case Snapshot(w) => s.(snapshots := s.snapshots[w := s.row])
    case WriteBack(w, enabled, status, resumed) =>
      var u := s.snapshots[w];
      s.(row := u.(enabled := enabled, status := status, paused := u.paused && !resumed),
         snapshots := s.snapshots - {w})
    case Grant(bytes) => s.(row := s.row.(topUp := s.row.topUp + bytes))
    case Sample => s.(sample := Some(s.kernel))
    case Load => s.(loaded := Some(s.row))
    case Store =>
      var v := Recorded(s.loaded.value, s.sample.value);
      s.(row := s.row.(traffic := v.traffic, paused := v.paused), sample := None, loaded := None,
         held := if v.paused && v.enabled then Some(v) else None)
    case Settle => s.(row := s.held.value.(enabled := false, status := Exhausted), held := None)
    case GiveUp => s.(held := None)
  }

  /** Usage minus reading, per direction. */
  function Offset(u: Row): (int, int) {
    (u.traffic.0.used - u.traffic.0.raw, u.traffic.1.used - u.traffic.1.raw)
  }

  /** No reading on record is ahead of `limit`. */
  predicate Within(u: Row, limit: (nat, nat)) {
    u.traffic.0.raw <= limit.0 && u.traffic.1.raw <= limit.1
  }

  predicate Consistent(u: Row, c: (int, int), limit: (nat, nat)) {
    Offset(u) == c && Within(u, limit)
  }

  /** Every copy of the row, wherever it is held, carries the same offset, and none is
      ahead of the kernel or of a reading the collector has yet to store. */
  ghost predicate Inv(s: State, c: (int, int)) {
    var limit := if s.sample.Some? then s.sample.value else s.kernel;
    && limit.0 <= s.kernel.0 && limit.1 <= s.kernel.1
    && Consistent(s.row, c, limit)
    && (forall w | w in s.snapshots :: Consistent(s.snapshots[w], c, limit))
    && (s.loaded.Some? ==> s.sample.Some? && Consistent(s.loaded.value, c, limit))
    && (s.held.Some? ==> s.sample.None? && Consistent(s.held.value, c, limit))
  }

  lemma StoreKeepsInv(s: State, c: (int, int))
    requires Inv(s, c) && Enabled(s, Store)
    ensures Inv(Next(s, Store), c)
    ensures Next(s, Store).row.traffic.0.used == c.0 + s.sample.value.0
    ensures Next(s, Store).row.traffic.1.used == c.1 + s.sample.value.1
  {
    var u, reading := s.loaded.value, s.sample.value;
    FoldKeepsOffset(u.traffic.0, reading.0);
    FoldKeepsOffset(u.traffic.1, reading.1);
  }

  lemma StepKeepsInv(s: State, e: Event, c: (int, int))
    requires Inv(s, c) && Enabled(s, e)
    ensures Inv(Next(s, e), c)
  {
    match e
    case Store => StoreKeepsInv(s, c);
    case _ =>
  }

  ghost predicate IsRun(states: seq<State>, events: seq<Event>) {
    && |states| == |events| + 1
    && states[0].snapshots == map[] && states[0].sample == None && states[0].loaded == None && states[0].held == None
    && Within(states[0].row, states[0].kernel)
    && forall i | 0 <= i < |events| :: Enabled(states[i], events[i]) && states[i + 1] == Next(states[i], events[i])
  }

  /** In every interleaving, at every moment, usage minus reading is what it was at the
      start: a stale write may bring back an old pair, never a mixed one. */
  lemma {:induction false} OffsetIsConstant(states: seq<State>, events: seq<Event>, n: nat)
    requires IsRun(states, events) && n <= |events|
    ensures Inv(states[n], Offset(states[0].row))
  {
    if n > 0 {
      OffsetIsConstant(states, events, n - 1);
      StepKeepsInv(states[n - 1], events[n - 1], Offset(states[0].row));
    }
  }

  /** So after each write of the collector the usage is exactly what it was at the start
      plus what the kernel counted from then until the reading, whichever stale writes came
      in between: no byte is lost and none counted twice. The row is paused exactly if the row
      as loaded was, or that usage reaches the quota of the row as loaded. */
  lemma StoreIsExact(states: seq<State>, events: seq<Event>, n: nat)
    requires IsRun(states, events) && n < |events| && events[n].Store?
    ensures var first, reading, t := states[0].row.traffic, states[n].sample.value, states[n + 1].row.traffic;
            && t.0.used == first.0.used + (reading.0 - first.0.raw)
            && t.1.used == first.1.used + (reading.1 - first.1.raw)
    ensures var u := states[n].loaded.value.(traffic := states[n + 1].row.traffic);
            states[n + 1].row.paused <==> u.paused || UsedUp(u)
  {
    RecordOutcome(states[n].loaded.value, states[n].sample.value);
    OffsetIsConstant(states, events, n);
    StoreKeepsInv(states[n], Offset(states[0].row));
  }

  // ---------------------------------------------------------------- whole-row writes

  predicate WritesRow(e: Event) {
    e.WriteBack? || e.Settle?
  }

  /** The event that read the row which such a write writes. */
  function Source(e: Event): Event
    requires WritesRow(e)
  {
    if e.WriteBack? then Snapshot(e.writer) else Load
  }

  /** When this event last happened, among the first `n`. */
  function Last(events: seq<Event>, n: nat, e: Event): (i: nat)
    requires n <= |events|
    ensures i <= n
  {
    if n == 0 then 0
    else if events[n - 1] == e then n - 1
    else Last(events, n - 1, e)
  }

  /** When the row written by event `k` was read. */
  function ReadOf(events: seq<Event>, k: nat): (i: nat)
    requires k < |events| && WritesRow(events[k])
    ensures i <= k
  {
    Last(events, k, Source(events[k]))
  }

  /** A snapshot not yet written back is the row at the moment the writer last read it. */
  lemma {:induction false} SnapshotIsPast(states: seq<State>, events: seq<Event>, n: nat, w: nat)
    requires IsRun(states, events) && n <= |events| && w in states[n].snapshots
    ensures Last(events, n, Snapshot(w)) < n
    ensures states[n].snapshots[w] == states[Last(events, n, Snapshot(w))].row
  {
    if n > 0 {
      assert states[n] == Next(states[n - 1], events[n - 1]);
      if events[n - 1] != Snapshot(w) {
        SnapshotIsPast(states, events, n - 1, w);
      }
    }
  }

  /** The collector holds the row as it last read it, with the reading folded in once it has
      stored that. */
  ghost predicate CollectorInv(states: seq<State>, events: seq<Event>, n: nat)
    requires |states| == |events| + 1 && n <= |events|
  {
    var s, l := states[n], Last(events, n, Load);
    && (s.loaded.Some? ==> l < n && s.loaded.value == states[l].row && s.held.None?)
    && (s.held.Some? ==>
          && l < n && s.sample.None? && s.loaded.None?
          && s.held.value.paused && s.held.value.topUp == states[l].row.topUp)
  }

  lemma CollectorAfter(states: seq<State>, events: seq<Event>, n: nat)
    requires IsRun(states, events) && n < |events| && CollectorInv(states, events, n)
    ensures CollectorInv(states, events, n + 1)
  {
    assert states[n + 1] == Next(states[n], events[n]);
  }

  lemma {:induction false} CollectorHolds(states: seq<State>, events: seq<Event>, n: nat)
    requires IsRun(states, events) && n <= |events|
    ensures CollectorInv(states, events, n)
  {
    if n > 0 {
      CollectorHolds(states, events, n - 1);
      CollectorAfter(states, events, n - 1);
    }
  }

  /** A whole-row write brings back the top-up of the moment its row was read; one that is not
      the collector's also the pause mark, unless it resumes. */
  lemma WriteIsPast(states: seq<State>, events: seq<Event>, k: nat)
    requires IsRun(states, events) && k < |events| && WritesRow(events[k])
    ensures ReadOf(events, k) < k
    ensures states[k + 1].row.topUp == states[ReadOf(events, k)].row.topUp
    ensures states[k + 1].row.paused <==>
              events[k].Settle? || (states[ReadOf(events, k)].row.paused && !events[k].resumed)
    ensures events[k].Settle? ==> !states[k + 1].row.enabled && states[k + 1].row.status.Exhausted?
  {
    assert states[k + 1] == Next(states[k], events[k]);
    if events[k].WriteBack? {
      SnapshotIsPast(states, events, k, events[k].writer);
    } else {
      CollectorHolds(states, events, k);
    }
  }

  // ---------------------------------------------------------------- top-ups

  /** After `n` events the row still holds the top-up of event `g`: a row written back holds
      what it held when it was read. */
  ghost predicate Kept(events: seq<Event>, g: nat, n: nat)
    requires n <= |events|
    decreases n
  {
    g < n
    && if WritesRow(events[n - 1]) then Kept(events, g, ReadOf(events, n - 1))
       else g == n - 1 || Kept(events, g, n - 1)
  }

  /** The bytes of those of the first `k` events that are top-ups the row holds after `n`. */
  ghost function KeptBytes(events: seq<Event>, k: nat, n: nat): nat
    requires k <= |events| && n <= |events|
  {
    if k == 0 then 0
    else KeptBytes(events, k - 1, n)
         + (if events[k - 1].Grant? && Kept(events, k - 1, n) then events[k - 1].bytes else 0)
  }

  lemma {:induction false} SameKept(events: seq<Event>, k: nat, n: nat, m: nat)
    requires k <= |events| && n <= |events| && m <= |events|
    requires forall g: nat | g < k && events[g].Grant? :: Kept(events, g, n) <==> Kept(events, g, m)
    ensures KeptBytes(events, k, n) == KeptBytes(events, k, m)
  {
    if k > 0 {
      SameKept(events, k - 1, n, m);
    }
  }

  /** No later event counts. */
  lemma {:induction false} NoneKept(events: seq<Event>, k: nat, n: nat)
    requires n <= k <= |events|
    ensures KeptBytes(events, k, n) == KeptBytes(events, n, n)
    decreases k
  {
    if n < k {
      NoneKept(events, k - 1, n);
    }
  }

  /** At every moment of every interleaving the row's top-up is the one at the start plus the
      top-ups since then that it still holds: nothing else adds to it or takes from it. */
  lemma {:induction false} TopUpIsKeptGrants(states: seq<State>, events: seq<Event>, n: nat)
    requires IsRun(states, events) && n <= |events|
    ensures states[n].row.topUp == states[0].row.topUp + KeptBytes(events, n, n)
    decreases n
  {
    if n > 0 {
      assert states[n] == Next(states[n - 1], events[n - 1]);
      var m := n - 1;
      if WritesRow(events[n - 1]) {
        WriteIsPast(states, events, n - 1);
        m := ReadOf(events, n - 1);
      }
      TopUpIsKeptGrants(states, events, m);
      SameKept(events, n - 1, n, m);
      NoneKept(events, n - 1, m);
    }
  }

  /** The row holds the top-up of event `g` at every moment from it to `n`. */
  ghost predicate Stays(events: seq<Event>, g: nat, n: nat)
    requires n <= |events|
  {
    forall m | g < m <= n :: Kept(events, g, m)
  }

  /** Every row written back among the first `n` events after `g` was read after it. */
  ghost predicate NoneStale(events: seq<Event>, g: nat, n: nat)
    requires n <= |events|
  {
    forall k | g < k < n && WritesRow(events[k]) :: ReadOf(events, k) > g
  }

  /** A top-up stays on the row if and only if no row read before it is written back after
      it. */
  lemma {:induction false} GrantStaysExactly(events: seq<Event>, g: nat, n: nat)
    requires g < n <= |events| && events[g].Grant?
    ensures Stays(events, g, n) <==> NoneStale(events, g, n)
    decreases n
  {
    if n > g + 1 {
      GrantStaysExactly(events, g, n - 1);
      var last := events[n - 1];
      var m := if WritesRow(last) then ReadOf(events, n - 1) else n - 1;
      assert Kept(events, g, n) <==> Kept(events, g, m);
      assert Stays(events, g, n) <==> Stays(events, g, n - 1) && Kept(events, g, n);
      assert NoneStale(events, g, n) <==> NoneStale(events, g, n - 1) && m > g;
    }
  }

  // ---------------------------------------------------------------- pause marks

  /** The row carries the mark at every moment after event `g` up to `n`. */
  ghost predicate StaysPaused(states: seq<State>, g: nat, n: nat)
    requires n < |states|
  {
    forall m | g < m <= n :: states[m].row.paused
  }

  /** The whole-row write of event `k` takes away the mark that event `g` left: it resumes the
      node, or its row was read before and carried none. */
  predicate LiftsPause(states: seq<State>, events: seq<Event>, g: nat, k: nat)
    requires |states| == |events| + 1 && k < |events|
  {
    events[k].WriteBack? && (events[k].resumed || (ReadOf(events, k) <= g && !states[ReadOf(events, k)].row.paused))
  }

  ghost predicate NoneLifts(states: seq<State>, events: seq<Event>, g: nat, n: nat)
    requires |states| == |events| + 1 && n <= |events|
  {
    forall k | g < k < n :: !LiftsPause(states, events, g, k)
  }

  /** After a store, the collector reads the row only at a later moment. */
  lemma {:induction false} LoadedAfterStore(states: seq<State>, events: seq<Event>, g: nat, n: nat)
    requires IsRun(states, events) && g < n <= |events| && events[g].Store? && states[n].loaded.Some?
    ensures Last(events, n, Load) > g
    decreases n
  {
    assert states[n] == Next(states[n - 1], events[n - 1]);
    if n > g + 1 && events[n - 1] != Load {
      LoadedAfterStore(states, events, g, n - 1);
    }
  }

  lemma PausedAfter(states: seq<State>, events: seq<Event>, g: nat, n: nat)
    requires IsRun(states, events) && g < n < |events| && events[g].Store? && StaysPaused(states, g, n)
    ensures states[n + 1].row.paused <==> !LiftsPause(states, events, g, n)
  {
    assert states[n + 1] == Next(states[n], events[n]);
    if WritesRow(events[n]) {
      WriteIsPast(states, events, n);
    } else if events[n].Store? {
      CollectorHolds(states, events, n);
      LoadedAfterStore(states, events, g, n);
    }
  }

  /** The mark that a store leaves on the row stays if and only if no later whole-row write
      resumes the node or brings back a row without the mark, read before the store. */
  lemma {:induction false} PauseStaysExactly(states: seq<State>, events: seq<Event>, g: nat, n: nat)
    requires IsRun(states, events) && g < n <= |events| && events[g].Store? && states[g + 1].row.paused
    ensures StaysPaused(states, g, n) <==> NoneLifts(states, events, g, n)
    decreases n
  {
    if n > g + 1 {
      PauseStaysExactly(states, events, g, n - 1);
      assert StaysPaused(states, g, n) <==> StaysPaused(states, g, n - 1) && states[n].row.paused;
      assert NoneLifts(states, events, g, n) <==>
               NoneLifts(states, events, g, n - 1) && !LiftsPause(states, events, g, n - 1);
      if StaysPaused(states, g, n - 1) {
        PausedAfter(states, events, g, n - 1);
      }
    }
  }

  // ---------------------------------------------------------------- one collector after another

  function FoldAll(m: Meter, readings: seq<nat>): Meter {
    if readings == [] then m
    else Fold(FoldAll(m, readings[..|readings| - 1]), readings[|readings| - 1])
  }

  /** No reading is older than the one before. */
  predicate Ascending(first: nat, readings: seq<nat>) {
    readings == []
    || (var init := readings[..|readings| - 1];
        Ascending(first, init) && readings[|readings| - 1] >= Latest(first, init))
  }

  function Latest(first: nat, readings: seq<nat>): nat {
    if readings == [] then first else readings[|readings| - 1]
  }

  /** Readings folded one after another, by whichever collector, count exactly what the
      counter grew if and only if none is older than the one before; an older one is counted
      again. Collectors that run one after another, each storing what it read before the
      next one reads, never bring an older one. */
  lemma {:induction false} AscendingReadingsAreExact(m: Meter, readings: seq<nat>)
    ensures FoldAll(m, readings).raw == Latest(m.raw, readings)
    ensures FoldAll(m, readings).used - FoldAll(m, readings).raw >= m.used - m.raw
    ensures FoldAll(m, readings).used - FoldAll(m, readings).raw == m.used - m.raw <==> Ascending(m.raw, readings)
  {
    if readings != [] {
      var n := |readings| - 1;
      var init := readings[..n];
      AscendingReadingsAreExact(m, init);
      FoldKeepsOffset(FoldAll(m, init), readings[n]);
    }
  }

  /** In any order, and with any restarts, the usage grows by all that the readings show to
      have passed since the one on record. */
  lemma {:induction false} FoldsCountKnown(m: Meter, readings: seq<nat>)
    ensures FoldAll(m, readings).used - m.used == Readings.Known([m.raw] + readings) - m.raw
    ensures FoldAll(m, readings).raw == Latest(m.raw, readings)
  {
    if readings == [] {
      assert [m.raw] + readings == [m.raw];
      Readings.KnownIsLatest([m.raw]);
    } else {
      var init, now := readings[..|readings| - 1], readings[|readings| - 1];
      FoldsCountKnown(m, init);
      Readings.OneMoreReading([m.raw] + init, now);
      assert [m.raw] + init + [now] == [m.raw] + readings;
    }
  }

  // ---------------------------------------------------------------- the store

  class SingBoxStore {
    var rows: map<int, Row>

    method RecordSingBoxTraffic(id: int, reading: (nat, nat)) returns (u: Option<Row>)
      modifies this
      ensures id !in old(rows) ==> u == None && rows == old(rows)
      ensures id in old(rows) ==>
                u == Some(Recorded(old(rows)[id], reading)) && rows == old(rows)[id := u.value]
      ensures u.Some? ==> id in old(rows) && RecordEnds(old(rows)[id], reading, u.value)
    {
      if id !in rows {
        return None;
      }
      var v := rows[id];
      var deltaIn, deltaOut := reading.0 - v.traffic.0.raw, reading.1 - v.traffic.1.raw;
      if v.traffic.0.raw == 0 || deltaIn < 0 {
        deltaIn := reading.0;
      }
      if v.traffic.1.raw == 0 || deltaOut < 0 {
        deltaOut := reading.1;
      }
      v := v.(traffic := (Meter(v.traffic.0.used + deltaIn, reading.0), Meter(v.traffic.1.used + deltaOut, reading.1)));
      if QuotaBytes(v) > 0 && UsedBytes(v) >= QuotaBytes(v) {
        v := v.(paused := true);
      }
      RecordOutcome(rows[id], reading);
      rows := rows[id := v];
      u := Some(v);
    }

    method AddSingBoxTopUp(id: int, bytes: int) returns (ok: bool)
      modifies this
      ensures ok <==> bytes > 0 && id in old(rows)
      ensures rows == if ok then old(rows)[id := old(rows)[id].(topUp := old(rows)[id].topUp + bytes)] else old(rows)
    {
      ok := bytes > 0 && id in rows;
      if ok {
        rows := rows[id := rows[id].(topUp := rows[id].topUp + bytes)];
      }
    }

    /** Moves the period of a row read earlier on until it contains `now`, in whole periods
        from the old end, starts its usage afresh without forgetting the counter readings,
        and writes all of it back. */
    method RollSingBoxPeriod(id: int, u: Row, now: int) returns (v: Row, ok: bool)
      modifies this
      ensures ok <==> id in old(rows)
      ensures rows == if ok then old(rows)[id := v] else old(rows)
      ensures var days := if u.periodDays < 1 then 30 else u.periodDays;
              && now < v.periodEnd
              && (now < u.periodEnd ==> v.periodStart == u.periodStart && v.periodEnd == u.periodEnd)
              && (now >= u.periodEnd ==>
                    && v.periodStart <= now && v.periodEnd == v.periodStart + days * DAY
                    && exists k: nat :: v.periodStart == u.periodEnd + k * (days * DAY))
              && v == u.(traffic := (Meter(0, u.traffic.0.raw), Meter(0, u.traffic.1.raw)),
                         topUp := 0, paused := false, periodDays := days,
                         periodStart := v.periodStart, periodEnd := v.periodEnd)
    {
      v := u;
      if v.periodDays < 1 {
        v := v.(periodDays := 30);
      }
      var length := v.periodDays * DAY;
      var start, end := v.periodStart, v.periodEnd;
      ghost var k: nat := 0;      // the periods gone by
      while now >= end
        invariant k == 0 ==> start == v.periodStart && end == v.periodEnd
        invariant k > 0 ==> start <= now && end == start + length && start == v.periodEnd + Periods(k - 1, length)
        invariant k > 0 ==> now >= v.periodEnd
        decreases now - end
      {
        start, end := end, end + length;
        k := k + 1;
      }
      if k > 0 {
        PeriodsIsProduct(k - 1, length);
      }
      v := v.(traffic := (Meter(0, v.traffic.0.raw), Meter(0, v.traffic.1.raw)),
              topUp := 0, paused := false, periodStart := start, periodEnd := end);
      ok := id in rows;
      if ok {
        rows := rows[id := v];
      }
    }
  }

  /** A period rolled from a row read earlier starts at that row's reading: what the counter
      grew since then is counted in the new period, every byte once, if and only if no later
      reading is older than the one before. */
  lemma RolledPeriodStartsAtReading(raw: nat, readings: seq<nat>)
    ensures FoldAll(Meter(0, raw), readings).used == Latest(raw, readings) - raw <==> Ascending(raw, readings)
  {
    AscendingReadingsAreExact(Meter(0, raw), readings);
  }

  function Periods(k: nat, length: int): int {
    if k == 0 then 0 else Periods(k - 1, length) + length
  }

  lemma {:induction false} PeriodsIsProduct(k: nat, length: int)
    ensures Periods(k, length) == k * length
  {
    if k > 0 {
      PeriodsIsProduct(k - 1, length);
    }
  }

  const DAY := 24 * 3600 * 1_000_000_000
}
