/** Route traffic: volatile 64-bit kernel counters folded into running totals and daily
    buckets.
  */
module RouteAccounting {
  import opened Prelude
  import opened Text
  import opened Calendar
  import Readings

  // ---------------------------------------------------------------- one counter

  const MAX_UINT64 := TWO64 - 1

  function Uint64(x: int): (r: nat)
    ensures r <= MAX_UINT64
  {
    x % TWO64
  }

  /** A running total and the reading it includes, kept as a signed column; none after the
      baseline was forgotten. */
  datatype Meter = Meter(bytes: int, raw: Option<int>)

  /** How much a counter grew, in 64-bit arithmetic; a lower reading means a restart. */
  function CounterDelta(prev: Option<int>, now: nat): int {
    if prev.None? then 0
    else if now < Uint64(prev.value) then Int64(now)
    else Int64(Uint64(now - Uint64(prev.value)))
  }

  function Fold(m: Option<Meter>, now: nat): Meter {
    var prev := if m.Some? then m.value.raw else None;
    Meter((if m.Some? then m.value.bytes else 0) + CounterDelta(prev, now), Some(Int64(now)))
  }

  /** Storing a counter in a signed column and reading it back loses nothing. */
  lemma ColumnKeepsCounter(now: nat)
    requires now <= MAX_UINT64
    ensures Uint64(Int64(now)) == now
  {
  }

  // ---------------------------------------------------------------- one counter over time

  /** The kernel's counter, the stored meter, and all bytes that really passed. */
  datatype World = World(kernel: nat, meter: Option<Meter>, passed: nat)

  datatype Event = Traffic(bytes: nat) | Restart | Reading | Forget

  function Next(w: World, e: Event): World {
    match e
    case Traffic(n) => w.(kernel := w.kernel + n, passed := w.passed + n)
    case Restart => w.(kernel := 0)
    case Reading => w.(meter := Some(Fold(w.meter, w.kernel)))
    case Forget => w.(meter := if w.meter.Some? then Some(w.meter.value.(raw := None)) else None)
  }

  function Bytes(w: World): int {
    if w.meter.Some? then w.meter.value.bytes else 0
  }

  /** What the next reading would add. */
  function Pending(w: World): int {
    if w.meter.None? || w.meter.value.raw.None? then 0
    else
      var prev := Uint64(w.meter.value.raw.value);
      if w.kernel < prev then w.kernel else w.kernel - prev
  }

  ghost predicate IsRun(states: seq<World>, events: seq<Event>) {
    && |states| == |events| + 1
    && states[0].meter == None && states[0].passed == 0
    && (forall i | 0 <= i < |states| :: states[i].kernel <= MAX_UINT64 && states[i].passed <= MAX_INT64)
    && forall i | 0 <= i < |events| :: states[i + 1] == Next(states[i], events[i])
  }

  lemma PendingIsDelta(w: World)
    requires w.kernel <= MAX_UINT64 && w.meter.Some? && 0 <= Pending(w) <= MAX_INT64
    ensures CounterDelta(w.meter.value.raw, w.kernel) == Pending(w)
  {
  }

  lemma StepNeverOvercounts(w: World, e: Event)
    requires w.kernel <= MAX_UINT64 && w.passed <= MAX_INT64
    requires 0 <= Bytes(w) && Bytes(w) + Pending(w) <= w.passed
    ensures 0 <= Bytes(Next(w, e)) && Bytes(Next(w, e)) + Pending(Next(w, e)) <= Next(w, e).passed
  {
    ColumnKeepsCounter(w.kernel);
    if e.Reading? && w.meter.Some? {
      PendingIsDelta(w);
    }
  }

  /** Whatever restarts, lost baselines and readings come in whatever order, the recorded
      total never exceeds what really passed. */
  lemma {:induction false} NeverOvercounts(states: seq<World>, events: seq<Event>, n: nat)
    requires IsRun(states, events) && n <= |events|
    ensures 0 <= Bytes(states[n]) && Bytes(states[n]) + Pending(states[n]) <= states[n].passed
  {
    if n > 0 {
      NeverOvercounts(states, events, n - 1);
      StepNeverOvercounts(states[n - 1], events[n - 1]);
    }
  }

  /** From a reading on, as long as nothing restarts or is forgotten, total and truth grow
      together, up to what is still pending. */
  lemma {:induction false} GrowsWithTruth(states: seq<World>, events: seq<Event>, i: nat, j: nat)
    requires IsRun(states, events) && i < j <= |events| && events[i].Reading?
    requires forall k | i < k < j :: events[k].Traffic? || events[k].Reading?
    ensures states[j].meter.Some? && states[j].meter.value.raw.Some?
    ensures Uint64(states[j].meter.value.raw.value) <= states[j].kernel
    ensures Bytes(states[j]) + Pending(states[j]) - Bytes(states[i + 1]) == states[j].passed - states[i].passed
    decreases j
  {
    ColumnKeepsCounter(states[j - 1].kernel);
    if j > i + 1 {
      GrowsWithTruth(states, events, i, j - 1);
      NeverOvercounts(states, events, j - 1);
      if events[j - 1].Reading? {
        PendingIsDelta(states[j - 1]);
      }
    }
  }

  /** Between any two readings with no restart and no forgotten baseline in between, the
      total grew by exactly the bytes that passed between them. */
  lemma StretchIsExact(states: seq<World>, events: seq<Event>, i: nat, j: nat)
    requires IsRun(states, events) && i < j < |events| && events[i].Reading? && events[j].Reading?
    requires forall k | i < k < j :: events[k].Traffic? || events[k].Reading?
    ensures Bytes(states[j + 1]) - Bytes(states[i + 1]) == states[j].passed - states[i].passed
  {
    GrowsWithTruth(states, events, i, j + 1);
    ColumnKeepsCounter(states[j].kernel);
  }

  /** The counter at each reading from event `i` to before event `j`. */
  ghost function ReadingsIn(states: seq<World>, events: seq<Event>, i: nat, j: nat): seq<nat>
    requires |states| == |events| + 1 && i <= j <= |events|
  {
    if i == j then []
    else ReadingsIn(states, events, i, j - 1) + if events[j - 1].Reading? then [states[j - 1].kernel] else []
  }

  lemma ReadingAdds(w: World, last: nat)
    requires w.kernel <= MAX_UINT64 && w.passed <= MAX_INT64
    requires w.meter.Some? && w.meter.value.raw.Some? && Uint64(w.meter.value.raw.value) == last
    requires 0 <= Bytes(w) && Bytes(w) + Pending(w) <= w.passed
    ensures var t := Next(w, Reading);
            && Bytes(t) == Bytes(w) + (if w.kernel < last then w.kernel else w.kernel - last)
            && Uint64(t.meter.value.raw.value) == w.kernel
  {
    PendingIsDelta(w);
    ColumnKeepsCounter(w.kernel);
  }

  /** From one reading on, and until the baseline is forgotten, the total grows by all that
      the readings show to have passed since: restarts are counted in full from the reading
      that reveals them. */
  lemma {:induction false} ReadingsCount(states: seq<World>, events: seq<Event>, i: nat, j: nat)
    requires IsRun(states, events) && i < j <= |events| && events[i].Reading?
    requires forall k | i < k < j :: !events[k].Forget?
    ensures var rs := ReadingsIn(states, events, i, j);
            && rs != [] && rs[0] == states[i].kernel
            && states[j].meter.Some? && states[j].meter.value.raw.Some?
            && Uint64(states[j].meter.value.raw.value) == rs[|rs| - 1]
            && Bytes(states[j]) - Bytes(states[i + 1]) == Readings.Known(rs) - rs[0]
    decreases j
  {
    assert states[j] == Next(states[j - 1], events[j - 1]);
    if j == i + 1 {
      ColumnKeepsCounter(states[i].kernel);
      assert ReadingsIn(states, events, i, i) == [] && [] + [states[i].kernel] == [states[i].kernel];
      Readings.KnownIsLatest([states[i].kernel]);
    } else {
      ReadingsCount(states, events, i, j - 1);
      var rs := ReadingsIn(states, events, i, j - 1);
      if events[j - 1].Reading? {
        NeverOvercounts(states, events, j - 1);
        ReadingAdds(states[j - 1], rs[|rs| - 1]);
        Readings.OneMoreReading(rs, states[j - 1].kernel);
      } else {
        assert rs + [] == rs;
      }
    }
  }

  // ---------------------------------------------------------------- totals and daily buckets

  datatype Hop = Hop(input: Meter, output: Meter)

  /** One reading of a route's hop, taken on some day. */
  datatype Sample = Sample(route: int, hop: int, rawIn: nat, rawOut: nat, day: Date, isEntry: bool)

  datatype Tables = Tables(hops: map<(int, int), Hop>, daily: map<(int, Str), (int, int)>)

  function Present(t: Tables, route: int, hop: int): Option<Hop> {
    if (route, hop) in t.hops then Some(t.hops[(route, hop)]) else None
  }

  function Side(h: Option<Hop>, out: bool): Option<Meter> {
    if h.None? then None else if out then Some(h.value.output) else Some(h.value.input)
  }

  function DeltaOf(t: Tables, s: Sample, out: bool): int {
    var m := Side(Present(t, s.route, s.hop), out);
    CounterDelta(if m.Some? then m.value.raw else None, if out then s.rawOut else s.rawIn)
  }

  function Bucket(t: Tables, route: int, day: Str): (int, int) {
    if (route, day) in t.daily then t.daily[(route, day)] else (0, 0)
  }

  function RecordedIn(t: Tables, s: Sample): Tables
    requires Valid(s.day)
  {
    var h := Present(t, s.route, s.hop);
    var deltaIn, deltaOut := DeltaOf(t, s, false), DeltaOf(t, s, true);
    var hops := t.hops[(s.route, s.hop) := Hop(Fold(Side(h, false), s.rawIn), Fold(Side(h, true), s.rawOut))];
    if s.isEntry && (deltaIn > 0 || deltaOut > 0) then
      var b := Bucket(t, s.route, DayString(s.day));
      Tables(hops, t.daily[(s.route, DayString(s.day)) := (b.0 + deltaIn, b.1 + deltaOut)])
    else t.(hops := hops)
  }

  /** One direction after a reading: the reading is on record, and the bytes grew by what the
      counter did since the last one, by all of it after a restart, by nothing without one. */
  predicate MeterEnds(was: Option<Meter>, reading: nat, now: Meter) {
    && now.raw == Some(Int64(reading))
    && match was
       case None => now.bytes == 0
       case Some(m) =>
         match m.raw
         case None => now.bytes == m.bytes
         case Some(raw) =>
           var last := raw % TWO64;
           now.bytes == m.bytes + Int64(if reading < last then reading else reading - last)
  }

  /** What a reading leaves of the tables: the hop's two directions are brought up to date, and
      for an entry hop that grew so is the day's bucket. Everything else stays. */
  predicate RecordEnds(was: Tables, s: Sample, now: Tables)
    requires Valid(s.day)
  {
    var key, day := (s.route, s.hop), (s.route, DayString(s.day));
    var h := if key in was.hops then Some(was.hops[key]) else None;
    var bytes := if h.None? then (0, 0) else (h.value.input.bytes, h.value.output.bytes);
    && key in now.hops && now.hops == was.hops[key := now.hops[key]]
    && MeterEnds(if h.None? then None else Some(h.value.input), s.rawIn, now.hops[key].input)
    && MeterEnds(if h.None? then None else Some(h.value.output), s.rawOut, now.hops[key].output)
    && var grown := (now.hops[key].input.bytes - bytes.0, now.hops[key].output.bytes - bytes.1);
       if s.isEntry && (grown.0 > 0 || grown.1 > 0) then
         var b := if day in was.daily then was.daily[day] else (0, 0);
         now.daily == was.daily[day := (b.0 + grown.0, b.1 + grown.1)]
       else now.daily == was.daily
  }

  lemma FoldOutcome(m: Option<Meter>, reading: nat)
    requires reading <= MAX_UINT64
    ensures MeterEnds(m, reading, Fold(m, reading))
  {
  }

  lemma RecordOutcome(t: Tables, s: Sample)
    requires Valid(s.day) && s.rawIn <= MAX_UINT64 && s.rawOut <= MAX_UINT64
    ensures RecordEnds(t, s, RecordedIn(t, s))
  {
    var h := Present(t, s.route, s.hop);
    FoldOutcome(Side(h, false), s.rawIn);
    FoldOutcome(Side(h, true), s.rawOut);
  }

  /** The total of a route's buckets from some day string on, and how many there are. */
  ghost function SumSince(daily: map<(int, Str), (int, int)>, route: int, since: Str): int {
    SumKeys(daily, KeysSince(daily, route, since))
  }

  ghost function KeysSince(daily: map<(int, Str), (int, int)>, route: int, since: Str): (keys: set<(int, Str)>)
    ensures keys <= daily.Keys
  {
    set k | k in daily && k.0 == route && !LexBefore(k.1, since)
  }

  ghost function SumKeys(daily: map<(int, Str), (int, int)>, keys: set<(int, Str)>): int
    requires keys <= daily.Keys
  {
    if keys == {} then 0
    else var k :| k in keys; daily[k].0 + daily[k].1 + SumKeys(daily, keys - {k})
  }

  /** The sum does not depend on the order in which buckets are taken. */
  lemma {:induction false} SumKeysWithout(daily: map<(int, Str), (int, int)>, keys: set<(int, Str)>, k: (int, Str))
    requires keys <= daily.Keys && k in keys
    ensures SumKeys(daily, keys) == daily[k].0 + daily[k].1 + SumKeys(daily, keys - {k})
    decreases |keys|
  {
    var c :| c in keys && SumKeys(daily, keys) == daily[c].0 + daily[c].1 + SumKeys(daily, keys - {c});
    if c != k {
      SumKeysWithout(daily, keys - {c}, k);
      SumKeysWithout(daily, keys - {k}, c);
      assert keys - {c} - {k} == keys - {k} - {c};
    }
  }

  lemma {:induction false} SumKeysSame(d: map<(int, Str), (int, int)>, e: map<(int, Str), (int, int)>,
                                       keys: set<(int, Str)>)
    requires keys <= d.Keys && keys <= e.Keys && forall k | k in keys :: d[k] == e[k]
    ensures SumKeys(d, keys) == SumKeys(e, keys)
    decreases |keys|
  {
    if keys != {} {
      var k :| k in keys;
      SumKeysWithout(d, keys, k);
      SumKeysWithout(e, keys, k);
      SumKeysSame(d, e, keys - {k});
    }
  }

  /** Adding to one bucket adds as much to every sum that includes its day. */
  lemma SumAfterAdd(daily: map<(int, Str), (int, int)>, key: (int, Str), b: (int, int), route: int, since: Str)
    ensures var was := if key in daily then daily[key].0 + daily[key].1 else 0;
            SumSince(daily[key := b], route, since) == SumSince(daily, route, since) +
              (if key.0 == route && !LexBefore(key.1, since) then b.0 + b.1 - was else 0)
  {
    var after := daily[key := b];
    var ks := KeysSince(daily, route, since);
    var ka := KeysSince(after, route, since);
    if key.0 == route && !LexBefore(key.1, since) {
      assert ka == ks + {key} && ka - {key} == ks - {key};
      SumKeysWithout(after, ka, key);
      SumKeysSame(daily, after, ks - {key});
      if key in daily {
        SumKeysWithout(daily, ks, key);
      } else {
        assert ks - {key} == ks;
      }
    } else {
      assert ka == ks;
      SumKeysSame(daily, after, ks);
    }
  }

  // ---------------------------------------------------------------- runs of the store

  /** What happens to the tables: a reading is folded in, or a route's baselines are
      forgotten because its counter rules were rebuilt. */
  datatype Change = Record(sample: Sample) | ForgetBaselines(route: int)

  predicate Dated(c: Change) {
    c.Record? ==> Valid(c.sample.day)
  }

  function Forgotten(t: Tables, route: int): Tables {
    t.(hops := map k | k in t.hops ::
         if k.0 == route then Hop(t.hops[k].input.(raw := None), t.hops[k].output.(raw := None)) else t.hops[k])
  }

  function Apply(t: Tables, c: Change): Tables
    requires Dated(c)
  {
    match c
    case Record(s) => RecordedIn(t, s)
    case ForgetBaselines(route) => Forgotten(t, route)
  }

  class TrafficStore {
    var tables: Tables

    /** One transaction: the hop's row, and for an entry hop that grew the day's bucket. */
    method RecordTraffic(s: Sample)
      requires Valid(s.day)
      modifies this
      ensures tables == RecordedIn(old(tables), s)
    {
      var prevIn, prevOut: Option<int> := None, None;
      var bytesIn, bytesOut := 0, 0;
      if (s.route, s.hop) in tables.hops {
        var h := tables.hops[(s.route, s.hop)];
        prevIn, prevOut := h.input.raw, h.output.raw;
        bytesIn, bytesOut := h.input.bytes, h.output.bytes;
      }
      var deltaIn, deltaOut := CounterDelta(prevIn, s.rawIn), CounterDelta(prevOut, s.rawOut);
      var hops := tables.hops[(s.route, s.hop) :=
        Hop(Meter(bytesIn + deltaIn, Some(Int64(s.rawIn))), Meter(bytesOut + deltaOut, Some(Int64(s.rawOut))))];
      var daily := tables.daily;
      if s.isEntry && (deltaIn > 0 || deltaOut > 0) {
        var b := Bucket(tables, s.route, DayString(s.day));
        daily := daily[(s.route, DayString(s.day)) := (b.0 + deltaIn, b.1 + deltaOut)];
      }
      tables := Tables(hops, daily);
    }

    /** Forgets what a route's counters were last seen at: its next readings add nothing,
        while everything recorded so far stays, and so do all other routes' baselines. */
    method ResetTrafficBaseline(route: int)
      modifies this
      ensures tables == Forgotten(old(tables), route)
      ensures tables.daily == old(tables).daily
      ensures forall r: int, h: int :: HopBytes(tables, r, h) == HopBytes(old(tables), r, h)
      ensures forall s: Sample, out: bool ::
                DeltaOf(tables, s, out) == if s.route == route then 0 else DeltaOf(old(tables), s, out)
    {
      var hops := tables.hops;
      tables := tables.(hops := map k | k in hops ::
        if k.0 != route then hops[k]
        else Hop(hops[k].input.(raw := None), hops[k].output.(raw := None)));
    }
  }

  ghost predicate IsHistory(tables: seq<Tables>, changes: seq<Change>) {
    && |tables| == |changes| + 1 && tables[0] == Tables(map[], map[])
    && forall i | 0 <= i < |changes| ::
         && Dated(changes[i]) && tables[i + 1] == Apply(tables[i], changes[i])
         && (changes[i].Record? ==>    // what a counter grew fits the signed columns
               DeltaOf(tables[i], changes[i].sample, false) >= 0 && DeltaOf(tables[i], changes[i].sample, true) >= 0)
  }

  /** What one change adds to a route's bytes on days not before `since`, as recorded by
      readings of its entry hop. */
  function EntryBytes(t: Tables, c: Change, route: int, since: Date): int {
    if c.Record? && c.sample.route == route && c.sample.isEntry && !Before(c.sample.day, since)
    then DeltaOf(t, c.sample, false) + DeltaOf(t, c.sample, true) else 0
  }

  function EntryBytesSince(tables: seq<Tables>, changes: seq<Change>, n: nat, route: int, since: Date): int
    requires n <= |tables| && n <= |changes|
  {
    if n == 0 then 0
    else EntryBytesSince(tables, changes, n - 1, route, since) + EntryBytes(tables[n - 1], changes[n - 1], route, since)
  }

  lemma ChangeAddsEntryBytes(t: Tables, c: Change, route: int, since: Date)
    requires Dated(c) && Valid(since)
    requires c.Record? ==> DeltaOf(t, c.sample, false) >= 0 && DeltaOf(t, c.sample, true) >= 0
    ensures SumSince(Apply(t, c).daily, route, DayString(since)) ==
              SumSince(t.daily, route, DayString(since)) + EntryBytes(t, c, route, since)
  {
    if c.Record? {
      var s := c.sample;
      var deltaIn, deltaOut := DeltaOf(t, s, false), DeltaOf(t, s, true);
      DayStringsAreOrdered(s.day, since);
      if s.isEntry && (deltaIn > 0 || deltaOut > 0) {
        var key := (s.route, DayString(s.day));
        var b := Bucket(t, s.route, DayString(s.day));
        SumAfterAdd(t.daily, key, (b.0 + deltaIn, b.1 + deltaOut), route, DayString(since));
      }
    }
  }

  /** Summing the buckets whose day string is not before a day's gives exactly the bytes the
      readings of the route's entry hop added from that day on. */
  lemma {:induction false} PeriodSumIsExact(tables: seq<Tables>, changes: seq<Change>, n: nat, route: int, since: Date)
    requires IsHistory(tables, changes) && n <= |changes| && Valid(since)
    ensures SumSince(tables[n].daily, route, DayString(since)) == EntryBytesSince(tables, changes, n, route, since)
  {
    if n == 0 {
      assert KeysSince(tables[0].daily, route, DayString(since)) == {};
    } else {
      PeriodSumIsExact(tables, changes, n - 1, route, since);
      ChangeAddsEntryBytes(tables[n - 1], changes[n - 1], route, since);
    }
  }

  function HopBytes(t: Tables, route: int, hop: int): int {
    var h := Present(t, route, hop);
    if h.None? then 0 else h.value.input.bytes + h.value.output.bytes
  }

  /** A hop is the route's entry in every reading of the route, and no other hop is. */
  predicate FixedEntry(changes: seq<Change>, route: int, entry: int) {
    forall i :: 0 <= i < |changes| && changes[i].Record? && changes[i].sample.route == route ==>
      (changes[i].sample.isEntry <==> changes[i].sample.hop == entry)
  }

  lemma ChangeAddsHopBytes(t: Tables, c: Change, route: int, entry: int)
    requires Dated(c)
    requires c.Record? && c.sample.route == route ==> (c.sample.isEntry <==> c.sample.hop == entry)
    ensures HopBytes(Apply(t, c), route, entry) == HopBytes(t, route, entry) + EntryBytes(t, c, route, Date(0, 1, 1))
  {
  }

  /** All buckets of a route together are its entry hop's running total. */
  lemma {:induction false} DailyBucketsSumToTotal(tables: seq<Tables>, changes: seq<Change>, n: nat,
                                                  route: int, entry: int)
    requires IsHistory(tables, changes) && n <= |changes| && FixedEntry(changes, route, entry)
    ensures HopBytes(tables[n], route, entry) == SumSince(tables[n].daily, route, DayString(Date(0, 1, 1)))
  {
    HopBytesAreEntryBytes(tables, changes, n, route, entry);
    PeriodSumIsExact(tables, changes, n, route, Date(0, 1, 1));
  }

  lemma {:induction false} HopBytesAreEntryBytes(tables: seq<Tables>, changes: seq<Change>, n: nat,
                                                 route: int, entry: int)
    requires IsHistory(tables, changes) && n <= |changes| && FixedEntry(changes, route, entry)
    ensures HopBytes(tables[n], route, entry) == EntryBytesSince(tables, changes, n, route, Date(0, 1, 1))
  {
    if n > 0 {
      HopBytesAreEntryBytes(tables, changes, n - 1, route, entry);
      ChangeAddsHopBytes(tables[n - 1], changes[n - 1], route, entry);
    }
  }
}
