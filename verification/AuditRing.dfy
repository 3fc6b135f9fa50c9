/** The live list of visited sites: newest first, repeats folded together, bounded. */
module AuditRing {
  import opened Prelude
  import opened Text

  const CAPACITY := 1000
  const MERGE_WINDOW := 60_000_000_000
  const MERGE_SCAN := 64

  /** A site visit; `text` holds the fields a query is matched against, in lower case. */
  datatype Record = Record(id: nat, at: int, node: Str, machine: Str, target: Str, text: seq<Str>, count: nat)

  predicate Repeats(old': Record, rec: Record) {
    && old'.node == rec.node && old'.target == rec.target
    && -MERGE_WINDOW <= rec.at - old'.at <= MERGE_WINDOW
  }

  function Folded(old': Record, rec: Record): Record {
    old'.(count := old'.count + 1, at := if rec.at > old'.at then rec.at else old'.at)
  }

  /** The position of the newest record `rec` repeats, among those that are looked at. */
  function FirstRepeat(records: seq<Record>, rec: Record, i: nat): (r: Option<nat>)
    ensures r.Some? ==> i <= r.value < |records| && r.value < MERGE_SCAN && Repeats(records[r.value], rec)
    ensures forall j | i <= j < (if r.Some? then r.value else |records|) && j < MERGE_SCAN :: !Repeats(records[j], rec)
    decreases |records| - i
  {
    if i >= |records| || i >= MERGE_SCAN then None
    else if Repeats(records[i], rec) then Some(i)
    else FirstRepeat(records, rec, i + 1)
  }

  // ---------------------------------------------------------------- filters and pages

  /** Zero values match everything; `until` hides records newer than that id. */
  datatype Filter = Filter(machine: Str, query: Str, until: nat)

  predicate Contains(s: Str, q: Str) {
    HasPrefix(s, q) || (s != [] && Contains(s[1..], q))
  }

  predicate Match(f: Filter, r: Record) {
    && (f.until == 0 || r.id <= f.until)
    && (f.machine == [] || r.machine == f.machine)
    && (f.query == [] || exists t | t in r.text :: Contains(t, f.query))
  }

  function Matching(records: seq<Record>, f: Filter): seq<Record> {
    if records == [] then []
    else (if Match(f, records[0]) then [records[0]] else []) + Matching(records[1..], f)
  }

  lemma {:induction false} MatchingConcat(a: seq<Record>, b: seq<Record>, f: Filter)
    ensures Matching(a + b, f) == Matching(a, f) + Matching(b, f)
  {
    if a == [] {
      assert a + b == b;
    } else {
      assert (a + b)[1..] == a[1..] + b;
      MatchingConcat(a[1..], b, f);
    }
  }

  lemma MatchingOneMore(records: seq<Record>, i: nat, f: Filter)
    requires i < |records|
    ensures Matching(records[..i + 1], f) ==
              Matching(records[..i], f) + (if Match(f, records[i]) then [records[i]] else [])
  {
    assert records[..i + 1] == records[..i] + [records[i]];
    MatchingConcat(records[..i], [records[i]], f);
    assert [records[i]][1..] == [];
  }

  /** A query occurs somewhere in a text. */
  predicate OccursAt(s: Str, q: Str, i: int) {
    0 <= i <= |s| - |q| && s[i..i + |q|] == q
  }

  lemma {:induction false} ContainsMeansOccurs(s: Str, q: Str)
    ensures Contains(s, q) <==> exists i :: OccursAt(s, q, i)
  {
    if HasPrefix(s, q) {
      assert OccursAt(s, q, 0);
    } else if s != [] {
      ContainsMeansOccurs(s[1..], q);
      forall i | OccursAt(s[1..], q, i) ensures OccursAt(s, q, i + 1) {
        assert s[1..][i..i + |q|] == s[i + 1..i + 1 + |q|];
      }
      forall i | OccursAt(s, q, i) ensures OccursAt(s[1..], q, i - 1) {
        assert i > 0;
        assert s[1..][i - 1..i - 1 + |q|] == s[i..i + |q|];
      }
    }
  }

  /** A record is shown unless it is newer than asked for, on another machine, or none of its
      texts has the query in it. */
  ghost predicate Shows(f: Filter, r: Record) {
    && (f.until != 0 ==> r.id <= f.until)
    && (f.machine != [] ==> r.machine == f.machine)
    && (f.query != [] ==> exists t, i :: t in r.text && OccursAt(t, f.query, i))
  }

  lemma MatchMeansShows(f: Filter, r: Record)
    ensures Match(f, r) <==> Shows(f, r)
  {
    forall t | t in r.text ensures Contains(t, f.query) <==> exists i :: OccursAt(t, f.query, i) {
      ContainsMeansOccurs(t, f.query);
    }
  }

  /** The matches are the records that are shown, all of them and in their order. */
  lemma {:induction false} MatchesAreShown(records: seq<Record>, f: Filter) returns (at: seq<nat>)
    ensures |at| == |Matching(records, f)|
    ensures forall k | 0 <= k < |at| :: at[k] < |records| && Matching(records, f)[k] == records[at[k]]
    ensures forall j, k | 0 <= j < k < |at| :: at[j] < at[k]
    ensures forall i: nat | i < |records| :: i in at <==> Shows(f, records[i])
  {
    at := [];
    if records != [] {
      var last := |records| - 1;
      assert records[..last + 1] == records;
      MatchingOneMore(records, last, f);
      at := MatchesAreShown(records[..last], f);
      MatchMeansShows(f, records[last]);
      if Match(f, records[last]) {
        at := at + [last];
      }
    }
  }

  function Least(a: nat, b: nat): nat {
    if a <= b then a else b
  }

  function Slice(matches: seq<Record>, start: nat, size: nat): seq<Record> {
    matches[Least(start, |matches|)..Least(start + size, |matches|)]
  }

  lemma SliceOfOneMore(matches: seq<Record>, r: Record, start: nat, size: nat)
    ensures var s := Slice(matches, start, size);
            Slice(matches + [r], start, size) == if |matches| >= start && |s| < size then s + [r] else s
  {
    var more := matches + [r];
    if |matches| >= start && |matches| < start + size {
      assert more[start..|more|] == matches[start..|matches|] + [r];
    } else if |matches| < start {
      assert Slice(more, start, size) == [];
    } else {
      assert more[start..start + size] == matches[start..start + size];
    }
  }

  /** The n-th page, counted from 1, of a list of matches. */
  function PageOf(matches: seq<Record>, n: nat, size: nat): seq<Record>
    requires n >= 1
  {
    Slice(matches, (n - 1) * size, size)
  }

  function Pages(matches: seq<Record>, n: nat, size: nat): seq<Record> {
    if n == 0 then [] else Pages(matches, n - 1, size) + PageOf(matches, n, size)
  }

  lemma NextSlice(matches: seq<Record>, a: nat, size: nat)
    ensures matches[..Least(a, |matches|)] + Slice(matches, a, size) == matches[..Least(a + size, |matches|)]
  {
  }

  /** Pages 1 to n, one after another, are the matches from the first on; once there are
      enough pages, they are all the matches, each exactly once. */
  lemma {:induction false} PagesCover(matches: seq<Record>, n: nat, size: nat)
    ensures Pages(matches, n, size) == matches[..Least(n * size, |matches|)]
    ensures n * size >= |matches| ==> Pages(matches, n, size) == matches
  {
    if n > 0 {
      PagesCover(matches, n - 1, size);
      NextSlice(matches, (n - 1) * size, size);
      assert (n - 1) * size + size == n * size;
    }
  }

  // ---------------------------------------------------------------- the ring as a value

  /** The list, the last id given out, and what was added to and evicted from it. */
  datatype State = State(records: seq<Record>, nextID: nat, added: nat, evicted: nat)

  function Visits(rec: Record): nat {
    if rec.count == 0 then 1 else rec.count
  }

  function Added(s: State, rec: Record): State {
    match FirstRepeat(s.records, rec, 0)
    case Some(i) =>
      s.(records := [Folded(s.records[i], rec)] + s.records[..i] + s.records[i + 1..], added := s.added + 1)
    case None =>
      var all := [rec.(id := s.nextID + 1, count := Visits(rec))] + s.records;
      var kept := Least(CAPACITY, |all|);
      State(all[..kept], s.nextID + 1, s.added + Visits(rec), s.evicted + Counts(all[kept..]))
  }

  /** A visit of the same target from the same node at most a minute apart. */
  predicate SameVisit(a: Record, b: Record) {
    a.node == b.node && a.target == b.target && a.at - b.at <= 60_000_000_000 && b.at - a.at <= 60_000_000_000
  }

  /** The newest of the first 64 records that the visit repeats. */
  predicate RepeatedAt(was: seq<Record>, rec: Record, i: int) {
    0 <= i < |was| && i < 64 && SameVisit(was[i], rec) && forall j | 0 <= j < i :: !SameVisit(was[j], rec)
  }

  /** The visit is counted in the record it repeats, which takes the later time and moves to
      the top. */
  predicate FoldedInto(was: State, rec: Record, now: State, i: int) {
    && RepeatedAt(was.records, rec, i) && |now.records| == |was.records|
    && now.records[1..] == was.records[..i] + was.records[i + 1..]
    && now.records[0] == was.records[i].(count := was.records[i].count + 1, at := now.records[0].at)
    && now.records[0].at >= was.records[i].at && now.records[0].at >= rec.at
    && (now.records[0].at == was.records[i].at || now.records[0].at == rec.at)
    && now.nextID == was.nextID
  }

  /** The visit becomes a record of its own on top, and of more than 1000 the oldest goes. */
  predicate StoredOnTop(was: State, rec: Record, now: State) {
    var new' := rec.(id := was.nextID + 1, count := if rec.count == 0 then 1 else rec.count);
    && now.nextID == was.nextID + 1
    && now.records == [new'] + if |was.records| < 1000 then was.records else was.records[..999]
  }

  ghost predicate RepeatsSome(records: seq<Record>, rec: Record) {
    exists i :: RepeatedAt(records, rec, i)
  }

  /** What an added visit leaves. */
  ghost predicate AddEnds(was: State, rec: Record, now: State) {
    if RepeatsSome(was.records, rec) then exists i :: FoldedInto(was, rec, now, i)
    else StoredOnTop(was, rec, now)
  }

  lemma AddOutcome(s: State, rec: Record)
    requires |s.records| <= CAPACITY
    ensures AddEnds(s, rec, Added(s, rec))
  {
    assert forall r :: Repeats(r, rec) <==> SameVisit(r, rec);
    var t := Added(s, rec);
    match FirstRepeat(s.records, rec, 0)
    case Some(i) =>
      assert RepeatedAt(s.records, rec, i);
      assert t.records[1..] == s.records[..i] + s.records[i + 1..];
      assert FoldedInto(s, rec, t, i);
    case None =>
      assert forall i :: !RepeatedAt(s.records, rec, i);
      if |s.records| == CAPACITY {
        assert t.records == [t.records[0]] + s.records[..999];
      }
  }

  function AddAll(s: State, recs: seq<Record>): State {
    if recs == [] then s else Added(AddAll(s, recs[..|recs| - 1]), recs[|recs| - 1])
  }

  function Counts(records: seq<Record>): nat {
    if records == [] then 0 else records[0].count + Counts(records[1..])
  }

  lemma {:induction false} CountsConcat(a: seq<Record>, b: seq<Record>)
    ensures Counts(a + b) == Counts(a) + Counts(b)
  {
    if a == [] {
      assert a + b == b;
    } else {
      assert (a + b)[1..] == a[1..] + b;
      CountsConcat(a[1..], b);
    }
  }

  predicate DistinctIds(records: seq<Record>, limit: nat) {
    && (forall i :: 0 <= i < |records| ==> 1 <= records[i].id <= limit)
    && (forall i, j :: 0 <= i < j < |records| ==> records[i].id != records[j].id)
  }

  predicate Inv(s: State) {
    && |s.records| <= CAPACITY
    && DistinctIds(s.records, s.nextID)
    && Counts(s.records) + s.evicted == s.added
  }

  lemma FoldingKeepsCounts(records: seq<Record>, i: nat, r: Record)
    requires i < |records| && r.count == records[i].count + 1
    ensures Counts([r] + records[..i] + records[i + 1..]) == Counts(records) + 1
  {
    var before, after := records[..i], records[i + 1..];
    assert records == before + [records[i]] + after;
    CountsConcat(before, [records[i]]);
    CountsConcat(before + [records[i]], after);
    CountsConcat([r], before);
    CountsConcat([r] + before, after);
  }

  lemma FoldingKeepsIds(records: seq<Record>, i: nat, r: Record, limit: nat)
    requires DistinctIds(records, limit) && i < |records| && r.id == records[i].id
    ensures DistinctIds([r] + records[..i] + records[i + 1..], limit)
  {
    var moved := [r] + records[..i] + records[i + 1..];
    forall k | 0 <= k < |moved|
      ensures moved[k].id == records[if k == 0 then i else if k <= i then k - 1 else k].id
    {
    }
  }

  lemma StoringKeepsInv(s: State, r: Record)
    requires Inv(s) && r.id == s.nextID + 1
    ensures var all := [r] + s.records;
            var kept := Least(CAPACITY, |all|);
            Inv(State(all[..kept], s.nextID + 1, s.added + r.count, s.evicted + Counts(all[kept..])))
  {
    var all := [r] + s.records;
    var kept := Least(CAPACITY, |all|);
    CountsConcat(all[..kept], all[kept..]);
    assert all == all[..kept] + all[kept..];
    assert all[1..] == s.records;
    assert Counts(all) == r.count + Counts(s.records);
    assert DistinctIds(all, s.nextID + 1);
  }

  lemma AddKeepsInv(s: State, rec: Record)
    requires Inv(s)
    ensures Inv(Added(s, rec))
  {
    match FirstRepeat(s.records, rec, 0)
    case Some(i) =>
      FoldingKeepsCounts(s.records, i, Folded(s.records[i], rec));
      FoldingKeepsIds(s.records, i, Folded(s.records[i], rec), s.nextID);
    case None => StoringKeepsInv(s, rec.(id := s.nextID + 1, count := Visits(rec)));
  }

  function Empty(): State {
    State([], 0, 0, 0)
  }

  predicate SingleVisits(recs: seq<Record>) {
    forall i :: 0 <= i < |recs| ==> recs[i].count <= 1
  }

  /** After any sequence of single visits the list is bounded, its ids differ, and every
      visit is counted in exactly one record that is in the list or was evicted from it. */
  lemma {:induction false} RingCountsEveryVisit(recs: seq<Record>)
    requires SingleVisits(recs)
    ensures var s := AddAll(Empty(), recs); Inv(s) && s.added == |recs|
  {
    if recs != [] {
      RingCountsEveryVisit(recs[..|recs| - 1]);
      AddKeepsInv(AddAll(Empty(), recs[..|recs| - 1]), recs[|recs| - 1]);
    }
  }

  function VisibleIds(s: State, f: Filter): set<nat> {
    set i | 0 <= i < |s.records| && Match(f, s.records[i]) :: s.records[i].id
  }

  lemma AddHidesNewcomers(s: State, rec: Record, f: Filter)
    requires 0 < f.until <= s.nextID
    ensures VisibleIds(Added(s, rec), f) <= VisibleIds(s, f) && s.nextID <= Added(s, rec).nextID
  {
    var t := Added(s, rec);
    forall k | 0 <= k < |t.records| && Match(f, t.records[k])
      ensures t.records[k].id in VisibleIds(s, f)
    {
      match FirstRepeat(s.records, rec, 0)
      case Some(i) =>
        var from := if k == 0 then i else if k <= i then k - 1 else k;
        assert t.records[k] == if k == 0 then Folded(s.records[i], rec) else s.records[from];
        assert Match(f, s.records[from]);
      case None =>
        assert k > 0 && t.records[k] == s.records[k - 1];
    }
  }

  /** A view frozen at some id never gains a record, whatever arrives meanwhile. */
  lemma {:induction false} FrozenViewNeverGrows(s: State, recs: seq<Record>, f: Filter)
    requires 0 < f.until <= s.nextID
    ensures VisibleIds(AddAll(s, recs), f) <= VisibleIds(s, f) && s.nextID <= AddAll(s, recs).nextID
  {
    if recs != [] {
      FrozenViewNeverGrows(s, recs[..|recs| - 1], f);
      AddHidesNewcomers(AddAll(s, recs[..|recs| - 1]), recs[|recs| - 1], f);
    }
  }

  // ---------------------------------------------------------------- the ring itself

  class Ring {
    var records: seq<Record>
    var nextID: nat
    ghost var added: nat
    ghost var evicted: nat

    ghost function Value(): State
      reads this
    {
      State(records, nextID, added, evicted)
    }

    constructor ()
      ensures Value() == Empty()
    {
      records, nextID, added, evicted := [], 0, 0, 0;
    }

    /** Stores a record, or folds it into a recent identical visit and moves that to the top. */
    method Add(rec: Record)
      modifies this
      ensures Value() == Added(old(Value()), rec)
    {
      var i := 0;
      while i < |records| && i < MERGE_SCAN
        invariant i <= |records| && Value() == old(Value())
        invariant FirstRepeat(records, rec, 0) == FirstRepeat(records, rec, i)
      {
        var seen := records[i];
        if Repeats(seen, rec) {
          seen := seen.(count := seen.count + 1);
          if rec.at > seen.at {
            seen := seen.(at := rec.at);
          }
          records := [seen] + records[..i] + records[i + 1..];
          added := added + 1;
          return;
        }
        i := i + 1;
      }
      nextID := nextID + 1;
      var stored := rec.(id := nextID);
      if stored.count == 0 {
        stored := stored.(count := 1);
      }
      added := added + stored.count;
      records := [stored] + records;
      if |records| > CAPACITY {
        evicted := evicted + Counts(records[CAPACITY..]);
        records := records[..CAPACITY];
      } else {
        assert records[..|records|] == records && records[|records|..] == [];
      }
    }

    /** One page of the matching records, and how many match in all. */
    method Page(page: int, size: nat, f: Filter) returns (out: seq<Record>, total: nat)
      ensures total == |Matching(records, f)|
      ensures out == PageOf(Matching(records, f), if page < 1 then 1 else page, size)
    {
      var n: nat := if page < 1 then 1 else page;
      out, total := Scan((n - 1) * size, size, f);
    }

    /** The pass over all records: counts the matches, and keeps those within a window. */
    method Scan(start: nat, size: nat, f: Filter) returns (out: seq<Record>, total: nat)
      ensures total == |Matching(records, f)| && out == Slice(Matching(records, f), start, size)
    {
      out, total := [], 0;
      ghost var seen := [];
      for i := 0 to |records|
        invariant seen == Matching(records[..i], f)
        invariant total == |seen| && out == Slice(seen, start, size)
      {
        MatchingOneMore(records, i, f);
        if Match(f, records[i]) {
          SliceOfOneMore(seen, records[i], start, size);
          if total >= start && |out| < size {
            out := out + [records[i]];
          }
          total := total + 1;
          seen := seen + [records[i]];
        }
      }
      assert records[..|records|] == records;
    }
  }
}
