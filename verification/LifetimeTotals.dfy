/** The lifetime total of a subscription group: the counters of all its members, added up
    without ever leaving 64 bits.
  */
module LifetimeTotals {
  import opened Prelude
  import opened Readings

  /** What a group has used in its lifetime, and the last readings of its members. */
  datatype Lifetime = Lifetime(used: int, last: map<int, (int, int)>)

  function LastOf(l: Lifetime, member: int): (int, int) {
    if member in l.last then l.last[member] else (0, 0)
  }

  function Growth(last: int, now: int): int {
    if now < last then now else now - last
  }

  function LeastOf(a: int, b: int): int {
    if a < b then a else b
  }

  /** One reading of a member, added without ever leaving 64 bits. */
  function Metered(l: Lifetime, member: int, rawIn: int, rawOut: int): Lifetime {
    var di, do' := Growth(LastOf(l, member).0, rawIn), Growth(LastOf(l, member).1, rawOut);
    var delta := if do' > MAX_INT64 - di then MAX_INT64 else di + do';
    Lifetime(if l.used > MAX_INT64 - delta then MAX_INT64 else l.used + delta, l.last[member := (rawIn, rawOut)])
  }

  class SubscriptionMeters {
    var group: Lifetime

    method RecordSubscriptionCounters(member: int, rawIn: int, rawOut: int) returns (ok: bool)
      modifies this
      ensures ok <==> rawIn >= 0 && rawOut >= 0
      ensures group == if ok then Metered(old(group), member, rawIn, rawOut) else old(group)
    {
      if rawIn < 0 || rawOut < 0 {
        return false;
      }
      var last := LastOf(group, member);
      var di, do' := rawIn - last.0, rawOut - last.1;
      if di < 0 {
        di := rawIn;
      }
      if do' < 0 {
        do' := rawOut;
      }
      var delta := di;
      if do' > MAX_INT64 - delta {
        delta := MAX_INT64;
      } else {
        delta := delta + do';
      }
      group := Lifetime(if group.used > MAX_INT64 - delta then MAX_INT64 else group.used + delta,
                        group.last[member := (rawIn, rawOut)]);
      ok := true;
    }
  }

  datatype Counters = Counters(member: int, rawIn: nat, rawOut: nat)

  function MeteredAll(readings: seq<Counters>): Lifetime {
    if readings == [] then Lifetime(0, map[])
    else
      var r := readings[|readings| - 1];
      Metered(MeteredAll(readings[..|readings| - 1]), r.member, r.rawIn, r.rawOut)
  }

  /** The readings of one counter of one member. */
  function Series(readings: seq<Counters>, member: int, out: bool): seq<nat> {
    if readings == [] then []
    else
      var last := readings[|readings| - 1];
      Series(readings[..|readings| - 1], member, out)
      + if last.member == member then [if out then last.rawOut else last.rawIn] else []
  }

  function Members(readings: seq<Counters>): set<int> {
    set r | r in readings :: r.member
  }

  /** What the readings show of each member, and what they last were. */
  function KnownBy(readings: seq<Counters>): map<int, nat> {
    map m | m in Members(readings) :: KnownOf(readings, m)
  }

  function KnownOf(readings: seq<Counters>, m: int): nat {
    Known(Series(readings, m, false)) + Known(Series(readings, m, true))
  }

  function LastBy(readings: seq<Counters>): map<int, nat> {
    map m | m in Members(readings) :: LastIn(Series(readings, m, false)) + LastIn(Series(readings, m, true))
  }

  function LastIn(series: seq<nat>): nat {
    if series == [] then 0 else series[|series| - 1]
  }

  predicate Fits(readings: seq<Counters>) {
    forall i | 0 <= i < |readings| :: readings[i].rawIn <= MAX_INT64 && readings[i].rawOut <= MAX_INT64
  }

  lemma {:induction false} LastReadings(readings: seq<Counters>, m: int)
    ensures m in MeteredAll(readings).last <==> m in Members(readings)
    ensures LastOf(MeteredAll(readings), m) ==
              (LastIn(Series(readings, m, false)), LastIn(Series(readings, m, true)))
    ensures m !in Members(readings) ==> Series(readings, m, false) == [] && Series(readings, m, true) == []
  {
    if readings != [] {
      var last := |readings| - 1;
      LastReadings(readings[..last], m);
      MembersMore(readings);
    }
  }

  lemma MembersMore(readings: seq<Counters>)
    requires readings != []
    ensures var last := |readings| - 1;
            Members(readings) == Members(readings[..last]) + {readings[last].member}
  {
    var last := |readings| - 1;
    assert readings == readings[..last] + [readings[last]];
  }

  lemma SeriesMore(init: seq<Counters>, r: Counters, m: int, out: bool)
    ensures Series(init + [r], m, out) ==
              Series(init, m, out) + if r.member == m then [if out then r.rawOut else r.rawIn] else []
  {
    assert (init + [r])[..|init|] == init;
  }

  lemma KnownOfMore(init: seq<Counters>, r: Counters, m: int)
    ensures KnownOf(init + [r], m) ==
              if r.member == m
              then Known(Series(init, m, false) + [r.rawIn]) + Known(Series(init, m, true) + [r.rawOut])
              else KnownOf(init, m)
  {
    SeriesMore(init, r, m, false);
    SeriesMore(init, r, m, true);
    assert Series(init, m, false) + [] == Series(init, m, false) && Series(init, m, true) + [] == Series(init, m, true);
  }

  /** One more reading changes what is known of its own member only. */
  lemma KnownMore(init: seq<Counters>, r: Counters)
    ensures KnownBy(init + [r]) == KnownBy(init)[r.member := KnownOf(init + [r], r.member)]
  {
    assert (init + [r])[..|init|] == init;
    MembersMore(init + [r]);
    forall m | m in Members(init + [r])
      ensures KnownBy(init + [r])[m] == KnownBy(init)[r.member := KnownOf(init + [r], r.member)][m]
    {
      KnownOfMore(init, r, m);
    }
  }

  lemma KnownGrows(series: seq<nat>, now: nat)
    ensures Known(series + [now]) == Known(series) + Growth(LastIn(series), now)
  {
    OneMoreReading(series, now);
  }

  /** What the lifetime total gains is what the reading shows beyond what was known. */
  lemma TotalMore(readings: seq<Counters>)
    requires readings != []
    ensures var init, r := readings[..|readings| - 1], readings[|readings| - 1];
            var last := LastOf(MeteredAll(init), r.member);
            Total(KnownBy(readings)) == Total(KnownBy(init)) + Growth(last.0, r.rawIn) + Growth(last.1, r.rawOut)
  {
    var init, r := readings[..|readings| - 1], readings[|readings| - 1];
    LastReadings(init, r.member);
    KnownGrows(Series(init, r.member, false), r.rawIn);
    KnownGrows(Series(init, r.member, true), r.rawOut);
    assert init + [r] == readings;
    KnownMore(init, r);
    KnownOfMore(init, r, r.member);
    TotalUpdate(KnownBy(init), r.member, KnownOf(readings, r.member));
  }

  /** The lifetime total is all that the readings show of all members together, restarts and
      all, cut off at the largest 64-bit integer. */
  lemma {:induction false} LifetimeSaturates(readings: seq<Counters>)
    requires Fits(readings)
    ensures MeteredAll(readings).used == LeastOf(MAX_INT64, Total(KnownBy(readings)))
  {
    if readings == [] {
      assert KnownBy(readings).Keys == {};
    } else {
      var init, r := readings[..|readings| - 1], readings[|readings| - 1];
      LifetimeSaturates(init);
      TotalMore(readings);
      LastFits(init, r.member);
      Saturates(MeteredAll(init), r, Total(KnownBy(init)));
    }
  }

  lemma {:induction false} LastFits(readings: seq<Counters>, m: int)
    requires Fits(readings)
    ensures 0 <= LastOf(MeteredAll(readings), m).0 <= MAX_INT64 && 0 <= LastOf(MeteredAll(readings), m).1 <= MAX_INT64
  {
    if readings != [] {
      LastFits(readings[..|readings| - 1], m);
    }
  }

  lemma Saturates(l: Lifetime, r: Counters, total: nat)
    requires l.used == LeastOf(MAX_INT64, total) && r.rawIn <= MAX_INT64 && r.rawOut <= MAX_INT64
    requires LastOf(l, r.member).0 >= 0 && LastOf(l, r.member).1 >= 0
    ensures Metered(l, r.member, r.rawIn, r.rawOut).used ==
              var last := LastOf(l, r.member);
              LeastOf(MAX_INT64, total + Growth(last.0, r.rawIn) + Growth(last.1, r.rawOut))
  {
  }

  /** While no counter reads lower than before, that is the sum of all members' latest
      readings. */
  lemma LifetimeIsLatest(readings: seq<Counters>)
    requires Fits(readings)
    requires forall m, out | m in Members(readings) :: NeverFalls(Series(readings, m, out))
    ensures MeteredAll(readings).used == LeastOf(MAX_INT64, Total(LastBy(readings)))
  {
    LifetimeSaturates(readings);
    forall m | m in Members(readings)
      ensures KnownBy(readings)[m] == LastBy(readings)[m]
    {
      KnownIsLatest(Series(readings, m, false));
      KnownIsLatest(Series(readings, m, true));
    }
    assert KnownBy(readings) == LastBy(readings);
  }

  /** What really happened to the two counters of every member. */
  type Truth = map<int, (seq<Event>, seq<Event>)>

  ghost predicate ReadFrom(readings: seq<Counters>, truth: Truth) {
    forall m | m in Members(readings) ::
      && m in truth
      && After(truth[m].0).readings == Series(readings, m, false)
      && After(truth[m].1).readings == Series(readings, m, true)
  }

  ghost function PassedBy(readings: seq<Counters>, truth: Truth): map<int, nat>
    requires ReadFrom(readings, truth)
  {
    map m | m in Members(readings) :: After(truth[m].0).passed + After(truth[m].1).passed
  }

  /** Whatever restarts and whichever bytes go unread, the lifetime total never exceeds what
      really passed. If all counters were just read and lost nothing, it is what passed, cut
      off at the largest 64-bit integer. */
  lemma LifetimeNeverOvercounts(readings: seq<Counters>, truth: Truth)
    requires Fits(readings) && ReadFrom(readings, truth)
    ensures MeteredAll(readings).used <= Total(PassedBy(readings, truth))
    ensures (forall m | m in Members(readings) :: AllRead(truth[m].0) && AllRead(truth[m].1)) ==>
              MeteredAll(readings).used == LeastOf(MAX_INT64, Total(PassedBy(readings, truth)))
  {
    var known, passed := KnownBy(readings), PassedBy(readings, truth);
    LifetimeSaturates(readings);
    forall m | m in Members(readings)
      ensures known[m] <= passed[m]
      ensures AllRead(truth[m].0) && AllRead(truth[m].1) ==> known[m] == passed[m]
    {
      KnownOrLost(truth[m].0);
      KnownOrLost(truth[m].1);
    }
    SumMono(known, passed, known.Keys);
    if forall m | m in Members(readings) :: AllRead(truth[m].0) && AllRead(truth[m].1) {
      SumMono(passed, known, known.Keys);
    }
  }

  ghost predicate AllRead(events: seq<Event>) {
    Pending(After(events)) == 0 && AllLost(events) == 0
  }
}
