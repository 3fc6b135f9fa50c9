/** Stopping and resuming routes over their traffic quota, against operators starting and
    stopping the same routes.

    A pass lists all routes when it begins and takes its time over them, so it acts on what
    a route was. A start checks, deploys, checks again, writes and perhaps rolls back.
    Anything may come between any two steps of either, and every database access may fail.
  */
module QuotaEnforcement {
  import opened Prelude

  /** A route's flags and what is known of its usage in the current billing period. */
  datatype Route = Route(enabled: bool, paused: bool, quota: Option<int>, used: nat, measured: bool)

  /** Which of a pass's accesses to the database fail for one route. */
  datatype Faults = Faults(usage: bool, enabled: bool, mark: bool, hops: bool)

  predicate OverQuota(r: Route) {
    r.quota.Some? && r.measured && r.used >= r.quota.value
  }

  predicate UnderQuota(r: Route) {
    r.quota.Some? && r.measured && r.used < r.quota.value
  }

  datatype Decision = Leave | Pause | Resume

  /** A pass judges a route by its flags and cap as listed when the pass began, and by its
      usage as it is when its turn comes. */
  function Judgement(listed: Route, row: Route, usageFails: bool): Decision {
    var r := Measured(listed, row);
    if usageFails then Leave
    else if OverQuota(r) && r.enabled then Pause
    else if UnderQuota(r) && r.paused then Resume
    else Leave
  }

  /** What a pass does to a row. */
  function Enforced(listed: Route, row: Route, f: Faults): Route {
    match Judgement(listed, row, f.usage)
    case Leave => row
    case Pause => if f.enabled then row else row.(enabled := false, paused := row.paused || !f.mark)
    case Resume => if f.enabled then row else row.(enabled := true, paused := row.paused && f.mark)
  }

  predicate Errs(listed: Route, row: Route, f: Faults) {
    && listed.quota.Some?
    && (f.usage || match Judgement(listed, row, f.usage)
                   case Leave => false
                   case Pause => f.enabled || f.mark || f.hops
                   case Resume => f.enabled || f.mark)
  }

  predicate Near(listed: Route, row: Route, f: Faults) {
    listed.quota.Some? && !f.usage && row.measured && 10 * row.used >= 9 * listed.quota.value
  }

  /** A row read earlier, with the usage as it is now. */
  function Measured(row: Route, now: Route): Route {
    row.(used := now.used, measured := now.measured)
  }

  /** The check a start makes, twice: of a row it read and of the usage it reads next. */
  predicate Startable(r: Route, usageFails: bool) {
    && !r.paused
    && (r.quota.Some? ==> r.quota.value > 0 && !usageFails && !(r.measured && r.used >= r.quota.value))
  }

  /** What both checks come to: the row read carries no mark, and its cap, if it has one, is
      positive and not reached by a usage that could be read. */
  predicate Admitted(paused: bool, quota: Option<int>, used: nat, measured: bool, usageFails: bool) {
    && !paused
    && match quota
       case None => true
       case Some(cap) => cap > 0 && !usageFails && (measured ==> used < cap)
  }

  /** What a turn leaves of a row, by the flags and the cap listed and the usage at the turn. */
  predicate TurnEnds(listed: Route, was: Route, f: Faults, now: Route) {
    if listed.quota.None? || f.usage || !was.measured || f.enabled then now == was
    else if was.used >= listed.quota.value then
      now == if listed.enabled then was.(enabled := false, paused := was.paused || !f.mark) else was
    else
      now == if listed.paused then was.(enabled := true, paused := was.paused && f.mark) else was
  }

  /** A turn goes wrong where a read or a write it needs fails. */
  predicate TurnFails(listed: Route, was: Route, f: Faults) {
    && listed.quota.Some?
    && (|| f.usage
        || (&& was.measured
            && if was.used >= listed.quota.value then listed.enabled && (f.enabled || f.mark || f.hops)
               else listed.paused && (f.enabled || f.mark)))
  }

  lemma TurnOutcome(listed: Route, row: Route, f: Faults)
    ensures TurnEnds(listed, row, f, Enforced(listed, row, f))
    ensures Errs(listed, row, f) <==> TurnFails(listed, row, f)
  {
  }

  class RouteStore {
    var routes: map<int, Route>

    method SetRouteEnabled(id: int, enabled: bool, fails: bool) returns (ok: bool)
      requires id in routes
      modifies this
      ensures ok == !fails
      ensures routes == if ok then old(routes)[id := old(routes)[id].(enabled := enabled)] else old(routes)
    {
      ok := !fails;
      if ok {
        routes := routes[id := routes[id].(enabled := enabled)];
      }
    }

    method SetQuotaPaused(id: int, paused: bool, fails: bool) returns (ok: bool)
      requires id in routes
      modifies this
      ensures ok == !fails
      ensures routes == if ok then old(routes)[id := old(routes)[id].(paused := paused)] else old(routes)
    {
      ok := !fails;
      if ok {
        routes := routes[id := routes[id].(paused := paused)];
      }
    }

    method EnforceOne(id: int, listed: Route, f: Faults) returns (near: bool, failed: bool)
      requires id in routes
      modifies this
      ensures routes == old(routes)[id := Enforced(listed, old(routes)[id], f)]
      ensures near == Near(listed, old(routes)[id], f) && failed == Errs(listed, old(routes)[id], f)
      ensures id in routes && TurnEnds(listed, old(routes)[id], f, routes[id])
      ensures failed <==> TurnFails(listed, old(routes)[id], f)
      ensures near <==> listed.quota.Some? && !f.usage && old(routes)[id].measured
                        && 10 * old(routes)[id].used >= 9 * listed.quota.value
    {
      TurnOutcome(listed, routes[id], f);
      near, failed := false, false;
      if listed.quota.None? {
        return;
      }
      if f.usage {
        return false, true;
      }
      var used, measured := routes[id].used, routes[id].measured;
      if !measured {
        return;
      }
      if used >= listed.quota.value && listed.enabled {
        var ok := SetRouteEnabled(id, false, f.enabled);
        if ok {
          ok := SetQuotaPaused(id, true, f.mark);
          ok := ok && !f.hops;    // forgetting which hops run is the last write
        }
        failed := !ok;
      } else if used < listed.quota.value && listed.paused {
        var ok := SetRouteEnabled(id, true, f.enabled);
        if ok {
          ok := SetQuotaPaused(id, false, f.mark);
        }
        failed := !ok;
      }
      near := 10 * used >= 9 * listed.quota.value;
    }

    /** One enforcement pass over the routes listed when it begins. Before each turn others
        may have changed rows. A fault on one route never keeps another from being judged. */
    method EnforceQuotas(order: seq<int>, faults: map<int, Faults>, others: seq<map<int, Route>>)
        returns (near: bool, failed: bool)
      requires IsPass(routes, order, faults, others)
      modifies this
      ensures routes == Rows(old(routes), order, faults, others, |order|)
      ensures near <==> SomeNear(old(routes), order, faults, others, |order|)
      ensures failed <==> SomeErrs(old(routes), order, faults, others, |order|)
      ensures forall id | id in order && Undisturbed(others, id) ::
                && TurnEnds(old(routes)[id], old(routes)[id], faults[id], routes[id])
                && (OverQuota(routes[id]) && routes[id].enabled <==>
                      OverQuota(old(routes)[id]) && old(routes)[id].enabled && (faults[id].usage || faults[id].enabled))
    {
      var listed := routes;
      near, failed := false, false;
      for k := 0 to |order|
        invariant routes == Rows(listed, order, faults, others, k)
        invariant near <==> SomeNear(listed, order, faults, others, k)
        invariant failed <==> SomeErrs(listed, order, faults, others, k)
      {
        SomeNext(listed, order, faults, others, k);
        routes := routes + others[k];
        var n, f := EnforceOne(order[k], listed[order[k]], faults[order[k]]);
        near, failed := near || n, failed || f;
      }
      forall id | id in order && Undisturbed(others, id)
        ensures TurnEnds(listed[id], listed[id], faults[id], routes[id])
        ensures OverQuota(routes[id]) && routes[id].enabled <==>
                  OverQuota(listed[id]) && listed[id].enabled && (faults[id].usage || faults[id].enabled)
      {
        PassStopsOverQuota(listed, order, faults, others, id);
      }
    }
  }

  // ---------------------------------------------------------------- a whole pass

  /** Nobody else changes the route during the pass. */
  ghost predicate Undisturbed(others: seq<map<int, Route>>, id: int) {
    forall j | 0 <= j < |others| :: id !in others[j]
  }

  /** Every listed route has its turn once, and others change only rows that exist. */
  ghost predicate IsPass(listed: map<int, Route>, order: seq<int>, faults: map<int, Faults>,
                         others: seq<map<int, Route>>) {
    && |others| == |order|
    && (forall id | id in order :: id in listed && id in faults)
    && (forall i, j | 0 <= i < j < |order| :: order[i] != order[j])
    && (forall k | 0 <= k < |others| :: others[k].Keys <= listed.Keys)
  }

  /** All rows after the first `k` turns. */
  ghost function Rows(listed: map<int, Route>, order: seq<int>, faults: map<int, Faults>,
                      others: seq<map<int, Route>>, k: nat): (rows: map<int, Route>)
    requires IsPass(listed, order, faults, others) && k <= |order|
    ensures rows.Keys == listed.Keys
  {
    if k == 0 then listed
    else
      var id := order[k - 1];
      var rows := Rows(listed, order, faults, others, k - 1) + others[k - 1];
      rows[id := Enforced(listed[id], rows[id], faults[id])]
  }

  /** The row that is judged in turn `k`. */
  ghost function AtTurn(listed: map<int, Route>, order: seq<int>, faults: map<int, Faults>,
                        others: seq<map<int, Route>>, k: nat): Route
    requires IsPass(listed, order, faults, others) && k < |order|
  {
    assert order[k] in order;
    (Rows(listed, order, faults, others, k) + others[k])[order[k]]
  }

  ghost predicate NearAt(listed: map<int, Route>, order: seq<int>, faults: map<int, Faults>,
                         others: seq<map<int, Route>>, k: nat)
    requires IsPass(listed, order, faults, others) && k < |order|
  {
    assert order[k] in order;
    Near(listed[order[k]], AtTurn(listed, order, faults, others, k), faults[order[k]])
  }

  ghost predicate ErrsAt(listed: map<int, Route>, order: seq<int>, faults: map<int, Faults>,
                         others: seq<map<int, Route>>, k: nat)
    requires IsPass(listed, order, faults, others) && k < |order|
  {
    assert order[k] in order;
    Errs(listed[order[k]], AtTurn(listed, order, faults, others, k), faults[order[k]])
  }

  /** Some route is near its cap in the first `n` turns. */
  ghost predicate SomeNear(listed: map<int, Route>, order: seq<int>, faults: map<int, Faults>,
                           others: seq<map<int, Route>>, n: nat)
    requires IsPass(listed, order, faults, others) && n <= |order|
  {
    exists k | 0 <= k < n :: NearAt(listed, order, faults, others, k)
  }

  /** Something goes wrong with some route in the first `n` turns. */
  ghost predicate SomeErrs(listed: map<int, Route>, order: seq<int>, faults: map<int, Faults>,
                           others: seq<map<int, Route>>, n: nat)
    requires IsPass(listed, order, faults, others) && n <= |order|
  {
    exists k | 0 <= k < n :: ErrsAt(listed, order, faults, others, k)
  }

  lemma SomeNext(listed: map<int, Route>, order: seq<int>, faults: map<int, Faults>,
                 others: seq<map<int, Route>>, k: nat)
    requires IsPass(listed, order, faults, others) && k < |order|
    ensures SomeNear(listed, order, faults, others, k + 1) <==>
              SomeNear(listed, order, faults, others, k) || NearAt(listed, order, faults, others, k)
    ensures SomeErrs(listed, order, faults, others, k + 1) <==>
              SomeErrs(listed, order, faults, others, k) || ErrsAt(listed, order, faults, others, k)
  {
  }

  lemma {:induction false} UndisturbedRow(listed: map<int, Route>, order: seq<int>, faults: map<int, Faults>,
                                          others: seq<map<int, Route>>, k: nat, id: int)
    requires IsPass(listed, order, faults, others) && k <= |order| && id in listed
    requires Undisturbed(others, id)
    ensures Rows(listed, order, faults, others, k)[id] ==
              if id in order[..k] then Enforced(listed[id], listed[id], faults[id]) else listed[id]
  {
    if k > 0 {
      UndisturbedRow(listed, order, faults, others, k - 1, id);
      assert order[..k] == order[..k - 1] + [order[k - 1]];
    }
  }

  /** A pass leaves a listed, capped and measured route over its quota enabled exactly if it
      was, and the database would not let the pass look or would not take the write. */
  lemma PassStopsOverQuota(listed: map<int, Route>, order: seq<int>, faults: map<int, Faults>,
                           others: seq<map<int, Route>>, id: int)
    requires IsPass(listed, order, faults, others) && id in order
    requires Undisturbed(others, id)
    ensures var r := Rows(listed, order, faults, others, |order|)[id];
            && TurnEnds(listed[id], listed[id], faults[id], r)
            && (OverQuota(r) && r.enabled <==>
                  OverQuota(listed[id]) && listed[id].enabled && (faults[id].usage || faults[id].enabled))
  {
    TurnOutcome(listed[id], listed[id], faults[id]);
    UndisturbedRow(listed, order, faults, others, |order|, id);
    assert order[..|order|] == order;
  }

  // ---------------------------------------------------------------- one route over time

  /** Where a start request stands: it has read the row, is deploying, has read the row
      again, has checked it, was told that enabling failed, or has decided what to put back.
      `prior` is whether the route was enabled in the row it read first. */
  datatype Phase =
    | Opened(prior: bool, row: Route)
    | Deploying(prior: bool)
    | Reopened(prior: bool, row: Route)
    | Checked(prior: bool)
    | Failing(prior: bool)
    | Undoing(prior: bool, enabled: bool)

  /** Where a pass stands with the route: listed but not judged yet, or about to write its
      flag or, once `flagged`, its mark. */
  datatype Turn = Listed(route: Route) | Pausing(flagged: bool) | Resuming(flagged: bool)

  datatype State = State(route: Route, pass: Option<Turn>, starts: map<nat, Phase>)

  datatype Event =
    | List                                             // a pass begins
    | Judge(usageFails: bool)
    | Flag(ok: bool)
    | Mark(ok: bool)
    | Stop(ok: bool)                                   // an operator's stop; fails before its write
    | Usage(used: nat, measured: bool)                 // traffic, or a new billing period
    | Recap(quota: Option<int>)
    | Open(start: nat)                                 // a start reads the row
    | Begin(start: nat, usageFails: bool)              // and then the usage
    | DeployFails(start: nat)
    | Reopen(start: nat, readFails: bool)
    | Recheck(start: nat, usageFails: bool)
    | Enable(start: nat, reported: bool, reached: bool) // a failed write may have reached the database
    | Reread(start: nat, readFails: bool)              // a rollback reads the row
    | Rollback(start: nat, writeFails: bool)           // and then writes the flag

  predicate OfStart(e: Event) {
    e.Open? || e.Begin? || e.DeployFails? || e.Reopen? || e.Recheck? || e.Enable? || e.Reread? || e.Rollback?
  }

  /** The start stands where this event of its can happen. */
  predicate At(s: State, e: Event)
    requires OfStart(e)
  {
    if e.Open? then e.start !in s.starts
    else
      e.start in s.starts &&
      match s.starts[e.start]
      case Opened(_, _) => e.Begin?
      case Deploying(_) => e.DeployFails? || e.Reopen?
      case Reopened(_, _) => e.Recheck?
      case Checked(_) => e.Enable? && (e.reported ==> e.reached)
      case Failing(_) => e.Reread?
      case Undoing(_, _) => e.Rollback?
  }

  predicate Flagged(t: Turn) {
    !t.Listed? && t.flagged
  }

  predicate Possible(s: State, e: Event) {
    && (OfStart(e) ==> At(s, e))
    && (e.List? ==> s.pass.None?)
    && (e.Judge? ==> s.pass.Some? && s.pass.value.Listed?)
    && (e.Flag? ==> s.pass.Some? && !s.pass.value.Listed? && !Flagged(s.pass.value))
    && (e.Mark? ==> s.pass.Some? && Flagged(s.pass.value))
  }

  function Next(s: State, e: Event): State
    requires Possible(s, e)
  {
    match e
    case List => s.(pass := Some(Listed(s.route)))
    case Judge(usageFails) =>
      s.(pass := match Judgement(s.pass.value.route, s.route, usageFails)
                 case Leave => None
                 case Pause => Some(Pausing(false))
                 case Resume => Some(Resuming(false)))
    case Flag(ok) =>
      if !ok then s.(pass := None)
      else s.(route := s.route.(enabled := s.pass.value.Resuming?),
              pass := Some(s.pass.value.(flagged := true)))
    case Mark(ok) =>
      if !ok then s.(pass := None)
      else s.(route := s.route.(paused := s.pass.value.Pausing?), pass := None)
    case Stop(ok) => if ok then s.(route := s.route.(enabled := false)) else s
    case Usage(used, measured) => s.(route := s.route.(used := used, measured := measured))
    case Recap(quota) => s.(route := s.route.(quota := quota))
    case Open(w) => s.(starts := s.starts[w := Opened(s.route.enabled, s.route)])
    case Begin(w, usageFails) =>
      var p := s.starts[w];
      if Startable(Measured(p.row, s.route), usageFails) then s.(starts := s.starts[w := Deploying(p.prior)])
      else s.(starts := s.starts - {w})
    case DeployFails(w) => s.(starts := s.starts - {w})
    case Reopen(w, readFails) =>
      if readFails then s.(starts := s.starts - {w})
      else s.(starts := s.starts[w := Reopened(s.starts[w].prior, s.route)])
    case Recheck(w, usageFails) =>
      var p := s.starts[w];
      if Startable(Measured(p.row, s.route), usageFails) then s.(starts := s.starts[w := Checked(p.prior)])
      else s.(starts := s.starts - {w})
    case Enable(w, reported, reached) =>
      s.(route := if reached then s.route.(enabled := true) else s.route,
         starts := if reported then s.starts - {w} else s.starts[w := Failing(s.starts[w].prior)])
    case Reread(w, readFails) =>
      var prior := s.starts[w].prior;
      if readFails then s.(starts := s.starts - {w})
      else s.(starts := s.starts[w := Undoing(prior, prior && !s.route.paused)])
    case Rollback(w, writeFails) =>
      s.(route := if writeFails then s.route else s.route.(enabled := s.starts[w].enabled),
         starts := s.starts - {w})
  }

  /** A pass that nothing comes between. */
  function Alone(s: State, f: Faults): State
    requires s.pass.None?
  {
    var judged := Next(Next(s, List), Judge(f.usage));
    if judged.pass.None? then judged
    else
      var flagged := Next(judged, Flag(!f.enabled));
      if flagged.pass.None? then flagged else Next(flagged, Mark(!f.mark))
  }

  /** Its steps do to the route what a pass does to a row. */
  lemma AloneEnforces(s: State, f: Faults)
    requires s.pass.None?
    ensures Alone(s, f) == s.(route := Enforced(s.route, s.route, f))
  {
  }

  ghost predicate IsRun(states: seq<State>, events: seq<Event>) {
    && |states| == |events| + 1
    && forall i | 0 <= i < |events| :: Possible(states[i], events[i]) && states[i + 1] == Next(states[i], events[i])
  }

  // ---------------------------------------------------------------- stops that last

  predicate Unmarked(r: Route) {
    !r.enabled && !r.paused
  }

  /** No pass is under way that listed the route, with a cap, while it was enabled or marked,
      and none is about to mark or to enable it. */
  predicate Harmless(pass: Option<Turn>) {
    match pass
    case None => true
    case Some(Listed(l)) => l.quota.None? || (!l.enabled && (!l.paused || l.quota.value <= 0))
    case Some(Pausing(_)) => false
    case Some(Resuming(flagged)) => flagged
  }

  predicate StartWrites(e: Event) {
    e.Enable? || e.Rollback?
  }

  lemma HarmlessStep(s: State, e: Event)
    requires Possible(s, e) && !StartWrites(e) && Unmarked(s.route) && Harmless(s.pass)
    ensures Unmarked(Next(s, e).route) && Harmless(Next(s, e).pass)
  {
  }

  /** A route stopped while it carries no pause mark, and while no pass under way can still
      act on what it was before, is never enabled again by enforcement: over any run of
      passes, stops, traffic, new periods and new caps it stays stopped and unmarked, until
      some start writes. */
  lemma {:induction false} StoppedStaysStopped(states: seq<State>, events: seq<Event>, i: nat, n: nat)
    requires IsRun(states, events) && i <= n <= |events|
    requires Unmarked(states[i].route) && Harmless(states[i].pass)
    requires forall k | i <= k < n :: !StartWrites(events[k])
    ensures Unmarked(states[n].route) && Harmless(states[n].pass)
    decreases n
  {
    if n > i {
      StoppedStaysStopped(states, events, i, n - 1);
      HarmlessStep(states[n - 1], events[n - 1]);
    }
  }

  predicate AllPossible(s: State, events: seq<Event>)
    decreases |events|
  {
    events == [] || (Possible(s, events[0]) && AllPossible(Next(s, events[0]), events[1..]))
  }

  function Last(s: State, events: seq<Event>): State
    requires AllPossible(s, events)
    decreases |events|
  {
    if events == [] then s else Last(Next(s, events[0]), events[1..])
  }

  predicate Quiet(events: seq<Event>) {
    forall i | 0 <= i < |events| :: !StartWrites(events[i])
  }

  lemma {:induction false} HarmlessRun(s: State, events: seq<Event>)
    requires AllPossible(s, events) && Quiet(events) && Unmarked(s.route) && Harmless(s.pass)
    ensures Unmarked(Last(s, events).route)
    decreases |events|
  {
    if events != [] {
      assert !StartWrites(events[0]);
      assert forall i | 0 <= i < |events| - 1 :: events[1..][i] == events[i + 1];
      HarmlessStep(s, events[0]);
      HarmlessRun(Next(s, events[0]), events[1..]);
    }
  }

  /** One more event in front of a run that ends with the route enabled. */
  lemma Before(s: State, e: Event, events: seq<Event>)
    requires Possible(s, e) && !StartWrites(e)
    requires AllPossible(Next(s, e), events) && Quiet(events) && Last(Next(s, e), events).route.enabled
    ensures AllPossible(s, [e] + events) && Quiet([e] + events) && Last(s, [e] + events).route.enabled
  {
    assert ([e] + events)[0] == e && ([e] + events)[1..] == events;
  }

  /** How a marked route, or one that a pass is about to act on, comes to be enabled. */
  lemma {:induction false} Undone(s: State, steps: nat) returns (events: seq<Event>)
    requires steps == StepsToEnable(s)
    requires s.route.enabled || !Harmless(s.pass) || (s.route.paused && s.pass.None?)
    ensures AllPossible(s, events) && Quiet(events) && Last(s, events).route.enabled
    decreases steps
  {
    events := [];
    if !s.route.enabled {
      var e := TowardsEnabled(s);
      var rest := Undone(Next(s, e), StepsToEnable(Next(s, e)));
      Before(s, e, rest);
      events := [e] + rest;
    }
  }

  /** The next event on the way there: traffic and caps as they have to be, and the pass. */
  function TowardsEnabled(s: State): (e: Event)
    requires !s.route.enabled && (!Harmless(s.pass) || (s.route.paused && s.pass.None?))
    ensures Possible(s, e) && !StartWrites(e)
  {
    match s.pass
    case None => if s.route.quota != Some(1) then Recap(Some(1))
                 else if s.route.used != 0 || !s.route.measured then Usage(0, true)
                 else List
    case Some(Listed(l)) =>
      var used: nat := if l.enabled && l.quota.value >= 0 then l.quota.value else 0;
      if s.route.used != used || !s.route.measured then Usage(used, true) else Judge(false)
    case Some(t) => if t.flagged then Mark(true) else Flag(true)
  }

  function StepsToEnable(s: State): nat {
    if s.route.enabled then 0 else
    match s.pass
    case None => if s.route.quota != Some(1) then 6 else if s.route.used != 0 || !s.route.measured then 5 else 4
    case Some(Listed(l)) =>
      if l.quota.None? then 0
      else
        var used: nat := if l.enabled && l.quota.value >= 0 then l.quota.value else 0;
        (if l.enabled then 9 else 2) + (if s.route.used != used || !s.route.measured then 1 else 0)
    case Some(Pausing(flagged)) => if flagged then 7 else 8
    case Some(Resuming(_)) => 1
  }

  /** The condition is exact: of a route stopped without a mark, whatever runs follow, no
      enforcement ever enables it again if and only if no pass under way can still act on
      what it listed. */
  lemma StopLastsExactly(s: State)
    requires Unmarked(s.route)
    ensures Harmless(s.pass) <==>
              forall events | AllPossible(s, events) && Quiet(events) :: !Last(s, events).route.enabled
  {
    if Harmless(s.pass) {
      forall events | AllPossible(s, events) && Quiet(events)
        ensures !Last(s, events).route.enabled
      {
        HarmlessRun(s, events);
      }
    } else {
      var events := Undone(s, StepsToEnable(s));
    }
  }

  /** If the stopped route did carry a mark, the stop does not take it away, and the next
      pass that finds the usage under the cap starts the route again. */
  lemma StopKeepsPauseMark(s: State)
    requires s.pass.None?
    ensures var t := Next(s, Stop(true)); var u := Alone(t, Faults(false, false, false, false));
            !t.route.enabled && (u.route.enabled <==> s.route.paused && UnderQuota(s.route))
  {
    AloneEnforces(Next(s, Stop(true)), Faults(false, false, false, false));
  }

  // ---------------------------------------------------------------- why routes are resumed

  /** A pass decides to pause the route: listed as enabled, and over the listed cap. */
  predicate Pauses(s: State, e: Event) {
    e.Judge? && Possible(s, e) && Judgement(s.pass.value.route, s.route, e.usageFails).Pause?
  }

  predicate Resumes(s: State, e: Event) {
    e.Judge? && Possible(s, e) && Judgement(s.pass.value.route, s.route, e.usageFails).Resume?
  }

  predicate Clean(s: State) {
    !s.route.paused && s.pass.None?
  }

  /** Every pause mark, and every pass about to set one, follows a decision to pause. */
  lemma {:induction false} ResumeFollowsPause(states: seq<State>, events: seq<Event>, n: nat)
    requires IsRun(states, events) && n <= |events| && Clean(states[0])
    requires states[n].route.paused || (states[n].pass.Some? && states[n].pass.value.Pausing?)
    ensures exists m :: 0 <= m < n && Pauses(states[m], events[m])
  {
    if n > 0 {
      if states[n - 1].route.paused || (states[n - 1].pass.Some? && states[n - 1].pass.value.Pausing?) {
        ResumeFollowsPause(states, events, n - 1);
      } else {
        assert Pauses(states[n - 1], events[n - 1]);
      }
    }
  }

  /** A pass judges the route by what it was when the pass began. */
  lemma {:induction false} ListedBefore(states: seq<State>, events: seq<Event>, n: nat)
    requires IsRun(states, events) && n <= |events| && Clean(states[0])
    requires states[n].pass.Some? && states[n].pass.value.Listed?
    ensures exists j :: 0 <= j < n && events[j].List? && states[j].route == states[n].pass.value.route
  {
    if events[n - 1].List? {
      assert events[n - 1].List? && states[n - 1].route == states[n].pass.value.route;
    } else {
      ListedBefore(states, events, n - 1);
    }
  }

  lemma {:induction false} ResumingWasDecided(states: seq<State>, events: seq<Event>, n: nat)
    requires IsRun(states, events) && n <= |events| && Clean(states[0])
    requires states[n].pass.Some? && states[n].pass.value.Resuming?
    ensures exists m :: 0 <= m < n && Resumes(states[m], events[m])
  {
    if Resumes(states[n - 1], events[n - 1]) {
    } else {
      ResumingWasDecided(states, events, n - 1);
    }
  }

  predicate ResumedFrom(states: seq<State>, events: seq<Event>, p: int, j: int, m: int) {
    && 0 <= p < j < m < |states| && |states| == |events| + 1 && m < |events|
    && Pauses(states[p], events[p]) && events[j].List? && states[j].route.paused && Resumes(states[m], events[m])
  }

  /** A pass enables a route only after finding its usage under the cap it listed, having
      listed it as marked, and after some earlier decision to pause it. */
  lemma PassResumesOnlyMarked(states: seq<State>, events: seq<Event>, n: nat)
    requires IsRun(states, events) && n < |events| && Clean(states[0])
    requires events[n].Flag? && !states[n].route.enabled && states[n + 1].route.enabled
    ensures exists p, j, m :: m < n && ResumedFrom(states, events, p, j, m)
  {
    ResumingWasDecided(states, events, n);
    var m :| 0 <= m < n && Resumes(states[m], events[m]);
    ListedBefore(states, events, m);
    var j :| 0 <= j < m && events[j].List? && states[j].route == states[m].pass.value.route;
    ResumeFollowsPause(states, events, j);
    var p :| 0 <= p < j && Pauses(states[p], events[p]);
    assert ResumedFrom(states, events, p, j, m);
  }

  // ---------------------------------------------------------------- starts

  /** No other start uses the same number between two moments. */
  ghost predicate OneStart(events: seq<Event>, i: nat, n: nat, w: nat) {
    forall k | i < k < n && k < |events| :: events[k] != Open(w)
  }

  /** A start keeps the enabled flag it found, through whatever comes between. */
  lemma {:induction false} StartKeepsPrior(states: seq<State>, events: seq<Event>, i: nat, n: nat, w: nat)
    requires IsRun(states, events) && i < n <= |events|
    requires events[i] == Open(w) && OneStart(events, i, n, w)
    ensures w in states[n].starts ==> states[n].starts[w].prior == states[i].route.enabled
    decreases n
  {
    if n > i + 1 {
      StartKeepsPrior(states, events, i, n - 1, w);
    }
  }

  /** A rollback puts back what it decided when it read the row. */
  lemma {:induction false} UndoingKeepsDecision(states: seq<State>, events: seq<Event>, r: nat, n: nat, w: nat)
    requires IsRun(states, events) && r < n <= |events|
    requires events[r] == Reread(w, false) && OneStart(events, r, n, w)
    ensures w in states[r].starts
    ensures w in states[n].starts ==>
              states[n].starts[w] ==
                Undoing(states[r].starts[w].prior, states[r].starts[w].prior && !states[r].route.paused)
    decreases n
  {
    if n > r + 1 {
      UndoingKeepsDecision(states, events, r, n - 1, w);
    }
  }

  /** A failed start whose rollback reads the row at `r` and writes it at `n` leaves the route
      enabled exactly if it was enabled when the start read it first and carried no mark at
      `r`. It leaves it enabled under a pause mark exactly if the mark was set in between and
      is there at the write. */
  lemma FailedStartRestores(states: seq<State>, events: seq<Event>, i: nat, r: nat, n: nat, w: nat)
    requires IsRun(states, events) && i < r < n < |events|
    requires events[i] == Open(w) && events[r] == Reread(w, false) && events[n] == Rollback(w, false)
    requires OneStart(events, i, n, w)
    ensures var prior, now := states[i].route.enabled, states[n + 1].route;
            && now == states[n].route.(enabled := prior && !states[r].route.paused)
            && (now.enabled <==> prior && !states[r].route.paused)
            && (now.enabled && now.paused <==> prior && !states[r].route.paused && states[n].route.paused)
  {
    StartKeepsPrior(states, events, i, r, w);
    UndoingKeepsDecision(states, events, r, n, w);
  }

  /** A mark that was not there before was set by a pass in between. */
  lemma {:induction false} MarkSlipsIn(states: seq<State>, events: seq<Event>, i: nat, n: nat)
    requires IsRun(states, events) && i <= n <= |events|
    requires !states[i].route.paused && states[n].route.paused
    ensures exists k :: i <= k < n && events[k] == Mark(true) && states[k].pass == Some(Pausing(true))
    decreases n
  {
    if states[n - 1].route.paused {
      MarkSlipsIn(states, events, i, n - 1);
    } else {
      assert events[n - 1] == Mark(true) && states[n - 1].pass == Some(Pausing(true));
    }
  }

  lemma Played(s: State, e: Event, t: State, rest: seq<Event>) returns (events: seq<Event>)
    requires Possible(s, e) && AllPossible(t, rest)
    requires Next(s, e).route == t.route && Next(s, e).pass == t.pass && Next(s, e).starts == t.starts
    ensures events == [e] + rest && AllPossible(s, events) && Last(s, events) == Last(t, rest)
  {
    events := [e] + rest;
    assert events[0] == e && events[1..] == rest && Next(s, e) == t;
  }

  /** The writes of a pass that decided to pause the route. */
  lemma PauseWrites(over: Route, starts: map<nat, Phase>, paused: State, rest: seq<Event>) returns (events: seq<Event>)
    requires paused == State(over.(enabled := false, paused := true), None, starts) && AllPossible(paused, rest)
    ensures events == [Flag(true), Mark(true)] + rest
    ensures AllPossible(State(over, Some(Pausing(false)), starts), events)
    ensures Last(State(over, Some(Pausing(false)), starts), events) == Last(paused, rest)
  {
    var flagged := State(over.(enabled := false), Some(Pausing(true)), starts);
    var e := Played(flagged, Mark(true), paused, rest);
    events := Played(State(over, Some(Pausing(false)), starts), Flag(true), flagged, e);
  }

  /** A pass that finds the route over its cap pauses it, whatever starts are under way. */
  lemma PassPauses(row: Route, cap: nat, starts: map<nat, Phase>, paused: State, rest: seq<Event>)
      returns (events: seq<Event>)
    requires row == Route(true, false, Some(cap), 0, true)
    requires paused == State(Route(false, true, Some(cap), cap, true), None, starts) && AllPossible(paused, rest)
    ensures events == [Usage(cap, true)] + ([List] + ([Judge(false)] + ([Flag(true), Mark(true)] + rest)))
    ensures AllPossible(State(row, None, starts), events)
    ensures Last(State(row, None, starts), events) == Last(paused, rest)
  {
    var over := row.(used := cap);
    var pausing := State(over, Some(Pausing(false)), starts);
    var listed := State(over, Some(Listed(over)), starts);
    var e3 := PauseWrites(over, starts, paused, rest);
    var e2 := Played(listed, Judge(false), pausing, e3);
    var e1 := Played(State(over, None, starts), List, listed, e2);
    events := Played(State(row, None, starts), Usage(cap, true), State(over, None, starts), e1);
  }

  /** A start of an enabled route that passes both its checks. */
  lemma AfterChecks(row: Route, checked: State, rest: seq<Event>) returns (events: seq<Event>)
    requires row.enabled && Startable(row, false)
    requires checked == State(row, None, map[0 := Checked(true)]) && AllPossible(checked, rest)
    ensures events == [Open(0), Begin(0, false), Reopen(0, false), Recheck(0, false)] + rest
    ensures AllPossible(State(row, None, map[]), events)
    ensures Last(State(row, None, map[]), events) == Last(checked, rest)
  {
    var s3 := State(row, None, map[0 := Reopened(true, row)]);
    var s2 := State(row, None, map[0 := Deploying(true)]);
    var s1 := State(row, None, map[0 := Opened(true, row)]);
    assert Measured(row, row) == row;
    var e3 := Played(s3, Recheck(0, false), checked, rest);
    var e2 := Played(s2, Reopen(0, false), s3, e3);
    var e1 := Played(s1, Begin(0, false), s2, e2);
    events := Played(State(row, None, map[]), Open(0), s1, e1);
  }

  /** A rollback between whose read and write a pass pauses the route. */
  lemma LateRollback(row: Route, cap: nat, end: State) returns (events: seq<Event>)
    requires row == Route(true, false, Some(cap), 0, true)
    requires end == State(Route(true, true, Some(cap), cap, true), None, map[])
    ensures events == [Reread(0, false)] + ([Usage(cap, true)] + ([List] + ([Judge(false)]
                      + ([Flag(true), Mark(true)] + [Rollback(0, false)]))))
    ensures AllPossible(State(row, None, map[0 := Failing(true)]), events)
    ensures Last(State(row, None, map[0 := Failing(true)]), events) == end
  {
    var undoing := State(row, None, map[0 := Undoing(true, true)]);
    var paused := undoing.(route := Route(false, true, Some(cap), cap, true));
    var e2 := Played(paused, Rollback(0, false), end, []);
    var e1 := PassPauses(row, cap, undoing.starts, paused, e2);
    events := Played(State(row, None, map[0 := Failing(true)]), Reread(0, false), undoing, e1);
  }

  /** One such run: usage reaches the cap between the rollback's read and its write, and a
      whole pass pauses the route there. It ends enabled, marked and over its quota. */
  lemma RollbackUndoesPause(cap: nat) returns (events: seq<Event>)
    requires cap > 0
    ensures events == [Open(0), Begin(0, false), Reopen(0, false), Recheck(0, false)]
                      + ([Enable(0, false, true)] + ([Reread(0, false)]
                      + ([Usage(cap, true)] + ([List] + ([Judge(false)]
                      + ([Flag(true), Mark(true)] + [Rollback(0, false)]))))))
    ensures var s := State(Route(true, false, Some(cap), 0, true), None, map[]);
            AllPossible(s, events) && Last(s, events) == State(Route(true, true, Some(cap), cap, true), None, map[])
  {
    var row := Route(true, false, Some(cap), 0, true);
    var checked := State(row, None, map[0 := Checked(true)]);
    var e2 := LateRollback(row, cap, State(Route(true, true, Some(cap), cap, true), None, map[]));
    var e1 := Played(checked, Enable(0, false, true), State(row, None, map[0 := Failing(true)]), e2);
    events := AfterChecks(row, checked, e1);
  }

  /** A successful start can end the same way: usage reaches the cap, and a pass pauses the
      route, between its last check and its write. */
  lemma EnablingUndoesPause(cap: nat) returns (events: seq<Event>)
    requires cap > 0
    ensures events == [Open(0), Begin(0, false), Reopen(0, false), Recheck(0, false)]
                      + ([Usage(cap, true)] + ([List] + ([Judge(false)]
                      + ([Flag(true), Mark(true)] + [Enable(0, true, true)]))))
    ensures var s := State(Route(true, false, Some(cap), 0, true), None, map[]);
            AllPossible(s, events) && Last(s, events) == State(Route(true, true, Some(cap), cap, true), None, map[])
  {
    var row := Route(true, false, Some(cap), 0, true);
    var checked := State(row, None, map[0 := Checked(true)]);
    var paused := checked.(route := Route(false, true, Some(cap), cap, true));
    var end := State(Route(true, true, Some(cap), cap, true), None, map[]);
    var e2 := Played(paused, Enable(0, true, true), end, []);
    var e1 := PassPauses(row, cap, checked.starts, paused, e2);
    events := AfterChecks(row, checked, e1);
  }

  /** A check finds the row it read unmarked and within its quota by the usage it then reads. */
  predicate ChecksOut(s: State, e: Event, w: nat, row: Route) {
    && (e.Begin? || e.Recheck?) && e.start == w
    && Admitted(row.paused, row.quota, s.route.used, s.route.measured, e.usageFails)
  }

  /** The row read at `i` was found startable at `j`. */
  ghost predicate CheckedAt(states: seq<State>, events: seq<Event>, i: int, j: int, w: nat)
    requires |states| == |events| + 1
  {
    0 <= i < j < |events| && (events[i] == Open(w) || events[i] == Reopen(w, false))
    && ChecksOut(states[j], events[j], w, states[i].route)
  }

  /** Checked before deploying. */
  ghost predicate Once(states: seq<State>, events: seq<Event>, i: int, j: int, w: nat)
    requires |states| == |events| + 1
  {
    CheckedAt(states, events, i, j, w) && events[i] == Open(w) && events[j].Begin?
  }

  /** And again after it. */
  ghost predicate Twice(states: seq<State>, events: seq<Event>, i: int, j: int, k: int, m: int, w: nat)
    requires |states| == |events| + 1
  {
    && Once(states, events, i, j, w) && j < k
    && CheckedAt(states, events, k, m, w) && events[k] == Reopen(w, false) && events[m].Recheck?
  }

  /** The row a start holds is one it read. */
  ghost predicate ReadAt(states: seq<State>, events: seq<Event>, k: int, w: nat, row: Route)
    requires |states| == |events| + 1
  {
    0 <= k < |events| && events[k] == Reopen(w, false) && states[k].route == row
  }

  ghost predicate OpenedBy(states: seq<State>, events: seq<Event>, n: nat, w: nat, row: Route)
    requires |states| == |events| + 1 && n <= |events|
  {
    exists i :: 0 <= i < n && events[i] == Open(w) && states[i].route == row
  }

  ghost predicate OnceBy(states: seq<State>, events: seq<Event>, n: nat, w: nat)
    requires |states| == |events| + 1
  {
    exists i, j :: j < n && Once(states, events, i, j, w)
  }

  ghost predicate ReopenedBy(states: seq<State>, events: seq<Event>, n: nat, w: nat, row: Route)
    requires |states| == |events| + 1
  {
    exists i, j, k :: j < k < n && Once(states, events, i, j, w) && ReadAt(states, events, k, w, row)
  }

  ghost predicate TwiceBy(states: seq<State>, events: seq<Event>, n: nat, w: nat)
    requires |states| == |events| + 1
  {
    exists i, j, k, m :: m < n && Twice(states, events, i, j, k, m, w)
  }

  /** What a start's phase says of the checks behind it. */
  ghost predicate Vouched(states: seq<State>, events: seq<Event>, n: nat, w: nat, p: Phase)
    requires |states| == |events| + 1 && n <= |events|
  {
    match p
    case Opened(_, row) => OpenedBy(states, events, n, w, row)
    case Deploying(_) => OnceBy(states, events, n, w)
    case Reopened(_, row) => ReopenedBy(states, events, n, w, row)
    case _ => TwiceBy(states, events, n, w)
  }

  lemma VouchedLater(states: seq<State>, events: seq<Event>, n: nat, w: nat, p: Phase)
    requires |states| == |events| + 1 && n < |events| && Vouched(states, events, n, w, p)
    ensures Vouched(states, events, n + 1, w, p)
  {
  }

  lemma OpenVouches(states: seq<State>, events: seq<Event>, n: nat, w: nat)
    requires |states| == |events| + 1 && n < |events| && events[n] == Open(w)
    ensures OpenedBy(states, events, n + 1, w, states[n].route)
  {
    assert events[n] == Open(w) && states[n].route == states[n].route;
  }

  lemma BeginVouches(states: seq<State>, events: seq<Event>, n: nat, w: nat, row: Route)
    requires |states| == |events| + 1 && n < |events| && OpenedBy(states, events, n, w, row)
    requires events[n].Begin? && ChecksOut(states[n], events[n], w, row)
    ensures OnceBy(states, events, n + 1, w)
  {
    var i :| 0 <= i < n && events[i] == Open(w) && states[i].route == row;
    assert Once(states, events, i, n, w);
  }

  lemma ReopenVouches(states: seq<State>, events: seq<Event>, n: nat, w: nat)
    requires |states| == |events| + 1 && n < |events| && OnceBy(states, events, n, w)
    requires events[n] == Reopen(w, false)
    ensures ReopenedBy(states, events, n + 1, w, states[n].route)
  {
    var i, j :| j < n && Once(states, events, i, j, w);
    assert ReadAt(states, events, n, w, states[n].route);
  }

  lemma RecheckVouches(states: seq<State>, events: seq<Event>, n: nat, w: nat, row: Route)
    requires |states| == |events| + 1 && n < |events| && ReopenedBy(states, events, n, w, row)
    requires events[n].Recheck? && ChecksOut(states[n], events[n], w, row)
    ensures TwiceBy(states, events, n + 1, w)
  {
    var i, j, k :| j < k < n && Once(states, events, i, j, w) && ReadAt(states, events, k, w, row);
    assert Twice(states, events, i, j, k, n, w);
  }

  lemma VouchedNext(states: seq<State>, events: seq<Event>, n: nat, w: nat, p: Phase)
    requires |states| == |events| + 1 && n < |events| && Vouched(states, events, n, w, p)
    requires Possible(states[n], events[n]) && states[n + 1] == Next(states[n], events[n])
    requires w in states[n].starts && states[n].starts[w] == p && w in states[n + 1].starts
    ensures Vouched(states, events, n + 1, w, states[n + 1].starts[w])
  {
    var e := events[n];
    VouchedLater(states, events, n, w, p);
    if OfStart(e) && e.start == w {
      match p
      case Opened(_, row) => BeginVouches(states, events, n, w, row);
      case Deploying(_) => ReopenVouches(states, events, n, w);
      case Reopened(_, row) => RecheckVouches(states, events, n, w, row);
      case _ =>
    }
  }

  lemma {:induction false} StartWasChecked(states: seq<State>, events: seq<Event>, n: nat, w: nat)
    requires IsRun(states, events) && n <= |events| && w !in states[0].starts
    requires w in states[n].starts
    ensures Vouched(states, events, n, w, states[n].starts[w])
  {
    if w in states[n - 1].starts {
      StartWasChecked(states, events, n - 1, w);
      VouchedNext(states, events, n - 1, w, states[n - 1].starts[w]);
    } else {
      OpenVouches(states, events, n - 1, w);
    }
  }

  /** No start writes the flag without having found the route unmarked and within its quota
      both before and after deploying. */
  lemma EnablingStartWasChecked(states: seq<State>, events: seq<Event>, n: nat)
    requires IsRun(states, events) && n < |events| && states[0].starts == map[]
    requires events[n].Enable?
    ensures TwiceBy(states, events, n, events[n].start)
  {
    StartWasChecked(states, events, n, events[n].start);
  }

  /** A pass set a mark after the start last read the row, and found it unmarked. */
  ghost predicate MarkedSince(states: seq<State>, events: seq<Event>, k: int, j: int, n: int, w: nat)
    requires |states| == |events| + 1
  {
    0 <= k < j < n <= |events| && ReadAt(states, events, k, w, states[k].route) && !states[k].route.paused
    && events[j] == Mark(true)
  }

  ghost predicate MarkedUnnoticed(states: seq<State>, events: seq<Event>, n: nat, w: nat)
    requires |states| == |events| + 1
  {
    exists k, j :: MarkedSince(states, events, k, j, n, w)
  }

  /** A start's write leaves the route enabled under a pause mark exactly if the mark is there
      at the write, and then a pass set it after the start last read the row. */
  lemma EnabledUnderMark(states: seq<State>, events: seq<Event>, n: nat)
    requires IsRun(states, events) && n < |events| && states[0].starts == map[]
    requires events[n].Enable? && events[n].reached
    ensures states[n + 1].route == states[n].route.(enabled := true)
    ensures states[n].route.paused ==> MarkedUnnoticed(states, events, n, events[n].start)
  {
    EnableWrites(states[n], events[n]);
    MarkComesLate(states, events, n);
  }

  lemma EnableWrites(s: State, e: Event)
    requires Possible(s, e) && e.Enable? && e.reached
    ensures Next(s, e).route == s.route.(enabled := true)
  {
  }

  lemma MarkComesLate(states: seq<State>, events: seq<Event>, n: nat)
    requires IsRun(states, events) && n < |events| && states[0].starts == map[] && events[n].Enable?
    ensures states[n].route.paused ==> MarkedUnnoticed(states, events, n, events[n].start)
  {
    if states[n].route.paused {
      EnablingStartWasChecked(states, events, n);
      var k := ReadUnmarked(states, events, n, events[n].start);
      MarkedAfterReading(states, events, k, n, events[n].start);
    }
  }

  /** The last row a checked start read was unmarked. */
  lemma ReadUnmarked(states: seq<State>, events: seq<Event>, n: nat, w: nat) returns (k: nat)
    requires |states| == |events| + 1 && n <= |events| && TwiceBy(states, events, n, w)
    ensures k < n && ReadAt(states, events, k, w, states[k].route) && !states[k].route.paused
  {
    var i, j, l, m :| m < n && Twice(states, events, i, j, l, m, w);
    k := l;
  }

  lemma MarkedAfterReading(states: seq<State>, events: seq<Event>, k: nat, n: nat, w: nat)
    requires IsRun(states, events) && k < n <= |events| && ReadAt(states, events, k, w, states[k].route)
    requires !states[k].route.paused && states[n].route.paused
    ensures MarkedUnnoticed(states, events, n, w)
  {
    MarkSlipsIn(states, events, k, n);
    var l :| k <= l < n && events[l] == Mark(true) && states[l].pass == Some(Pausing(true));
    assert MarkedSince(states, events, k, l, n, w);
  }
}
