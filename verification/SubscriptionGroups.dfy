/** The status of owned subscription groups and the reconcile pass that stops the ones
    no longer allowed to run.

    A pass and an operator's patch hold the lock of the group they change (see
    SubscriptionLocks). Measurements are recorded without it. One loop collects them and
    then runs the pass, so they never meet a pass; but they can land between any two steps
    of a patch. Faults and interference are inputs.
  */
module SubscriptionGroups {
  import opened Prelude

  datatype Status = Provisioning | Active | Stopping | Stopped | Error

  datatype Group = Group(
    collection: bool,
    enabled: bool,
    status: Status,
    quota: int,
    used: int,
    expiresAt: Option<int>,
    members: seq<int>)

  predicate Allowed(g: Group, now: int) {
    && g.enabled && g.status == Active
    && (g.quota == 0 || g.used < g.quota)
    && (g.expiresAt.None? || now < g.expiresAt.value)
  }

  /** What goes wrong with one group in a pass. */
  datatype Faults = Faults(
    now: int,             // when the pass looks at the group
    busy: bool,           // somebody else holds its lock
    readFails: bool,
    updateFails: bool,
    markFails: bool)

  /** A measurement failure revokes a metered group. */
  function MeterFailed(g: Group): Group {
    if g.collection || g.quota <= 0 then g else g.(enabled := false, status := Error)
  }

  /** The pass takes a group over if it may look at it and finds it no longer allowed. */
  predicate TakenOver(g: Group, f: Faults) {
    !g.collection && !f.busy && !f.readFails && !Allowed(g, f.now) && !f.updateFails
  }

  /** The status a taken-over group is written back with. */
  function Revoked(s: Status): Status {
    if s == Provisioning || s == Error then Error else Stopping
  }

  /** The row once the pass has written it. */
  function Written(g: Group, f: Faults): Group {
    if TakenOver(g, f) then g.(enabled := false, status := Revoked(g.status)) else g
  }

  predicate AllIn(members: seq<int>, stopped: set<int>) {
    forall m | m in members :: m in stopped
  }

  /** The row at the end of the pass, from the group's own circumstances alone. */
  function Settled(g: Group, f: Faults, stopped: set<int>): Group {
    var row := Written(g, f);
    if TakenOver(g, f) && AllIn(g.members, stopped) && !f.markFails && !row.enabled && row.status == Stopping
    then row.(status := Stopped)
    else row
  }

  /** Whether a group, by itself, makes the pass report that it is incomplete: it could
      not be looked at or written, a stop of its own failed, or its mark did. */
  predicate LeftBehind(g: Group, f: Faults) {
    !g.collection && (f.busy || f.readFails || (!Allowed(g, f.now) && f.updateFails))
  }

  predicate Troubled(g: Group, f: Faults, stopped: set<int>) {
    || LeftBehind(g, f)
    || (TakenOver(g, f) && (!AllIn(g.members, stopped) || (Revoked(g.status) != Error && f.markFails)))
  }

  /** A group the pass took over, as it carries it on. */
  datatype Taken = Taken(id: int, group: Group)

  /** A row after the pass judged the group it took over from it. */
  function Marked(row: Group, t: Taken, markFails: bool, stopped: set<int>): Group {
    if t.group.status != Error && AllIn(t.group.members, stopped) && !markFails
       && !row.enabled && row.status == Stopping
    then row.(status := Stopped)
    else row
  }

  /** All members stopped, but the mark could not be written. */
  predicate Unmarked(t: Taken, markFails: bool, stopped: set<int>) {
    t.group.status != Error && AllIn(t.group.members, stopped) && markFails
  }

  // ---------------------------------------------------------------- what passes and patches come to

  /** The limits and switches under which a group may run at a moment. */
  predicate Runs(enabled: bool, status: Status, quota: int, used: int, expiresAt: Option<int>, now: int) {
    && enabled && status == Active && (quota == 0 || used < quota)
    && match expiresAt { case None => true case Some(t) => t > now }
  }

  /** What a pass makes of a listed group, in its own columns. One that may not run is
      disabled. If it was left while provisioning, or is in error, it is in error whatever its
      members do; any other is stopped if all its members are, and stopping if not. */
  predicate PassEnds(was: Group, f: Faults, stopped: set<int>, now: Group) {
    if was.collection || f.busy || f.readFails || f.updateFails
       || Runs(was.enabled, was.status, was.quota, was.used, was.expiresAt, f.now)
    then now == was
    else
      now == was.(enabled := false, status :=
        match was.status
        case Provisioning | Error => Error
        case _ => if f.markFails || exists m | m in was.members :: m !in stopped then Stopping else Stopped)
  }

  /** The same once the first loop has written the group, and no member was stopped yet. */
  predicate TakeOverEnds(was: Group, f: Faults, now: Group) {
    if was.collection || f.busy || f.readFails || f.updateFails
       || Runs(was.enabled, was.status, was.quota, was.used, was.expiresAt, f.now)
    then now == was
    else
      now == was.(enabled := false, status :=
        match was.status { case Provisioning | Error => Error case _ => Stopping })
  }

  lemma TakeOverOutcome(g: Group, f: Faults)
    ensures TakeOverEnds(g, f, Written(g, f))
  {
  }

  /** Why a listed group makes the pass report that it is incomplete. */
  predicate PassFails(was: Group, f: Faults, stopped: set<int>) {
    && !was.collection
    && (|| f.busy || f.readFails
        || (&& !Runs(was.enabled, was.status, was.quota, was.used, was.expiresAt, f.now)
            && (|| f.updateFails
                || (exists m | m in was.members :: m !in stopped)
                || (f.markFails && was.status != Provisioning && was.status != Error))))
  }

  lemma PassOutcome(g: Group, f: Faults, stopped: set<int>)
    ensures PassEnds(g, f, stopped, Settled(g, f, stopped))
    ensures Troubled(g, f, stopped) <==> PassFails(g, f, stopped)
  {
    assert AllIn(g.members, stopped) <==> !exists m | m in g.members :: m !in stopped;
  }

  /** What a patch asks for, column by column. */
  function QuotaAsked(g: Group, p: Patch): int {
    match p.quota { case Some(q) => q case None => g.quota }
  }

  function ExpiryAsked(g: Group, p: Patch): Option<int> {
    match p.expiresAt { case Some(t) => t case None => g.expiresAt }
  }

  predicate EnabledAsked(g: Group, p: Patch) {
    match p.enabled { case Some(b) => b case None => g.enabled }
  }

  predicate PatchTurnedDown(g: Group, p: Patch) {
    || g.collection || p.updateFails
    || (EnabledAsked(g, p) && (g.status == Error || g.status == Provisioning))
  }

  /** The patched group may run, by the usage the patch read. */
  predicate PatchRuns(g: Group, p: Patch) {
    Runs(EnabledAsked(g, p), Active, QuotaAsked(g, p), g.used, ExpiryAsked(g, p), p.now)
  }

  /** What a patch makes of a group, in its own columns. Turned down, it leaves the row to the
      measurements. Otherwise the quota and expiry asked for are on the row with all usage
      counted meanwhile, and the group is active, failed, stopped or stopping. */
  predicate PatchEnds(was: Group, p: Patch, now: Group) {
    if PatchTurnedDown(was, p) then
      var failed := p.before.fails && !was.collection && was.quota > 0;
      now == was.(used := was.used + p.before.bytes,
                  enabled := was.enabled && !failed, status := if failed then Error else was.status)
    else
      && now.quota == QuotaAsked(was, p) && now.expiresAt == ExpiryAsked(was, p)
      && now.members == was.members && !now.collection
      && now.used == was.used + p.before.bytes + p.after.bytes
      && var failed := p.after.fails && QuotaAsked(was, p) > 0;
         if PatchRuns(was, p) then
           now.enabled == !(failed || p.starts == NotStarted(true))
           && now.status == if now.enabled then Active else Error
         else
           !now.enabled
           && now.status == if failed then Error
                            else if p.markFails || exists m | m in was.members :: m !in p.stopped then Stopping
                            else Stopped
  }

  predicate PatchFails(was: Group, p: Patch) {
    || PatchTurnedDown(was, p)
    || (if PatchRuns(was, p) then p.starts != AllStarted
        else p.markFails || exists m | m in was.members :: m !in p.stopped)
  }

  lemma PatchOutcome(g: Group, p: Patch)
    ensures PatchEnds(g, p, Patched(g, p))
  {
    PatchJudged(g, p);
    assert AllIn(g.members, p.stopped) <==> !exists m | m in g.members :: m !in p.stopped;
  }

  lemma PatchJudged(g: Group, p: Patch)
    ensures Writes(g, p) <==> !PatchTurnedDown(g, p)
    ensures Writes(g, p) ==> (Allowed(Requested(g, p), p.now) <==> PatchRuns(g, p))
  {
  }

  // ---------------------------------------------------------------- one group over time

  /** The measurements recorded between two steps of a patch: the bytes they add up to, and
      whether one of them failed. */
  datatype Meanwhile = Meanwhile(bytes: nat, fails: bool)

  function Measured(g: Group, m: Meanwhile): Group {
    var grown := g.(used := g.used + m.bytes);
    if m.fails then MeterFailed(grown) else grown
  }

  /** How starting the members of an enabled group goes: a member's row cannot be read, or a
      member does not start, upon which the group is written back as failed if possible. */
  datatype Starts = AllStarted | MemberUnread | NotStarted(written: bool)

  /** An operator's change to an owned group. */
  datatype Patch = Patch(
    enabled: Option<bool>,
    quota: Option<nat>,
    expiresAt: Option<Option<int>>,
    now: int,
    before: Meanwhile,    // measurements between its read and its write of the group
    after: Meanwhile,     // and between that write and its last one
    updateFails: bool,
    markFails: bool,
    starts: Starts,
    stopped: set<int>)    // members whose stop succeeds, if the change stops the group

  /** The group a patch asks for, before it is judged. */
  function Requested(g: Group, p: Patch): Group {
    var limited := g.(quota := if p.quota.Some? then p.quota.value else g.quota,
                      expiresAt := if p.expiresAt.Some? then p.expiresAt.value else g.expiresAt,
                      enabled := if p.enabled.Some? then p.enabled.value else g.enabled);
    if limited.enabled then limited.(status := Active) else limited
  }

  predicate Refused(g: Group, p: Patch) {
    Requested(g, p).enabled && (g.status == Error || g.status == Provisioning)
  }

  /** The patch gets as far as writing the group. */
  predicate Writes(g: Group, p: Patch) {
    !g.collection && !Refused(g, p) && !p.updateFails
  }

  /** What a patch that read `g` writes over a row: everything but the usage. */
  function Overwritten(row: Group, g: Group, p: Patch): Group {
    var v := Requested(g, p);
    if Allowed(v, p.now) then v.(used := row.used)
    else v.(enabled := false, status := Stopping, used := row.used)
  }

  function Patched(g: Group, p: Patch): Group {
    var seen := Measured(g, p.before);
    if !Writes(g, p) then seen
    else
      var row := Measured(Overwritten(seen, g, p), p.after);
      if Allowed(Requested(g, p), p.now) then
        (if p.starts == NotStarted(true) then row.(enabled := false, status := Error) else row)
      else if AllIn(g.members, p.stopped) && !p.markFails && row.status == Stopping then
        row.(status := Stopped)
      else row
  }

  datatype Event =
    | Passed(faults: Faults, stopped: set<int>)
    | Changed(patch: Patch)
    | MeterFails
    | Metered(bytes: nat)

  function Apply(g: Group, e: Event): Group {
    match e
    case Passed(f, stopped) => Settled(g, f, stopped)
    case Changed(p) => Patched(g, p)
    case MeterFails => MeterFailed(g)
    case Metered(n) => g.(used := g.used + n)
  }

  function After(g: Group, events: seq<Event>): Group {
    if events == [] then g else Apply(After(g, events[..|events| - 1]), events[|events| - 1])
  }

  lemma {:induction false} MembersStay(g: Group, events: seq<Event>)
    ensures After(g, events).members == g.members && After(g, events).collection == g.collection
  {
    if events != [] {
      MembersStay(g, events[..|events| - 1]);
    }
  }

  /** The stops an event saw succeed. */
  function StopsSeen(e: Event): set<int> {
    match e
    case Passed(_, stopped) => stopped
    case Changed(p) => p.stopped
    case _ => {}
  }

  /** Over any run of passes, patches and measurements, a group that came to be marked as
      stopped was marked by one event in which every one of its own members stopped. */
  lemma {:induction false} StoppedWasVerified(g: Group, events: seq<Event>)
    requires g.status != Stopped && After(g, events).status == Stopped
    ensures exists e | e in events :: AllIn(g.members, StopsSeen(e)) && (e.Passed? || e.Changed?)
  {
    var last := |events| - 1;
    var before := After(g, events[..last]);
    MembersStay(g, events[..last]);
    if before.status == Stopped {
      StoppedWasVerified(g, events[..last]);
      var e :| e in events[..last] && AllIn(g.members, StopsSeen(e)) && (e.Passed? || e.Changed?);
      assert e in events;
    } else {
      assert events[last] in events;
    }
  }

  /** A recorded error outlasts every pass and every measurement: without an operator's
      patch the group stays in error and is never allowed again. */
  lemma {:induction false} ErrorStaysUntilPatched(g: Group, events: seq<Event>)
    requires g.status == Error && forall e | e in events :: !e.Changed?
    ensures After(g, events).status == Error
  {
    if events != [] {
      var last := |events| - 1;
      assert events[last] in events && forall e | e in events[..last] :: e in events;
      ErrorStaysUntilPatched(g, events[..last]);
    }
  }

  /** A group left while provisioning never becomes anything but a failed one by passes and
      measurements; from the first pass that takes it over on, every patch that would enable it
      is turned down, and the row stays as it is. */
  lemma {:induction false} ProvisioningEndsInError(g: Group, events: seq<Event>, n: nat)
    requires g.status == Provisioning && n <= |events| && forall e | e in events :: !e.Changed?
    ensures var h := After(g, events[..n]);
            && (h.status == Provisioning || (h.status == Error && !h.enabled))
            && (forall p | EnabledAsked(h, p) :: PatchTurnedDown(h, p))
            && (h.status == Provisioning <==>
                  forall k | 0 <= k < n :: !TakesUp(g, events[k]))
  {
    if n > 0 {
      assert events[..n][..n - 1] == events[..n - 1] && events[n - 1] in events;
      ProvisioningEndsInError(g, events, n - 1);
      MembersStay(g, events[..n - 1]);
      MeteredStays(g, events, n - 1);
    }
  }

  /** A pass reaches the group, or a measurement of the metered group fails. */
  predicate TakesUp(g: Group, e: Event) {
    match e
    case Passed(f, _) => !g.collection && !f.busy && !f.readFails && !f.updateFails
    case MeterFails => !g.collection && g.quota > 0
    case _ => false
  }

  lemma {:induction false} MeteredStays(g: Group, events: seq<Event>, n: nat)
    requires n <= |events| && forall e | e in events :: !e.Changed?
    ensures After(g, events[..n]).quota == g.quota
  {
    if n > 0 {
      assert events[..n][..n - 1] == events[..n - 1] && events[n - 1] in events;
      MeteredStays(g, events, n - 1);
    }
  }

  /** A patch that reads a group in error never enables it, but any accepted one that leaves
      it disabled rewrites the error as an ordinary stop, after which a second one may. */
  lemma PatchesOnFailedGroup(g: Group, p: Patch)
    requires !g.collection && g.status == Error
    ensures Patched(g, p).enabled ==> g.enabled && !Writes(g, p)
    ensures Patched(g, p).status == Error <==>
              !Writes(g, p) || (p.after.fails && Requested(g, p).quota > 0)
  {
  }

  /** A metered group whose measurement fails between a patch's read and its write of the
      group is still in error afterwards exactly if the patch writes nothing, fails to start
      a member and records it, or meets a second failure after its write. */
  lemma MeterErrorDuringPatch(g: Group, p: Patch)
    requires !g.collection && g.quota > 0 && p.before.fails
    ensures Patched(g, p).status == Error <==> !Writes(g, p) || FailsLater(g, p)
  {
  }

  /** The patch itself, or a measurement after its write, puts the group in error. */
  predicate FailsLater(g: Group, p: Patch) {
    || (Allowed(Requested(g, p), p.now) && p.starts == NotStarted(true))
    || (p.after.fails && Requested(g, p).quota > 0)
  }

  /** The patch enables the group and nothing revokes it again, whatever failed before. */
  predicate Enables(g: Group, p: Patch) {
    Writes(g, p) && Allowed(Requested(g, p), p.now) && !FailsLater(g, p)
  }

  /** The group is within the limits that do not depend on its status. */
  predicate Within(g: Group, now: int) {
    (g.quota == 0 || g.used < g.quota) && (g.expiresAt.None? || now < g.expiresAt.value)
  }

  /** Such a group is allowed again at some moment exactly if the patch enables it over the
      failure and it is within its limits at that moment. */
  lemma MeterErrorErased(g: Group, p: Patch, now: int)
    requires !g.collection && g.quota > 0 && p.before.fails
    ensures Allowed(Patched(g, p), now) <==> Enables(g, p) && Within(Patched(g, p), now)
  {
  }

  /** One such input: raising the quota of an active group while its measurement fails. */
  lemma FailureUnderPatchIsLost()
    ensures var g := Group(false, true, Active, 100, 1, None, [7]);
            var p := Patch(None, Some(200), None, 5, Meanwhile(0, true), Meanwhile(0, false),
                           false, false, AllStarted, {});
            Patched(g, p) == g.(quota := 200) && Allowed(Patched(g, p), 5)
  {
  }

  // ---------------------------------------------------------------- failures over runs

  /** An event in which a measurement of the metered group fails, by itself or between two
      steps of a patch. */
  predicate Fails(g: Group, e: Event) {
    && !g.collection
    && (|| (g.quota > 0 && (e.MeterFails? || (e.Changed? && e.patch.before.fails)))
        || (e.Changed? && Writes(g, e.patch) && e.patch.after.fails && Requested(g, e.patch).quota > 0))
  }

  /** The failure leaves its error on record. */
  predicate Recorded(g: Group, e: Event) {
    e.Changed? ==> !Writes(g, e.patch) || FailsLater(g, e.patch)
  }

  lemma FailureAtOnce(g: Group, e: Event)
    requires Fails(g, e)
    ensures Apply(g, e).status == Error <==> Recorded(g, e)
    ensures Apply(g, e).status != Provisioning && !Apply(g, e).collection
    ensures forall now :: Allowed(Apply(g, e), now) ==> !Recorded(g, e) && Enables(g, e.patch)
  {
    if e.Changed? && e.patch.before.fails && g.quota > 0 {
      MeterErrorDuringPatch(g, e.patch);
      forall now | Allowed(Apply(g, e), now)
        ensures Enables(g, e.patch)
      {
        MeterErrorErased(g, e.patch, now);
      }
    }
  }

  /** Over any run: after a measurement failure the group is in error for as long as nobody
      patches it and no other measurement fails, exactly if the failure was recorded when it
      happened, and that is unless a patch under way then wrote over it. */
  lemma {:induction false} FailureStaysRecorded(g: Group, events: seq<Event>, i: nat, n: nat)
    requires i < n <= |events| && Fails(After(g, events[..i]), events[i])
    requires forall k | i < k < n :: events[k].Passed? || events[k].Metered?
    ensures After(g, events[..n]).status == Error <==> Recorded(After(g, events[..i]), events[i])
    ensures After(g, events[..n]).status != Provisioning
    decreases n
  {
    assert events[..n][..n - 1] == events[..n - 1];
    if n == i + 1 {
      FailureAtOnce(After(g, events[..i]), events[i]);
    } else {
      FailureStaysRecorded(g, events, i, n - 1);
    }
  }

  /** No pass from `i` on took the group over. */
  predicate NoneTakesOver(g: Group, events: seq<Event>, i: nat, n: nat)
    requires n <= |events|
  {
    forall k | i <= k < n :: events[k].Passed? ==> !TakenOver(After(g, events[..k]), events[k].faults)
  }

  /** Over any run: after a measurement failure, and with no patch begun later, the group is
      allowed exactly if the failure fell into a patch that enables the group, nothing has
      stopped it since and it is within its limits. */
  lemma {:induction false} AllowedAfterFailure(g: Group, events: seq<Event>, i: nat, n: nat, now: int)
    requires i < n <= |events| && Fails(After(g, events[..i]), events[i])
    requires forall k | i < k < n :: events[k].Passed? || events[k].Metered?
    ensures Allowed(After(g, events[..n]), now) <==>
              && events[i].Changed? && Enables(After(g, events[..i]), events[i].patch)
              && NoneTakesOver(g, events, i + 1, n) && Within(After(g, events[..n]), now)
  {
    StatusAfterFailure(g, events, i, n);
  }

  lemma {:induction false} StatusAfterFailure(g: Group, events: seq<Event>, i: nat, n: nat)
    requires i < n <= |events| && Fails(After(g, events[..i]), events[i])
    requires forall k | i < k < n :: events[k].Passed? || events[k].Metered?
    ensures var h := After(g, events[..n]);
            h.enabled && h.status == Active <==>
              && events[i].Changed? && Enables(After(g, events[..i]), events[i].patch)
              && NoneTakesOver(g, events, i + 1, n)
    ensures !After(g, events[..n]).collection
    decreases n
  {
    assert events[..n][..n - 1] == events[..n - 1];
    if n == i + 1 {
      FailureAtOnce(After(g, events[..i]), events[i]);
    } else {
      StatusAfterFailure(g, events, i, n - 1);
    }
  }

  // ---------------------------------------------------------------- the pass

  /** The groups a pass carries on are those it took over, each once, as it wrote them. */
  ghost predicate Carried(groups: seq<Taken>, order: seq<int>, faults: map<int, Faults>, was: map<int, Group>)
    requires forall id | id in order :: id in was && id in faults
  {
    && (forall t | t in groups :: t.id in order && TakenOver(was[t.id], faults[t.id])
          && t.group == was[t.id].(enabled := false, status := Revoked(was[t.id].status)))
    && (forall id | id in order && TakenOver(was[id], faults[id]) :: exists t | t in groups :: t.id == id)
    && (forall i, j | 0 <= i < j < |groups| :: groups[i].id != groups[j].id)
  }

  ghost predicate Collected(groups: seq<Taken>, ids: seq<int>) {
    forall m :: m in ids <==> exists t | t in groups :: m in t.group.members
  }

  lemma CarriesOn(groups: seq<Taken>, ids: seq<int>, order: seq<int>, faults: map<int, Faults>, was: map<int, Group>,
                  id: int, v: Option<Group>)
    requires forall i | i in order + [id] :: i in was && i in faults
    requires Carried(groups, order, faults, was) && Collected(groups, ids) && id !in order
    requires v.Some? <==> TakenOver(was[id], faults[id])
    requires v.Some? ==> v.value == was[id].(enabled := false, status := Revoked(was[id].status))
    ensures v.None? ==> Carried(groups, order + [id], faults, was)
    ensures v.Some? ==> Carried(groups + [Taken(id, v.value)], order + [id], faults, was)
                        && Collected(groups + [Taken(id, v.value)], ids + v.value.members)
  {
    if v.Some? {
      var more := groups + [Taken(id, v.value)];
      assert more[|groups|] in more && forall t | t in groups :: t in more;
    }
  }

  ghost predicate AllMarked(groups: seq<Taken>, faults: map<int, Faults>, was: map<int, Group>, now: map<int, Group>,
                            stopped: set<int>) {
    && now.Keys == was.Keys
    && (forall id | id in now && (forall t | t in groups :: t.id != id) :: now[id] == was[id])
    && (forall t | t in groups && t.id in was && t.id in faults ::
          now[t.id] == Marked(was[t.id], t, faults[t.id].markFails, stopped))
  }

  lemma MarksOneMore(groups: seq<Taken>, k: nat, faults: map<int, Faults>, was: map<int, Group>, now: map<int, Group>,
                     stopped: set<int>)
    requires k < |groups| && groups[k].id in was && groups[k].id in faults
    requires forall i, j | 0 <= i < j < |groups| :: groups[i].id != groups[j].id
    requires AllMarked(groups[..k], faults, was, now, stopped)
    ensures var t := groups[k];
            AllMarked(groups[..k + 1], faults, was,
                      now[t.id := Marked(now[t.id], t, faults[t.id].markFails, stopped)], stopped)
  {
    var t := groups[k];
    assert groups[..k + 1] == groups[..k] + [t];
    assert forall u | u in groups[..k] :: u.id != t.id;
    assert now[t.id] == was[t.id];
  }

  /** Marking by the stops of this pass settles every group by the stops of its own members,
      and a group is in trouble for its own reasons only. */
  lemma SettledByOwnStops(groups: seq<Taken>, ids: seq<int>, order: seq<int>, faults: map<int, Faults>,
                          was: map<int, Group>, written: map<int, Group>, now: map<int, Group>,
                          stopped: set<int>, all: set<int>)
    requires forall id | id in order :: id in was && id in faults
    requires Carried(groups, order, faults, was) && Collected(groups, ids)
    requires written == map id | id in was :: if id in order then Written(was[id], faults[id]) else was[id]
    requires AllMarked(groups, faults, written, now, stopped)
    requires stopped == set m | m in ids && m in all
    ensures now == map id | id in was :: if id in order then Settled(was[id], faults[id], all) else was[id]
    ensures (exists id | id in order :: Troubled(was[id], faults[id], all)) <==>
              || (exists id | id in order :: LeftBehind(was[id], faults[id]))
              || (exists m | m in ids :: m !in stopped)
              || (exists t | t in groups :: Unmarked(t, faults[t.id].markFails, stopped))
  {
    assert forall t | t in groups :: AllIn(t.group.members, stopped) <==> AllIn(t.group.members, all);
    forall id | id in was
      ensures now[id] == if id in order then Settled(was[id], faults[id], all) else was[id]
    {
      if id in order && TakenOver(was[id], faults[id]) {
        var t :| t in groups && t.id == id;
        assert now[id] == Marked(written[id], t, faults[id].markFails, stopped);
      } else {
        assert forall t | t in groups :: t.id != id;
      }
    }
  }

  class SubscriptionStore {
    var rows: map<int, Group>

    method UpdateSubscription(id: int, v: Group)
      requires id in rows
      modifies this
      ensures rows == old(rows)[id := v.(used := old(rows)[id].used)]
    {
      rows := rows[id := v.(used := rows[id].used)];
    }

    /** Revokes a metered group until somebody patches it, without losing what it used; a
        group that is not metered is none of its business, and neither is any other. */
    method FailMeasurement(id: int)
      requires id in rows
      modifies this
      ensures id in rows && rows == old(rows)[id := rows[id]]
      ensures !old(rows)[id].collection && old(rows)[id].quota > 0 ==>
                && rows[id] == old(rows)[id].(enabled := false, status := Error)
                && forall now :: !Allowed(rows[id], now)
      ensures old(rows)[id].collection || old(rows)[id].quota <= 0 ==> rows == old(rows)
    {
      var g := rows[id];
      if !g.collection && g.quota > 0 {
        g := g.(enabled := false, status := Error);
      }
      rows := rows[id := g];
    }

    /** Measurements recorded while somebody else works on the group. */
    method Measure(id: int, m: Meanwhile)
      requires id in rows
      modifies this
      ensures rows == old(rows)[id := Measured(old(rows)[id], m)]
    {
      rows := rows[id := rows[id].(used := rows[id].used + m.bytes)];
      if m.fails {
        FailMeasurement(id);
      }
    }

    /** Records only a verified transition: the row must still be a disabled group that is
        stopping, so an error recorded meanwhile stays. */
    method MarkSubscriptionStopped(id: int) returns (changed: bool)
      requires id in rows
      modifies this
      ensures changed <==> !old(rows)[id].enabled && old(rows)[id].status == Stopping
      ensures rows == if changed then old(rows)[id := old(rows)[id].(status := Stopped)] else old(rows)
    {
      changed := !rows[id].enabled && rows[id].status == Stopping;
      if changed {
        rows := rows[id := rows[id].(status := Stopped)];
      }
    }

    /** One group of the first loop: look, decide, write back. `v` is the group as the pass
        carries it on, if it took it over. */
    method TakeOver(id: int, f: Faults) returns (v: Option<Group>, failed: bool)
      requires id in rows
      modifies this
      ensures rows == old(rows)[id := Written(old(rows)[id], f)]
      ensures v.Some? <==> TakenOver(old(rows)[id], f)
      ensures v.Some? ==> v.value == old(rows)[id].(enabled := false, status := Revoked(old(rows)[id].status))
      ensures failed <==> !old(rows)[id].collection
                          && (f.busy || f.readFails || (!Allowed(old(rows)[id], f.now) && f.updateFails))
    {
      v, failed := None, false;
      var seen := rows[id];
      if seen.collection {
      } else if f.busy || f.readFails {
        failed := true;
      } else if !Allowed(seen, f.now) {
        if f.updateFails {
          failed := true;
        } else {
          seen := seen.(enabled := false);
          if seen.status == Provisioning {
            seen := seen.(status := Error);
          }
          if seen.status != Error {
            seen := seen.(status := Stopping);
          }
          UpdateSubscription(id, seen);
          v := Some(seen);
        }
      }
    }

    /** Marks one taken-over group, unless one of its own members did not stop. */
    method Settle(t: Taken, markFails: bool, stopped: set<int>) returns (failed: bool)
      requires t.id in rows
      modifies this
      ensures rows == old(rows)[t.id := Marked(old(rows)[t.id], t, markFails, stopped)]
      ensures failed <==> Unmarked(t, markFails, stopped)
    {
      failed := false;
      for i := 0 to |t.group.members|
        invariant rows == old(rows)
        invariant AllIn(t.group.members[..i], stopped)
      {
        var m := t.group.members[i];
        if m !in stopped {
          assert m in t.group.members;
          return;
        }
      }
      assert t.group.members[..|t.group.members|] == t.group.members;
      if t.group.status != Error {
        if markFails {
          failed := true;
        } else {
          var _ := MarkSubscriptionStopped(t.id);
        }
      }
    }

    /** The first loop: takes over every group that has to stop. */
    method TakeOverAll(order: seq<int>, faults: map<int, Faults>)
        returns (groups: seq<Taken>, ids: seq<int>, failed: bool)
      requires forall id | id in order :: id in rows && id in faults
      requires forall i, j | 0 <= i < j < |order| :: order[i] != order[j]
      modifies this
      ensures rows == map id | id in old(rows) ::
                if id in order then Written(old(rows)[id], faults[id]) else old(rows)[id]
      ensures forall id | id in order :: TakeOverEnds(old(rows)[id], faults[id], rows[id])
      ensures Carried(groups, order, faults, old(rows)) && Collected(groups, ids)
      ensures failed <==> exists id | id in order :: LeftBehind(old(rows)[id], faults[id])
    {
      groups, ids, failed := [], [], false;
      for k := 0 to |order|
        invariant rows == map id | id in old(rows) ::
                    if id in order[..k] then Written(old(rows)[id], faults[id]) else old(rows)[id]
        invariant Carried(groups, order[..k], faults, old(rows)) && Collected(groups, ids)
        invariant failed <==> exists id | id in order[..k] :: LeftBehind(old(rows)[id], faults[id])
      {
        var id := order[k];
        assert order[..k + 1] == order[..k] + [id] && id !in order[..k];
        var v, trouble := TakeOver(id, faults[id]);
        CarriesOn(groups, ids, order[..k], faults, old(rows), id, v);
        if trouble {
          assert LeftBehind(old(rows)[id], faults[id]);
          failed := true;
        }
        if v.Some? {
          groups := groups + [Taken(id, v.value)];
          ids := ids + v.value.members;
        }
      }
      assert order[..|order|] == order;
      forall id | id in order ensures TakeOverEnds(old(rows)[id], faults[id], rows[id]) {
        TakeOverOutcome(old(rows)[id], faults[id]);
      }
    }

    /** One reconcile pass over the listed groups. `stops` are the members whose stop
        succeeds; none is tried when the pool has no time for them. Every group ends up as
        its own faults and its own members' stops decide, whatever the other groups did. */
    method Reconcile(order: seq<int>, faults: map<int, Faults>, stops: set<int>, inTime: bool)
        returns (failed: bool)
      requires forall id | id in order :: id in rows && id in faults
      requires forall i, j | 0 <= i < j < |order| :: order[i] != order[j]
      modifies this
      ensures var stopped := if inTime then stops else {};
              rows == map id | id in old(rows) ::
                if id in order then Settled(old(rows)[id], faults[id], stopped) else old(rows)[id]
      ensures failed <==> exists id | id in order ::
                Troubled(old(rows)[id], faults[id], if inTime then stops else {})
      ensures rows.Keys == old(rows).Keys
      ensures forall id | id in order ::
                PassEnds(old(rows)[id], faults[id], if inTime then stops else {}, rows[id])
      ensures failed <==> exists id | id in order ::
                PassFails(old(rows)[id], faults[id], if inTime then stops else {})
    {
      ghost var all := if inTime then stops else {};
      var groups, ids, behind := TakeOverAll(order, faults);
      ghost var written := rows;
      var stopped, unstopped := StopMembers(ids, stops, inTime);
      var unmarked := SettleAll(groups, faults, stopped);
      SettledByOwnStops(groups, ids, order, faults, old(rows), written, rows, stopped, all);
      failed := behind || unstopped || unmarked;
      forall id | id in order
        ensures PassEnds(old(rows)[id], faults[id], all, rows[id])
        ensures Troubled(old(rows)[id], faults[id], all) <==> PassFails(old(rows)[id], faults[id], all)
      {
        PassOutcome(old(rows)[id], faults[id], all);
      }
    }

    /** The group as the operator wants it, unless it may not be enabled. */
    static method Amend(g: Group, p: Patch) returns (v: Group, refused: bool)
      ensures refused <==> Refused(g, p)
      ensures !refused ==> v == Requested(g, p)
    {
      v, refused := g, false;
      if p.quota.Some? {
        v := v.(quota := p.quota.value);
      }
      if p.expiresAt.Some? {
        v := v.(expiresAt := p.expiresAt.value);
      }
      if p.enabled.Some? {
        v := v.(enabled := p.enabled.value);
      }
      if v.enabled {
        if v.status == Error || v.status == Provisioning {
          return v, true;
        }
        v := v.(status := Active);
      }
    }

    /** An operator's change. A group it leaves not allowed is stopped; one whose members do
        not all start is revoked again. Measurements may come between its steps. */
    method PatchSubscription(id: int, p: Patch) returns (failed: bool)
      requires id in rows
      modifies this
      ensures rows == old(rows)[id := Patched(old(rows)[id], p)]
      ensures id in rows && PatchEnds(old(rows)[id], p, rows[id])
      ensures failed <==> PatchFails(old(rows)[id], p)
    {
      PatchOutcome(rows[id], p);
      PatchJudged(rows[id], p);
      var v := rows[id];
      Measure(id, p.before);
      if v.collection {
        return true;            // only its name may change
      }
      var refused;
      v, refused := Amend(v, p);
      if refused {
        return true;
      }
      if !Allowed(v, p.now) {
        v := v.(enabled := false, status := Stopping);
      }
      if p.updateFails {
        return true;
      }
      UpdateSubscription(id, v);
      failed := FinishPatch(id, v, p);
    }

    /** The rest of a patch, after its write of the group as `v`. */
    method FinishPatch(id: int, v: Group, p: Patch) returns (failed: bool)
      requires id in rows && !rows[id].collection
      requires v.(used := rows[id].used) == rows[id]
      requires v.enabled || v.status == Stopping
      modifies this
      ensures var row := Measured(old(rows)[id], p.after);
              rows == old(rows)[id :=
                if v.enabled then
                  (if p.starts == NotStarted(true) then row.(enabled := false, status := Error) else row)
                else if AllIn(v.members, p.stopped) && !p.markFails && row.status == Stopping then
                  row.(status := Stopped)
                else row]
      ensures failed <==>
                if v.enabled then !p.starts.AllStarted? else !AllIn(v.members, p.stopped) || p.markFails
    {
      Measure(id, p.after);
      if !v.enabled {
        var stopped, unstopped := StopMembers(v.members, p.stopped, true);
        failed := unstopped || p.markFails;
        if !failed {
          var _ := MarkSubscriptionStopped(id);
        }
      } else {
        match p.starts
        case AllStarted => failed := false;
        case MemberUnread => failed := true;    // the group stays enabled
        case NotStarted(written) =>
          if written {
            UpdateSubscription(id, v.(enabled := false, status := Error));
          }
          failed := true;
      }
    }

    /** The last loop: judges every taken-over group by itself. */
    method SettleAll(groups: seq<Taken>, faults: map<int, Faults>, stopped: set<int>) returns (failed: bool)
      requires forall t | t in groups :: t.id in rows && t.id in faults
      requires forall i, j | 0 <= i < j < |groups| :: groups[i].id != groups[j].id
      modifies this
      ensures AllMarked(groups, faults, old(rows), rows, stopped)
      ensures failed <==> exists t | t in groups :: Unmarked(t, faults[t.id].markFails, stopped)
    {
      failed := false;
      for k := 0 to |groups|
        invariant AllMarked(groups[..k], faults, old(rows), rows, stopped)
        invariant failed <==> exists t | t in groups[..k] :: Unmarked(t, faults[t.id].markFails, stopped)
      {
        assert groups[..k + 1] == groups[..k] + [groups[k]];
        MarksOneMore(groups, k, faults, old(rows), rows, stopped);
        var trouble := Settle(groups[k], faults[groups[k].id].markFails, stopped);
        failed := failed || trouble;
      }
      assert groups[..|groups|] == groups;
    }
  }

  /** Runs the stops of the given members. */
  method StopMembers(ids: seq<int>, stops: set<int>, inTime: bool) returns (stopped: set<int>, failed: bool)
    ensures stopped == set m | m in ids && inTime && m in stops
    ensures failed <==> exists m | m in ids :: m !in stopped
  {
    stopped, failed := {}, false;
    for i := 0 to |ids|
      invariant stopped == set m | m in ids[..i] && inTime && m in stops
      invariant failed <==> exists m | m in ids[..i] :: !inTime || m !in stops
    {
      var m := ids[i];
      assert ids[..i + 1] == ids[..i] + [m];
      if inTime && m in stops {
        stopped := stopped + {m};
      } else {
        assert m in ids[..i + 1];
        failed := true;
      }
    }
    assert ids[..|ids|] == ids;
  }
}
