/** Bringing the machines of a route to the state its plan calls for, from the last hop back
    to the entry, over commands that may fail with or without having done their work.

    What is at stake: a relay is restarted only when everything behind it was confirmed in
    the same pass, a failed hop stops the pass before it touches anything in front, and a
    pass over machines already in order touches nothing at all.
  */
module Applier {
  import opened Prelude
  import opened Text

  datatype Init = Systemd | OpenRC | Other

  /** A running relay: the configuration and the build it was started with. */
  datatype Process = Process(config: Str, build: Str)

  /** One machine, as far as one route concerns it. The configuration is the file on disk,
      empty if there is none; `unit` says whether the service definition on disk is the
      current one, `told` whether systemd was told to reread it since it was written. */
  datatype Machine =
    Machine(init: Init, build: Option<Str>, unit: bool, told: bool, config: Str, running: Option<Process>)

  /** How a command that changes the machine ends; `Unheard` did its work but was reported
      as failed. */
  datatype Write = Done | Refused | Unheard

  /** How a restart ends: the service starts and may die again, or only stops, or nothing
      happens. */
  datatype Restart = Starts(stays: bool, heard: bool) | OnlyStops | Nothing

  /** What goes wrong on one machine; a flag that is set is a command that fails. */
  datatype Faults = Faults(
    connect: bool, mkdir: bool, version: bool, fetch: bool, upload: Write, verify: bool,
    unitRead: bool, unitWrite: Write, reload: Write, enable: bool,
    read: bool, status: bool, write: Write, restart: Restart, wait: bool, confirm: bool)

  datatype Action =
    | Unreachable | RealmInstallFailed | UnitInstallFailed | ReadConfigFailed | StatusCheckFailed
    | WriteConfigFailed | RestartFailed | Skipped
    | RealmUpgraded | Unchanged | RestartedDeadService | Applied

  predicate Good(a: Action) {
    a.RealmUpgraded? || a.Unchanged? || a.RestartedDeadService? || a.Applied?
  }

  datatype Outcome = Outcome(node: int, changed: bool, action: Action)

  datatype Target = Target(node: int, config: Str)

  /** Everything on disk is as planned. */
  predicate Prepared(m: Machine, config: Str, version: Str) {
    !m.init.Other? && m.build == Some(version) && m.unit && m.config == config
  }

  /** The machine is as planned and its relay is up. */
  predicate Settled(m: Machine, config: Str, version: Str) {
    Prepared(m, config, version) && m.running.Some?
  }

  /** The relay was started with the planned configuration and build. */
  predicate RunsPlan(m: Machine, config: Str, version: Str) {
    m.running == Some(Process(config, version))
  }

  function NoFaults(): Faults {
    Faults(false, false, false, false, Done, false, false, Done, Done, false,
           false, false, Done, Starts(true, true), false, false)
  }

  predicate Faultless(f: Faults) {
    f == NoFaults()
  }

  /** A restart attempt, and all machines as they were just before it. */
  datatype Attempt = Attempt(node: int, before: map<int, Machine>)

  predicate Distinct(plan: seq<Target>) {
    forall i, j | 0 <= i < j < |plan| :: plan[i].node != plan[j].node
  }

  ghost predicate SettledFrom(plan: seq<Target>, i: int, version: Str, machines: map<int, Machine>) {
    forall j | 0 <= j < |plan| && i <= j ::
      plan[j].node in machines && Settled(machines[plan[j].node], plan[j].config, version)
  }

  /** A restart of some hop over its planned files, with every hop behind it already settled. */
  ghost predicate InOrder(plan: seq<Target>, version: Str, a: Attempt) {
    exists i :: 0 <= i < |plan| && plan[i].node == a.node && a.node in a.before
                && Prepared(a.before[a.node], plan[i].config, version)
                && SettledFrom(plan, i + 1, version, a.before)
  }

  ghost predicate OthersKept(plan: seq<Target>, i: int, was: map<int, Machine>, now: map<int, Machine>) {
    && was.Keys == now.Keys
    && forall n | n in was && (forall j | 0 <= j < |plan| && i <= j :: plan[j].node != n) :: now[n] == was[n]
  }

  /** What each outcome says of the relay: a changed hop runs what was planned, an unchanged
      one runs what it ran before. */
  ghost predicate Truthful(plan: seq<Target>, outcomes: seq<Outcome>, version: Str,
                           was: map<int, Machine>, now: map<int, Machine>) {
    |plan| == |outcomes| &&
    forall i | 0 <= i < |plan| ::
      && outcomes[i].node == plan[i].node && plan[i].node in was && plan[i].node in now
      && (outcomes[i].changed <==> Good(outcomes[i].action) && !outcomes[i].action.Unchanged?)
      && (outcomes[i].changed ==> RunsPlan(now[plan[i].node], plan[i].config, version))
      && (outcomes[i].action.Unchanged? ==> now[plan[i].node].running == was[plan[i].node].running)
  }

  /** How a pass splits at hop `k`: done behind it, failed there, untouched before it; at -1
      every hop is done. */
  ghost predicate SplitsAt(plan: seq<Target>, outcomes: seq<Outcome>, version: Str,
                           was: map<int, Machine>, now: map<int, Machine>, k: int) {
    && -1 <= k < |plan| == |outcomes|
    && SettledFrom(plan, k + 1, version, now)
    && (forall i | k < i < |plan| :: Good(outcomes[i].action))
    && (k >= 0 ==> !Good(outcomes[k].action) && !outcomes[k].action.Skipped?)
    && (forall i | 0 <= i < k :: outcomes[i] == Outcome(plan[i].node, false, Skipped))
    && OthersKept(plan, k, was, now)
  }

  /** A pass that has dealt with all hops behind `i`. */
  ghost predicate Underway(plan: seq<Target>, outcomes: seq<Outcome>, version: Str,
                           was: map<int, Machine>, now: map<int, Machine>, i: int) {
    && -1 <= i < |plan| == |outcomes|
    && SettledFrom(plan, i + 1, version, now)
    && (forall j | i < j < |plan| :: Good(outcomes[j].action))
    && (forall j | 0 <= j <= i :: outcomes[j] == Outcome(plan[j].node, false, Skipped))
    && OthersKept(plan, i + 1, was, now)
    && Truthful(plan, outcomes, version, was, now)
  }

  /** What one hop's outcome promises of its machine. */
  predicate Honest(t: Target, o: Outcome, version: Str, was: Machine, now: Machine) {
    && o.node == t.node && !o.action.Skipped?
    && (Good(o.action) ==> Settled(now, t.config, version))
    && (o.changed <==> Good(o.action) && !o.action.Unchanged?)
    && (o.changed ==> RunsPlan(now, t.config, version))
    && (o.action.Unchanged? ==> now.running == was.running)
  }

  /** The pinned build ends up installed. */
  predicate RealmInstalls(m: Machine, version: Str, f: Faults) {
    !f.mkdir && !f.version && (m.build == Some(version) || (!f.fetch && f.upload.Done? && !f.verify))
  }

  predicate UnitInstalls(m: Machine, f: Faults) {
    && !m.init.Other? && !f.unitRead && !f.enable
    && (m.unit || (f.unitWrite.Done? && (m.init.Systemd? ==> f.reload.Done?)))
  }

  predicate RestartWorks(f: Faults) {
    f.restart == Starts(true, true) && !f.wait && !f.confirm
  }

  /** The outcome of a hop whose build and service are in place; `replaced` says whether an
      older build had to make way. */
  function Verdict(config: Str, replaced: bool, m: Machine, f: Faults): Action {
    if f.read then ReadConfigFailed
    else if m.config != config then
      (if !f.write.Done? then WriteConfigFailed else if RestartWorks(f) then Applied else RestartFailed)
    else if replaced then (if RestartWorks(f) then RealmUpgraded else RestartFailed)
    else if f.status then StatusCheckFailed
    else if m.running.Some? then Unchanged
    else if RestartWorks(f) then RestartedDeadService
    else RestartFailed
  }

  /** The outcome of a hop, from what its machine was and what fails there. */
  function HopVerdict(t: Target, version: Str, m: Machine, f: Faults): Action {
    if f.connect then Unreachable
    else if !RealmInstalls(m, version, f) then RealmInstallFailed
    else if !UnitInstalls(m, f) then UnitInstallFailed
    else Verdict(t.config, m.build.Some? && m.build != Some(version), m, f)
  }

  // ---------------------------------------------------------------- what a hop leaves behind

  function Installed(m: Machine, version: Str, f: Faults): Machine {
    if f.mkdir || f.version || m.build == Some(version) || f.fetch || f.upload.Refused? then m
    else m.(build := Some(version))
  }

  function Enabled(m: Machine, f: Faults): Machine {
    if m.init.Other? || f.unitRead || m.unit || f.unitWrite.Refused? then m
    else m.(unit := true, told := m.init.Systemd? && f.unitWrite.Done? && !f.reload.Refused?)
  }

  /** A relay that starts loads the file and the build on disk. */
  function Restarted(m: Machine, r: Restart): Machine {
    if r.Nothing? || m.build.None? then m
    else m.(running := if r.Starts? && r.stays then Some(Process(m.config, m.build.value)) else None)
  }

  function Configured(config: Str, replaced: bool, m: Machine, f: Faults): Machine {
    if f.read then m
    else if m.config != config then
      var written := if f.write.Refused? then m else m.(config := config);
      if f.write.Done? then Restarted(written, f.restart) else written
    else if replaced then Restarted(m, f.restart)
    else if f.status || m.running.Some? then m
    else Restarted(m, f.restart)
  }

  /** The machine one hop of a pass leaves behind. */
  function HopLeft(t: Target, version: Str, m: Machine, f: Faults): Machine {
    if f.connect then m
    else
      var built := Installed(m, version, f);
      if !RealmInstalls(m, version, f) then built
      else
        var enabled := Enabled(built, f);
        if !UnitInstalls(m, f) then enabled
        else Configured(t.config, m.build.Some? && m.build != Some(version), enabled, f)
  }

  // ---------------------------------------------------------------- what a hop comes to, command by command

  /** A command that a hop needs: what the hop reports if it fails, and whether it does. */
  datatype Command = Command(complaint: Action, fails: bool)

  /** The commands that install the build, in order, if all succeed. */
  function RealmCommands(version: Str, m: Machine, f: Faults): seq<Command> {
    [Command(RealmInstallFailed, f.mkdir), Command(RealmInstallFailed, f.version)]
    + if m.build == Some(version) then []
      else [Command(RealmInstallFailed, f.fetch), Command(RealmInstallFailed, !f.upload.Done?),
            Command(RealmInstallFailed, f.verify)]
  }

  /** Those that install the service definition. */
  function UnitCommands(m: Machine, f: Faults): seq<Command> {
    [Command(UnitInstallFailed, m.init.Other?), Command(UnitInstallFailed, f.unitRead)]
    + (if m.unit then []
       else [Command(UnitInstallFailed, !f.unitWrite.Done?),
             Command(UnitInstallFailed, m.init.Systemd? && !f.reload.Done?)])
    + [Command(UnitInstallFailed, f.enable)]
  }

  /** All commands up to and including the look at the file. */
  function UpToFile(version: Str, m: Machine, f: Faults): seq<Command> {
    [Command(Unreachable, f.connect)] + (RealmCommands(version, m, f) + (UnitCommands(m, f)
      + [Command(ReadConfigFailed, f.read)]))
  }

  /** What the hop is there to do, as it would report it. */
  function Purpose(t: Target, version: Str, m: Machine): Action {
    if m.config != t.config then Applied
    else if m.build.Some? && m.build != Some(version) then RealmUpgraded
    else if m.running.None? then RestartedDeadService
    else Unchanged
  }

  /** The commands after that. */
  function FromFile(t: Target, version: Str, m: Machine, f: Faults): seq<Command> {
    var restart := [Command(RestartFailed, f.restart != Starts(true, true)), Command(RestartFailed, f.wait),
                    Command(RestartFailed, f.confirm)];
    match Purpose(t, version, m)
    case Applied => [Command(WriteConfigFailed, !f.write.Done?)] + restart
    case RealmUpgraded => restart
    case RestartedDeadService => [Command(StatusCheckFailed, f.status)] + restart
    case _ => [Command(StatusCheckFailed, f.status)]
  }

  function FirstComplaint(commands: seq<Command>, otherwise: Action): Action {
    if commands == [] then otherwise
    else if commands[0].fails then commands[0].complaint
    else FirstComplaint(commands[1..], otherwise)
  }

  predicate AllWork(commands: seq<Command>) {
    forall i | 0 <= i < |commands| :: !commands[i].fails
  }

  lemma {:induction false} ComplaintsJoin(a: seq<Command>, b: seq<Command>, otherwise: Action)
    ensures FirstComplaint(a + b, otherwise) == FirstComplaint(a, FirstComplaint(b, otherwise))
  {
    if a == [] {
      assert a + b == b;
    } else {
      assert (a + b)[1..] == a[1..] + b;
      ComplaintsJoin(a[1..], b, otherwise);
    }
  }

  lemma OneComplaint(a: Command, otherwise: Action)
    ensures FirstComplaint([a], otherwise) == if a.fails then a.complaint else otherwise
  {
    assert [a][1..] == [];
  }

  lemma {:induction false} SameComplaint(commands: seq<Command>, complaint: Action, otherwise: Action)
    requires forall i | 0 <= i < |commands| :: commands[i].complaint == complaint
    ensures FirstComplaint(commands, otherwise) == if AllWork(commands) then otherwise else complaint
  {
    if commands != [] {
      SameComplaint(commands[1..], complaint, otherwise);
      assert commands == commands[..1] + commands[1..];
      AllWorkJoins(commands[..1], commands[1..]);
    }
  }

  lemma RealmWorks(version: Str, m: Machine, f: Faults)
    ensures AllWork(RealmCommands(version, m, f)) <==> RealmInstalls(m, version, f)
  {
    var commands := RealmCommands(version, m, f);
    assert AllWork(commands) <==>
             !commands[0].fails && !commands[1].fails
             && (|commands| == 5 ==> !commands[2].fails && !commands[3].fails && !commands[4].fails);
  }

  lemma UnitWorks(m: Machine, f: Faults)
    ensures AllWork(UnitCommands(m, f)) <==> UnitInstalls(m, f)
  {
    var commands := UnitCommands(m, f);
    assert AllWork(commands) <==>
             !commands[0].fails && !commands[1].fails && !commands[2].fails
             && (|commands| == 5 ==> !commands[3].fails && !commands[4].fails);
  }

  lemma ComplaintsUpToFile(version: Str, m: Machine, f: Faults, otherwise: Action)
    ensures FirstComplaint(UpToFile(version, m, f), otherwise) ==
              if f.connect then Unreachable
              else if !RealmInstalls(m, version, f) then RealmInstallFailed
              else if !UnitInstalls(m, f) then UnitInstallFailed
              else if f.read then ReadConfigFailed
              else otherwise
  {
    var connect, read := Command(Unreachable, f.connect), Command(ReadConfigFailed, f.read);
    var realm, unit := RealmCommands(version, m, f), UnitCommands(m, f);
    var d := FirstComplaint([read], otherwise);
    var c := FirstComplaint(unit, d);
    ComplaintsJoin([connect], realm + (unit + [read]), otherwise);
    ComplaintsJoin(realm, unit + [read], otherwise);
    ComplaintsJoin(unit, [read], otherwise);
    OneComplaint(read, otherwise);
    SameComplaint(unit, UnitInstallFailed, d);
    UnitWorks(m, f);
    SameComplaint(realm, RealmInstallFailed, c);
    RealmWorks(version, m, f);
    OneComplaint(connect, FirstComplaint(realm, c));
  }

  lemma UpToFileWorks(version: Str, m: Machine, f: Faults)
    ensures AllWork(UpToFile(version, m, f)) <==> LooksAtFile(m, version, f)
  {
    var connect, read := Command(Unreachable, f.connect), Command(ReadConfigFailed, f.read);
    var realm, unit := RealmCommands(version, m, f), UnitCommands(m, f);
    AllWorkJoins([connect], realm + (unit + [read]));
    AllWorkJoins(realm, unit + [read]);
    AllWorkJoins(unit, [read]);
    assert AllWork([connect]) <==> ![connect][0].fails;
    assert AllWork([read]) <==> ![read][0].fails;
    UnitWorks(m, f);
    RealmWorks(version, m, f);
  }

  lemma AllWorkJoins(a: seq<Command>, b: seq<Command>)
    ensures AllWork(a + b) <==> AllWork(a) && AllWork(b)
  {
    assert forall i | 0 <= i < |a| :: (a + b)[i] == a[i];
    assert forall i | 0 <= i < |b| :: (a + b)[|a| + i] == b[i];
  }

  lemma ComplaintsFromFile(t: Target, version: Str, m: Machine, f: Faults)
    requires !f.read
    ensures FirstComplaint(FromFile(t, version, m, f), Purpose(t, version, m)) ==
              Verdict(t.config, m.build.Some? && m.build != Some(version), m, f)
  {
    var purpose := Purpose(t, version, m);
    var restart := [Command(RestartFailed, f.restart != Starts(true, true)), Command(RestartFailed, f.wait),
                    Command(RestartFailed, f.confirm)];
    SameComplaint(restart, RestartFailed, purpose);
    assert AllWork(restart) <==> !restart[0].fails && !restart[1].fails && !restart[2].fails;
    match purpose
    case Applied =>
      ComplaintsJoin([Command(WriteConfigFailed, !f.write.Done?)], restart, purpose);
      OneComplaint(Command(WriteConfigFailed, !f.write.Done?), FirstComplaint(restart, purpose));
    case RestartedDeadService =>
      ComplaintsJoin([Command(StatusCheckFailed, f.status)], restart, purpose);
      OneComplaint(Command(StatusCheckFailed, f.status), FirstComplaint(restart, purpose));
    case _ => OneComplaint(Command(StatusCheckFailed, f.status), purpose);
  }

  /** A hop reports the first command that fails, and what it was there to do if none does. */
  lemma HopReportsFirstFailure(t: Target, version: Str, m: Machine, f: Faults)
    ensures HopVerdict(t, version, m, f) ==
              FirstComplaint(UpToFile(version, m, f) + FromFile(t, version, m, f), Purpose(t, version, m))
  {
    var rest := FirstComplaint(FromFile(t, version, m, f), Purpose(t, version, m));
    ComplaintsJoin(UpToFile(version, m, f), FromFile(t, version, m, f), Purpose(t, version, m));
    ComplaintsUpToFile(version, m, f, rest);
    if !f.read {
      ComplaintsFromFile(t, version, m, f);
    }
  }

  /** A restart is tried once everything before it worked and there is reason for one. */
  predicate TriesRestart(t: Target, version: Str, m: Machine, f: Faults) {
    && AllWork(UpToFile(version, m, f))
    && match Purpose(t, version, m)
       case Applied => f.write.Done?
       case RealmUpgraded => true
       case RestartedDeadService => !f.status
       case _ => false
  }

  /** A hop writes the planned file if it gets there and the write is not refused; the process
      changes only by a restart that is tried, and then runs the file and the build on disk. */
  lemma HopOnRelay(t: Target, version: Str, m: Machine, f: Faults)
    ensures var left := HopLeft(t, version, m, f);
            && left.config == (if AllWork(UpToFile(version, m, f)) && !f.write.Refused? then t.config else m.config)
            && left.running ==
                 if !TriesRestart(t, version, m, f) then m.running
                 else match f.restart
                      case Nothing => m.running
                      case OnlyStops => None
                      case Starts(stays, _) => if stays then Some(Process(t.config, version)) else None
  {
    UpToFileWorks(version, m, f);
    if LooksAtFile(m, version, f) {
      var replaced := m.build.Some? && m.build != Some(version);
      var ready := Enabled(Installed(m, version, f), f);
      assert ready.build == Some(version) && ready.config == m.config && ready.running == m.running;
      assert HopLeft(t, version, m, f) == Configured(t.config, replaced, ready, f);
    } else {
      assert HopLeft(t, version, m, f).config == m.config && HopLeft(t, version, m, f).running == m.running;
    }
  }

  // ---------------------------------------------------------------- relays nobody notices

  /** File and build match the plan, but the relay was started with something else. */
  predicate Stale(m: Machine, config: Str, version: Str) {
    && m.config == config && (m.build.Some? ==> m.build.value == version)
    && m.running.Some? && !RunsPlan(m, config, version)
  }

  /** A hop reported as done runs its plan exactly if it did not find a stale relay. */
  lemma DoneHopRunsPlan(t: Target, version: Str, m: Machine, f: Faults)
    requires Good(HopVerdict(t, version, m, f))
    ensures RunsPlan(HopLeft(t, version, m, f), t.config, version) <==> !Stale(m, t.config, version)
  {
  }

  /** The hop gets as far as looking at the file. */
  predicate LooksAtFile(m: Machine, version: Str, f: Faults) {
    !f.connect && RealmInstalls(m, version, f) && UnitInstalls(m, f) && !f.read
  }

  /** The upload goes through if it is made, whatever is reported of it. */
  predicate UploadWorks(f: Faults) {
    !(f.connect || f.mkdir || f.version || f.fetch || f.upload.Refused?)
  }

  /** A relay is running that is not as planned, file and build come to match, and no restart
      takes effect: a write or an upload is done but reported as failed, or the restart after
      it fails. */
  predicate NoRestartReaches(t: Target, version: Str, m: Machine, f: Faults) {
    && m.running.Some? && !RunsPlan(m, t.config, version)
    && (m.config == t.config || (LooksAtFile(m, version, f) && !f.write.Refused?))
    && (m.build.None? || m.build == Some(version) || UploadWorks(f))
    && !(LooksAtFile(m, version, f) && !f.restart.Nothing?
         && (if m.config != t.config then f.write.Done? else m.build.Some? && m.build != Some(version)))
  }

  /** That is exactly when a hop leaves a stale relay. */
  lemma LeavesStale(t: Target, version: Str, m: Machine, f: Faults)
    ensures Stale(HopLeft(t, version, m, f), t.config, version) <==> NoRestartReaches(t, version, m, f)
  {
    if !f.connect && RealmInstalls(m, version, f) && UnitInstalls(m, f) {
      LooksAndLeavesStale(t, version, m, f);
    }
  }

  lemma LooksAndLeavesStale(t: Target, version: Str, m: Machine, f: Faults)
    requires !f.connect && RealmInstalls(m, version, f) && UnitInstalls(m, f)
    ensures Stale(HopLeft(t, version, m, f), t.config, version) <==> NoRestartReaches(t, version, m, f)
  {
    var replaced := m.build.Some? && m.build != Some(version);
    var ready := Enabled(Installed(m, version, f), f);
    assert ready.build == Some(version) && ready.config == m.config && ready.running == m.running;
    assert HopLeft(t, version, m, f) == Configured(t.config, replaced, ready, f);
  }

  /** What a hop does to the parts of a machine that its relays share. */
  lemma HopOnShared(t: Target, version: Str, m: Machine, f: Faults)
    ensures var left := HopLeft(t, version, m, f);
            && left.init == m.init && (m.unit ==> left.unit)
            && left.build == (if m.build != Some(version) && UploadWorks(f) then Some(version) else m.build)
            && (!m.init.Systemd? && !m.told ==> !left.told)
  {
  }

  /** What one pass wants of the machine, and what goes wrong there. */
  datatype Pass = Pass(target: Target, version: Str, faults: Faults)

  function AllLeft(m: Machine, passes: seq<Pass>): Machine
    decreases |passes|
  {
    if passes == [] then m
    else AllLeft(HopLeft(passes[0].target, passes[0].version, m, passes[0].faults), passes[1..])
  }

  /** No later pass with the same plan restarts a stale relay, whatever fails in it: not even
      a faultless one, which reports the hop as unchanged. */
  lemma {:induction false} StaleStays(t: Target, version: Str, m: Machine, passes: seq<Pass>)
    requires Stale(m, t.config, version)
    requires forall p | p in passes :: p.target == t && p.version == version
    ensures Stale(AllLeft(m, passes), t.config, version)
    ensures AllLeft(m, passes).running == m.running
    ensures !m.init.Other? ==> HopVerdict(t, version, m, NoFaults()).Unchanged?
    decreases |passes|
  {
    if passes != [] {
      assert passes[0] in passes;
      LeavesStale(t, version, m, passes[0].faults);
      StaleStays(t, version, HopLeft(t, version, m, passes[0].faults), passes[1..]);
    }
  }

  /** One way there: the new configuration was written, but the reply got lost. The next pass
      reports success over a relay that still runs the old one. */
  lemma LostReplyLeavesStale(old': Str, config: Str, version: Str)
    requires old' != config
    ensures var m := Machine(Systemd, Some(version), true, true, old', Some(Process(old', version)));
            var t := Target(1, config);
            var lost := NoFaults().(write := Unheard);
            && Settled(m, old', version) && HopVerdict(t, version, m, lost).WriteConfigFailed?
            && var left := HopLeft(t, version, m, lost);
               Stale(left, config, version) && HopVerdict(t, version, left, NoFaults()).Unchanged?
  {
  }

  /** Another: a new build was uploaded, and the restart into it failed. */
  lemma FailedUpgradeLeavesStale(config: Str, old': Str, version: Str)
    requires old' != version
    ensures var m := Machine(Systemd, Some(old'), true, true, config, Some(Process(config, old')));
            var t := Target(1, config);
            var failed := NoFaults().(restart := Nothing);
            && HopVerdict(t, version, m, failed).RestartFailed?
            && var left := HopLeft(t, version, m, failed);
               Stale(left, config, version) && HopVerdict(t, version, left, NoFaults()).Unchanged?
  {
  }

  // ---------------------------------------------------------------- definitions systemd was not told about

  /** The current definition is on disk, but systemd was not told to reread it. */
  predicate Untold(m: Machine) {
    m.init.Systemd? && m.unit && !m.told
  }

  /** The hop gets as far as writing the service definition, if that is to be written. */
  predicate ReachesUnit(m: Machine, version: Str, f: Faults) {
    !f.connect && RealmInstalls(m, version, f) && !f.unitRead
  }

  /** A hop leaves such a definition exactly if it found one, or wrote one and did not get to
      the reload or could not do it. */
  lemma LeavesUntold(t: Target, version: Str, m: Machine, f: Faults)
    ensures Untold(HopLeft(t, version, m, f)) <==>
              && m.init.Systemd?
              && (if m.unit then !m.told
                  else ReachesUnit(m, version, f) && !f.unitWrite.Refused?
                       && (f.unitWrite.Unheard? || f.reload.Refused?))
  {
  }

  /** No later pass makes up for it, whatever its plan and whatever fails in it. */
  lemma {:induction false} UntoldStays(m: Machine, passes: seq<Pass>)
    requires Untold(m)
    ensures Untold(AllLeft(m, passes))
    decreases |passes|
  {
    if passes != [] {
      var p := passes[0];
      LeavesUntold(p.target, p.version, m, p.faults);
      UntoldStays(HopLeft(p.target, p.version, m, p.faults), passes[1..]);
    }
  }

  /** A hop reported as done has told systemd exactly if the pass did not find that left to do. */
  lemma DoneHopHasTold(t: Target, version: Str, m: Machine, f: Faults)
    requires Good(HopVerdict(t, version, m, f)) && m.init.Systemd?
    ensures HopLeft(t, version, m, f).told <==> !Untold(m)
  {
  }

  /** The way there: the definition was written and the reload failed. The hop is reported as
      failed; the next one, without faults, is a success that no longer reloads. */
  lemma FailedReloadIsNotRepeated(config: Str, version: Str)
    ensures var m := Machine(Systemd, Some(version), false, true, config, None);
            var t := Target(1, config);
            var failed := NoFaults().(reload := Refused);
            && HopVerdict(t, version, m, failed).UnitInstallFailed?
            && var left := HopLeft(t, version, m, failed);
               && HopVerdict(t, version, left, NoFaults()).RestartedDeadService?
               && Untold(HopLeft(t, version, left, NoFaults()))
  {
  }

  // ---------------------------------------------------------------- a pass

  /** A hop fails only where something went wrong on its machine. */
  lemma FaultlessHopSucceeds(t: Target, version: Str, m: Machine, f: Faults)
    requires Faultless(f) && !m.init.Other?
    ensures Good(HopVerdict(t, version, m, f))
  {
  }

  /** A pass without faults over supported machines leaves every hop settled. */
  lemma FaultlessPassSettles(plan: seq<Target>, faults: seq<Faults>, outcomes: seq<Outcome>, version: Str,
                             was: map<int, Machine>, now: map<int, Machine>, k: int)
    requires |faults| == |plan| == |outcomes| && forall i | 0 <= i < |plan| :: plan[i].node in was
    requires SplitsAt(plan, outcomes, version, was, now, k)
    requires Verdicts(plan, faults, version, was, outcomes)
    requires forall i | 0 <= i < |plan| :: Faultless(faults[i]) && !was[plan[i].node].init.Other?
    ensures k == -1 && SettledFrom(plan, 0, version, now)
  {
    if k >= 0 {
      FaultlessHopSucceeds(plan[k], version, was[plan[k].node], faults[k]);
    }
  }

  /** Every hop was skipped, or ended as its own machine and faults decide. */
  ghost predicate Verdicts(plan: seq<Target>, faults: seq<Faults>, version: Str, was: map<int, Machine>,
                           outcomes: seq<Outcome>)
    requires |faults| == |plan| == |outcomes| && forall i | 0 <= i < |plan| :: plan[i].node in was
  {
    forall i | 0 <= i < |plan| ::
      outcomes[i].action.Skipped? || outcomes[i].action == HopVerdict(plan[i], version, was[plan[i].node], faults[i])
  }

  lemma VerdictGiven(plan: seq<Target>, faults: seq<Faults>, version: Str, was: map<int, Machine>,
                     now: map<int, Machine>, outcomes: seq<Outcome>, i: nat, o: Outcome)
    requires Distinct(plan) && Underway(plan, outcomes, version, was, now, i)
    requires |faults| == |plan| && forall j | 0 <= j < |plan| :: plan[j].node in was
    requires Verdicts(plan, faults, version, was, outcomes)
    requires o.action == HopVerdict(plan[i], version, now[plan[i].node], faults[i])
    ensures Verdicts(plan, faults, version, was, outcomes[i := o])
  {
    assert now[plan[i].node] == was[plan[i].node];
  }

  lemma HopDone(plan: seq<Target>, outcomes: seq<Outcome>, version: Str, was: map<int, Machine>,
                now: map<int, Machine>, i: int, o: Outcome, m: Machine)
    requires Distinct(plan) && Underway(plan, outcomes, version, was, now, i) && i >= 0
    requires Honest(plan[i], o, version, now[plan[i].node], m)
    ensures Truthful(plan, outcomes[i := o], version, was, now[plan[i].node := m])
    ensures OthersKept(plan, i, was, now[plan[i].node := m])
    ensures SettledFrom(plan, i + 1, version, now[plan[i].node := m])
    ensures Good(o.action) ==> Underway(plan, outcomes[i := o], version, was, now[plan[i].node := m], i - 1)
    ensures !Good(o.action) ==> SplitsAt(plan, outcomes[i := o], version, was, now[plan[i].node := m], i)
  {
    assert now[plan[i].node] == was[plan[i].node];
  }

  lemma AttemptsInOrder(plan: seq<Target>, version: Str, was: seq<Attempt>, now: seq<Attempt>,
                        machines: map<int, Machine>, start: nat, i: int)
    requires Distinct(plan) && 0 <= i < |plan| && start <= |was|
    requires AtMostOne(was, now, plan[i], version, machines) && SettledFrom(plan, i + 1, version, machines)
    requires forall j | start <= j < |was| :: InOrder(plan, version, was[j])
    ensures |now| >= start && forall j | start <= j < |now| :: InOrder(plan, version, now[j])
  {
    forall j | start <= j < |now|
      ensures InOrder(plan, version, now[j])
    {
      if j < |was| {
        assert now[j] == was[j];
      } else {
        assert SettledFrom(plan, i + 1, version, now[j].before);
      }
    }
  }

  /** What every hop that was not skipped left behind. */
  ghost predicate Left(plan: seq<Target>, faults: seq<Faults>, version: Str, was: map<int, Machine>,
                       now: map<int, Machine>, outcomes: seq<Outcome>)
    requires |faults| == |plan| == |outcomes|
    requires forall i | 0 <= i < |plan| :: plan[i].node in was && plan[i].node in now
  {
    forall i | 0 <= i < |plan| && !outcomes[i].action.Skipped? ::
      now[plan[i].node] == HopLeft(plan[i], version, was[plan[i].node], faults[i])
  }

  lemma HopLeftBehind(plan: seq<Target>, faults: seq<Faults>, version: Str, was: map<int, Machine>,
                      now: map<int, Machine>, outcomes: seq<Outcome>, i: nat, o: Outcome)
    requires Distinct(plan) && Underway(plan, outcomes, version, was, now, i)
    requires |faults| == |plan| && Left(plan, faults, version, was, now, outcomes)
    ensures Left(plan, faults, version, was,
                 now[plan[i].node := HopLeft(plan[i], version, now[plan[i].node], faults[i])], outcomes[i := o])
  {
    assert now[plan[i].node] == was[plan[i].node];
  }

  /** After a full success a hop runs what was planned exactly if the pass did not find a
      stale relay there. */
  lemma SuccessRunsPlan(plan: seq<Target>, faults: seq<Faults>, outcomes: seq<Outcome>, version: Str,
                        was: map<int, Machine>, now: map<int, Machine>, i: nat)
    requires |faults| == |plan| && SplitsAt(plan, outcomes, version, was, now, -1)
    requires forall j | 0 <= j < |plan| :: plan[j].node in was && plan[j].node in now
    requires Verdicts(plan, faults, version, was, outcomes) && Left(plan, faults, version, was, now, outcomes)
    requires i < |plan|
    ensures RunsPlan(now[plan[i].node], plan[i].config, version)
            <==> !Stale(was[plan[i].node], plan[i].config, version)
  {
    assert Good(outcomes[i].action);
    DoneHopRunsPlan(plan[i], version, was[plan[i].node], faults[i]);
  }

  /** After a full success systemd was told of the definition on disk exactly if the pass did
      not find one it was not told of. */
  lemma SuccessHasTold(plan: seq<Target>, faults: seq<Faults>, outcomes: seq<Outcome>, version: Str,
                       was: map<int, Machine>, now: map<int, Machine>, i: nat)
    requires |faults| == |plan| && SplitsAt(plan, outcomes, version, was, now, -1)
    requires forall j | 0 <= j < |plan| :: plan[j].node in was && plan[j].node in now
    requires Verdicts(plan, faults, version, was, outcomes) && Left(plan, faults, version, was, now, outcomes)
    requires i < |plan| && was[plan[i].node].init.Systemd?
    ensures now[plan[i].node].told <==> !Untold(was[plan[i].node])
  {
    assert Good(outcomes[i].action);
    DoneHopHasTold(plan[i], version, was[plan[i].node], faults[i]);
  }

  /** At most one more attempt, on a prepared target while all other machines were as given. */
  ghost predicate AtMostOne(was: seq<Attempt>, now: seq<Attempt>, t: Target, version: Str,
                            machines: map<int, Machine>) {
    now == was
    || (&& |now| == |was| + 1 && now[..|was|] == was && now[|was|].node == t.node && t.node in now[|was|].before
        && Prepared(now[|was|].before[t.node], t.config, version)
        && now[|was|].before == machines[t.node := now[|was|].before[t.node]])
  }

  class Deployer {
    const version: Str
    var machines: map<int, Machine>
    ghost var attempts: seq<Attempt>

    /** Installs the pinned build unless it is there; `replaced` if another one was. */
    method EnsureRealm(n: int, f: Faults) returns (replaced: bool, ok: bool)
      requires n in machines
      modifies this
      ensures attempts == old(attempts)
      ensures n in machines && machines == old(machines)[n := old(machines)[n].(build := machines[n].build)]
      ensures machines[n].build == old(machines)[n].build || machines[n].build == Some(version)
      ensures machines[n] == Installed(old(machines)[n], version, f)
      ensures ok <==> RealmInstalls(old(machines)[n], version, f)
      ensures ok ==> machines[n].build == Some(version)
      ensures ok ==> (replaced <==> old(machines)[n].build.Some? && old(machines)[n].build != Some(version))
    {
      replaced, ok := false, false;
      if f.mkdir || f.version {
        return;
      }
      var installed := machines[n].build;
      if installed == Some(version) {
        return false, true;
      }
      if f.fetch {
        return;
      }
      if !f.upload.Refused? {
        machines := machines[n := machines[n].(build := Some(version))];
      }
      if !f.upload.Done? || f.verify {
        return;
      }
      replaced, ok := installed.Some?, true;
    }

    method EnsureUnit(n: int, f: Faults) returns (ok: bool)
      requires n in machines
      modifies this
      ensures attempts == old(attempts)
      ensures n in machines
              && machines == old(machines)[n := old(machines)[n].(unit := machines[n].unit, told := machines[n].told)]
      ensures old(machines)[n].unit ==> machines[n].unit
      ensures machines[n] == Enabled(old(machines)[n], f)
      ensures ok <==> UnitInstalls(old(machines)[n], f)
      ensures ok ==> machines[n].unit
    {
      ok := false;
      var m := machines[n];
      if m.init.Other? || f.unitRead {
        return;
      }
      if !m.unit {
        if !f.unitWrite.Refused? {
          machines := machines[n := m.(unit := true, told := false)];
        }
        if !f.unitWrite.Done? {
          return;
        }
        if m.init.Systemd? {
          if !f.reload.Refused? {
            machines := machines[n := machines[n].(told := true)];
          }
          if !f.reload.Done? {
            return;
          }
        }
      }
      ok := !f.enable;
    }

    /** Restarts the relay and confirms a moment later that it is still there. */
    method RestartRelay(n: int, f: Faults) returns (ok: bool)
      requires n in machines && machines[n].build.Some?
      modifies this
      ensures attempts == old(attempts) + [Attempt(n, old(machines))]
      ensures n in machines && machines == old(machines)[n := old(machines)[n].(running := machines[n].running)]
      ensures machines[n] == Restarted(old(machines)[n], f.restart)
      ensures ok <==> RestartWorks(f)
      ensures ok ==> machines[n].running == Some(Process(old(machines)[n].config, old(machines)[n].build.value))
    {
      attempts := attempts + [Attempt(n, machines)];
      var m := machines[n];
      match f.restart {
        case Starts(stays, _) =>
          machines := machines[n := m.(running := if stays then Some(Process(m.config, m.build.value)) else None)];
        case OnlyStops =>
          machines := machines[n := m.(running := None)];
        case Nothing =>
      }
      if !f.restart.Starts? || !f.restart.heard || f.wait || f.confirm {
        return false;
      }
      ok := machines[n].running.Some?;
    }

    /** Compares the configuration on disk with the planned one, and acts on it. */
    method ApplyConfig(t: Target, replaced: bool, f: Faults) returns (o: Outcome)
      requires t.node in machines && machines[t.node].build == Some(version)
      requires machines[t.node].unit && !machines[t.node].init.Other?
      modifies this
      ensures t.node in machines && machines == old(machines)[t.node := machines[t.node]]
      ensures machines[t.node].running == old(machines)[t.node].running || attempts != old(attempts)
      ensures AtMostOne(old(attempts), attempts, t, version, old(machines))
      ensures Honest(t, o, version, old(machines)[t.node], machines[t.node])
      ensures o.action == Verdict(t.config, replaced, old(machines)[t.node], f)
      ensures machines[t.node] == Configured(t.config, replaced, old(machines)[t.node], f)
      ensures machines[t.node].config == old(machines)[t.node].config || machines[t.node].config == t.config
      ensures (!replaced && Settled(old(machines)[t.node], t.config, version)) || o.action.Unchanged? ==>
                machines == old(machines) && attempts == old(attempts) && !o.changed
    {
      var n := t.node;
      if f.read {
        return Outcome(n, false, ReadConfigFailed);
      }
      if machines[n].config == t.config {
        if replaced {
          var ok := RestartRelay(n, f);
          return if ok then Outcome(n, true, RealmUpgraded) else Outcome(n, false, RestartFailed);
        }
        if f.status {
          return Outcome(n, false, StatusCheckFailed);
        }
        if machines[n].running.Some? {
          return Outcome(n, false, Unchanged);
        }
        var ok := RestartRelay(n, f);
        return if ok then Outcome(n, true, RestartedDeadService) else Outcome(n, false, RestartFailed);
      }
      if !f.write.Refused? {
        machines := machines[n := machines[n].(config := t.config)];
      }
      if !f.write.Done? {
        return Outcome(n, false, WriteConfigFailed);
      }
      var ok := RestartRelay(n, f);
      o := if ok then Outcome(n, true, Applied) else Outcome(n, false, RestartFailed);
    }

    /** One hop. It is left settled or reported as failed; it counts as changed exactly if
        the relay was restarted and confirmed, and then it runs what is on disk. A settled
        hop is not touched, whatever fails. */
    method ApplyHop(t: Target, f: Faults) returns (o: Outcome)
      requires t.node in machines
      modifies this
      ensures t.node in machines && machines == old(machines)[t.node := machines[t.node]]
      ensures machines[t.node].running == old(machines)[t.node].running || attempts != old(attempts)
      ensures AtMostOne(old(attempts), attempts, t, version, old(machines))
      ensures Honest(t, o, version, old(machines)[t.node], machines[t.node])
      ensures o.action == HopVerdict(t, version, old(machines)[t.node], f)
      ensures machines[t.node] == HopLeft(t, version, old(machines)[t.node], f)
      ensures machines[t.node].config == old(machines)[t.node].config || machines[t.node].config == t.config
      ensures o.action.Unreachable? ==> machines == old(machines) && attempts == old(attempts)
      ensures Settled(old(machines)[t.node], t.config, version) ==>
                machines == old(machines) && attempts == old(attempts) && !o.changed
    {
      var n := t.node;
      if f.connect {
        return Outcome(n, false, Unreachable);
      }
      var replaced, ok := EnsureRealm(n, f);
      if !ok {
        return Outcome(n, false, RealmInstallFailed);
      }
      ok := EnsureUnit(n, f);
      if !ok {
        return Outcome(n, false, UnitInstallFailed);
      }
      assert machines[n] == old(machines)[n].(build := Some(version), unit := true, told := machines[n].told);
      o := ApplyConfig(t, replaced, f);
    }

    /** A whole pass. */
    method Apply(plan: seq<Target>, faults: seq<Faults>) returns (outcomes: seq<Outcome>)
      requires Distinct(plan) && |faults| == |plan|
      requires forall i | 0 <= i < |plan| :: plan[i].node in machines
      modifies this
      ensures exists k :: SplitsAt(plan, outcomes, version, old(machines), machines, k)
      ensures Truthful(plan, outcomes, version, old(machines), machines)
      ensures |attempts| >= |old(attempts)|
      ensures forall i | |old(attempts)| <= i < |attempts| :: InOrder(plan, version, attempts[i])
      ensures SettledFrom(plan, 0, version, old(machines)) ==>
                machines == old(machines) && attempts == old(attempts)
                && forall o | o in outcomes :: !o.changed
      ensures Verdicts(plan, faults, version, old(machines), outcomes)
      ensures Left(plan, faults, version, old(machines), machines, outcomes)
    {
      var i := |plan| - 1;
      outcomes := seq(|plan|, j requires 0 <= j < |plan| => Outcome(plan[j].node, false, Skipped));
      while i >= 0
        invariant Underway(plan, outcomes, version, old(machines), machines, i)
        invariant Verdicts(plan, faults, version, old(machines), outcomes)
        invariant Left(plan, faults, version, old(machines), machines, outcomes)
        invariant |attempts| >= |old(attempts)|
        invariant forall j | |old(attempts)| <= j < |attempts| :: InOrder(plan, version, attempts[j])
        invariant SettledFrom(plan, 0, version, old(machines)) ==>
                    machines == old(machines) && attempts == old(attempts)
                    && forall o | o in outcomes :: !o.changed
      {
        ghost var made, before := attempts, machines;
        var o := ApplyHop(plan[i], faults[i]);
        VerdictGiven(plan, faults, version, old(machines), before, outcomes, i, o);
        HopLeftBehind(plan, faults, version, old(machines), before, outcomes, i, o);
        HopDone(plan, outcomes, version, old(machines), before, i, o, machines[plan[i].node]);
        AttemptsInOrder(plan, version, made, attempts, before, |old(attempts)|, i);
        outcomes := outcomes[i := o];
        if !Good(o.action) {
          return;               // the hops in front stay skipped
        }
        i := i - 1;
      }
      assert SplitsAt(plan, outcomes, version, old(machines), machines, -1);
    }
  }
}
