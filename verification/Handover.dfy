/** Handing a discovered sing-box fragment over from the shared service to a managed one.

    The machine is a small world of files and services. Every remote command either
    succeeds, or fails having changed nothing, part of the world or all it was meant to
    change; the caller is told only that it failed. A ghost history records the world
    after every command, so that a claim about a run covers all its moments.
  */
module Handover {
  import opened Prelude

  type Content = seq<char>

  /** What a managed service may be doing: a failed deployment or cleanup leaves it open. */
  datatype Managed = Absent | MaybeUp | Up

  datatype World = World(
    fragment: Option<Content>,     // the adopted fragment, where the shared service reads it
    disabledFile: Option<Content>,
    backup: Option<Content>,
    sharedUp: bool,
    loaded: bool,                  // the running shared service has the fragment loaded
    managed: Managed,
    committed: bool)               // the row says the node is managed

  datatype Step = Inspect | Backup | Stop | Deploy | Disable | Start | Commit | Cleanup | Restore

  /** How a command ends: it succeeds, or it fails having done nothing, part or all of
      its work. */
  datatype Fault = Ok | NoEffect | Partly | FullEffect

  /** The order in which a run issues its commands is fixed, so one fault for each of them
      describes every run. A failed commit is a rolled-back transaction. */
  datatype Faults = Faults(
    inspect: Fault, backup: Fault, stop: Fault, deploy: Fault, disable: Fault, start: Fault, commit: Fault,
    stopAgain: Fault, cleanup: Fault, restore: Fault, startAgain: Fault)

  /** Success, or the step that failed and, if the rollback did not complete, the step of
      the rollback that failed. */
  datatype Result = Done | Failed(cause: Step, incomplete: Option<Step>)

  /** Some commands test the world and fail by themselves. */
  predicate Possible(w: World, step: Step) {
    match step
    case Backup => w.disabledFile.None? && w.fragment.Some?
    case Disable => w.fragment.Some?
    case Restore => w.backup.Some?
    case _ => true
  }

  predicate Succeeds(w: World, step: Step, fault: Fault) {
    Possible(w, step) && fault.Ok?
  }

  /** What a command leaves behind. A starting shared service loads the fragment that is
      there; one that is up already keeps what it loaded. */
  function Effect(w: World, step: Step, fault: Fault): World {
    if !Possible(w, step) || fault.NoEffect? then w else
    match step
    case Inspect => w
    case Backup => w.(backup := if fault.Partly? then Some(w.fragment.value[..|w.fragment.value| / 2]) else w.fragment)
    case Stop => if fault.Partly? then w else w.(sharedUp := false, loaded := false)
    case Deploy => w.(managed := if fault.Ok? then Up else MaybeUp)
    case Disable => w.(disabledFile := w.fragment, fragment := if fault.Partly? then w.fragment else None)
    case Start => w.(sharedUp := true, loaded := if w.sharedUp then w.loaded else w.fragment.Some?)
    case Commit => if fault.Ok? then w.(committed := true) else w
    case Cleanup => w.(managed := if !fault.Partly? || w.managed.Absent? then Absent else MaybeUp)
    case Restore => w.(fragment := w.backup, disabledFile := if fault.Partly? then w.disabledFile else None)
  }

  /** The shared service never serves the adopted fragment while the managed one may. */
  ghost predicate Safe(w: World) {
    !(w.sharedUp && w.loaded && !w.managed.Absent?)
  }

  /** A full copy of the adopted configuration is on the machine. */
  ghost predicate Kept(w: World, content: Option<Content>) {
    w.fragment == content || w.disabledFile == content || w.backup == content
  }

  ghost predicate SafeAll(history: seq<World>, content: Option<Content>) {
    forall i | 0 <= i < |history| :: Safe(history[i]) && Kept(history[i], content)
  }

  /** The step that fails first once the backup was taken, if one does. */
  function SwitchFailure(running: bool, f: Faults): Option<Step> {
    if running && !f.stop.Ok? then Some(Stop)
    else if !f.deploy.Ok? then Some(Deploy)
    else if !f.disable.Ok? then Some(Disable)
    else if running && !f.start.Ok? then Some(Start)
    else if !f.commit.Ok? then Some(Commit)
    else None
  }

  /** The step at which a rollback gives up, if it does. */
  function RollbackFailure(running: bool, deployed: bool, f: Faults): Option<Step> {
    if deployed && running && !f.stopAgain.Ok? then Some(Stop)
    else if deployed && !f.cleanup.Ok? then Some(Cleanup)
    else if !f.restore.Ok? then Some(Restore)
    else if running && !f.startAgain.Ok? then Some(Start)
    else None
  }

  function SwitchResult(running: bool, f: Faults): Result {
    match SwitchFailure(running, f)
    case None => Done
    case Some(cause) => Failed(cause, RollbackFailure(running, cause != Stop, f))
  }

  /** What a handover of this machine reports. */
  function Outcome(w: World, f: Faults): Result {
    if !f.inspect.Ok? then Failed(Inspect, None)
    else if !Succeeds(w, Backup, f.backup) then Failed(Backup, None)
    else SwitchResult(w.sharedUp, f)
  }

  /** A command of a run, and how it ends. */
  datatype Command = Command(step: Step, fault: Fault)

  /** The commands a handover needs, in order, if each succeeds. A backup fails by itself where
      a disabled file is in the way or the fragment is gone. */
  function Needed(w: World, f: Faults): seq<Command> {
    var backup := if w.disabledFile.Some? || w.fragment.None? then NoEffect else f.backup;
    [Command(Inspect, f.inspect), Command(Backup, backup)]
    + (if w.sharedUp then [Command(Stop, f.stop)] else [])
    + [Command(Deploy, f.deploy), Command(Disable, f.disable)]
    + (if w.sharedUp then [Command(Start, f.start)] else [])
    + [Command(Commit, f.commit)]
  }

  /** The commands that undo what was done when `cause` failed. */
  function Undoing(w: World, cause: Step, f: Faults): seq<Command> {
    if cause == Inspect || cause == Backup then []
    else
      (if cause == Stop then []
       else (if w.sharedUp then [Command(Stop, f.stopAgain)] else []) + [Command(Cleanup, f.cleanup)])
      + [Command(Restore, f.restore)]
      + if w.sharedUp then [Command(Start, f.startAgain)] else []
  }

  /** `failed` is the first of the commands that does not succeed, if one does not. */
  ghost predicate FirstFailure(commands: seq<Command>, failed: Option<Step>) {
    match failed
    case None => forall i | 0 <= i < |commands| :: commands[i].fault.Ok?
    case Some(step) =>
      exists i :: 0 <= i < |commands| && commands[i].step == step && !commands[i].fault.Ok?
                  && forall j | 0 <= j < i :: commands[j].fault.Ok?
  }

  /** A handover reports the first needed command that fails, and the first of those undoing
      it that does. */
  lemma OutcomeIsFirstFailure(w: World, f: Faults)
    ensures var r := Outcome(w, f);
            && FirstFailure(Needed(w, f), if r.Done? then None else Some(r.cause))
            && (r.Failed? ==> FirstFailure(Undoing(w, r.cause, f), r.incomplete))
  {
    var r, needed := Outcome(w, f), Needed(w, f);
    if r.Failed? {
      var i := match r.cause
               case Inspect => 0 case Backup => 1 case Stop => 2
               case Deploy => |needed| - (if w.sharedUp then 4 else 3)
               case Disable => |needed| - (if w.sharedUp then 3 else 2)
               case Start => |needed| - 2
               case _ => |needed| - 1;
      assert needed[i].step == r.cause && !needed[i].fault.Ok?;
      assert forall j | 0 <= j < i :: needed[j].fault.Ok?;
      if r.cause != Inspect && r.cause != Backup {
        UndoingFails(w, r.cause, f);
      }
    }
  }

  lemma UndoingFails(w: World, cause: Step, f: Faults)
    requires cause in {Stop, Deploy, Disable, Start, Commit}
    ensures FirstFailure(Undoing(w, cause, f), RollbackFailure(w.sharedUp, cause != Stop, f))
  {
    var undoing, failed := Undoing(w, cause, f), RollbackFailure(w.sharedUp, cause != Stop, f);
    if failed.Some? {
      var i := match failed.value
               case Stop => 0
               case Cleanup => if w.sharedUp then 1 else 0
               case Restore => |undoing| - (if w.sharedUp then 2 else 1)
               case _ => |undoing| - 1;
      assert undoing[i].step == failed.value && !undoing[i].fault.Ok?;
      assert forall j | 0 <= j < i :: undoing[j].fault.Ok?;
    }
  }

  // ---------------------------------------------------------------- where a run ends

  function WhenUp(w: World, running: bool, step: Step, fault: Fault): World {
    if running then Effect(w, step, fault) else w
  }

  /** The world after a rollback, complete or not. */
  function RolledBack(w: World, running: bool, deployed: bool, f: Faults): World {
    var stopped := WhenUp(w, deployed && running, Stop, f.stopAgain);
    var cleaned := WhenUp(stopped, deployed, Cleanup, f.cleanup);
    var restored := Effect(cleaned, Restore, f.restore);
    match RollbackFailure(running, deployed, f)
    case Some(Stop) => stopped
    case Some(Cleanup) => cleaned
    case Some(Restore) => restored
    case _ => WhenUp(restored, running, Start, f.startAgain)
  }

  /** The world when the switch stops going forward: at its first failure, or at its end. */
  function Reached(w: World, running: bool, f: Faults): World {
    var stopped := WhenUp(w, running, Stop, f.stop);
    var deployed := Effect(stopped, Deploy, f.deploy);
    var disabled := Effect(deployed, Disable, f.disable);
    var started := WhenUp(disabled, running, Start, f.start);
    match SwitchFailure(running, f)
    case Some(Stop) => stopped
    case Some(Deploy) => deployed
    case Some(Disable) => disabled
    case Some(Start) => started
    case _ => Effect(started, Commit, f.commit)
  }

  function Switched(w: World, running: bool, f: Faults): World {
    var reached := Reached(w, running, f);
    match SwitchFailure(running, f)
    case None => reached
    case Some(cause) => RolledBack(reached, running, cause != Stop, f)
  }

  /** The world a handover leaves. */
  function Ends(w: World, f: Faults): World {
    if !f.inspect.Ok? then w
    else
      var backedUp := Effect(w, Backup, f.backup);
      if !Succeeds(w, Backup, f.backup) then backedUp else Switched(backedUp, w.sharedUp, f)
  }

  /** Discovered but not handed over yet; the shared service may or may not have loaded it. */
  predicate Adoptable(w: World) {
    w.managed.Absent? && !w.committed && (w.loaded ==> w.sharedUp)
  }

  /** Either everything is handed over and committed, or a completed rollback leaves
      everything as it was, but for the backup and for what the shared service has loaded. */
  lemma AllOrNothing(w: World, f: Faults)
    requires Adoptable(w)
    ensures Outcome(w, f).Done? <==> Ends(w, f).committed
    ensures Outcome(w, f).Done? ==> Ends(w, f) == World(None, w.fragment, w.fragment, w.sharedUp, false, Up, true)
    ensures Outcome(w, f).Failed? && Outcome(w, f).incomplete.None? ==>
              Ends(w, f) == w.(backup := Ends(w, f).backup, loaded := Ends(w, f).loaded)
  {
    if f.inspect.Ok? && Succeeds(w, Backup, f.backup) {
      SwitchedOrBack(Effect(w, Backup, f.backup), w.sharedUp, f);
    }
  }

  /** The run gets past stopping the running shared service, which really goes down. */
  predicate StopsShared(w: World, f: Faults) {
    f.inspect.Ok? && Succeeds(w, Backup, f.backup) && w.sharedUp && (f.stop.Ok? || f.stop.FullEffect?)
  }

  /** A rolled-back handover leaves the fragment loaded exactly if it was, or if the shared
      service was stopped on the way: coming up again it loads what it finds. */
  lemma RollbackMayLoad(w: World, f: Faults)
    requires Adoptable(w) && Outcome(w, f).Failed? && Outcome(w, f).incomplete.None?
    ensures Ends(w, f).loaded <==> w.loaded || StopsShared(w, f)
  {
    if f.inspect.Ok? && Succeeds(w, Backup, f.backup) {
      SwitchedOrBack(Effect(w, Backup, f.backup), w.sharedUp, f);
    }
  }

  /** One such run: a service that never loaded the fragment serves it after the rollback of
      a failed deployment. */
  lemma UnloadedFragmentGetsLoaded(content: Content)
    ensures var w := World(Some(content), None, None, true, false, Absent, false);
            var f := Faults(Ok, Ok, Ok, NoEffect, Ok, Ok, Ok, Ok, Ok, Ok, Ok);
            && Adoptable(w) && Outcome(w, f) == Failed(Deploy, None)
            && Ends(w, f) == w.(backup := Some(content), loaded := true)
  {
  }

  lemma SwitchedOrBack(w: World, running: bool, f: Faults)
    requires w.fragment.Some? && w == World(w.fragment, None, w.fragment, running, w.loaded, Absent, false)
    requires w.loaded ==> running
    ensures SwitchResult(running, f).Done? <==> Switched(w, running, f).committed
    ensures SwitchResult(running, f).Done? ==>
              Switched(w, running, f) == World(None, w.fragment, w.fragment, running, false, Up, true)
    ensures SwitchResult(running, f).Failed? && SwitchResult(running, f).incomplete.None? ==>
              Switched(w, running, f) ==
                w.(loaded := w.loaded || (running && (f.stop.Ok? || f.stop.FullEffect?)))
  {
  }

  class Node {
    var world: World
    ghost var history: seq<World>

    /** One command, ending as its fault says. What it leaves behind has to be safe. */
    method Run(step: Step, fault: Fault, ghost content: Option<Content>) returns (ok: bool)
      requires SafeAll(history, content)
      requires Safe(Effect(world, step, fault)) && Kept(Effect(world, step, fault), content)
      modifies this
      ensures ok <==> Succeeds(old(world), step, fault)
      ensures world == Effect(old(world), step, fault)
      ensures history == old(history) + [world] && SafeAll(history, content)
    {
      ok := Succeeds(world, step, fault);
      world := Effect(world, step, fault);
      history := history + [world];
    }

    /** Puts everything back. The shared service comes up again only once the managed
        one is known to be gone. */
    method Rollback(cause: Step, running: bool, deployed: bool, f: Faults, ghost content: Option<Content>)
        returns (r: Result)
      requires content.Some? && world.backup == content && !world.committed
      requires SafeAll(history, content) && Safe(world)
      requires (world.loaded ==> world.sharedUp) && (world.sharedUp ==> running)
      requires !deployed ==> world.managed.Absent? && world.disabledFile.None? && world.fragment == content
      modifies this
      ensures r == Failed(cause, RollbackFailure(running, deployed, f))
      ensures old(history) <= history && SafeAll(history, content)
      ensures world == RolledBack(old(world), running, deployed, f)
      ensures !world.committed && world.backup == content
      ensures r.incomplete.None? ==>
                world == World(content, None, content, running,
                               running && (!deployed && old(world).sharedUp ==> old(world).loaded), Absent, false)
    {
      if deployed {
        if running {
          var ok := Run(Stop, f.stopAgain, content);
          if !ok {
            return Failed(cause, Some(Stop));
          }
        }
        var ok := Run(Cleanup, f.cleanup, content);
        if !ok {
          return Failed(cause, Some(Cleanup));
        }
      }
      var ok := Run(Restore, f.restore, content);
      if !ok {
        return Failed(cause, Some(Restore));
      }
      if running {
        ok := Run(Start, f.startAgain, content);
        if !ok {
          return Failed(cause, Some(Start));
        }
      }
      r := Failed(cause, None);
    }

    /** The part of a handover after the backup was taken. */
    method Switch(running: bool, f: Faults, ghost content: Option<Content>) returns (r: Result)
      requires content.Some? && world == World(content, None, content, running, world.loaded, Absent, false)
      requires (world.loaded ==> running) && SafeAll(history, content)
      modifies this
      ensures SafeAll(history, content)
      ensures r == SwitchResult(running, f)
      ensures world == Switched(old(world), running, f)
      ensures world.committed <==> r.Done?
      ensures r.Done? ==> world == World(None, content, content, running, false, Up, true)
    {
      SwitchedOrBack(world, running, f);
      var ok: bool;
      if running {
        ok := Run(Stop, f.stop, content);
        if !ok {
          r := Rollback(Stop, running, false, f, content);
          return;
        }
      }
      ok := Run(Deploy, f.deploy, content);
      if !ok {
        r := Rollback(Deploy, running, true, f, content);
        return;
      }
      ok := Run(Disable, f.disable, content);
      if !ok {
        r := Rollback(Disable, running, true, f, content);
        return;
      }
      if running {
        ok := Run(Start, f.start, content);
        if !ok {
          r := Rollback(Start, running, true, f, content);
          return;
        }
      }
      ok := Run(Commit, f.commit, content);
      if !ok {
        r := Rollback(Commit, running, true, f, content);
        return;
      }
      r := Done;
    }

    /** The handover, with every command allowed to fail. At every moment of every run it is
        safe and the configuration is not lost; it ends with everything handed over, or, if
        the rollback completes, with everything as it was but for the backup and for a
        fragment that the shared service loaded in coming up again. */
    method Handover(f: Faults) returns (r: Result)
      requires history == [] && Adoptable(world)
      modifies this
      ensures SafeAll(history, old(world).fragment)
      ensures r == Outcome(old(world), f)
      ensures FirstFailure(Needed(old(world), f), if r.Done? then None else Some(r.cause))
      ensures r.Failed? ==> FirstFailure(Undoing(old(world), r.cause, f), r.incomplete)
      ensures world == Ends(old(world), f)
      ensures world.committed <==> r.Done?
      ensures r.Done? ==>
                world == World(None, old(world).fragment, old(world).fragment, old(world).sharedUp, false, Up, true)
      ensures r.Failed? && r.incomplete.None? ==>
                world == old(world).(backup := world.backup, loaded := old(world).loaded || StopsShared(old(world), f))
    {
      OutcomeIsFirstFailure(world, f);
      AllOrNothing(world, f);
      if Outcome(world, f).Failed? && Outcome(world, f).incomplete.None? {
        RollbackMayLoad(world, f);
      }
      var running := world.sharedUp;
      var ok := Run(Inspect, f.inspect, old(world).fragment);
      if !ok {
        return Failed(Inspect, None);
      }
      ok := Run(Backup, f.backup, old(world).fragment);
      if !ok {
        return Failed(Backup, None);
      }
      r := Switch(running, f, old(world).fragment);
    }
  }
}
