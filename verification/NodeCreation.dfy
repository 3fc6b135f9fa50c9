/** Creating a managed sing-box node: reserve a port with a disabled database row, deploy
    over SSH, enable the row, and undo as much as is safe when any of it fails.

    The row is the port's reservation. A failed database write changes nothing, while a
    failed remote command may have done part of its work. A ghost history records row and
    machine after every write, so that claims cover all moments of a run.
  */
module NodeCreation {
  import opened Prelude

  datatype Row = Row(port: int, enabled: bool, failed: bool, member: bool)

  /** What the machine may be running for this row. */
  datatype Remote = Untouched | MaybeThere | Deployed | Removed

  datatype World = World(row: Option<Row>, remote: Remote)

  /** What fails in one creation. `deployEffect` and `cleanupEffect` say whether the
      failing command did its work anyway. */
  datatype Faults = Faults(
    insert: bool, generate: bool, swapConfig: bool, update: bool, addMember: bool,
    deploy: bool, deployEffect: bool, enable: bool,
    cleanup: bool, cleanupEffect: bool, remove: bool, retain: bool)

  datatype Result =
    | Created
    | Failed(retained: bool, cleanupFailed: bool, releaseFailed: bool, persistFailed: bool)

  /** Nothing is left running on the machine for the row. */
  predicate Clear(w: World) {
    w.remote.Untouched? || w.remote.Removed?
  }

  /** The port is free in the books only if it is free on the machine, and a row is enabled
      only over a finished deployment. */
  ghost predicate Sound(w: World) {
    && (w.row.None? ==> Clear(w))
    && (w.row.Some? && w.row.value.enabled ==> w.remote.Deployed?)
  }

  ghost predicate SoundAll(history: seq<World>) {
    forall i | 0 <= i < |history| :: Sound(history[i])
  }

  class Panel {
    var row: Option<Row>
    var remote: Remote
    ghost var history: seq<World>

    ghost function State(): World
      reads this
    {
      World(row, remote)
    }

    method Write(next: Option<Row>, fails: bool) returns (ok: bool)
      modifies this
      ensures ok == !fails && remote == old(remote)
      ensures row == if fails then old(row) else next
      ensures history == old(history) + [State()]
    {
      ok := !fails;
      if ok {
        row := next;
      }
      history := history + [State()];
    }

    method RunRemote(done: Remote, partial: Remote, fails: bool) returns (ok: bool)
      modifies this
      ensures ok == !fails && row == old(row)
      ensures remote == if fails then partial else done
      ensures history == old(history) + [State()]
    {
      ok := !fails;
      remote := if fails then partial else done;
      history := history + [State()];
    }

    /** Releases the row only if the machine was never touched or its removal is confirmed;
        otherwise keeps it, disabled. */
    method Rollback(touched: bool, f: Faults) returns (r: Result)
      requires row.Some? && !row.value.enabled && row.value.failed
      requires touched <==> remote != Untouched
      requires SoundAll(history)
      modifies this
      ensures SoundAll(history) && Sound(State())
      ensures r.Failed? && (r.retained <==> row.Some?)
      ensures row.None? <==> (!touched || !f.cleanup) && !f.remove
      ensures row.Some? ==> row == old(row)
      ensures r.cleanupFailed <==> touched && f.cleanup
      ensures r.releaseFailed <==> (!touched || !f.cleanup) && f.remove
      ensures r.persistFailed <==> row.Some? && f.retain
    {
      var released := false;
      r := Failed(true, false, false, false);
      if touched {
        var ok := RunRemote(Removed, if f.cleanupEffect then Removed else MaybeThere, f.cleanup);
        if !ok {
          var kept := Write(Some(row.value.(enabled := false, failed := true)), f.retain);
          return Failed(true, true, false, !kept);
        }
      }
      var ok := Write(None, f.remove);
      if ok {
        return Failed(false, false, false, false);
      }
      var kept := Write(Some(row.value.(enabled := false, failed := true)), f.retain);
      r := Failed(true, false, true, !kept);
    }

    /** One creation, for a port already chosen. */
    method Create(port: int, grouped: bool, f: Faults) returns (r: Result)
      requires row.None? && remote.Untouched? && history == []
      modifies this
      ensures SoundAll(history) && Sound(State())
      ensures r.Created? <==> !f.insert && !f.generate && !f.swapConfig && !f.update
                              && (grouped ==> !f.addMember) && !f.deploy && !f.enable
      ensures r.Created? ==> State() == World(Some(Row(port, true, false, grouped)), Deployed)
      ensures r.Failed? ==> (r.retained <==> row.Some?)
      ensures r.Failed? && row.Some? ==> row.value.port == port && !row.value.enabled && row.value.failed
      ensures r.Failed? && row.None? ==> Clear(State())
    {
      var ok := Write(Some(Row(port, false, true, false)), f.insert);
      if !ok {
        return Failed(false, false, false, false);
      }
      if f.generate {
        r := Rollback(false, f);
        return;
      }
      ok := Write(row, f.swapConfig);
      if !ok {
        r := Rollback(false, f);
        return;
      }
      ok := Write(row, f.update);
      if !ok {
        r := Rollback(false, f);
        return;
      }
      if grouped {
        ok := Write(Some(row.value.(member := true)), f.addMember);
        if !ok {
          r := Rollback(false, f);
          return;
        }
      }
      ok := RunRemote(Deployed, if f.deployEffect then Deployed else MaybeThere, f.deploy);
      if !ok {
        r := Rollback(true, f);
        return;
      }
      ok := Write(Some(row.value.(enabled := true, failed := false)), f.enable);
      if !ok {
        r := Rollback(true, f);
        return;
      }
      r := Created;
    }
  }

  // ---------------------------------------------------------------- choosing the port

  datatype Machine = Machine(sshPort: int, portStart: int, portEnd: int)

  datatype Choice = Chosen(port: int) | Invalid | Taken | NoneFree | Faulted

  /** What is known against a port: `claimed` asks the database and may itself fail. */
  predicate Blocked(m: Machine, used: set<int>, claimed: int -> Option<bool>, port: int) {
    port == m.sshPort || port in used || claimed(port) == Some(true)
  }

  predicate Free(m: Machine, used: set<int>, claimed: int -> Option<bool>, port: int) {
    port != m.sshPort && port !in used && claimed(port) == Some(false)
  }

  predicate Unknown(m: Machine, used: set<int>, claimed: int -> Option<bool>, port: int) {
    port != m.sshPort && port !in used && claimed(port).None?
  }

  predicate InPool(m: Machine, port: int) {
    m.portStart <= port <= m.portEnd && 1 <= port <= 65535
  }

  /** Picks the requested port, or the lowest free one of the pool; reports that none is
      free exactly when every port of the pool is known to be blocked. */
  method SelectPort(m: Machine, requested: int, used: set<int>, claimed: int -> Option<bool>,
                    cancelled: int -> bool) returns (c: Choice)
    ensures requested != 0 ==>
              && (c.Invalid? <==> !(1 <= requested <= 65535))
              && (1 <= requested <= 65535 ==>
                    && (c == Chosen(requested) <==> Free(m, used, claimed, requested))
                    && (c.Taken? <==> Blocked(m, used, claimed, requested))
                    && (c.Chosen? ==> c.port == requested))
    ensures requested == 0 && c.Chosen? ==>
              && InPool(m, c.port) && Free(m, used, claimed, c.port)
              && forall p | InPool(m, p) && p < c.port :: Blocked(m, used, claimed, p)
    ensures requested == 0 ==>
              (c.NoneFree? <==> forall p | InPool(m, p) :: Blocked(m, used, claimed, p) && !cancelled(p))
    ensures requested == 0 ==>
              (c.Faulted? <==>
                 exists p :: InPool(m, p) && (cancelled(p) || Unknown(m, used, claimed, p)) &&
                             forall q | InPool(m, q) && q < p :: Blocked(m, used, claimed, q) && !cancelled(q))
    ensures c.Chosen? ==>
              && 1 <= c.port <= 65535 && (requested == 0 ==> m.portStart <= c.port <= m.portEnd)
              && c.port != m.sshPort && c.port !in used && claimed(c.port) == Some(false)
    ensures c.Chosen? && requested == 0 ==>
              forall p | m.portStart <= p < c.port && 1 <= p :: p == m.sshPort || p in used || claimed(p) == Some(true)
    ensures c.NoneFree? ==>
              forall p | m.portStart <= p <= m.portEnd && 1 <= p <= 65535 ::
                p == m.sshPort || p in used || claimed(p) == Some(true)
    ensures c.Taken? ==> requested == m.sshPort || requested in used || claimed(requested) == Some(true)
  {
    if requested != 0 {
      if requested < 1 || requested > 65535 {
        return Invalid;
      }
      if requested == m.sshPort || requested in used {
        return Taken;
      }
      match claimed(requested)
      case None => return Faulted;
      case Some(reserved) => return if reserved then Taken else Chosen(requested);
    }
    var port := m.portStart;
    while port <= m.portEnd && port <= 65535
      invariant m.portStart <= port
      invariant forall p | m.portStart <= p < port && 1 <= p <= 65535 ::
                  p == m.sshPort || p in used || claimed(p) == Some(true)
      invariant forall p | InPool(m, p) && p < port :: Blocked(m, used, claimed, p) && !cancelled(p)
    {
      if port >= 1 {
        if cancelled(port) {
          return Faulted;
        }
        if !(port == m.sshPort || port in used) {
          match claimed(port)
          case None => return Faulted;
          case Some(reserved) =>
            if !reserved {
              return Chosen(port);
            }
        }
      }
      port := port + 1;
    }
    c := NoneFree;
  }
}
