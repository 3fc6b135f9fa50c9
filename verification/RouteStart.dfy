/** Starting a route: check its quota, deploy every hop, check again, enable, and take the
    enabling back if it did not go through cleanly. */
module RouteStart {
  import Q = QuotaEnforcement
  import A = Applier

  /** What the database fails to do, and whether the request is cancelled on the way. A
      failed enabling write may have reached the database all the same. */
  datatype Faults = Faults(
    usageBefore: bool, cancelledDeploying: bool, reread: bool, usageAfter: bool,
    enable: bool, enableReached: bool, cancelledEnabling: bool, rollbackRead: bool, rollbackWrite: bool)

  /** The row as others leave it when the usage is read first, after the deployment, when the
      usage is read again, at the enabling write, and at the rollback's read and its write. */
  datatype Meanwhile = Meanwhile(
    checked: Q.Route, deployed: Q.Route, rechecked: Q.Route, enabling: Q.Route, read: Q.Route, written: Q.Route)

  datatype Result = Started | Refused | DeployFailed | NotEnabled(rolledBack: bool)

  /** The route is up on all its machines, as planned. */
  ghost predicate Confirmed(d: A.Deployer, plan: seq<A.Target>)
    reads d
  {
    A.SettledFrom(plan, 0, d.version, d.machines)
  }

  ghost predicate SomeHopFails(plan: seq<A.Target>, faults: seq<A.Faults>, version: seq<char>,
                               machines: map<int, A.Machine>)
    requires |faults| == |plan| && forall i | 0 <= i < |plan| :: plan[i].node in machines
  {
    exists i :: 0 <= i < |plan| && !A.Good(A.HopVerdict(plan[i], version, machines[plan[i].node], faults[i]))
  }

  /** A row as read, with the usage as it is read then, may be started. */
  predicate Admitted(row: Q.Route, now: Q.Route, usageFails: bool) {
    Q.Admitted(row.paused, row.quota, now.used, now.measured, usageFails)
  }

  class Panel {
    const deployer: A.Deployer
    const store: Q.RouteStore

    constructor (deployer: A.Deployer, store: Q.RouteStore)
      ensures this.deployer == deployer && this.store == store
    {
      this.deployer, this.store := deployer, store;
    }

    /** One pass over the machines, and a look at every outcome. */
    method Deploy(plan: seq<A.Target>, faults: seq<A.Faults>) returns (ok: bool)
      requires A.Distinct(plan) && |faults| == |plan|
      requires forall i | 0 <= i < |plan| :: plan[i].node in deployer.machines
      modifies deployer
      ensures ok ==> Confirmed(deployer, plan)
      ensures !ok ==> SomeHopFails(plan, faults, deployer.version, old(deployer.machines))
    {
      var outcomes := deployer.Apply(plan, faults);
      ok := true;
      for i := 0 to |outcomes|
        invariant ok <==> forall j | 0 <= j < i :: A.Good(outcomes[j].action)
      {
        ok := ok && A.Good(outcomes[i].action);
      }
      ghost var k :| A.SplitsAt(plan, outcomes, deployer.version, old(deployer.machines), deployer.machines, k);
      assert k >= 0 ==> outcomes[k].action == A.HopVerdict(plan[k], deployer.version,
                                                           old(deployer.machines)[plan[k].node], faults[k]);
    }

    /** Every read and write of the row may find it changed by passes and operators; `m` is
        what they make of it. */
    method StartRoute(id: int, plan: seq<A.Target>, applyFaults: seq<A.Faults>, f: Faults, m: Meanwhile)
      returns (r: Result)
      requires id in store.routes && A.Distinct(plan) && |applyFaults| == |plan|
      requires forall i | 0 <= i < |plan| :: plan[i].node in deployer.machines
      modifies deployer, store
      ensures id in store.routes && store.routes == old(store.routes)[id := store.routes[id]]
      ensures r.Refused? <==> !Admitted(old(store.routes)[id], m.checked, f.usageBefore)
      ensures r.Refused? ==> store.routes[id] == m.checked && deployer.machines == old(deployer.machines)
      ensures r.DeployFailed? ==> store.routes[id] == m.deployed || store.routes[id] == m.rechecked
      ensures r.DeployFailed? ==>
                f.cancelledDeploying || f.reread || !Admitted(m.deployed, m.rechecked, f.usageAfter)
                || SomeHopFails(plan, applyFaults, deployer.version, old(deployer.machines))
      ensures r.Started? || r.NotEnabled? ==>
                Confirmed(deployer, plan) && Admitted(m.deployed, m.rechecked, f.usageAfter)
      ensures r.Started? ==> store.routes[id] == m.enabling.(enabled := true)
      ensures r.Started? ==> !f.enable && !f.cancelledDeploying && !f.cancelledEnabling && !f.reread
      ensures r.NotEnabled? ==> (r.rolledBack <==> !f.rollbackRead && !f.rollbackWrite)
      ensures r.NotEnabled? ==> store.routes[id] == Undone(old(store.routes)[id].enabled, f, m)
    {
      var route := store.routes[id];
      store.routes := store.routes[id := m.checked];
      if !Q.Startable(Q.Measured(route, store.routes[id]), f.usageBefore) {
        return Refused;
      }
      var deployed := Deploy(plan, applyFaults);
      store.routes := store.routes[id := m.deployed];
      if !deployed {
        return DeployFailed;
      }
      if f.cancelledDeploying || f.reread {
        return DeployFailed;
      }
      var current := store.routes[id];
      store.routes := store.routes[id := m.rechecked];
      if !Q.Startable(Q.Measured(current, store.routes[id]), f.usageAfter) {
        return DeployFailed;
      }
      r := EnableStarted(id, route.enabled, f, m);
    }

    /** Writes the flag, and takes it back if that fails or is cancelled. A completed rollback
        restores the flag unless it read a mark, and leaves the route enabled under a mark
        exactly if the mark came between its read and its write. */
    method EnableStarted(id: int, prior: bool, f: Faults, m: Meanwhile) returns (r: Result)
      requires id in store.routes
      modifies store
      ensures r.Started? <==> !f.enable && !f.cancelledEnabling
      ensures r.Started? || r.NotEnabled?
      ensures r.NotEnabled? ==> (r.rolledBack <==> !f.rollbackRead && !f.rollbackWrite)
      ensures store.routes == old(store.routes)[id :=
                if r.Started? then m.enabling.(enabled := true) else Undone(prior, f, m)]
      ensures r == NotEnabled(true) ==>
                var now := store.routes[id];
                && (now.enabled <==> prior && !m.read.paused)
                && (now.enabled && now.paused <==> prior && !m.read.paused && m.written.paused)
    {
      store.routes := store.routes[id := m.enabling];
      var ok := store.SetRouteEnabled(id, true, f.enable && !f.enableReached);
      if !f.enable && !f.cancelledEnabling {
        return Started;
      }
      store.routes := store.routes[id := m.read];
      if f.rollbackRead {
        return NotEnabled(false);
      }
      var enabled := prior;
      if store.routes[id].paused {
        enabled := false;
      }
      store.routes := store.routes[id := m.written];
      ok := store.SetRouteEnabled(id, enabled, f.rollbackWrite);
      r := NotEnabled(ok);
    }
  }

  /** The row a failed start leaves. */
  function Undone(prior: bool, f: Faults, m: Meanwhile): Q.Route {
    if f.rollbackRead then m.read
    else if f.rollbackWrite then m.written
    else m.written.(enabled := prior && !m.read.paused)
  }
}
