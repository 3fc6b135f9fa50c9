/** The refcounted keyed lock table that serialises work on subscription groups.

    Every critical section of the table's mutex, every gate operation and every
    cancellation is one atomic step, so a run is any interleaving of such steps. A
    claim is one call of lock, try-lock or reserve from its first step until its
    drop; a goroutine may own several claims at once. Lock objects are of an
    arbitrary type `L`, which the class at the end instantiates with references.
  */
module SubscriptionLocks {

  /** Where a claim on a group's lock stands. */
  datatype Phase<L> =
    | Waiting(id: int, lock: L)   // lock: blocked until the gate opens or it is cancelled
    | Trying(id: int, lock: L)    // try-lock: about to test the gate once
    | Holding(id: int, lock: L)
    | Leaving(id: int, lock: L)   // gave up or drained the gate; refs not dropped yet

  /** A lock object: whether its one-slot gate is occupied, and its reference count. */
  datatype Lock = Lock(full: bool, refs: int)

  datatype State<L> = State(
    table: map<int, L>,         // the keyed lock table
    locks: map<L, Lock>,        // every lock object made so far
    claims: map<nat, Phase<L>>,
    issued: set<int>,           // group ids the database has handed out so far
    creators: map<int, nat>)    // groups whose creator has not released yet

  /** A process starts with no locks and no claims, over a database that has handed out the
      given ids before. */
  function Start<L>(issued: set<int>): State<L> {
    State(map[], map[], map[], issued, map[])
  }

  datatype Step<L> =
    | Retain(claim: nat, id: int, once: bool, spare: L)
    | Acquire(claim: nat)
    | Cancel(claim: nat)
    | TryFails(claim: nat)
    | Drain(claim: nat)
    | Drop(claim: nat)
    | Reserve(claim: nat, id: int, spare: L)
    | Issue(id: int)                // a collection gets its row, without a lock

  ghost predicate Enabled<L>(s: State<L>, step: Step<L>) {
    match step
    case Retain(c, id, _, spare) =>
      && c !in s.claims && id in s.issued && spare !in s.locks
      && (id in s.table ==> s.table[id] in s.locks)
    case Acquire(c) =>
      && c in s.claims && (s.claims[c].Waiting? || s.claims[c].Trying?)
      && s.claims[c].lock in s.locks && !s.locks[s.claims[c].lock].full
    case Cancel(c) => c in s.claims && s.claims[c].Waiting?
    case TryFails(c) =>
      && c in s.claims && s.claims[c].Trying?
      && s.claims[c].lock in s.locks && s.locks[s.claims[c].lock].full
    case Drain(c) =>
      && c in s.claims && s.claims[c].Holding?
      && s.claims[c].lock in s.locks && s.locks[s.claims[c].lock].full
    case Drop(c) => c in s.claims && s.claims[c].Leaving? && s.claims[c].lock in s.locks
    case Reserve(c, id, spare) => c !in s.claims && id !in s.issued && spare !in s.locks
    case Issue(id) => id !in s.issued
  }

  /** A claim looks the group up, making an entry if there is none, and joins it. */
  ghost function Retained<L>(s: State<L>, c: nat, id: int, once: bool, spare: L): State<L>
    requires id in s.table ==> s.table[id] in s.locks
  {
    var l := if id in s.table then s.table[id] else spare;
    var refs := if id in s.table then s.locks[l].refs else 0;
    var full := id in s.table && s.locks[l].full;
    s.(table := s.table[id := l],
       locks := s.locks[l := Lock(full, refs + 1)],
       claims := s.claims[c := if once then Trying(id, l) else Waiting(id, l)])
  }

  ghost function Acquired<L>(s: State<L>, c: nat): State<L>
    requires c in s.claims && s.claims[c].lock in s.locks
  {
    var p := s.claims[c];
    s.(locks := s.locks[p.lock := s.locks[p.lock].(full := true)],
       claims := s.claims[c := Holding(p.id, p.lock)])
  }

  /** A cancelled or failed claim will only drop its reference. */
  ghost function GaveUp<L>(s: State<L>, c: nat): State<L>
    requires c in s.claims
  {
    s.(claims := s.claims[c := Leaving(s.claims[c].id, s.claims[c].lock)])
  }

  ghost function Drained<L>(s: State<L>, c: nat): State<L>
    requires c in s.claims && s.claims[c].lock in s.locks
  {
    var p := s.claims[c];
    s.(locks := s.locks[p.lock := s.locks[p.lock].(full := false)],
       claims := s.claims[c := Leaving(p.id, p.lock)],
       creators := map id | id in s.creators && s.creators[id] != c :: s.creators[id])
  }

  /** The reference goes, and with the last one the entry. */
  ghost function Dropped<L>(s: State<L>, c: nat): State<L>
    requires c in s.claims && s.claims[c].lock in s.locks
  {
    var p := s.claims[c];
    var refs := s.locks[p.lock].refs - 1;
    s.(locks := s.locks[p.lock := s.locks[p.lock].(refs := refs)],
       table := if refs == 0 then s.table - {p.id} else s.table,
       claims := s.claims - {c})
  }

  /** A new group's row and its lock, already held, become visible together. */
  ghost function Reserved<L>(s: State<L>, c: nat, id: int, spare: L): State<L> {
    s.(table := s.table[id := spare],
       locks := s.locks[spare := Lock(true, 1)],
       claims := s.claims[c := Holding(id, spare)],
       issued := s.issued + {id},
       creators := s.creators[id := c])
  }

  ghost function Next<L>(s: State<L>, step: Step<L>): State<L>
    requires Enabled(s, step)
  {
    match step
    case Retain(c, id, once, spare) => Retained(s, c, id, once, spare)
    case Acquire(c) => Acquired(s, c)
    case Cancel(c) => GaveUp(s, c)
    case TryFails(c) => GaveUp(s, c)
    case Drain(c) => Drained(s, c)
    case Drop(c) => Dropped(s, c)
    case Reserve(c, id, spare) => Reserved(s, c, id, spare)
    case Issue(id) => s.(issued := s.issued + {id})
  }

  // ---------------------------------------------------------------- invariant

  /** The claims whose lock object is `l`: those waiting for it, testing it, holding it
      or on their way out of it. */
  ghost function Users<L>(s: State<L>, l: L): set<nat> {
    set c | c in s.claims && s.claims[c].lock == l
  }

  ghost predicate Holds<L>(s: State<L>, c: nat, id: int) {
    c in s.claims && s.claims[c].Holding? && s.claims[c].id == id
  }

  ghost predicate TableInv<L>(s: State<L>) {
    && s.table.Keys <= s.issued
    && (forall id | id in s.table :: s.table[id] in s.locks && s.locks[s.table[id]].refs > 0)
    && (forall i, j | i in s.table && j in s.table && s.table[i] == s.table[j] :: i == j)
    && (forall c | c in s.claims ::
          s.claims[c].id in s.table && s.table[s.claims[c].id] == s.claims[c].lock)
  }

  ghost predicate CountInv<L>(s: State<L>) {
    forall l | l in s.locks :: s.locks[l].refs == |Users(s, l)|
  }

  ghost function Holders<L>(s: State<L>, l: L): set<nat> {
    set c | c in s.claims && s.claims[c].Holding? && s.claims[c].lock == l
  }

  /** A gate is occupied exactly while one claim holds its lock, and never by two. */
  ghost predicate GateInv<L>(s: State<L>) {
    forall l | l in s.locks :: |Holders(s, l)| == if s.locks[l].full then 1 else 0
  }

  /** A creator that has not released holds its group's lock. */
  ghost predicate CreatorsInv<L>(s: State<L>) {
    forall id | id in s.creators :: Holds(s, s.creators[id], id)
  }

  ghost predicate Inv<L>(s: State<L>) {
    && TableInv(s)
    && CountInv(s)
    && GateInv(s)
    && CreatorsInv(s)
  }

  /** A step that only moves claims between phases keeps the table and the counts. */
  lemma MoveKeepsUse<L>(s: State<L>, t: State<L>)
    requires Inv(s)
    requires t.table == s.table && s.issued <= t.issued
    requires t.claims.Keys == s.claims.Keys && t.locks.Keys == s.locks.Keys
    requires forall c | c in s.claims :: t.claims[c].id == s.claims[c].id && t.claims[c].lock == s.claims[c].lock
    requires forall l | l in s.locks :: t.locks[l].refs == s.locks[l].refs
    ensures TableInv(t) && CountInv(t)
  {
    forall l | l in t.locks ensures t.locks[l].refs == |Users(t, l)| {
      assert Users(t, l) == Users(s, l);
    }
  }

  lemma GaveUpKeepsGates<L>(s: State<L>, c: nat)
    requires GateInv(s) && c in s.claims && !s.claims[c].Holding?
    ensures GateInv(GaveUp(s, c))
  {
    var t := GaveUp(s, c);
    forall l | l in t.locks ensures |Holders(t, l)| == if t.locks[l].full then 1 else 0 {
      assert Holders(t, l) == Holders(s, l);
    }
  }

  lemma GaveUpKeepsInv<L>(s: State<L>, c: nat)
    requires Inv(s) && c in s.claims && !s.claims[c].Holding?
    ensures Inv(GaveUp(s, c))
  {
    GaveUpKeepsGates(s, c);
    MoveKeepsUse(s, GaveUp(s, c));
  }

  lemma AcquiredKeepsGates<L>(s: State<L>, c: nat)
    requires GateInv(s) && Enabled(s, Acquire(c))
    ensures GateInv(Acquired(s, c))
  {
    var t := Acquired(s, c);
    forall l | l in t.locks ensures |Holders(t, l)| == if t.locks[l].full then 1 else 0 {
      if l == s.claims[c].lock {
        assert Holders(t, l) == Holders(s, l) + {c};
      } else {
        assert Holders(t, l) == Holders(s, l);
      }
    }
  }

  lemma AcquiredKeepsInv<L>(s: State<L>, c: nat)
    requires Inv(s) && Enabled(s, Acquire(c))
    ensures Inv(Acquired(s, c))
  {
    AcquiredKeepsGates(s, c);
    AcquiredKeepsCreators(s, c);
    MoveKeepsUse(s, Acquired(s, c));
  }

  lemma AcquiredKeepsCreators<L>(s: State<L>, c: nat)
    requires CreatorsInv(s) && Enabled(s, Acquire(c))
    ensures CreatorsInv(Acquired(s, c))
  {
  }

  lemma DrainedKeepsGates<L>(s: State<L>, c: nat)
    requires GateInv(s) && Enabled(s, Drain(c))
    ensures GateInv(Drained(s, c))
  {
    var t := Drained(s, c);
    forall l | l in t.locks ensures |Holders(t, l)| == if t.locks[l].full then 1 else 0 {
      assert Holders(t, l) == Holders(s, l) - {c};
    }
  }

  lemma DrainedKeepsInv<L>(s: State<L>, c: nat)
    requires Inv(s) && Enabled(s, Drain(c))
    ensures Inv(Drained(s, c))
  {
    DrainedKeepsGates(s, c);
    MoveKeepsUse(s, Drained(s, c));
  }

  lemma DroppedKeepsCounts<L>(s: State<L>, c: nat)
    requires CountInv(s) && GateInv(s) && Enabled(s, Drop(c))
    ensures CountInv(Dropped(s, c)) && GateInv(Dropped(s, c))
  {
    var t := Dropped(s, c);
    assert c in Users(s, s.claims[c].lock);
    forall l | l in t.locks
      ensures t.locks[l].refs == |Users(t, l)|
      ensures |Holders(t, l)| == if t.locks[l].full then 1 else 0
    {
      assert Users(t, l) == Users(s, l) - {c};
      assert Holders(t, l) == Holders(s, l);
    }
  }

  lemma DroppedKeepsTable<L>(s: State<L>, c: nat)
    requires Enabled(s, Drop(c)) && TableInv(s) && CountInv(Dropped(s, c))
    requires s.locks[s.claims[c].lock].refs > 0
    ensures TableInv(Dropped(s, c))
  {
    var t := Dropped(s, c);
    var p := s.claims[c];
    if t.locks[p.lock].refs == 0 {
      assert Users(t, p.lock) == {};
      assert forall d | d in t.claims :: d !in Users(t, p.lock);
    }
  }

  lemma DroppedKeepsInv<L>(s: State<L>, c: nat)
    requires Inv(s) && Enabled(s, Drop(c))
    ensures Inv(Dropped(s, c))
  {
    DroppedKeepsCounts(s, c);
    DroppedKeepsTable(s, c);
  }

  lemma JoinedUsers<L>(s: State<L>, t: State<L>, c: nat, p: Phase<L>, l: L)
    requires c !in s.claims && t.claims == s.claims[c := p]
    ensures |Users(t, l)| == |Users(s, l)| + if p.lock == l then 1 else 0
  {
    assert Users(t, l) == if p.lock == l then Users(s, l) + {c} else Users(s, l);
  }

  lemma RetainedKeepsCounts<L>(s: State<L>, c: nat, id: int, once: bool, spare: L)
    requires TableInv(s) && CountInv(s) && Enabled(s, Retain(c, id, once, spare))
    ensures CountInv(Retained(s, c, id, once, spare))
  {
    var t := Retained(s, c, id, once, spare);
    forall l | l in t.locks
      ensures t.locks[l].refs == |Users(t, l)|
    {
      JoinedUsers(s, t, c, t.claims[c], l);
      assert l == spare ==> Users(s, l) == {};
    }
  }

  lemma RetainedKeepsGates<L>(s: State<L>, c: nat, id: int, once: bool, spare: L)
    requires TableInv(s) && GateInv(s) && Enabled(s, Retain(c, id, once, spare))
    ensures GateInv(Retained(s, c, id, once, spare))
  {
    var t := Retained(s, c, id, once, spare);
    assert Holders(s, spare) == {};
    forall l | l in t.locks ensures |Holders(t, l)| == if t.locks[l].full then 1 else 0 {
      assert Holders(t, l) == Holders(s, l);
    }
  }

  lemma RetainedKeepsTable<L>(s: State<L>, c: nat, id: int, once: bool, spare: L)
    requires TableInv(s) && Enabled(s, Retain(c, id, once, spare))
    requires forall i | i in s.table :: s.locks[s.table[i]].refs > 0
    ensures TableInv(Retained(s, c, id, once, spare))
  {
  }

  lemma RetainedKeepsInv<L>(s: State<L>, c: nat, id: int, once: bool, spare: L)
    requires Inv(s) && Enabled(s, Retain(c, id, once, spare))
    ensures Inv(Retained(s, c, id, once, spare))
  {
    RetainedKeepsCounts(s, c, id, once, spare);
    RetainedKeepsGates(s, c, id, once, spare);
    RetainedKeepsTable(s, c, id, once, spare);
  }

  lemma ReservedKeepsCounts<L>(s: State<L>, c: nat, id: int, spare: L)
    requires TableInv(s) && CountInv(s) && GateInv(s) && c !in s.claims && spare !in s.locks
    ensures CountInv(Reserved(s, c, id, spare)) && GateInv(Reserved(s, c, id, spare))
  {
    var t := Reserved(s, c, id, spare);
    assert Users(s, spare) == {} && Holders(s, spare) == {};
    forall l | l in t.locks
      ensures t.locks[l].refs == |Users(t, l)|
      ensures |Holders(t, l)| == if t.locks[l].full then 1 else 0
    {
      if l == spare {
        assert Users(t, l) == {c} && Holders(t, l) == {c};
      } else {
        assert Users(t, l) == Users(s, l) && Holders(t, l) == Holders(s, l);
      }
    }
  }

  lemma ReservedKeepsTable<L>(s: State<L>, c: nat, id: int, spare: L)
    requires TableInv(s) && c !in s.claims && spare !in s.locks && id !in s.table
    ensures TableInv(Reserved(s, c, id, spare))
  {
  }

  lemma ReservedKeepsInv<L>(s: State<L>, c: nat, id: int, spare: L)
    requires Inv(s) && c !in s.claims && spare !in s.locks && id !in s.table
    ensures Inv(Reserved(s, c, id, spare))
  {
    ReservedKeepsCounts(s, c, id, spare);
    ReservedKeepsTable(s, c, id, spare);
  }

  lemma IssueKeepsInv<L>(s: State<L>, id: int)
    requires Inv(s) && Enabled(s, Issue(id))
    ensures Inv(Next(s, Issue(id)))
  {
    var t := Next(s, Issue(id));
    MoveKeepsUse(s, t);
    forall l | l in t.locks ensures Holders(t, l) == Holders(s, l) {
    }
  }

  lemma StepKeepsInv<L>(s: State<L>, step: Step<L>)
    requires Inv(s) && Enabled(s, step)
    ensures Inv(Next(s, step))
  {
    match step
    case Retain(c, id, once, spare) => RetainedKeepsInv(s, c, id, once, spare);
    case Acquire(c) => AcquiredKeepsInv(s, c);
    case Cancel(c) => GaveUpKeepsInv(s, c);
    case TryFails(c) => GaveUpKeepsInv(s, c);
    case Drain(c) => DrainedKeepsInv(s, c);
    case Drop(c) => DroppedKeepsInv(s, c);
    case Reserve(c, id, spare) => ReservedKeepsInv(s, c, id, spare);
    case Issue(id) => IssueKeepsInv(s, id);
  }

  /** Two claims holding the same group's lock are the same claim. */
  lemma InvExcludes<L>(s: State<L>, c: nat, d: nat, id: int)
    requires Inv(s) && Holds(s, c, id) && Holds(s, d, id)
    ensures c == d
  {
    var l := s.table[id];
    assert {c, d} <= Holders(s, l);
    assert c != d ==> |Holders(s, l) - {c, d}| == |Holders(s, l)| - 2;
  }

  // ---------------------------------------------------------------- runs

  /** `states` is what an interleaving `steps` passes through from the start of a process,
      whatever groups there were before. */
  ghost predicate IsRun<L>(states: seq<State<L>>, steps: seq<Step<L>>) {
    && |states| == |steps| + 1
    && states[0] == Start(states[0].issued)
    && forall i | 0 <= i < |steps| ::
         Enabled(states[i], steps[i]) && states[i + 1] == Next(states[i], steps[i])
  }

  lemma {:induction false} RunKeepsInv<L>(states: seq<State<L>>, steps: seq<Step<L>>, n: nat)
    requires IsRun(states, steps) && n <= |steps|
    ensures Inv(states[n])
  {
    if n > 0 {
      RunKeepsInv(states, steps, n - 1);
      StepKeepsInv(states[n - 1], steps[n - 1]);
    }
  }

  /** In every interleaving, at every moment, at most one claim holds a group's lock. */
  lemma MutualExclusion<L>(states: seq<State<L>>, steps: seq<Step<L>>, n: nat, c: nat, d: nat, id: int)
    requires IsRun(states, steps) && n <= |steps|
    requires Holds(states[n], c, id) && Holds(states[n], d, id)
    ensures c == d
  {
    RunKeepsInv(states, steps, n);
    InvExcludes(states[n], c, d, id);
  }

  ghost function ClaimsOn<L>(s: State<L>, id: int): set<nat> {
    set c | c in s.claims && s.claims[c].id == id
  }

  /** In every interleaving, a group has an entry exactly while some claim is on it, all
      those claims share the entry's lock object, and its count is their number. */
  lemma EntryCountsClaims<L>(states: seq<State<L>>, steps: seq<Step<L>>, n: nat, id: int)
    requires IsRun(states, steps) && n <= |steps|
    ensures id in states[n].table <==> ClaimsOn(states[n], id) != {}
    ensures id in states[n].table ==>
              && states[n].table[id] in states[n].locks
              && states[n].locks[states[n].table[id]].refs == |ClaimsOn(states[n], id)|
              && forall c | c in ClaimsOn(states[n], id) :: states[n].claims[c].lock == states[n].table[id]
  {
    var s := states[n];
    RunKeepsInv(states, steps, n);
    if id in s.table {
      assert ClaimsOn(s, id) == Users(s, s.table[id]);
    } else {
      assert forall c | c in s.claims :: s.claims[c].id in s.table;
    }
  }

  /** The entry is reclaimed exactly when the last claim on the group leaves. */
  lemma LastDropReclaims<L>(states: seq<State<L>>, steps: seq<Step<L>>, n: nat, id: int)
    requires IsRun(states, steps) && n < |steps|
    requires id in states[n].table
    ensures id !in states[n + 1].table <==>
              steps[n].Drop? && ClaimsOn(states[n], id) == {steps[n].claim}
  {
    var s, t := states[n], states[n + 1];
    EntryCountsClaims(states, steps, n, id);
    EntryCountsClaims(states, steps, n + 1, id);
    if steps[n].Drop? {
      assert ClaimsOn(t, id) == ClaimsOn(s, id) - {steps[n].claim};
    } else {
      var c :| c in ClaimsOn(s, id);
      assert c in ClaimsOn(t, id);
    }
  }

  /** A holder's release never blocks, a try-lock fails only while some other claim holds
      the lock, and a free lock lets any waiter in: no gate is ever lost. */
  lemma GateMeansHolder<L>(states: seq<State<L>>, steps: seq<Step<L>>, n: nat, c: nat)
    requires IsRun(states, steps) && n <= |steps|
    requires c in states[n].claims
    ensures states[n].claims[c].Holding? ==> Enabled(states[n], Drain(c))
    ensures Enabled(states[n], TryFails(c)) <==>
              && states[n].claims[c].Trying?
              && exists h :: h != c && Holds(states[n], h, states[n].claims[c].id)
    ensures Enabled(states[n], Acquire(c)) <==>
              && (states[n].claims[c].Waiting? || states[n].claims[c].Trying?)
              && forall h :: !Holds(states[n], h, states[n].claims[c].id)
  {
    var s := states[n];
    RunKeepsInv(states, steps, n);
    var l := s.claims[c].lock;
    assert forall h :: Holds(s, h, s.claims[c].id) <==> h in Holders(s, l);
    if s.locks[l].full {
      assert exists h :: h in Holders(s, l);
    } else {
      assert Holders(s, l) == {};
      assert s.claims[c].Holding? ==> c in Holders(s, l);
    }
  }

  // ---------------------------------------------------------------- reservation

  lemma {:induction false} CreatorStays<L>(states: seq<State<L>>, steps: seq<Step<L>>, r: nat, n: nat)
    requires IsRun(states, steps) && r < n <= |steps|
    requires steps[r].Reserve?
    requires forall i | r < i < n :: steps[i] != Drain(steps[r].claim)
    ensures steps[r].id in states[n].creators && states[n].creators[steps[r].id] == steps[r].claim
    decreases n
  {
    if n > r + 1 {
      CreatorStays(states, steps, r, n - 1);
      OnlyReserverIsCreator(states, steps, r, n - 1);
    }
  }

  /** From the step that publishes a new group until its creator drains the gate, the
      creator holds the group's lock and no other claim does. */
  lemma CreatorExcludesOthers<L>(states: seq<State<L>>, steps: seq<Step<L>>, r: nat, n: nat, d: nat)
    requires IsRun(states, steps) && r < n <= |steps|
    requires steps[r].Reserve?
    requires forall i | r < i < n :: steps[i] != Drain(steps[r].claim)
    ensures steps[r].id in states[n].creators && states[n].creators[steps[r].id] == steps[r].claim
    ensures Holds(states[n], d, steps[r].id) <==> d == steps[r].claim
  {
    CreatorStays(states, steps, r, n);
    RunKeepsInv(states, steps, n);
    if Holds(states[n], d, steps[r].id) {
      InvExcludes(states[n], d, steps[r].claim, steps[r].id);
    }
  }

  ghost predicate ReservedAt<L>(steps: seq<Step<L>>, r: int, id: int, c: nat) {
    0 <= r < |steps| && steps[r].Reserve? && steps[r].id == id && steps[r].claim == c
  }

  /** The claim reserved the group in step `r` and has not drained the gate since. */
  ghost predicate CreatingSince<L>(steps: seq<Step<L>>, r: int, n: nat, id: int, c: nat)
    requires n <= |steps|
  {
    r < n && ReservedAt(steps, r, id, c) && forall i | r < i < n :: steps[i] != Drain(c)
  }

  ghost predicate BeingCreated<L>(steps: seq<Step<L>>, n: nat, id: int, c: nat)
    requires n <= |steps|
  {
    exists r :: CreatingSince(steps, r, n, id, c)
  }

  ghost predicate IsCreator<L>(s: State<L>, id: int, c: nat) {
    id in s.creators && s.creators[id] == c
  }

  lemma CreatorAfter<L>(s: State<L>, step: Step<L>, id: int, c: nat)
    requires Enabled(s, step) && IsCreator(Next(s, step), id, c)
    ensures (step.Reserve? && step.id == id && step.claim == c) || (IsCreator(s, id, c) && step != Drain(c))
  {
  }

  lemma {:induction false} CreatorReserved<L>(states: seq<State<L>>, steps: seq<Step<L>>, n: nat, id: int, c: nat)
      returns (r: nat)
    requires IsRun(states, steps) && n <= |steps| && IsCreator(states[n], id, c)
    ensures CreatingSince(steps, r, n, id, c)
    decreases n
  {
    CreatorAfter(states[n - 1], steps[n - 1], id, c);
    if ReservedAt(steps, n - 1, id, c) {
      r := n - 1;
    } else {
      r := CreatorReserved(states, steps, n - 1, id, c);
    }
  }

  /** The creators on record are exactly the claims that reserved a group and have not let
      go of it since. */
  lemma CreatorsAreReservers<L>(states: seq<State<L>>, steps: seq<Step<L>>, n: nat, id: int, c: nat)
    requires IsRun(states, steps) && n <= |steps|
    ensures IsCreator(states[n], id, c) <==> BeingCreated(steps, n, id, c)
  {
    if IsCreator(states[n], id, c) {
      var r := CreatorReserved(states, steps, n, id, c);
    }
    if BeingCreated(steps, n, id, c) {
      var r :| CreatingSince(steps, r, n, id, c);
      CreatorStays(states, steps, r, n);
    }
  }

  /** Whoever holds a group's lock, however the group came to be, and did not reserve it
      itself, finds nobody creating it. */
  lemma HolderFindsNoCreator<L>(states: seq<State<L>>, steps: seq<Step<L>>, n: nat, id: int, d: nat)
    requires IsRun(states, steps) && n <= |steps| && Holds(states[n], d, id)
    requires forall r | 0 <= r < n :: !ReservedAt(steps, r, id, d)
    ensures id !in states[n].creators && forall c :: !BeingCreated(steps, n, id, c)
  {
    RunKeepsInv(states, steps, n);
    forall c ensures !BeingCreated(steps, n, id, c) {
      CreatorsAreReservers(states, steps, n, id, c);
      if BeingCreated(steps, n, id, c) {
        InvExcludes(states[n], c, d, id);
      }
    }
    if id in states[n].creators {
      CreatorsAreReservers(states, steps, n, id, states[n].creators[id]);
    }
  }

  lemma {:induction false} IssuedStays<L>(states: seq<State<L>>, steps: seq<Step<L>>, m: nat, n: nat)
    requires IsRun(states, steps) && m <= n <= |steps|
    ensures states[m].issued <= states[n].issued
    decreases n
  {
    if m < n {
      IssuedStays(states, steps, m, n - 1);
    }
  }

  /** A group that was there when the process started, or that got its row without a lock, is
      never reserved: after a restart an interrupted creation has no creator, ever. */
  lemma EarlierGroupHasNoCreator<L>(states: seq<State<L>>, steps: seq<Step<L>>, m: nat, n: nat, id: int)
    requires IsRun(states, steps) && m <= n <= |steps|
    requires (m == 0 && id in states[0].issued) || (m > 0 && steps[m - 1] == Issue(id))
    ensures id in states[n].issued && id !in states[n].creators
    ensures forall r | 0 <= r < n, c :: !ReservedAt(steps, r, id, c)
  {
    IssuedStays(states, steps, m, n);
    forall r, c | 0 <= r < n
      ensures !ReservedAt(steps, r, id, c)
    {
      if ReservedAt(steps, r, id, c) {
        if r < m {
          IssuedStays(states, steps, r + 1, m - 1);
        } else {
          IssuedStays(states, steps, m, r);
        }
      }
    }
    if id in states[n].creators {
      CreatorsAreReservers(states, steps, n, id, states[n].creators[id]);
    }
  }

  /** So a claim that gets into a group some other claim reserved finds the creator gone:
      a group still marked as provisioning then has nobody provisioning it. */
  lemma HolderFindsCreatorGone<L>(states: seq<State<L>>, steps: seq<Step<L>>, r: nat, n: nat, d: nat)
    requires IsRun(states, steps) && r < n <= |steps|
    requires steps[r].Reserve? && d != steps[r].claim
    requires Holds(states[n], d, steps[r].id)
    ensures exists i :: r < i < n && steps[i] == Drain(steps[r].claim)
    ensures steps[r].id !in states[n].creators
  {
    if forall i | r < i < n :: steps[i] != Drain(steps[r].claim) {
      CreatorExcludesOthers(states, steps, r, n, d);
    }
    RunKeepsInv(states, steps, n);
    OnlyReserverIsCreator(states, steps, r, n);
    if steps[r].id in states[n].creators {
      InvExcludes(states[n], d, steps[r].claim, steps[r].id);
    }
  }

  /** A group id is issued once, so its only creator is the claim that reserved it. */
  lemma {:induction false} OnlyReserverIsCreator<L>(states: seq<State<L>>, steps: seq<Step<L>>, r: nat, n: nat)
    requires IsRun(states, steps) && r < n <= |steps|
    requires steps[r].Reserve?
    ensures steps[r].id in states[n].issued
    ensures steps[r].id in states[n].creators ==> states[n].creators[steps[r].id] == steps[r].claim
    decreases n
  {
    if n > r + 1 {
      OnlyReserverIsCreator(states, steps, r, n - 1);
    }
  }

  /** Reserving relies on the database never handing out an id twice: publishing a held
      lock for an id keeps the table consistent exactly when the id has no entry. */
  lemma ReserveNeedsUnusedId<L>(s: State<L>, c: nat, id: int, spare: L)
    requires Inv(s) && c !in s.claims && spare !in s.locks
    ensures Inv(Reserved(s, c, id, spare)) <==> id !in s.table
  {
    if id in s.table {
      var t := Reserved(s, c, id, spare);
      assert |Users(s, s.table[id])| > 0;
      var d :| d in Users(s, s.table[id]);
      assert t.claims[d].lock != t.table[id];
    } else {
      ReservedKeepsInv(s, c, id, spare);
    }
  }

  /** And without that the exclusion itself is lost: over an id somebody holds, the new
      claim would be a second holder. */
  lemma ReusedIdHasTwoHolders<L>(s: State<L>, c: nat, d: nat, id: int, spare: L)
    requires Inv(s) && c !in s.claims && Holds(s, d, id)
    ensures var t := Reserved(s, c, id, spare); c != d && Holds(t, c, id) && Holds(t, d, id)
  {
  }

  // ---------------------------------------------------------------- the table itself

  /** A lock object: its gate is a channel of capacity one, full while somebody holds it. */
  class SubscriptionLock {
    var full: bool
    var refs: int

    constructor (full: bool, refs: int)
      ensures this.full == full && this.refs == refs
    {
      this.full, this.refs := full, refs;
    }
  }

  /** The table and its critical sections. Each method takes exactly one step of the
      transition system above, so calls in any order make up a run and StepKeepsInv
      carries the invariant across them; the ghost fields record who takes a step. */
  class LockTable {
    var table: map<int, SubscriptionLock>
    ghost var locks: set<SubscriptionLock>
    ghost var claims: map<nat, Phase<SubscriptionLock>>
    ghost var issued: set<int>
    ghost var creators: map<int, nat>

    ghost function Abs(): State<SubscriptionLock>
      reads this, locks
    {
      State(table, map l | l in locks :: Lock(l.full, l.refs), claims, issued, creators)
    }

    constructor (ghost known: set<int>)
      ensures Abs() == Start(known)
    {
      table, locks, claims, issued, creators := map[], {}, map[], known, map[];
    }

    /** A collection's row is inserted without the table: the next claim on it finds no entry. */
    ghost method Issue(id: int)
      requires Enabled(Abs(), Step.Issue(id))
      modifies this
      ensures Abs() == Next(old(Abs()), Step.Issue(id))
    {
      issued := issued + {id};
    }

    method Retain(id: int, ghost c: nat, ghost once: bool) returns (l: SubscriptionLock)
      requires c !in claims && id in issued && (id in table ==> table[id] in locks)
      modifies this, locks
      ensures id !in old(table) ==> fresh(l)
      ensures Abs() == Retained(old(Abs()), c, id, once, l)
    {
      if id in table {
        l := table[id];
      } else {
        l := new SubscriptionLock(false, 0);
        table := table[id := l];
        locks := locks + {l};
      }
      l.refs := l.refs + 1;
      claims := claims[c := if once then Trying(id, l) else Waiting(id, l)];
    }

    /** The send on the gate goes through. */
    method Acquire(l: SubscriptionLock, ghost c: nat)
      requires Enabled(Abs(), Step.Acquire(c)) && claims[c].lock == l
      modifies this, l
      ensures Abs() == Next(old(Abs()), Step.Acquire(c))
    {
      l.full := true;
      claims := claims[c := Holding(claims[c].id, l)];
    }

    /** The receive of a release empties the gate. */
    method Drain(l: SubscriptionLock, ghost c: nat)
      requires Enabled(Abs(), Step.Drain(c)) && claims[c].lock == l
      modifies this, l
      ensures Abs() == Next(old(Abs()), Step.Drain(c))
    {
      l.full := false;
      claims := claims[c := Leaving(claims[c].id, l)];
      creators := map id | id in creators && creators[id] != c :: creators[id];
    }

    method Drop(id: int, l: SubscriptionLock, ghost c: nat)
      requires Enabled(Abs(), Step.Drop(c)) && claims[c] == Leaving(id, l)
      modifies this, l
      ensures Abs() == Next(old(Abs()), Step.Drop(c))
    {
      l.refs := l.refs - 1;
      if l.refs == 0 {
        table := table - {id};
      }
      claims := claims - {c};
    }

    /** `inserted` says whether the database took the new row; `id` is the one it gave. */
    method Reserve(inserted: bool, id: int, ghost c: nat) returns (l: SubscriptionLock?)
      requires c !in claims && (inserted ==> id !in issued)
      modifies this
      ensures inserted <==> l != null
      ensures l == null ==> Abs() == old(Abs())
      ensures l != null ==> fresh(l) && Abs() == Reserved(old(Abs()), c, id, l)
    {
      if !inserted {
        return null;
      }
      var made := new SubscriptionLock(true, 1);
      table := table[id := made];
      locks := locks + {made};
      claims := claims[c := Holding(id, made)];
      issued := issued + {id};
      creators := creators[id := c];
      l := made;
    }
  }
}
