/** The worker pool that runs one operation for every member of some groups.

    Time is in nanoseconds from the call. What a member's run costs and whether it
    fails are inputs; a run is cancelled after its budget, so its cost is bounded by it.
  */
module MemberPool {
  import opened Prelude

  const SECOND := 1_000_000_000

  function Workers(n: nat): nat {
    if n < 8 then n else 8
  }

  /** How many rounds the workers need if no member is faster than its budget. */
  function Rounds(n: nat): nat
    requires n > 0
  {
    (n + Workers(n) - 1) / Workers(n)
  }

  /** Each queued member's share of the time left, in 64-bit arithmetic. */
  function Budget(n: nat, remaining: Option<int>): int
    requires n > 0
  {
    if remaining.None? then 5 * SECOND else
    var share := Quotient(Quotient(Int64(remaining.value * 4), 5), Rounds(n));
    if share < 5 * SECOND then share else 5 * SECOND
  }

  /** All rounds together fit into four fifths of the time left, even where the
      multiplication by four wraps around: a positive budget is wrong only for a deadline
      that already passed, and only if that was over seventy-three years ago. */
  lemma BudgetFits(n: nat, remaining: int)
    requires n > 0 && -MAX_INT64 - 1 <= remaining <= MAX_INT64
    requires Budget(n, Some(remaining)) > 0
    ensures 5 * Times(Rounds(n), Budget(n, Some(remaining))) <= 4 * remaining <==> remaining > 0
    ensures remaining <= 0 ==> 4 * remaining < -MAX_INT64 - 1
  {
    var wrapped := Int64(remaining * 4);
    DivisionFits(Rounds(n), Budget(n, Some(remaining)), wrapped);
    WrapOnlyLowers(remaining * 4);
  }

  /** A round for every eight members, the last one perhaps not full. */
  function Eighths(n: nat): nat {
    if n <= 8 then 1 else 1 + Eighths(n - 8)
  }

  lemma {:induction false} RoundsAreEighths(n: nat)
    requires n > 0
    ensures Rounds(n) == Eighths(n)
  {
    if n > 8 {
      RoundsAreEighths(n - 8);
      if n - 8 < 8 {
        OneRound(0, n - 8);
      }
    } else {
      OneRound(0, n);
    }
  }

  /** The budget is five seconds, or less if the time left does not allow that much: then it
      is the largest number of nanoseconds of which all rounds fit into four fifths of it. It
      is positive exactly if one nanosecond per round fits. */
  lemma BudgetIsLargest(n: nat, remaining: int)
    requires n > 0
    ensures var b, left := Budget(n, Some(remaining)), Int64(remaining * 4);
            && b <= 5_000_000_000
            && (b > 0 <==> 5 * Eighths(n) <= left)
            && (b > 0 ==> 5 * Times(Eighths(n), b) <= left)
            && (0 < b < 5_000_000_000 ==> left < 5 * Times(Eighths(n), b + 1))
  {
    var left, rounds := Int64(remaining * 4), Rounds(n);
    RoundsAreEighths(n);
    ShareIsLargest(left, rounds);
    var share := Quotient(Quotient(left, 5), rounds);
    TimesIsProduct(rounds, Budget(n, Some(remaining)));
    TimesIsProduct(rounds, Budget(n, Some(remaining)) + 1);
    if share > 5 * SECOND {
      TimesIsProduct(rounds, share);
      TimesMonoBudget(rounds, 5 * SECOND, share);
    }
  }

  lemma ShareIsLargest(left: int, rounds: nat)
    requires rounds > 0
    ensures var share := Quotient(Quotient(left, 5), rounds);
            && (share > 0 <==> 5 * rounds <= left)
            && (share > 0 ==> 5 * (rounds * share) <= left < 5 * (rounds * (share + 1)))
  {
    if left >= 0 {
      NestedDivision(left / 5, rounds);
    } else {
      NegativeShare(-(-left / 5), rounds);
    }
  }

  lemma NegativeShare(a: int, rounds: nat)
    requires rounds > 0 && a <= 0
    ensures Quotient(a, rounds) <= 0
  {
  }

  lemma NestedDivision(a: nat, b: nat)
    requires b > 0
    ensures b * (a / b) <= a < b * (a / b + 1)
    ensures a / b > 0 <==> b <= a
  {
  }

  lemma DivisionFits(rounds: nat, b: int, total: int)
    requires rounds > 0 && 0 < b <= Quotient(Quotient(total, 5), rounds)
    ensures 0 < 5 * Times(rounds, b) <= total
  {
    var fifth := Quotient(total, 5);
    QuotientOfNegative(fifth, rounds);
    TimesMonoBudget(rounds, b, fifth / rounds);
    TimesMono(1, rounds, b);
    TimesIsProduct(rounds, fifth / rounds);
    DivisionRoundsDown(fifth, rounds);
  }

  lemma QuotientOfNegative(a: int, b: int)
    requires b > 0 && Quotient(a, b) > 0
    ensures a > 0
  {
  }

  lemma DivisionRoundsDown(a: nat, b: nat)
    requires b > 0
    ensures b * (a / b) <= a
  {
  }

  function Times(count: nat, budget: int): int {
    if count == 0 then 0 else Times(count - 1, budget) + budget
  }

  lemma {:induction false} TimesIsProduct(count: nat, budget: int)
    ensures Times(count, budget) == count * budget
  {
    if count > 0 {
      TimesIsProduct(count - 1, budget);
    }
  }

  lemma {:induction false} TimesMono(a: nat, b: nat, budget: nat)
    requires a <= b
    ensures Times(a, budget) <= Times(b, budget)
  {
    if a < b {
      TimesMono(a, b - 1, budget);
    }
  }

  lemma {:induction false} TimesMonoBudget(count: nat, a: int, b: int)
    requires a <= b
    ensures Times(count, a) <= Times(count, b)
  {
    if count > 0 {
      TimesMonoBudget(count - 1, a, b);
    }
  }

  lemma WrapOnlyLowers(x: int)
    ensures x >= 0 ==> Int64(x) <= x
    ensures -MAX_INT64 - 1 <= x <= MAX_INT64 ==> Int64(x) == x
  {
  }

  // ---------------------------------------------------------------- the pool

  datatype Outcome = Completed | DeadlineExceeded | Incomplete

  datatype Run = Run(id: int, worker: nat, start: int, finish: int)

  function Sum(counts: seq<nat>): nat {
    if counts == [] then 0 else counts[0] + Sum(counts[1..])
  }

  lemma {:induction false} SumUpdate(counts: seq<nat>, w: nat)
    requires w < |counts|
    ensures Sum(counts[w := counts[w] + 1]) == Sum(counts) + 1
  {
    if w > 0 {
      assert counts[w := counts[w] + 1][1..] == counts[1..][w - 1 := counts[w] + 1];
      SumUpdate(counts[1..], w - 1);
    } else {
      assert counts[0 := counts[0] + 1][1..] == counts[1..];
    }
  }

  lemma {:induction false} SumZeros(n: nat)
    ensures Sum(seq(n, _ => 0)) == 0
  {
    if n > 0 {
      assert seq(n, _ => 0)[1..] == seq(n - 1, _ => 0);
      SumZeros(n - 1);
    }
  }

  /** Some worker has taken at most an equal share of the runs. */
  lemma {:induction false} SomeWorkerIsLight(counts: seq<nat>, q: nat)
    requires Sum(counts) < |counts| * (q + 1)
    ensures exists w :: 0 <= w < |counts| && counts[w] <= q
  {
    if counts[0] > q {
      SomeWorkerIsLight(counts[1..], q);
      var w :| 0 <= w < |counts| - 1 && counts[1..][w] <= q;
      assert counts[w + 1] <= q;
    }
  }

  predicate Earliest(free: seq<int>, w: nat) {
    w < |free| && forall v :: 0 <= v < |free| ==> free[w] <= free[v]
  }

  lemma {:induction false} EarliestExists(free: seq<int>)
    requires free != []
    ensures exists w: nat :: Earliest(free, w)
  {
    var last := |free| - 1;
    if last == 0 {
      assert Earliest(free, 0);
    } else {
      EarliestExists(free[..last]);
      var w: nat :| Earliest(free[..last], w);
      assert forall v :: 0 <= v < last ==> free[..last][v] == free[v];
      assert Earliest(free, if free[w] <= free[last] then w else last);
    }
  }

  ghost predicate ValidCosts(ids: seq<int>, remaining: Option<int>, costs: seq<int>) {
    && |costs| == |ids|
    && (ids != [] && Budget(|ids|, remaining) > 0 ==>
          forall k :: 0 <= k < |ids| ==> 0 <= costs[k] <= Budget(|ids|, remaining))
  }

  /** No worker runs two members at once, and members start in queue order. */
  ghost predicate Exclusive(runs: seq<Run>) {
    && (forall i, j :: 0 <= i < j < |runs| ==> runs[i].start <= runs[j].start)
    && (forall i, j :: 0 <= i < j < |runs| && runs[i].worker == runs[j].worker ==> runs[i].finish <= runs[j].start)
  }

  /** The k-th member ran once, for its own cost, and started within k / workers budgets. */
  ghost predicate InTime(run: Run, k: nat, id: int, cost: int, workers: nat, budget: int)
    requires workers > 0
  {
    && run.id == id && run.worker < workers
    && run.finish == run.start + cost
    && 0 <= run.start <= Times(k / workers, budget)
  }

  ghost predicate AllInTime(runs: seq<Run>, ids: seq<int>, costs: seq<int>, workers: nat, budget: int)
    requires workers > 0 && |runs| <= |ids| == |costs|
  {
    forall k :: 0 <= k < |runs| ==> InTime(runs[k], k, ids[k], costs[k], workers, budget)
  }

  /** What was dispatched so far, when each worker is next idle and how many it took. */
  datatype Pool = Pool(runs: seq<Run>, free: seq<int>, taken: seq<nat>)

  function Take(p: Pool, w: nat, id: int, cost: int): Pool
    requires w < |p.free| == |p.taken|
  {
    Pool(p.runs + [Run(id, w, p.free[w], p.free[w] + cost)],
         p.free[w := p.free[w] + cost],
         p.taken[w := p.taken[w] + 1])
  }

  ghost predicate Loaded(p: Pool, budget: int) {
    && |p.free| == |p.taken| && Sum(p.taken) == |p.runs|
    && (forall w :: 0 <= w < |p.free| ==> 0 <= p.free[w] <= Times(p.taken[w], budget))
  }

  ghost predicate Ordered(p: Pool) {
    && (forall i, w :: 0 <= i < |p.runs| && 0 <= w < |p.free| ==> p.runs[i].start <= p.free[w])
    && (forall i :: 0 <= i < |p.runs| ==> p.runs[i].worker < |p.free| && p.runs[i].finish <= p.free[p.runs[i].worker])
    && Exclusive(p.runs)
  }

  lemma TakeKeepsLoaded(p: Pool, budget: int, w: nat, id: int, cost: int)
    requires Loaded(p, budget) && w < |p.free| && 0 <= cost <= budget
    ensures Loaded(Take(p, w, id, cost), budget)
  {
    SumUpdate(p.taken, w);
  }

  lemma TakeKeepsOrdered(p: Pool, w: nat, id: int, cost: int)
    requires Ordered(p) && |p.free| == |p.taken| && Earliest(p.free, w) && 0 <= cost
    ensures Ordered(Take(p, w, id, cost))
  {
  }

  /** The worker idle first waited for at most `k / workers` earlier members. */
  lemma StartBound(p: Pool, w: nat, budget: nat)
    requires Loaded(p, budget) && Earliest(p.free, w)
    ensures 0 <= p.free[w] <= Times(|p.runs| / |p.free|, budget)
  {
    var q := |p.runs| / |p.free|;
    SomeWorkerIsLight(p.taken, q);
    var v :| 0 <= v < |p.taken| && p.taken[v] <= q;
    TimesMono(p.taken[v], q, budget);
    assert p.free[w] <= p.free[v];
  }

  lemma TakeKeepsInTime(p: Pool, w: nat, ids: seq<int>, costs: seq<int>, workers: nat, budget: int)
    requires w < |p.free| == |p.taken| == workers && |p.runs| < |ids| == |costs|
    requires 0 <= p.free[w] <= Times(|p.runs| / workers, budget)
    requires AllInTime(p.runs, ids, costs, workers, budget)
    ensures AllInTime(Take(p, w, ids[|p.runs|], costs[|p.runs|]).runs, ids, costs, workers, budget)
  {
  }

  /** Hands every queued member to whichever worker is idle first. */
  method Dispatch(ids: seq<int>, costs: seq<int>, workers: nat, budget: int) returns (runs: seq<Run>)
    requires workers > 0 && budget > 0 && |costs| == |ids|
    requires forall k :: 0 <= k < |ids| ==> 0 <= costs[k] <= budget
    ensures |runs| == |ids| && AllInTime(runs, ids, costs, workers, budget)
    ensures Exclusive(runs)
  {
    SumZeros(workers);
    var p := Pool([], seq(workers, _ => 0), seq(workers, _ => 0));
    for k := 0 to |ids|
      invariant |p.runs| == k && |p.free| == workers
      invariant Loaded(p, budget)
      invariant Ordered(p)
      invariant AllInTime(p.runs, ids, costs, workers, budget)
    {
      EarliestExists(p.free);
      var w: nat :| w < |p.free| && Earliest(p.free, w);
      StartBound(p, w, budget);
      TakeKeepsLoaded(p, budget, w, ids[k], costs[k]);
      TakeKeepsOrdered(p, w, ids[k], costs[k]);
      TakeKeepsInTime(p, w, ids, costs, workers, budget);
      p := Take(p, w, ids[k], costs[k]);
    }
    runs := p.runs;
  }

  /** Runs every member once, and reports a failure exactly if some member failed. */
  method RunSubscriptionMembers(ids: seq<int>, remaining: Option<int>, costs: seq<int>, fails: seq<bool>)
      returns (outcome: Outcome, runs: seq<Run>)
    requires |fails| == |ids| && ValidCosts(ids, remaining, costs)
    requires remaining.Some? ==> -MAX_INT64 - 1 <= remaining.value <= MAX_INT64
    ensures outcome == DeadlineExceeded <==> ids != [] && Budget(|ids|, remaining) <= 0
    ensures outcome == DeadlineExceeded <==>
              ids != [] && remaining.Some? && Int64(remaining.value * 4) < 5 * Eighths(|ids|)
    ensures outcome == DeadlineExceeded ==> runs == []
    ensures outcome != DeadlineExceeded ==> |runs| == |ids| && (outcome == Incomplete <==> true in fails)
    ensures runs != [] ==> AllInTime(runs, ids, costs, Workers(|ids|), Budget(|ids|, remaining))
    ensures Exclusive(runs)
    ensures remaining.Some? && remaining.value > 0 ==>
              forall k :: 0 <= k < |runs| ==> 5 * runs[k].finish <= 4 * remaining.value
  {
    runs := [];
    if |ids| == 0 {
      return Completed, [];
    }
    var budget := Budget(|ids|, remaining);
    if remaining.Some? {
      BudgetIsLargest(|ids|, remaining.value);
    }
    if budget <= 0 {
      return DeadlineExceeded, [];
    }
    runs := Dispatch(ids, costs, Workers(|ids|), budget);
    var failed := false;
    for k := 0 to |fails|
      invariant failed <==> true in fails[..k]
    {
      failed := failed || fails[k];
    }
    outcome := if failed then Incomplete else Completed;
    if remaining.Some? && remaining.value > 0 {
      BudgetFits(|ids|, remaining.value);
      forall k | 0 <= k < |runs| ensures 5 * runs[k].finish <= 4 * remaining.value {
        FinishBound(k, |ids|, budget);
      }
    }
  }

  lemma FinishBound(k: nat, n: nat, budget: int)
    requires k < n && budget > 0
    ensures Times(k / Workers(n), budget) + budget <= Times(Rounds(n), budget)
  {
    if n < 8 {
      OneRound(k, n);
    }
    TimesMono(k / Workers(n) + 1, Rounds(n), budget);
  }

  lemma OneRound(k: nat, n: nat)
    requires k < n
    ensures k / n == 0 && (n + n - 1) / n == 1
  {
  }
}
