/** What readings of a counter say about the bytes it counted. The counter grows until it is
    restarted, and then begins at zero again; it is looked at now and then.
  */
module Readings {

  /** All that the readings show to have passed: a counter that reads lower than before has
      started over, so the last reading of each stretch counts, and so does the latest. */
  function Known(readings: seq<nat>): nat {
    if readings == [] then 0
    else (if |readings| == 1 || readings[1] < readings[0] then readings[0] else 0) + Known(readings[1..])
  }

  predicate NeverFalls(readings: seq<nat>) {
    forall i | 0 <= i < |readings| - 1 :: readings[i] <= readings[i + 1]
  }

  /** One more reading shows as much more as it exceeds the one before, and all of itself if it
      is lower. */
  lemma {:induction false} OneMoreReading(readings: seq<nat>, now: nat)
    ensures Known(readings + [now]) - Known(readings) ==
              if readings == [] then now
              else var last := readings[|readings| - 1]; if now < last then now else now - last
  {
    if readings != [] {
      var more := readings + [now];
      assert more[1..] == readings[1..] + [now];
      OneMoreReading(readings[1..], now);
      if |readings| == 1 {
        assert readings[1..] == [] && more[1] == now;
      } else {
        assert more[1] == readings[1];
      }
    } else {
      assert ([now])[1..] == [] && [] + [now] == [now];
    }
  }

  /** Of a counter that was never seen to fall the latest reading is all there is. */
  lemma {:induction false} KnownIsLatest(readings: seq<nat>)
    requires NeverFalls(readings)
    ensures Known(readings) == if readings == [] then 0 else readings[|readings| - 1]
  {
    if |readings| > 1 {
      assert forall i | 0 <= i < |readings| - 2 :: readings[1..][i] == readings[i + 1];
      KnownIsLatest(readings[1..]);
    }
  }

  // ---------------------------------------------------------------- the truth

  /** A counter, all that really passed, and the readings so far. */
  datatype World = World(kernel: nat, passed: nat, readings: seq<nat>)

  datatype Event = Traffic(bytes: nat) | Restart | Reading

  function Next(w: World, e: Event): World {
    match e
    case Traffic(n) => w.(kernel := w.kernel + n, passed := w.passed + n)
    case Restart => w.(kernel := 0)
    case Reading => w.(readings := w.readings + [w.kernel])
  }

  function After(events: seq<Event>): World {
    if events == [] then World(0, 0, []) else Next(After(events[..|events| - 1]), events[|events| - 1])
  }

  /** What a reading taken now would show beyond what is known. */
  function Pending(w: World): nat {
    if w.readings == [] then w.kernel
    else var last := w.readings[|w.readings| - 1]; if w.kernel < last then w.kernel else w.kernel - last
  }

  function Latest(w: World): nat {
    if w.readings == [] then 0 else w.readings[|w.readings| - 1]
  }

  /** The bytes that no later reading can show: those unread when the counter restarts, and as
      many as the latest reading once it has passed that again unread. */
  function Lost(w: World, e: Event): nat {
    match e
    case Restart => Pending(w)
    case Traffic(n) => if w.kernel < Latest(w) <= w.kernel + n then Latest(w) else 0
    case Reading => 0
  }

  function AllLost(events: seq<Event>): nat {
    if events == [] then 0
    else
      var last := |events| - 1;
      AllLost(events[..last]) + Lost(After(events[..last]), events[last])
  }

  lemma StepLoses(w: World, e: Event)
    ensures Known(Next(w, e).readings) + Pending(Next(w, e)) + Lost(w, e) - Known(w.readings) - Pending(w) ==
              Next(w, e).passed - w.passed
  {
    if e.Reading? {
      OneMoreReading(w.readings, w.kernel);
    }
  }

  /** What passed is what is known, what the next reading will show and what was lost that way;
      so no more is ever known than passed, and all of it exactly if nothing was lost. */
  lemma {:induction false} KnownOrLost(events: seq<Event>)
    ensures var w := After(events); w.passed == Known(w.readings) + Pending(w) + AllLost(events)
  {
    if events != [] {
      KnownOrLost(events[..|events| - 1]);
      StepLoses(After(events[..|events| - 1]), events[|events| - 1]);
    }
  }

  predicate Rising(w: World) {
    NeverFalls(w.readings) && Latest(w) <= w.kernel
  }

  lemma StepKeepsRising(w: World, e: Event)
    requires Rising(w) && !e.Restart?
    ensures Rising(Next(w, e)) && Lost(w, e) == 0
  {
  }

  /** A counter that never restarts never falls and loses nothing. */
  lemma {:induction false} NoRestartLosesNothing(events: seq<Event>)
    requires forall i | 0 <= i < |events| :: !events[i].Restart?
    ensures AllLost(events) == 0 && Rising(After(events))
  {
    if events != [] {
      NoRestartLosesNothing(events[..|events| - 1]);
      StepKeepsRising(After(events[..|events| - 1]), events[|events| - 1]);
    }
  }

  // ---------------------------------------------------------------- sums over many counters

  ghost function Total<K>(f: map<K, nat>): nat {
    SumOver(f, f.Keys)
  }

  ghost function SumOver<K>(f: map<K, nat>, keys: set<K>): nat
    requires keys <= f.Keys
  {
    if keys == {} then 0
    else var k :| k in keys; f[k] + SumOver(f, keys - {k})
  }

  /** The sum does not depend on the order in which the entries are taken. */
  lemma {:induction false} SumWithout<K>(f: map<K, nat>, keys: set<K>, k: K)
    requires keys <= f.Keys && k in keys
    ensures SumOver(f, keys) == f[k] + SumOver(f, keys - {k})
    decreases |keys|
  {
    var j :| j in keys && SumOver(f, keys) == f[j] + SumOver(f, keys - {j});
    if j != k {
      SumWithout(f, keys - {j}, k);
      SumWithout(f, keys - {k}, j);
      assert keys - {j} - {k} == keys - {k} - {j};
    }
  }

  lemma {:induction false} SumMono<K>(f: map<K, nat>, g: map<K, nat>, keys: set<K>)
    requires keys <= f.Keys && keys <= g.Keys && forall k | k in keys :: f[k] <= g[k]
    ensures SumOver(f, keys) <= SumOver(g, keys)
    decreases |keys|
  {
    if keys != {} {
      var k :| k in keys;
      SumWithout(f, keys, k);
      SumWithout(g, keys, k);
      SumMono(f, g, keys - {k});
    }
  }

  lemma SumSame<K>(f: map<K, nat>, g: map<K, nat>, keys: set<K>)
    requires keys <= f.Keys && keys <= g.Keys && forall k | k in keys :: f[k] == g[k]
    ensures SumOver(f, keys) == SumOver(g, keys)
  {
    SumMono(f, g, keys);
    SumMono(g, f, keys);
  }

  lemma TotalUpdate<K>(f: map<K, nat>, k: K, n: nat)
    ensures Total(f[k := n]) == Total(f) + n - if k in f then f[k] else 0
  {
    var g := f[k := n];
    SumWithout(g, g.Keys, k);
    SumSame(f, g, f.Keys - {k});
    assert g.Keys - {k} == f.Keys - {k};
    if k in f {
      SumWithout(f, f.Keys, k);
    } else {
      assert f.Keys - {k} == f.Keys;
    }
  }
}
