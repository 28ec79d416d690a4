/**
 The two request limiters, over every run with a clock that never goes back. Times are in the
 units of the window; a run is any sequence of requests and cleanup sweeps.
 */
module Limiters {
  import opened Common

  // ---------- counting in an interval ----------

  predicate Ascending(h: seq<nat>) {
    forall i, j :: 0 <= i < j < |h| ==> h[i] <= h[j]
  }

  /** How many of these times fall in [from, to). */
  function CountIn(h: seq<nat>, from: int, to: int): nat {
    if h == [] then 0
    else CountIn(h[..|h| - 1], from, to) + if from <= h[|h| - 1] < to then 1 else 0
  }

  /** Any two times `gap` places apart are at least a window apart. */
  predicate Spaced(h: seq<nat>, gap: nat, window: nat) {
    forall i, j :: 0 <= i < |h| && j == i + gap && j < |h| ==> h[i] + window <= h[j]
  }

  lemma {:induction false} CountIsAtMost(h: seq<nat>, from: int, to: int, k: nat)
    requires k <= |h| && forall i :: 0 <= i < k ==> h[i] < from
    ensures CountIn(h, from, to) <= |h| - k
    decreases |h|
  {
    if |h| > k {
      CountIsAtMost(h[..|h| - 1], from, to, k);
    } else if h != [] {
      CountIsAtMost(h[..|h| - 1], from, to, k - 1);
    }
  }

  /** Spaced times leave at most `gap` in any half-open interval of one window. */
  lemma {:induction false} SpacedBoundsCount(h: seq<nat>, gap: nat, window: nat, t: int)
    requires Ascending(h) && Spaced(h, gap, window)
    ensures CountIn(h, t, t + window) <= gap
    decreases |h|
  {
    if |h| > gap {
      var n := |h| - 1;
      if t <= h[n] < t + window {
        forall i | 0 <= i < |h| - gap ensures h[i] < t {
          assert h[i] + window <= h[i + gap] <= h[n];
        }
        CountIsAtMost(h, t, t + window, |h| - gap);
      } else {
        SpacedBoundsCount(h[..n], gap, window, t);
      }
    } else {
      CountIsAtMost(h, t, t + window, 0);
    }
  }

  lemma AscendingAppend(h: seq<nat>, t: nat)
    requires Ascending(h) && (h != [] ==> h[|h| - 1] <= t)
    ensures Ascending(h + [t])
  {
  }

  // ---------- the per-address rate limiter ----------

  datatype Entry = Entry(count: nat, start: nat)
  type Entries = map<string, Entry>

  datatype Event = Request(key: string, at: nat) | Sweep(at: nat)

  /** The entry a request works on: fresh, restarted after a full window, or as stored. */
  function Opened(m: Entries, window: nat, key: string, now: nat): Entry {
    if key !in m || now - m[key].start > window then Entry(0, now) else m[key]
  }

  predicate Admits(m: Entries, max: nat, window: nat, key: string, now: nat) {
    Opened(m, window, key, now).count < max
  }

  function Charge(m: Entries, max: nat, window: nat, key: string, now: nat): Entries {
    var e := Opened(m, window, key, now);
    m[key := if e.count < max then e.(count := e.count + 1) else e]
  }

  function SweepOld(m: Entries, window: nat, now: nat): Entries {
    map k | k in m && now - m[k].start < window :: m[k]
  }

  class RateLimiter {
    const maxRequests: nat
    const window: nat
    var entries: Entries

    constructor (maxRequests: nat, window: nat)
      ensures this.maxRequests == maxRequests && this.window == window && entries == map[]
    {
      this.maxRequests, this.window, this.entries := maxRequests, window, map[];
    }

    method IsAllowed(key: string, now: nat) returns (ok: bool)
      modifies this
      ensures ok == Admits(old(entries), maxRequests, window, key, now)
      ensures entries == Charge(old(entries), maxRequests, window, key, now)
      ensures key !in old(entries) || now - old(entries)[key].start > window ==>
                ok == (maxRequests > 0) && entries == old(entries)[key := Entry(if ok then 1 else 0, now)]
      ensures key in old(entries) && now - old(entries)[key].start <= window ==>
                var e := old(entries)[key];
                ok == (e.count < maxRequests)
                && entries == old(entries)[key := Entry(if ok then e.count + 1 else e.count, e.start)]
      ensures forall k :: k != key && k in old(entries) ==> k in entries && entries[k] == old(entries[k])
    {
      if key !in entries {
        entries := entries[key := Entry(0, now)];
      }
      if now - entries[key].start > window {
        entries := entries[key := Entry(0, now)];
      }
      if entries[key].count >= maxRequests {
        ok := false;
      } else {
        entries := entries[key := entries[key].(count := entries[key].count + 1)];
        ok := true;
      }
    }

    method Cleanup(now: nat)
      modifies this
      ensures entries == SweepOld(old(entries), window, now)
      ensures forall k :: k in entries <==> k in old(entries) && now - old(entries)[k].start < window
      ensures forall k :: k in entries ==> entries[k] == old(entries)[k]
    {
      entries := map k | k in entries && now - entries[k].start < window :: entries[k];
    }
  }

  predicate Monotone(run: seq<Event>) {
    forall i, j :: 0 <= i < j < |run| ==> run[i].at <= run[j].at
  }

  function After(run: seq<Event>, max: nat, window: nat): Entries {
    if run == [] then map[]
    else
      var m, e := After(run[..|run| - 1], max, window), run[|run| - 1];
      match e
      case Request(key, at) => Charge(m, max, window, key, at)
      case Sweep(at) => SweepOld(m, window, at)
  }

  /** The times at which this key was admitted. */
  function Admitted(run: seq<Event>, max: nat, window: nat, key: string): seq<nat> {
    if run == [] then []
    else
      var front, e := run[..|run| - 1], run[|run| - 1];
      Admitted(front, max, window, key)
      + if e.Request? && e.key == key && Admits(After(front, max, window), max, window, key, e.at) then [e.at] else []
  }

  /** The key's latest entry, remembered even when a sweep has dropped it. */
  function Latest(run: seq<Event>, max: nat, window: nat, key: string): Option<Entry> {
    if run == [] then None
    else
      var front, e := run[..|run| - 1], run[|run| - 1];
      if e.Request? && e.key == key then Some(After(run, max, window)[key]) else Latest(front, max, window, key)
  }

  predicate EntryInv(m: Entries, latest: Option<Entry>, h: seq<nat>, clock: nat, max: nat, window: nat, key: string)
  {
    && Ascending(h) && (h != [] ==> h[|h| - 1] <= clock)
    && (key in m ==> latest == Some(m[key]))
    && (latest == None ==> h == [])
    && (latest.Some? ==>
          var e := latest.value;
          && e.start <= clock
          && (key !in m ==> e.start + window <= clock)
          && 1 <= e.count <= max && e.count <= |h| && h[|h| - e.count] == e.start
          // everything before the previous window's last admissions is a window away
          && forall i :: 0 <= i <= |h| - e.count - max ==> h[i] + window <= e.start)
    && (max > 0 ==> Spaced(h, 2 * max - 1, window))
  }

  lemma RequestKeepsInv(m: Entries, latest: Option<Entry>, h: seq<nat>, clock: nat, max: nat, window: nat,
                        key: string, now: nat)
    requires max > 0 && EntryInv(m, latest, h, clock, max, window, key) && clock <= now
    ensures var m' := Charge(m, max, window, key, now);
      var h' := h + if Admits(m, max, window, key, now) then [now] else [];
      EntryInv(m', Some(m'[key]), h', now, max, window, key)
  {
    var e := Opened(m, window, key, now);
    if e.count == 0 {
      OpeningKeepsInv(m, latest, h, clock, max, window, key, now);
    } else if e.count < max {
      AdmissionKeepsInv(m, latest, h, clock, max, window, key, now);
    } else {
      assert h + [] == h;
    }
  }

  /** A request that opens a window. */
  lemma OpeningKeepsInv(m: Entries, latest: Option<Entry>, h: seq<nat>, clock: nat, max: nat, window: nat,
                        key: string, now: nat)
    requires max > 0 && EntryInv(m, latest, h, clock, max, window, key) && clock <= now
    requires Opened(m, window, key, now).count == 0
    ensures EntryInv(m[key := Entry(1, now)], Some(Entry(1, now)), h + [now], now, max, window, key)
  {
    AscendingAppend(h, now);
    if latest.Some? {
      var f := latest.value;
      assert f.start + window <= now;
      forall i | 0 <= i <= |h| - max ensures h[i] + window <= now {
        assert h[i] <= h[|h| - f.count];
      }
    }
    SpacedAppend(h, 2 * max - 1, window, now);
  }

  /** A request admitted in the window that is open. */
  lemma AdmissionKeepsInv(m: Entries, latest: Option<Entry>, h: seq<nat>, clock: nat, max: nat, window: nat,
                          key: string, now: nat)
    requires max > 0 && EntryInv(m, latest, h, clock, max, window, key) && clock <= now
    requires 0 < Opened(m, window, key, now).count < max
    ensures var e := m[key].(count := m[key].count + 1);
      EntryInv(m[key := e], Some(e), h + [now], now, max, window, key)
  {
    AscendingAppend(h, now);
    SpacedAppend(h, 2 * max - 1, window, now);
  }

  lemma SpacedAppend(h: seq<nat>, gap: nat, window: nat, now: nat)
    requires Spaced(h, gap, window) && gap > 0
    requires forall i :: 0 <= i <= |h| - gap ==> h[i] + window <= now
    ensures Spaced(h + [now], gap, window)
  {
    var h' := h + [now];
    forall i, j | 0 <= i < |h'| && j == i + gap && j < |h'| ensures h'[i] + window <= h'[j] {
      if j < |h| { assert h[i] + window <= h[j]; }
    }
  }

  /** Sweeps, and requests of other keys, leave the key's entry or drop it once its window is over. */
  lemma OthersKeepInv(m: Entries, n: Entries, latest: Option<Entry>, h: seq<nat>, clock: nat, max: nat, window: nat,
                      key: string, now: nat)
    requires EntryInv(m, latest, h, clock, max, window, key) && clock <= now
    requires key in n ==> key in m && n[key] == m[key]
    requires key in m && key !in n ==> m[key].start + window <= now
    ensures EntryInv(n, latest, h, now, max, window, key)
  {
  }

  lemma {:induction false} RunKeepsInv(run: seq<Event>, max: nat, window: nat, key: string)
    requires max > 0 && Monotone(run)
    ensures EntryInv(After(run, max, window), Latest(run, max, window, key), Admitted(run, max, window, key),
                     if run == [] then 0 else run[|run| - 1].at, max, window, key)
    decreases |run|
  {
    if run != [] {
      var front, e := run[..|run| - 1], run[|run| - 1];
      RunKeepsInv(front, max, window, key);
      var clock := if front == [] then 0 else front[|front| - 1].at;
      if e.Request? && e.key == key {
        RequestKeepsInv(After(front, max, window), Latest(front, max, window, key), Admitted(front, max, window, key),
                        clock, max, window, key, e.at);
      } else {
        var h := Admitted(front, max, window, key);
        assert h + [] == h;
        OthersKeepInv(After(front, max, window), After(run, max, window), Latest(front, max, window, key), h,
                      clock, max, window, key, e.at);
      }
    }
  }

  lemma {:induction false} NothingAdmitted(run: seq<Event>, window: nat, key: string)
    ensures Admitted(run, 0, window, key) == []
    decreases |run|
  {
    if run != [] { NothingAdmitted(run[..|run| - 1], window, key); }
  }

  /**
   In any half-open interval of one window the limiter admits at most 2 * max - 1 requests of a
   key, sweeps included: the first admission of a window is at the window's own start.
   */
  lemma RateLimiterBound(run: seq<Event>, max: nat, window: nat, key: string, t: int)
    requires Monotone(run)
    ensures CountIn(Admitted(run, max, window, key), t, t + window) <= if max == 0 then 0 else 2 * max - 1
  {
    if max == 0 {
      NothingAdmitted(run, window, key);
    } else {
      RunKeepsInv(run, max, window, key);
      SpacedBoundsCount(Admitted(run, max, window, key), 2 * max - 1, window, t);
    }
  }

  /** A run continued by n requests of one key at the same time. */
  function Burst(run: seq<Event>, key: string, at: nat, n: nat): seq<Event> {
    if n == 0 then run else Burst(run, key, at, n - 1) + [Request(key, at)]
  }

  function Repeated(h: seq<nat>, at: nat, n: nat): seq<nat> {
    if n == 0 then h else Repeated(h, at, n - 1) + [at]
  }

  /** A burst that the open entry has room for is admitted whole. */
  lemma {:induction false} BurstIsAdmitted(run: seq<Event>, max: nat, window: nat, key: string, at: nat, n: nat)
    requires Opened(After(run, max, window), window, key, at).count + n <= max
    ensures Admitted(Burst(run, key, at, n), max, window, key) == Repeated(Admitted(run, max, window, key), at, n)
    ensures var e := Opened(After(run, max, window), window, key, at);
      Opened(After(Burst(run, key, at, n), max, window), window, key, at) == e.(count := e.count + n)
  {
    if n > 0 {
      BurstIsAdmitted(run, max, window, key, at, n - 1);
      OneRequest(Burst(run, key, at, n - 1), max, window, key, at);
    }
  }

  lemma {:induction false} CountRepeated(h: seq<nat>, at: nat, n: nat, from: int, to: int)
    ensures CountIn(Repeated(h, at, n), from, to) == CountIn(h, from, to) + if from <= at < to then n else 0
  {
    if n > 0 {
      CountRepeated(h, at, n - 1, from, to);
      assert Repeated(h, at, n)[..|Repeated(h, at, n - 1)|] == Repeated(h, at, n - 1);
    }
  }

  /** One request at time 0, max - 1 a full window later, and max at the next tick of the clock. */
  function Crowd(key: string, max: nat, window: nat): seq<Event>
    requires max > 0
  {
    Burst(Burst(Burst([], key, 0, 1), key, window, max - 1), key, window + 1, max)
  }

  /** The bound is reached for every limit, without any sweep. */
  lemma RateLimiterBoundIsReached(key: string, max: nat, window: nat)
    requires max > 0 && window > 1
    ensures Monotone(Crowd(key, max, window))
    ensures CountIn(Admitted(Crowd(key, max, window), max, window, key), window, 2 * window) == 2 * max - 1
  {
    CrowdIsMonotone(key, max, window);
    CrowdIsAdmitted(key, max, window);
    CountRepeated([], 0, 1, window, 2 * window);
    CountRepeated(Repeated([], 0, 1), window, max - 1, window, 2 * window);
    CountRepeated(Repeated(Repeated([], 0, 1), window, max - 1), window + 1, max, window, 2 * window);
  }

  lemma CrowdIsAdmitted(key: string, max: nat, window: nat)
    requires max > 0
    ensures Admitted(Crowd(key, max, window), max, window, key) ==
            Repeated(Repeated(Repeated([], 0, 1), window, max - 1), window + 1, max)
  {
    var r1 := Burst([], key, 0, 1);
    var r2 := Burst(r1, key, window, max - 1);
    BurstIsAdmitted([], max, window, key, 0, 1);
    OpenedLater(After(r1, max, window), window, key, 0, window, 0);
    BurstIsAdmitted(r1, max, window, key, window, max - 1);
    OpenedLater(After(r2, max, window), window, key, window, window + 1, 0);
    BurstIsAdmitted(r2, max, window, key, window + 1, max);
  }

  /** An entry in use stays open for a full window after its start, and is renewed after that. */
  lemma OpenedLater(m: Entries, window: nat, key: string, at: nat, later: nat, start: nat)
    requires at <= later && Opened(m, window, key, at).start == start
               && (start < at || Opened(m, window, key, at).count > 0)
    requires key in m
    ensures Opened(m, window, key, later) == if later - start > window then Entry(0, later)
              else Opened(m, window, key, at)
  {
  }

  lemma CrowdIsMonotone(key: string, max: nat, window: nat)
    requires max > 0
    ensures Monotone(Crowd(key, max, window))
  {
    var r1 := Burst([], key, 0, 1);
    BurstIsMonotone([], key, 0, 1);
    BurstIsMonotone(r1, key, window, max - 1);
    BurstIsMonotone(Burst(r1, key, window, max - 1), key, window + 1, max);
  }

  lemma {:induction false} BurstIsMonotone(run: seq<Event>, key: string, at: nat, n: nat)
    requires Monotone(run) && forall k :: 0 <= k < |run| ==> run[k].at <= at
    ensures Monotone(Burst(run, key, at, n))
    ensures forall k :: 0 <= k < |Burst(run, key, at, n)| ==> Burst(run, key, at, n)[k].at <= at
  {
    if n > 0 { BurstIsMonotone(run, key, at, n - 1); }
  }

  // ---------- against a sliding window ----------

  /** What a sliding window would promise: at most max admissions in any interval of one window. */
  ghost predicate Sliding(max: nat, window: nat, key: string) {
    forall run, t :: Monotone(run) ==> AdmittedIn(run, max, window, key, t) <= max
  }

  function AdmittedIn(run: seq<Event>, max: nat, window: nat, key: string, t: int): nat {
    CountIn(Admitted(run, max, window, key), t, t + window)
  }

  /** One request at time 0, max - 1 a window later, a sweep that drops the entry, and max more at once. */
  function Rush(key: string, max: nat, window: nat): seq<Event>
    requires max > 0
  {
    Burst(Burst(Burst([], key, 0, 1), key, window, max - 1) + [Sweep(window)], key, window, max)
  }

  lemma RushIsAdmitted(key: string, max: nat, window: nat)
    requires max > 0 && window > 0
    ensures Admitted(Rush(key, max, window), max, window, key) ==
            Repeated(Repeated(Repeated([], 0, 1), window, max - 1), window, max)
  {
    var r1 := Burst([], key, 0, 1);
    var r2 := Burst(r1, key, window, max - 1);
    BurstIsAdmitted([], max, window, key, 0, 1);
    OpenedLater(After(r1, max, window), window, key, 0, window, 0);
    BurstIsAdmitted(r1, max, window, key, window, max - 1);
    OneSweep(r2, max, window, key, window);
    BurstIsAdmitted(r2 + [Sweep(window)], max, window, key, window, max);
  }

  lemma RushIsMonotone(key: string, max: nat, window: nat)
    requires max > 0
    ensures Monotone(Rush(key, max, window))
  {
    var r1 := Burst([], key, 0, 1);
    BurstIsMonotone([], key, 0, 1);
    BurstIsMonotone(r1, key, window, max - 1);
    BurstIsMonotone(Burst(r1, key, window, max - 1) + [Sweep(window)], key, window, max);
  }

  /** A sweep drops an entry a full window old, and admits nothing. */
  lemma OneSweep(run: seq<Event>, max: nat, window: nat, key: string, at: nat)
    requires at == window && Opened(After(run, max, window), window, key, at).start == 0
    ensures var longer := run + [Sweep(at)];
      && Admitted(longer, max, window, key) == Admitted(run, max, window, key)
      && Opened(After(longer, max, window), window, key, at) == Entry(0, at)
  {
    assert (run + [Sweep(at)])[..|run|] == run;
    assert Admitted(run, max, window, key) + [] == Admitted(run, max, window, key);
  }

  /** The limiter keeps a sliding window's promise on every run exactly when the limit is one or less. */
  lemma SlidingIffLimitOfOne(max: nat, window: nat, key: string)
    requires window > 0
    ensures Sliding(max, window, key) <==> max <= 1
  {
    if max <= 1 {
      forall run, t | Monotone(run) ensures AdmittedIn(run, max, window, key, t) <= max {
        RateLimiterBound(run, max, window, key, t);
      }
    } else {
      RushIsAdmitted(key, max, window);
      RushIsMonotone(key, max, window);
      CountRepeated([], 0, 1, window, 2 * window);
      CountRepeated(Repeated([], 0, 1), window, max - 1, window, 2 * window);
      CountRepeated(Repeated(Repeated([], 0, 1), window, max - 1), window, max, window, 2 * window);
      assert AdmittedIn(Rush(key, max, window), max, window, key, window) == 2 * max - 1;
    }
  }

  /** What one more request on this key does to its entry and to the admitted times. */
  lemma OneRequest(run: seq<Event>, max: nat, window: nat, key: string, at: nat)
    ensures var m, longer := After(run, max, window), run + [Request(key, at)];
      && After(longer, max, window) == Charge(m, max, window, key, at)
      && Admitted(longer, max, window, key) ==
           Admitted(run, max, window, key) + if Admits(m, max, window, key, at) then [at] else []
  {
    assert (run + [Request(key, at)])[..|run|] == run;
  }

  /** The events that concern one key. */
  function Concerning(run: seq<Event>, key: string): seq<Event> {
    if run == [] then []
    else
      var e := run[|run| - 1];
      Concerning(run[..|run| - 1], key) + if e.Sweep? || e.key == key then [e] else []
  }

  predicate SameEntry(m: Entries, n: Entries, key: string) {
    (key in m <==> key in n) && (key in m ==> m[key] == n[key])
  }

  /** Keys never affect each other: a key fares as if the others' requests had not happened. */
  lemma {:induction false} KeysAreIndependent(run: seq<Event>, max: nat, window: nat, key: string)
    ensures Admitted(run, max, window, key) == Admitted(Concerning(run, key), max, window, key)
    ensures SameEntry(After(run, max, window), After(Concerning(run, key), max, window), key)
    decreases |run|
  {
    if run != [] {
      var front, e := run[..|run| - 1], run[|run| - 1];
      KeysAreIndependent(front, max, window, key);
      var mine := Concerning(front, key);
      if e.Sweep? || e.key == key {
        assert (mine + [e])[..|mine|] == mine;
        SameEntryStep(After(front, max, window), After(mine, max, window), max, window, key, e.at);
      } else {
        assert mine + [] == mine;
      }
    }
  }

  /** Equal entries of a key fare equally under a request or a sweep. */
  lemma SameEntryStep(m: Entries, n: Entries, max: nat, window: nat, key: string, at: nat)
    requires SameEntry(m, n, key)
    ensures SameEntry(Charge(m, max, window, key, at), Charge(n, max, window, key, at), key)
    ensures SameEntry(SweepOld(m, window, at), SweepOld(n, window, at), key)
    ensures Admits(m, max, window, key, at) == Admits(n, max, window, key, at)
  {
  }

  // ---------- the login throttle ----------

  function Retain(ts: seq<nat>, window: nat, now: nat): seq<nat> {
    if ts == [] then []
    else if now - ts[0] < window then [ts[0]] + Retain(ts[1..], window, now)
    else Retain(ts[1..], window, now)
  }

  function Stored(m: map<string, seq<nat>>, ip: string): seq<nat> {
    if ip in m then m[ip] else []
  }

  function Recent(m: map<string, seq<nat>>, window: nat, ip: string, now: nat): seq<nat> {
    Retain(Stored(m, ip), window, now)
  }

  function Attempted(m: map<string, seq<nat>>, max: nat, window: nat, ip: string, now: nat): map<string, seq<nat>> {
    var recent := Recent(m, window, ip, now);
    m[ip := if |recent| >= max then recent else recent + [now]]
  }

  class LoginThrottle {
    const maxAttempts: nat
    const window: nat
    var attempts: map<string, seq<nat>>

    constructor (maxAttempts: nat, window: nat)
      ensures this.maxAttempts == maxAttempts && this.window == window && attempts == map[]
    {
      this.maxAttempts, this.window, this.attempts := maxAttempts, window, map[];
    }

    method Allow(ip: string, now: nat) returns (ok: bool)
      modifies this
      ensures ok == (|Recent(old(attempts), window, ip, now)| < maxAttempts)
      ensures attempts == Attempted(old(attempts), maxAttempts, window, ip, now)
      ensures forall k :: k != ip && k in old(attempts) ==> k in attempts && attempts[k] == old(attempts[k])
    {
      var recent := Retain(Stored(attempts, ip), window, now);
      attempts := attempts[ip := recent];
      if |recent| >= maxAttempts {
        return false;
      }
      attempts := attempts[ip := recent + [now]];
      ok := true;
    }
  }

  datatype Login = Login(ip: string, at: nat)

  predicate Ordered(run: seq<Login>) {
    forall i, j :: 0 <= i < j < |run| ==> run[i].at <= run[j].at
  }

  function Attempts(run: seq<Login>, max: nat, window: nat): map<string, seq<nat>> {
    if run == [] then map[]
    else Attempted(Attempts(run[..|run| - 1], max, window), max, window, run[|run| - 1].ip, run[|run| - 1].at)
  }

  function LetIn(run: seq<Login>, max: nat, window: nat, ip: string): seq<nat> {
    if run == [] then []
    else
      var front, e := run[..|run| - 1], run[|run| - 1];
      LetIn(front, max, window, ip)
      + if e.ip == ip && |Recent(Attempts(front, max, window), window, ip, e.at)| < max then [e.at] else []
  }

  /** What is stored is the tail of the history; what was dropped is a window old. */
  predicate ThrottleInv(ts: seq<nat>, h: seq<nat>, clock: nat, max: nat, window: nat) {
    && Ascending(h) && (h != [] ==> h[|h| - 1] <= clock)
    && |ts| <= |h| && h[|h| - |ts|..] == ts
    && (forall i :: 0 <= i < |h| - |ts| ==> h[i] + window <= clock)
    && Spaced(h, max, window)
  }

  lemma {:induction false} RetainAll(ts: seq<nat>, window: nat, now: nat)
    requires forall i :: 0 <= i < |ts| ==> now < ts[i] + window
    ensures Retain(ts, window, now) == ts
  {
    if ts != [] { RetainAll(ts[1..], window, now); }
  }

  lemma {:induction false} RetainIsTail(ts: seq<nat>, window: nat, now: nat) returns (k: nat)
    requires Ascending(ts)
    ensures k <= |ts| && Retain(ts, window, now) == ts[k..]
    ensures forall i :: 0 <= i < |ts| ==> (i >= k <==> now < ts[i] + window)
  {
    if ts == [] {
      k := 0;
    } else if now < ts[0] + window {
      assert forall i :: 0 <= i < |ts| ==> ts[0] <= ts[i];
      RetainAll(ts, window, now);
      k := 0;
    } else {
      var rest := ts[1..];
      var m := RetainIsTail(rest, window, now);
      k := m + 1;
      assert ts[k..] == rest[m..];
      forall i | 0 < i < |ts| ensures i >= k <==> now < ts[i] + window {
        assert rest[i - 1] == ts[i];
      }
    }
  }

  /** Dropping old times keeps the invariant: only times a window old go. */
  lemma RetainKeepsInv(ts: seq<nat>, h: seq<nat>, clock: nat, max: nat, window: nat, now: nat)
    requires ThrottleInv(ts, h, clock, max, window) && clock <= now
    ensures ThrottleInv(Retain(ts, window, now), h, now, max, window)
    ensures forall i :: 0 <= i < |h| ==> (i >= |h| - |Retain(ts, window, now)| <==> now < h[i] + window)
  {
    var dropped := |h| - |ts|;
    assert forall i :: 0 <= i < |ts| ==> ts[i] == h[dropped + i];
    var k := RetainIsTail(ts, window, now);
    assert h[dropped + k..] == ts[k..];
    forall i | 0 <= i < |h| ensures i >= dropped + k <==> now < h[i] + window {
      if i >= dropped { assert h[i] == ts[i - dropped]; }
    }
  }

  lemma PushKeepsInv(r: seq<nat>, h: seq<nat>, max: nat, window: nat, now: nat)
    requires ThrottleInv(r, h, now, max, window) && |r| < max
    ensures ThrottleInv(r + [now], h + [now], now, max, window)
  {
    AscendingAppend(h, now);
    var h' := h + [now];
    assert h'[|h'| - |r + [now]|..] == r + [now];
  }

  lemma LoginKeepsInv(ts: seq<nat>, h: seq<nat>, clock: nat, max: nat, window: nat, now: nat)
    requires ThrottleInv(ts, h, clock, max, window) && clock <= now
    ensures var r := Retain(ts, window, now);
      if |r| < max then ThrottleInv(r + [now], h + [now], now, max, window) else ThrottleInv(r, h, now, max, window)
  {
    RetainKeepsInv(ts, h, clock, max, window, now);
    var r := Retain(ts, window, now);
    if |r| < max { PushKeepsInv(r, h, max, window, now); }
  }

  function ClockOf(run: seq<Login>): nat {
    if run == [] then 0 else run[|run| - 1].at
  }

  /** What the last attempt of a run does to one address. */
  lemma LastLogin(run: seq<Login>, max: nat, window: nat, ip: string)
    requires run != []
    ensures var front, e := run[..|run| - 1], run[|run| - 1];
      var ts, h := Stored(Attempts(front, max, window), ip), LetIn(front, max, window, ip);
      var r := Retain(ts, window, e.at);
      var ts', h' := Stored(Attempts(run, max, window), ip), LetIn(run, max, window, ip);
      if e.ip != ip then ts' == ts && h' == h
      else if |r| < max then ts' == r + [e.at] && h' == h + [e.at]
      else ts' == r && h' == h
  {
  }

  lemma {:induction false} LoginsKeepInv(run: seq<Login>, max: nat, window: nat, ip: string)
    requires Ordered(run)
    ensures ThrottleInv(Stored(Attempts(run, max, window), ip), LetIn(run, max, window, ip), ClockOf(run), max, window)
    decreases |run|
  {
    if run != [] {
      var front, e := run[..|run| - 1], run[|run| - 1];
      LoginsKeepInv(front, max, window, ip);
      assert ClockOf(front) <= e.at;
      var ts, h := Stored(Attempts(front, max, window), ip), LetIn(front, max, window, ip);
      LoginKeepsInv(ts, h, ClockOf(front), max, window, e.at);
      LastLogin(run, max, window, ip);
    }
  }

  /** At most max attempts per address in any half-open interval of one window. */
  lemma ThrottleBound(run: seq<Login>, max: nat, window: nat, ip: string, t: int)
    requires Ordered(run)
    ensures CountIn(LetIn(run, max, window, ip), t, t + window) <= max
  {
    LoginsKeepInv(run, max, window, ip);
    SpacedBoundsCount(LetIn(run, max, window, ip), max, window, t);
  }

  lemma {:induction false} CountTail(h: seq<nat>, k: nat, from: int, to: int)
    requires k <= |h| && forall i :: 0 <= i < |h| ==> (i >= k <==> from <= h[i] < to)
    ensures CountIn(h, from, to) == |h| - k
    decreases |h|
  {
    if h != [] { CountTail(h[..|h| - 1], if k < |h| then k else k - 1, from, to); }
  }

  lemma CountFromCut(h: seq<nat>, kept: nat, window: nat, now: nat)
    requires kept <= |h| && (forall i :: 0 <= i < |h| ==> h[i] <= now)
    requires forall i :: 0 <= i < |h| ==> (i >= |h| - kept <==> now < h[i] + window)
    ensures CountIn(h, now - window + 1, now + 1) == kept
  {
    CountTail(h, |h| - kept, now - window + 1, now + 1);
  }

  lemma RecentIsCount(ts: seq<nat>, h: seq<nat>, clock: nat, max: nat, window: nat, now: nat)
    requires ThrottleInv(ts, h, clock, max, window) && clock <= now
    ensures |Retain(ts, window, now)| == CountIn(h, now - window + 1, now + 1)
  {
    RetainKeepsInv(ts, h, clock, max, window, now);
    CountFromCut(h, |Retain(ts, window, now)|, window, now);
  }

  /** And it refuses only when that many were let in during the last window: the throttle is exact. */
  lemma ThrottleIsExact(run: seq<Login>, max: nat, window: nat, ip: string, now: nat)
    requires Ordered(run) && (run != [] ==> run[|run| - 1].at <= now)
    ensures |Recent(Attempts(run, max, window), window, ip, now)| < max
       <==> CountIn(LetIn(run, max, window, ip), now - window + 1, now + 1) < max
  {
    LoginsKeepInv(run, max, window, ip);
    RecentIsCount(Stored(Attempts(run, max, window), ip), LetIn(run, max, window, ip), ClockOf(run), max, window, now);
  }
}
