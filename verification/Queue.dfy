/** Draining the queue of pending actions: expiry, batches, and what one tick leaves behind. */
module Queue {
  import opened Common
  import opened Lifecycle
  import opened LifecycleSafety
  import opened Clock

  predicate Due(row: Action, now: string) {
    row.status == Pending && (row.executeAt.None? || !Before(now, row.executeAt.value))
  }

  function PendingRows(rows: seq<Action>): set<nat> {
    set i | 0 <= i < |rows| && rows[i].status == Pending
  }

  function DueRows(rows: seq<Action>, now: string): set<nat> {
    set i | 0 <= i < |rows| && Due(rows[i], now)
  }

  /** The order of the batch query: priority first, then age. */
  predicate NotAfter(a: Action, b: Action) {
    a.priority < b.priority || (a.priority == b.priority && !Before(b.createdAt, a.createdAt))
  }

  function Min(a: nat, b: nat): nat {
    if a < b then a else b
  }

  /** What the batch query may return: the first `limit` due rows in some order allowed by its ORDER BY. */
  ghost predicate IsBatch(rows: seq<Action>, now: string, limit: nat, batch: seq<Id>) {
    && (forall k :: 0 <= k < |batch| ==> batch[k] in DueRows(rows, now))
    && (forall j, k :: 0 <= j < k < |batch| ==> batch[j] != batch[k] && NotAfter(rows[batch[j]], rows[batch[k]]))
    && |batch| == Min(limit, |DueRows(rows, now)|)
    && (forall i, k :: i in DueRows(rows, now) && i !in batch && 0 <= k < |batch| ==> NotAfter(rows[batch[k]], rows[i]))
  }

  /** Without an execution time a pending action is due at once; at its time or later it is due as well. */
  lemma DueMeans(row: Action, at: Stamp, now: Stamp)
    requires Proper(now) && Proper(at)
    ensures row.executeAt == None ==> (Due(row, Format(now)) <==> row.status == Pending)
    ensures row.executeAt == Some(Format(at)) ==>
              (Due(row, Format(now)) <==> row.status == Pending && Seconds(at) <= Seconds(now))
  {
    TextOrderIsTimeOrder(now, at);
  }

  /**
   What a batch takes first: a lower priority number, and among equals the older action. No due row
   left out has a lower number than one taken, or the same number and an earlier creation.
   */
  lemma BatchTakesFirst(rows: seq<Action>, now: string, limit: nat, batch: seq<Id>, k: nat, i: Id, a: Stamp, b: Stamp)
    requires IsBatch(rows, now, limit, batch) && k < |batch| && i in DueRows(rows, now)
    requires i !in batch || exists m :: k < m < |batch| && batch[m] == i
    requires Proper(a) && Proper(b)
    requires rows[batch[k]].createdAt == Format(a) && rows[i].createdAt == Format(b)
    ensures rows[batch[k]].priority <= rows[i].priority
    ensures rows[batch[k]].priority == rows[i].priority ==> Seconds(a) <= Seconds(b)
  {
    TextOrderIsTimeOrder(b, a);
    assert batch[k] in DueRows(rows, now);
  }

  // ---------- expiry ----------

  /** After the expiry of a tick no pending action is older than the time to live. */
  lemma ExpiryLeavesNothingStale(s: State, cutoff: Stamp, id: Id, created: Stamp)
    requires Proper(cutoff) && Proper(created) && Enabled(s, Expire(Format(cutoff)))
    requires id < |s.actions| && s.actions[id].createdAt == Format(created)
    ensures var t := Apply(s, Expire(Format(cutoff)));
      && (t.actions[id].status == Pending <==> s.actions[id].status == Pending && Seconds(created) >= Seconds(cutoff))
      && t.actions[id] == if s.actions[id].status == Pending && Seconds(created) < Seconds(cutoff)
                          then s.actions[id].(status := Denied) else s.actions[id]
  {
    TextOrderIsTimeOrder(created, cutoff);
  }

  /**
   The execution time is the agent's own text. An RFC 3339 one is not due at any time of its day,
   whatever its hour: it waits for the next day.
   */
  lemma IsoTimeWaitsForNextDay(row: Action, at: Stamp, rest: string, now: Stamp)
    requires Proper(at) && Proper(now) && row.executeAt == Some(Iso(at, rest))
    ensures Due(row, Format(now)) <==> row.status == Pending && EarlierDate(at, now)
  {
    IsoOrder(at, now, rest);
  }

  /**
   At a tick an action is due, once the tick has expired what is old, exactly when its time has come
   and it was created no longer than the time to live ago.
   */
  lemma DueOnlyWithinTtl(s: State, id: Id, created: Stamp, at: Stamp, now: Stamp, cutoff: Stamp, ttl: nat)
    requires Proper(created) && Proper(at) && Proper(now) && Proper(cutoff) && Seconds(cutoff) + ttl == Seconds(now)
    requires Enabled(s, Expire(Format(cutoff))) && id < |s.actions|
    requires s.actions[id].createdAt == Format(created) && s.actions[id].executeAt == Some(Format(at))
    ensures Due(Apply(s, Expire(Format(cutoff))).actions[id], Format(now)) <==>
              s.actions[id].status == Pending && Seconds(at) <= Seconds(now) <= Seconds(created) + ttl
  {
    TextOrderIsTimeOrder(created, cutoff);
    TextOrderIsTimeOrder(now, at);
  }

  /** So an action scheduled for later than its time to live is expired before it is ever due. */
  lemma ScheduledPastTtlNeverRuns(s: State, id: Id, created: Stamp, at: Stamp, now: Stamp, cutoff: Stamp, ttl: nat)
    requires Proper(created) && Proper(at) && Proper(now) && Proper(cutoff) && Seconds(cutoff) + ttl == Seconds(now)
    requires Enabled(s, Expire(Format(cutoff))) && id < |s.actions|
    requires s.actions[id].createdAt == Format(created) && s.actions[id].executeAt == Some(Format(at))
    requires Seconds(at) > Seconds(created) + ttl
    ensures id !in DueRows(Apply(s, Expire(Format(cutoff))).actions, Format(now))
    ensures Seconds(now) >= Seconds(at) ==> Apply(s, Expire(Format(cutoff))).actions[id].status != Pending
  {
    DueOnlyWithinTtl(s, id, created, at, now, cutoff, ttl);
    TextOrderIsTimeOrder(created, cutoff);
  }

  // ---------- one batch ----------

  /** Nothing but a submission makes an action pending. */
  lemma PendingOnlyShrinks(s: State, e: Event)
    requires Enabled(s, e) && !e.Submit?
    ensures |Apply(s, e).actions| == |s.actions|
    ensures PendingRows(Apply(s, e).actions) <= PendingRows(s.actions)
    ensures forall now :: DueRows(Apply(s, e).actions, now) <= DueRows(s.actions, now)
  {
    var t := Apply(s, e);
    forall i | 0 <= i < |s.actions| && t.actions[i].status == Pending
      ensures t.actions[i] == s.actions[i]
    {
    }
  }

  /** An action of the batch is still queued, has just been read, or is no longer pending. */
  ghost predicate Handled(s: State, batch: seq<Id>) {
    forall k :: 0 <= k < |batch| ==>
      && batch[k] < |s.actions|
      && (batch[k] in s.processor.queue || s.processor.stage == Seen(batch[k]) || s.actions[batch[k]].status != Pending)
  }

  /** The processor keeps working through the batch: no shutdown, no crash, no new batch, no new actions. */
  predicate Steady(e: Event) {
    !e.Abandon? && !e.Select? && !e.Submit?
  }

  lemma StepKeepsHandled(s: State, e: Event, batch: seq<Id>)
    requires Handled(s, batch) && Enabled(s, e) && Steady(e)
    ensures Handled(Apply(s, e), batch)
  {
    var t := Apply(s, e);
    PendingOnlyShrinks(s, e);
    forall k | 0 <= k < |batch| && t.actions[batch[k]].status == Pending
      ensures batch[k] in t.processor.queue || t.processor.stage == Seen(batch[k])
    {
      assert batch[k] in PendingRows(s.actions);
      if batch[k] in s.processor.queue && batch[k] !in t.processor.queue {
        assert s.processor.queue == [s.processor.queue[0]] + s.processor.queue[1..];
      }
    }
  }

  lemma {:induction false} RunKeepsHandled(s: State, run: seq<Event>, batch: seq<Id>)
    requires Handled(s, batch) && Legal(s, run) && forall k :: 0 <= k < |run| ==> Steady(run[k])
    ensures Handled(Exec(s, run), batch)
    ensures PendingRows(Exec(s, run).actions) <= PendingRows(s.actions)
    ensures forall now :: DueRows(Exec(s, run).actions, now) <= DueRows(s.actions, now)
    decreases |run|
  {
    if run != [] {
      var front := run[..|run| - 1];
      RunKeepsHandled(s, front, batch);
      StepKeepsHandled(Exec(s, front), run[|run| - 1], batch);
      PendingOnlyShrinks(Exec(s, front), run[|run| - 1]);
    }
  }

  /**
   One tick: expiry, the batch query, then any run of events that works the batch off. Requests
   and overrides may interleave, and actions may be judged or denied on an error.
   */
  ghost predicate Tick(s: State, run: seq<Event>, cutoff: string, now: string, limit: nat, batch: seq<Id>) {
    && Legal(s, [Expire(cutoff)] + [Select(batch)] + run)
    && IsBatch(ExpireRows(s.actions, cutoff), now, limit, batch)
    && (forall k :: 0 <= k < |run| ==> Steady(run[k]))
    && Exec(s, [Expire(cutoff)] + [Select(batch)] + run).processor == Processor([], Idle)
  }

  lemma {:induction false} ExecConcat(s: State, a: seq<Event>, b: seq<Event>)
    requires Legal(s, a + b)
    ensures Legal(s, a) && Legal(Exec(s, a), b) && Exec(s, a + b) == Exec(Exec(s, a), b)
    decreases |b|
  {
    if b == [] {
      assert a + b == a;
    } else {
      var front := b[..|b| - 1];
      assert (a + b)[..|a + b| - 1] == a + front;
      ExecConcat(s, a, front);
    }
  }

  lemma TickStart(s: State, run: seq<Event>, cutoff: string, batch: seq<Id>)
    requires Legal(s, [Expire(cutoff)] + [Select(batch)] + run)
    ensures var u := s.(actions := ExpireRows(s.actions, cutoff), processor := Processor(batch, Idle));
      Legal(u, run) && Exec(s, [Expire(cutoff)] + [Select(batch)] + run) == Exec(u, run)
  {
    ExecConcat(s, [Expire(cutoff)] + [Select(batch)], run);
    ExecConcat(s, [Expire(cutoff)], [Select(batch)]);
    OneStep(s, Expire(cutoff));
    OneStep(Exec(s, [Expire(cutoff)]), Select(batch));
  }

  lemma OneStep(s: State, e: Event)
    requires Legal(s, [e])
    ensures Enabled(s, e) && Exec(s, [e]) == Apply(s, e)
  {
    assert [e][..0] == [];
  }

  function Members(batch: seq<Id>): set<nat> {
    set id | id in batch
  }

  lemma {:induction false} DistinctSize(batch: seq<Id>)
    requires forall j, k :: 0 <= j < k < |batch| ==> batch[j] != batch[k]
    ensures |Members(batch)| == |batch|
  {
    if batch != [] {
      var front, last := batch[..|batch| - 1], batch[|batch| - 1];
      DistinctSize(front);
      forall k | 0 <= k < |front| ensures front[k] != last {
        assert batch[k] != batch[|batch| - 1];
      }
      assert Members(batch) == Members(front) + {last};
    }
  }

  lemma BatchIsTaken(u: State, run: seq<Event>, now: string, batch: seq<Id>)
    requires u.processor == Processor(batch, Idle) && Legal(u, run) && forall k :: 0 <= k < |run| ==> Steady(run[k])
    requires forall k :: 0 <= k < |batch| ==> batch[k] in DueRows(u.actions, now)
    requires Exec(u, run).processor == Processor([], Idle)
    ensures var t := Exec(u, run);
      && PendingRows(t.actions) <= PendingRows(u.actions)
      && DueRows(t.actions, now) <= DueRows(u.actions, now)
      && forall k :: 0 <= k < |batch| ==> batch[k] !in PendingRows(t.actions)
  {
    RunKeepsHandled(u, run, batch);
  }

  lemma TakenSize(before: set<nat>, after: set<nat>, batch: seq<Id>)
    requires after <= before && forall k :: 0 <= k < |batch| ==> batch[k] in before && batch[k] !in after
    requires forall j, k :: 0 <= j < k < |batch| ==> batch[j] != batch[k]
    ensures |after| <= |before| - |batch|
  {
    var taken := Members(batch);
    DistinctSize(batch);
    SubsetSize(after, before - taken);
    assert taken <= before;
    assert |before - taken| == |before| - |taken|;
  }

  /** A tick removes a whole batch from the due rows, and never adds one. */
  lemma TickLowersDue(s: State, run: seq<Event>, cutoff: string, now: string, limit: nat, batch: seq<Id>)
    requires Tick(s, run, cutoff, now, limit, batch)
    ensures var t := Exec(s, [Expire(cutoff)] + [Select(batch)] + run);
      && DueRows(t.actions, now) <= DueRows(s.actions, now)
      && PendingRows(t.actions) <= PendingRows(s.actions)
      && (forall k :: 0 <= k < |batch| ==> batch[k] !in PendingRows(t.actions))
      && |DueRows(t.actions, now)| <= |DueRows(s.actions, now)| - Min(limit, |DueRows(s.actions, now)|)
  {
    TickStart(s, run, cutoff, batch);
    var rows := ExpireRows(s.actions, cutoff);
    var u := s.(actions := rows, processor := Processor(batch, Idle));
    BatchIsTaken(u, run, now, batch);
    var t := Exec(u, run);
    assert forall i :: i in DueRows(t.actions, now) ==> i in PendingRows(t.actions);
    TakenSize(DueRows(rows, now), DueRows(t.actions, now), batch);
    SubsetSize(DueRows(rows, now), DueRows(s.actions, now));
  }

  // ---------- many ticks ----------

  /** A tick at text time `now` leads from s to t. */
  ghost predicate TickTo(s: State, t: State, now: string, limit: nat) {
    exists run, cutoff, batch :: Tick(s, run, cutoff, now, limit, batch)
        && t == Exec(s, [Expire(cutoff)] + [Select(batch)] + run)
  }

  ghost predicate Ticks(ss: seq<State>, nows: seq<string>, limit: nat) {
    && |ss| == |nows| + 1
    && (forall k :: 0 <= k < |nows| ==> TickTo(ss[k], ss[k + 1], nows[k], limit))
    && (forall j, k :: 0 <= j < k < |nows| ==> !Before(nows[k], nows[j]))
  }

  lemma TickKeepsAllDue(s: State, t: State, now: string, limit: nat)
    requires TickTo(s, t, now, limit) && PendingRows(s.actions) == DueRows(s.actions, now)
    ensures PendingRows(t.actions) == DueRows(t.actions, now)
    ensures |PendingRows(t.actions)| <= |PendingRows(s.actions)| - Min(limit, |PendingRows(s.actions)|)
  {
    var run, cutoff, batch :| Tick(s, run, cutoff, now, limit, batch)
        && t == Exec(s, [Expire(cutoff)] + [Select(batch)] + run);
    TickLowersDue(s, run, cutoff, now, limit, batch);
    PendingStaysDue(s, [Expire(cutoff)] + [Select(batch)] + run, now);
  }

  lemma {:induction false} PendingStaysDue(s: State, run: seq<Event>, now: string)
    requires Legal(s, run) && PendingRows(s.actions) == DueRows(s.actions, now)
    requires forall k :: 0 <= k < |run| ==> !run[k].Submit?
    ensures PendingRows(Exec(s, run).actions) == DueRows(Exec(s, run).actions, now)
    decreases |run|
  {
    if run != [] {
      var front, e := run[..|run| - 1], run[|run| - 1];
      PendingStaysDue(s, front, now);
      var u, t := Exec(s, front), Exec(s, run);
      forall i | i in PendingRows(t.actions) ensures i in DueRows(t.actions, now) {
        PendingOnlyShrinks(u, e);
        assert i in PendingRows(u.actions) && i in DueRows(u.actions, now);
        assert t.actions[i] == u.actions[i];
      }
    }
  }

  lemma StillDueLater(rows: seq<Action>, now: string, later: string)
    requires PendingRows(rows) == DueRows(rows, now) && !Before(later, now)
    ensures PendingRows(rows) == DueRows(rows, later)
  {
    forall i | i in PendingRows(rows) ensures i in DueRows(rows, later) {
      assert i in DueRows(rows, now);
      if rows[i].executeAt.Some? { BeforeIsTransitive(rows[i].executeAt.value, now, later); }
    }
  }

  /** After k ticks at most n - k * batch_size of n due actions are still pending. */
  lemma {:induction false} TicksDrain(ss: seq<State>, nows: seq<string>, limit: nat, k: nat)
    requires Ticks(ss, nows, limit) && k <= |nows| && nows != []
    requires PendingRows(ss[0].actions) == DueRows(ss[0].actions, nows[0])
    ensures PendingRows(ss[k].actions) == DueRows(ss[k].actions, nows[if k == 0 then 0 else k - 1])
    ensures |PendingRows(ss[k].actions)| + Min(k * limit, |PendingRows(ss[0].actions)|) <= |PendingRows(ss[0].actions)|
  {
    if k > 0 {
      TicksDrain(ss, nows, limit, k - 1);
      assert TickTo(ss[k - 1], ss[k - 1 + 1], nows[k - 1], limit);
      if k > 1 { StillDueLater(ss[k - 1].actions, nows[k - 2], nows[k - 1]); }
      TickKeepsAllDue(ss[k - 1], ss[k], nows[k - 1], limit);
      OneTickMore(k, limit, |PendingRows(ss[k - 1].actions)|, |PendingRows(ss[k].actions)|,
                  |PendingRows(ss[0].actions)|);
    }
  }

  lemma OneTickMore(k: nat, limit: nat, before: nat, after: nat, n: nat)
    requires k > 0 && before + Min((k - 1) * limit, n) <= n && after <= before - Min(limit, before)
    ensures after + Min(k * limit, n) <= n
  {
    assert k * limit == (k - 1) * limit + limit;
  }

  /** So ceil(n / batch_size) ticks empty the queue. */
  lemma QueueEmpties(ss: seq<State>, nows: seq<string>, limit: nat, k: nat)
    requires Ticks(ss, nows, limit) && k <= |nows| && nows != []
    requires PendingRows(ss[0].actions) == DueRows(ss[0].actions, nows[0])
    requires limit > 0 && k >= (|PendingRows(ss[0].actions)| + limit - 1) / limit
    ensures PendingRows(ss[k].actions) == {}
  {
    TicksDrain(ss, nows, limit, k);
    CeilingCovers(|PendingRows(ss[0].actions)|, limit, k);
  }

  lemma CeilingCovers(n: nat, limit: nat, k: nat)
    requires limit > 0 && k >= (n + limit - 1) / limit
    ensures k * limit >= n
  {
    var q := (n + limit - 1) / limit;
    assert n + limit - 1 == q * limit + (n + limit - 1) % limit;
    assert k * limit == q * limit + (k - q) * limit;
    assert (k - q) * limit >= 0;
  }
}
