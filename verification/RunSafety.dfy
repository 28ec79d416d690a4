/**
 Verdict discipline and at-most-once forwarding, over every run of the lifecycle.
 The runs interleave one processor with any number of forward requests and override requests.
 */
module RunSafety {
  import opened Common
  import opened Lifecycle
  import opened LifecycleSafety

  // ---------- verdict discipline ----------

  lemma VerdictDiscipline(run: seq<Event>)
    requires Legal(Init, run)
    ensures var s := Exec(Init, run);
      && (forall id :: 0 <= id < |s.actions| && s.actions[id].status == Pending ==> !HasVerdict(s.verdicts, id))
      && (forall i, j :: 0 <= i < j < |s.verdicts| ==> s.verdicts[i].action != s.verdicts[j].action)
      && Issued(s.audit) == s.verdicts
      && (forall id :: 0 <= id < |s.actions| && s.actions[id].status in {Forwarded, ForwardFailed}
            ==> HasDecision(s.verdicts, id, Approve))
  {
    RunKeepsInv(Init, run);
  }

  /** Verdict rows are never changed or removed, and an action's own fields never change. */
  lemma {:induction false} VerdictsOnlyGrow(s: State, run: seq<Event>)
    requires Legal(s, run)
    ensures s.verdicts <= Exec(s, run).verdicts
    ensures |s.actions| <= |Exec(s, run).actions|
    ensures forall id :: 0 <= id < |s.actions| ==>
              Exec(s, run).actions[id] == s.actions[id].(status := Exec(s, run).actions[id].status)
    decreases |run|
  {
    if run != [] {
      VerdictsOnlyGrow(s, run[..|run| - 1]);
      StepOnlyGrows(Exec(s, run[..|run| - 1]), run[|run| - 1]);
    }
  }

  lemma StepOnlyGrows(s: State, e: Event)
    requires Enabled(s, e)
    ensures var t := Apply(s, e);
      && s.verdicts <= t.verdicts && |s.actions| <= |t.actions|
      && forall id :: 0 <= id < |s.actions| ==> t.actions[id] == s.actions[id].(status := t.actions[id].status)
  {
  }

  ghost predicate KeysUnique(rows: seq<Action>) {
    forall j, k :: 0 <= j < k < |rows| && rows[k].key.Some? ==>
      rows[j].agent != rows[k].agent || rows[j].key != rows[k].key
  }

  lemma StepKeepsKeys(s: State, e: Event)
    requires KeysUnique(s.actions) && Enabled(s, e)
    ensures KeysUnique(Apply(s, e).actions)
  {
    if !e.Submit? {
      StepOnlyGrows(s, e);
      OnlySubmitInserts(s, e);
    }
  }

  lemma OnlySubmitInserts(s: State, e: Event)
    requires Enabled(s, e) && !e.Submit?
    ensures |Apply(s, e).actions| == |s.actions|
  {
  }

  /** Over any run an agent never has two actions under one idempotency key. */
  lemma {:induction false} OneActionPerKey(s: State, run: seq<Event>)
    requires KeysUnique(s.actions) && Legal(s, run)
    ensures KeysUnique(Exec(s, run).actions)
    decreases |run|
  {
    if run != [] {
      OneActionPerKey(s, run[..|run| - 1]);
      StepKeepsKeys(Exec(s, run[..|run| - 1]), run[|run| - 1]);
    }
  }

  // ---------- what can move a forwarded action ----------

  predicate Sent(status: Status) {
    status in {Forwarded, ForwardFailed}
  }

  /**
   No processor, expiry or bulk event touches a row that has been sent. One thing takes it out of
   forwarded or forward_failed: the write of an override whose test came before the send.
   */
  lemma OnlyOverwritesUnsendRows(s: State, e: Event, id: Id)
    requires Inv(s) && Enabled(s, e) && id < |s.actions| && Sent(s.actions[id].status)
    ensures Sent(Apply(s, e).actions[id].status) <==> !Overwrites(s, e, id)
    ensures !e.Begin? && !e.End? && !Overwrites(s, e, id) ==> Apply(s, e).actions[id] == s.actions[id]
    ensures Overwrites(s, e, id) ==> !OverrideTested(s, e)
  {
    DecisionIsVerdict(s.verdicts, id, Approve);
    if e.ErrorDeny? { InHandIsUnapproved(s); }
  }

  predicate Overwrites(s: State, e: Event, id: Id) {
    e.Overwrite? && e.admin in s.reviews && s.reviews[e.admin].id == id
  }

  /** If this is the write of an override, the row still passes the override's own test. */
  predicate OverrideTested(s: State, e: Event) {
    e.Overwrite? && e.admin in s.reviews ==>
      var r := s.reviews[e.admin];
      r.id < |s.actions| && OverrideAllowed(r.route, s.actions[r.id].status, r.to)
  }

  ghost predicate OverridesTested(s: State, run: seq<Event>)
    requires Legal(s, run)
    decreases |run|
  {
    run == [] || (OverridesTested(s, run[..|run| - 1]) && OverrideTested(Exec(s, run[..|run| - 1]), run[|run| - 1]))
  }

  /** The row is sent after every step of the run. */
  ghost predicate KeepsSent(s: State, run: seq<Event>, id: Id)
    requires Legal(s, run)
    decreases |run|
  {
    var t := Exec(s, run);
    id < |t.actions| && Sent(t.actions[id].status) && (run == [] || KeepsSent(s, run[..|run| - 1], id))
  }

  ghost predicate NoOverwriteOf(s: State, run: seq<Event>, id: Id)
    requires Legal(s, run)
    decreases |run|
  {
    run == [] || (NoOverwriteOf(s, run[..|run| - 1], id) && !Overwrites(Exec(s, run[..|run| - 1]), run[|run| - 1], id))
  }

  /** A sent row stays sent throughout a run exactly when the run holds no override write on it. */
  lemma {:induction false} SentStaysSentIff(s: State, run: seq<Event>, id: Id)
    requires Inv(s) && Legal(s, run) && id < |s.actions| && Sent(s.actions[id].status)
    ensures KeepsSent(s, run, id) <==> NoOverwriteOf(s, run, id)
    decreases |run|
  {
    if run != [] {
      var front, e := run[..|run| - 1], run[|run| - 1];
      SentStaysSentIff(s, front, id);
      VerdictsOnlyGrow(s, front);
      if KeepsSent(s, front, id) {
        RunKeepsInv(s, front);
        StepOnlyGrows(Exec(s, front), e);
        OnlyOverwritesUnsendRows(Exec(s, front), e, id);
      }
    }
  }

  /** So it does if every override re-passes its own test when it writes. */
  lemma {:induction false} TestedOverridesKeepSent(s: State, run: seq<Event>, id: Id)
    requires Inv(s) && Legal(s, run) && id < |s.actions| && Sent(s.actions[id].status) && OverridesTested(s, run)
    ensures KeepsSent(s, run, id)
    decreases |run|
  {
    if run != [] {
      var front, e := run[..|run| - 1], run[|run| - 1];
      TestedOverridesKeepSent(s, front, id);
      RunKeepsInv(s, front);
      StepOnlyGrows(Exec(s, front), e);
      OnlyOverwritesUnsendRows(Exec(s, front), e, id);
    }
  }

  // ---------- at most one forward ----------

  /** A request about to be sent is the only one, and every one before it ended in a recorded failure. */
  ghost predicate Solo(s: State, h: Handler)
    requires h in s.windows
  {
    var id := s.windows[h].id;
    id !in s.settled && forall g :: g in s.inFlight ==> s.inFlight[g] != id
  }

  /** The row still passes the handler's own status test at the moment it is overwritten. */
  predicate StillUnsent(s: State, h: Handler)
    requires h in s.windows
  {
    var id := s.windows[h].id;
    id < |s.actions| && s.actions[id].status != Forwarded
  }

  ghost predicate AtMostOnce(s: State, run: seq<Event>)
    requires Legal(s, run)
    decreases |run|
  {
    run == [] ||
    var front, e := run[..|run| - 1], run[|run| - 1];
    AtMostOnce(s, front) && (e.Begin? ==> Solo(Exec(s, front), e.handler))
  }

  ghost predicate BeginsTested(s: State, run: seq<Event>)
    requires Legal(s, run)
    decreases |run|
  {
    run == [] ||
    var front, e := run[..|run| - 1], run[|run| - 1];
    BeginsTested(s, front) && (e.Begin? ==> StillUnsent(Exec(s, front), e.handler))
  }

  /** The actions whose `forwarded` mark an override has written over, and whose forward has not failed since. */
  ghost function Erased(s: State, run: seq<Event>): set<Id>
    requires Legal(s, run)
    decreases |run|
  {
    if run == [] then {}
    else ErasedBy(Exec(s, run[..|run| - 1]), run[|run| - 1], Erased(s, run[..|run| - 1]))
  }

  ghost function ErasedBy(s: State, e: Event, erased: set<Id>): set<Id>
    requires Enabled(s, e)
  {
    if e.Overwrite? && s.actions[s.reviews[e.admin].id].status == Forwarded then erased + {s.reviews[e.admin].id}
    else if e.End? && e.outcome == Failed then erased - {s.inFlight[e.handler]}
    else erased
  }

  /** No forward writes its status over `forwarded`, or over what an override left of `forwarded`. */
  ghost predicate MarksRespected(s: State, run: seq<Event>)
    requires Legal(s, run)
    decreases |run|
  {
    run == [] ||
    var front, e := run[..|run| - 1], run[|run| - 1];
    && MarksRespected(s, front)
    && (e.Begin? ==>
          StillUnsent(Exec(s, front), e.handler) && Exec(s, front).windows[e.handler].id !in Erased(s, front))
  }

  /** No request opens its window on an action while another window on it is open. */
  ghost predicate Exclusive(s: State, run: seq<Event>)
    requires Legal(s, run)
    decreases |run|
  {
    run == [] ||
    var front, e := run[..|run| - 1], run[|run| - 1];
    && Exclusive(s, front)
    && (e.Look? ==> NoWindowOn(Exec(s, front), e.id))
  }

  ghost predicate NoWindowOn(s: State, id: Id) {
    forall g :: g in s.windows ==> s.windows[g].id != id
  }

  predicate Marked(s: State, erased: set<Id>, id: Id)
    requires id < |s.actions|
  {
    s.actions[id].status == Forwarded || id in erased
  }

  /** The mark, erased or not, means exactly: in flight or settled; and never two at once. */
  ghost predicate SentInv(s: State, erased: set<Id>) {
    && (forall id :: 0 <= id < |s.actions| ==>
          (Marked(s, erased, id) <==> (id in s.settled || id in s.inFlight.Values)))
    && (forall g, h :: g in s.inFlight && h in s.inFlight && g != h ==> s.inFlight[g] != s.inFlight[h])
    && (forall h :: h in s.inFlight ==> s.inFlight[h] !in s.settled)
    && (forall id :: id in erased ==> id < |s.actions|)
  }

  lemma OtherStepKeepsSentInv(s: State, e: Event, erased: set<Id>)
    requires Inv(s) && SentInv(s, erased) && Enabled(s, e) && !e.Begin? && !e.End?
    ensures SentInv(Apply(s, e), ErasedBy(s, e, erased))
  {
    OtherStepKeepsFlights(s, e, erased);
    NewRowIsUnsent(s);
    forall id | 0 <= id < |s.actions|
      ensures id < |Apply(s, e).actions| && (Marked(Apply(s, e), ErasedBy(s, e, erased), id) <==> Marked(s, erased, id))
    {
      OtherStepKeepsMark(s, e, erased, id);
    }
    SameMarksKeepSentInv(s, erased, Apply(s, e), ErasedBy(s, e, erased));
  }

  lemma OtherStepKeepsFlights(s: State, e: Event, erased: set<Id>)
    requires (forall id :: id in erased ==> id < |s.actions|)
    requires Enabled(s, e) && !e.Begin? && !e.End?
    ensures var t := Apply(s, e);
      && t.inFlight == s.inFlight && t.settled == s.settled && |s.actions| <= |t.actions| <= |s.actions| + 1
      && (|t.actions| > |s.actions| ==> t.actions[|s.actions|].status == Pending)
    ensures forall id :: id in ErasedBy(s, e, erased) ==> id < |s.actions|
  {
  }

  lemma NewRowIsUnsent(s: State)
    requires Inv(s)
    ensures |s.actions| !in s.settled && |s.actions| !in s.inFlight.Values
  {
  }

  lemma SameMarksKeepSentInv(s: State, erased: set<Id>, t: State, erasedNow: set<Id>)
    requires SentInv(s, erased) && t.inFlight == s.inFlight && t.settled == s.settled
    requires |s.actions| !in s.settled && |s.actions| !in s.inFlight.Values
    requires |s.actions| <= |t.actions| <= |s.actions| + 1
    requires |t.actions| > |s.actions| ==> t.actions[|s.actions|].status == Pending
    requires forall id :: 0 <= id < |s.actions| ==> (Marked(t, erasedNow, id) <==> Marked(s, erased, id))
    requires forall id :: id in erasedNow ==> id < |s.actions|
    ensures SentInv(t, erasedNow)
  {
  }

  lemma OtherStepKeepsMark(s: State, e: Event, erased: set<Id>, id: Id)
    requires Inv(s) && Enabled(s, e) && !e.Begin? && !e.End? && id < |s.actions|
    ensures id < |Apply(s, e).actions| && (Marked(Apply(s, e), ErasedBy(s, e, erased), id) <==> Marked(s, erased, id))
  {
    if s.actions[id].status == Forwarded {
      OnlyOverwritesUnsendRows(s, e, id);
    } else {
      OnlyBeginForwards(s, e, id);
    }
  }

  lemma BeginKeepsSentInv(s: State, e: Event, erased: set<Id>)
    requires SentInv(s, erased) && e.Begin? && Enabled(s, e) && Solo(s, e.handler)
    ensures SentInv(Apply(s, e), ErasedBy(s, e, erased))
  {
    var t, h := Apply(s, e), e.handler;
    var id := s.windows[h].id;
    forall i ensures i in t.inFlight.Values <==> i in s.inFlight.Values || i == id {
      assert h in t.inFlight && t.inFlight[h] == id;
      if i in s.inFlight.Values {
        var g :| g in s.inFlight && s.inFlight[g] == i;
        assert g in t.inFlight && t.inFlight[g] == i;
      }
    }
  }

  lemma EndKeepsSentInv(s: State, e: Event, erased: set<Id>)
    requires SentInv(s, erased) && e.End? && Enabled(s, e)
    ensures SentInv(Apply(s, e), ErasedBy(s, e, erased))
  {
    var t, h := Apply(s, e), e.handler;
    var id := s.inFlight[h];
    RemoveFlight(s.inFlight, h);
    assert t.inFlight == s.inFlight - {h};
  }

  lemma RemoveFlight(m: map<Handler, Id>, h: Handler)
    requires h in m && forall f, g :: f in m && g in m && f != g ==> m[f] != m[g]
    ensures m[h] in m.Values
    ensures forall i :: i in (m - {h}).Values <==> i in m.Values && i != m[h]
  {
    forall i ensures i in (m - {h}).Values <==> i in m.Values && i != m[h] {
      if i in m.Values && i != m[h] {
        var g :| g in m && m[g] == i;
        assert g in m - {h} && (m - {h})[g] == i;
      }
    }
  }

  lemma SoloIsUnmarked(s: State, h: Handler, erased: set<Id>)
    requires Inv(s) && SentInv(s, erased) && Enabled(s, Begin(h))
    ensures Solo(s, h) <==> !Marked(s, erased, s.windows[h].id)
  {
    var id := s.windows[h].id;
    assert id in s.inFlight.Values <==> exists g :: g in s.inFlight && s.inFlight[g] == id;
  }

  /**
   A run forwards every action at most once (one request in flight, none after one that did not
   end in a recorded failure) exactly when no forward's status write falls on a row marked
   `forwarded`, or on one whose mark an override has erased.
   */
  lemma {:induction false} AtMostOnceIffMarksRespected(s: State, run: seq<Event>)
    requires Inv(s) && SentInv(s, {}) && Legal(s, run)
    ensures AtMostOnce(s, run) <==> MarksRespected(s, run)
    ensures AtMostOnce(s, run) ==> SentInv(Exec(s, run), Erased(s, run))
    decreases |run|
  {
    if run != [] {
      var front, e := run[..|run| - 1], run[|run| - 1];
      AtMostOnceIffMarksRespected(s, front);
      RunKeepsInv(s, front);
      if AtMostOnce(s, front) {
        var u := Exec(s, front);
        if e.Begin? { SoloIsUnmarked(u, e.handler, Erased(s, front)); }
        if e.Begin? ==> Solo(u, e.handler) { SentInvStep(u, e, Erased(s, front)); }
      }
    }
  }

  lemma SentInvStep(u: State, e: Event, erased: set<Id>)
    requires Inv(u) && SentInv(u, erased) && Enabled(u, e)
    requires e.Begin? ==> Solo(u, e.handler)
    ensures SentInv(Apply(u, e), ErasedBy(u, e, erased))
  {
    if e.Begin? {
      BeginKeepsSentInv(u, e, erased);
    } else if e.End? {
      EndKeepsSentInv(u, e, erased);
    } else {
      OtherStepKeepsSentInv(u, e, erased);
    }
  }

  /** No override write of the run falls on a row marked `forwarded`. */
  ghost predicate MarksSpared(s: State, run: seq<Event>)
    requires Legal(s, run)
    decreases |run|
  {
    run == [] || (MarksSpared(s, run[..|run| - 1]) && SparesMark(Exec(s, run[..|run| - 1]), run[|run| - 1]))
  }

  predicate SparesMark(s: State, e: Event) {
    e.Overwrite? && e.admin in s.reviews && s.reviews[e.admin].id < |s.actions| ==>
      s.actions[s.reviews[e.admin].id].status != Forwarded
  }

  lemma {:induction false} SparedMarksAreNotErased(s: State, run: seq<Event>)
    requires Legal(s, run) && MarksSpared(s, run)
    ensures Erased(s, run) == {}
    decreases |run|
  {
    if run != [] { SparedMarksAreNotErased(s, run[..|run| - 1]); }
  }

  /** Overrides that re-pass their own test spare every mark. */
  lemma {:induction false} TestedOverridesSpareMarks(s: State, run: seq<Event>)
    requires Legal(s, run) && OverridesTested(s, run)
    ensures MarksSpared(s, run)
    decreases |run|
  {
    if run != [] { TestedOverridesSpareMarks(s, run[..|run| - 1]); }
  }

  /**
   If no override write falls on `forwarded`, each action is forwarded at most once exactly when
   every forward's status write re-passes the forward's own test.
   */
  lemma AtMostOnceIffTested(s: State, run: seq<Event>)
    requires Inv(s) && SentInv(s, {}) && Legal(s, run) && MarksSpared(s, run)
    ensures AtMostOnce(s, run) <==> BeginsTested(s, run)
  {
    AtMostOnceIffMarksRespected(s, run);
    MarksAreTests(s, run);
  }

  lemma {:induction false} MarksAreTests(s: State, run: seq<Event>)
    requires Legal(s, run) && MarksSpared(s, run)
    ensures MarksRespected(s, run) <==> BeginsTested(s, run)
    decreases |run|
  {
    if run != [] {
      MarksAreTests(s, run[..|run| - 1]);
      SparedMarksAreNotErased(s, run[..|run| - 1]);
    }
  }

  // ---------- one override write ----------

  ghost predicate SendsTwiceThoughTested(o: State, run: seq<Event>) {
    Legal(o, run) && OverridesTested(o, run) && BeginsTested(o, run) && !AtMostOnce(o, run)
  }

  /** A fresh request, from its first read to its send. */
  function Request(id: Id, h: Handler): seq<Event> {
    [Look(h, id)] + [Weigh(h)] + [Begin(h)]
  }

  lemma RequestRuns(o: State, id: Id, h: Handler)
    requires CouldForward(o, id) && HasDecision(o.verdicts, id, Approve) && Free(o, h)
    ensures Legal(o, [Look(h, id)] + [Weigh(h)])
    ensures Exec(o, [Look(h, id)] + [Weigh(h)]) == o.(windows := o.windows[h := Window(id, true)])
    ensures Legal(o, Request(id, h))
  {
    ReadsRun(o, id, h);
    Snoc(o, [Look(h, id)] + [Weigh(h)], Begin(h));
  }

  lemma ReadsRun(o: State, id: Id, h: Handler)
    requires CouldForward(o, id) && HasDecision(o.verdicts, id, Approve) && Free(o, h)
    ensures Legal(o, [Look(h, id)] + [Weigh(h)])
    ensures Exec(o, [Look(h, id)] + [Weigh(h)]) == o.(windows := o.windows[h := Window(id, true)])
  {
    LookRuns(o, id, h);
    var looked := o.windows[h := Window(id, false)];
    WeighStep(o, [Look(h, id)], o.(windows := looked), h, id);
    assert looked[h := Window(id, true)] == o.windows[h := Window(id, true)];
  }

  lemma LookRuns(o: State, id: Id, h: Handler)
    requires CouldForward(o, id) && Free(o, h)
    ensures Legal(o, [Look(h, id)])
    ensures Exec(o, [Look(h, id)]) == o.(windows := o.windows[h := Window(id, false)])
  {
    LookStep(o, [], o, h, id);
    assert [] + [Look(h, id)] == [Look(h, id)];
  }

  /** The three events of a request, seen by the predicates on runs. */
  lemma RequestTests(o: State, id: Id, h: Handler)
    requires Legal(o, [Look(h, id)] + [Weigh(h)]) && Legal(o, Request(id, h))
    requires Exec(o, [Look(h, id)] + [Weigh(h)]) == o.(windows := o.windows[h := Window(id, true)])
    ensures OverridesTested(o, Request(id, h))
    ensures CouldForward(o, id) ==> BeginsTested(o, Request(id, h))
    ensures id in o.settled || id in o.inFlight.Values ==> !AtMostOnce(o, Request(id, h))
    ensures NoWindowOn(o, id) ==> Exclusive(o, Request(id, h))
  {
    var r2 := [Look(h, id)] + [Weigh(h)];
    assert r2[..1] == [Look(h, id)] && [Look(h, id)][..0] == [];
    SnocTests(o, [], Look(h, id));
    assert [] + [Look(h, id)] == [Look(h, id)];
    SnocTests(o, [Look(h, id)], Weigh(h));
    SnocTests(o, r2, Begin(h));
    NotSolo(o, Exec(o, r2), h, id);
  }

  lemma NotSolo(o: State, u: State, h: Handler, id: Id)
    requires u == o.(windows := o.windows[h := Window(id, true)])
    ensures id in o.settled || id in o.inFlight.Values ==> !Solo(u, h)
  {
    if id in o.inFlight.Values {
      var g :| g in o.inFlight && o.inFlight[g] == id;
      assert u.inFlight[g] == id;
    }
  }

  /** One more event, seen by the predicates on runs. */
  lemma SnocTests(s: State, run: seq<Event>, e: Event)
    requires Legal(s, run) && Legal(s, run + [e])
    ensures OverridesTested(s, run + [e]) <==> OverridesTested(s, run) && OverrideTested(Exec(s, run), e)
    ensures BeginsTested(s, run + [e]) <==>
              BeginsTested(s, run)
                  && (e.Begin? ==> e.handler in Exec(s, run).windows && StillUnsent(Exec(s, run), e.handler))
    ensures AtMostOnce(s, run + [e]) <==>
              AtMostOnce(s, run) && (e.Begin? ==> e.handler in Exec(s, run).windows && Solo(Exec(s, run), e.handler))
    ensures Exclusive(s, run + [e]) <==>
              Exclusive(s, run) && (e.Look? ==> NoWindowOn(Exec(s, run), e.id))
  {
    assert (run + [e])[..|run|] == run;
  }

  /**
   One override write on an otherwise sound state opens the way to a second send, with every later
   test passed, exactly when it falls on a row marked `forwarded`.
   */
  lemma OverwriteReopensIff(s: State, a: Admin, h: Handler)
    requires Inv(s) && SentInv(s, {}) && Enabled(s, Overwrite(a)) && Free(s, h)
    ensures var o := Apply(s, Overwrite(a));
      s.actions[s.reviews[a].id].status == Forwarded <==> exists run :: SendsTwiceThoughTested(o, run)
  {
    var id, o := s.reviews[a].id, Apply(s, Overwrite(a));
    StepKeepsInv(s, Overwrite(a));
    OtherStepKeepsSentInv(s, Overwrite(a), {});
    if s.actions[id].status == Forwarded {
      assert Marked(s, {}, id);
      RequestRuns(o, id, h);
      RequestTests(o, id, h);
      assert SendsTwiceThoughTested(o, Request(id, h));
    } else if run :| SendsTwiceThoughTested(o, run) {
      TestedOverridesSpareMarks(o, run);
      AtMostOnceIffTested(o, run);
    }
  }

  /** With requests that take turns as well: nothing in the second send is out of order. */
  lemma StaleOverwriteSendsTwice(s: State, a: Admin, h: Handler)
    requires Inv(s) && SentInv(s, {}) && Enabled(s, Overwrite(a)) && Free(s, h)
    requires s.actions[s.reviews[a].id].status == Forwarded
    requires NoWindowOn(s, s.reviews[a].id)
    ensures var o, run := Apply(s, Overwrite(a)), Request(s.reviews[a].id, h);
      SendsTwiceThoughTested(o, run) && Exclusive(o, run)
  {
    var id, o := s.reviews[a].id, Apply(s, Overwrite(a));
    assert Marked(s, {}, id);
    RequestRuns(o, id, h);
    RequestTests(o, id, h);
  }

  /**
   A write that fails its own re-test need not harm: here it falls on a row the processor has just
   claimed, nothing is sent, and every forward there is remains the only one.
   */
  lemma UntestedWriteCanBeHarmless(s: State, id: Id, a: Admin)
    requires s.processor.stage == Seen(id) && id < |s.actions| && s.actions[id].status == Pending && a !in s.reviews
    ensures var run := [Open(a, id, Approved, AdminApi)] + [Claim] + [Overwrite(a)];
      Legal(s, run) && AtMostOnce(s, run) && !OverridesTested(s, run)
  {
    var open, claim := [Open(a, id, Approved, AdminApi)], [Open(a, id, Approved, AdminApi)] + [Claim];
    OpenAlone(s, a, id);
    Snoc(s, open, Claim);
    Snoc(s, claim, Overwrite(a));
    SnocTests(s, claim, Overwrite(a));
    SnocTests(s, open, Claim);
    assert open[..0] == [];
  }

  /** An API override reads `pending`; the processor approves; the agent forwards and is answered. */
  function Overtaken(id: Id, a: Admin, vid: nat, h: Handler): seq<Event> {
    [Open(a, id, Approved, AdminApi)] + (Judged3(vid) + (Request(id, h) + [End(h, Delivered)]))
  }

  function Judged3(vid: nat): seq<Event> {
    [Claim] + [Judge(false)] + [Commit(vid, Approve)]
  }

  /** That run is possible from every state in which the processor has just read a pending action. */
  lemma OverrideCanBeOvertaken(s: State, id: Id, a: Admin, vid: nat, h: Handler)
    requires s.processor.stage == Seen(id) && id < |s.actions| && s.actions[id].status == Pending
               && s.actions[id].hasTarget
    requires FreshVerdictId(s.verdicts, vid) && a !in s.reviews && Free(s, h)
    ensures Legal(s, Overtaken(id, a, vid, h))
    ensures var t := Exec(s, Overtaken(id, a, vid, h));
      && Enabled(t, Overwrite(a)) && t.reviews[a].id == id
      && t.actions[id].status == Forwarded && id in t.settled
      && t.windows == s.windows && t.inFlight == s.inFlight
  {
    var o := s.(reviews := s.reviews[a := Review(id, Approved, AdminApi)]);
    OpenAlone(s, a, id);
    JudgedAndSent(o, id, vid, h);
    AfterOvertaking(o, Judged3(vid) + (Request(id, h) + [End(h, Delivered)]), a, id);
    Concat(s, [Open(a, id, Approved, AdminApi)], Judged3(vid) + (Request(id, h) + [End(h, Delivered)]));
  }

  lemma AfterOvertaking(o: State, run: seq<Event>, a: Admin, id: Id)
    requires Legal(o, run) && a in o.reviews && o.reviews[a].id == id
    requires var t := Exec(o, run);
      id < |t.actions| && t.reviews == o.reviews
    ensures Enabled(Exec(o, run), Overwrite(a))
  {
  }

  lemma OpenAlone(s: State, a: Admin, id: Id)
    requires a !in s.reviews && id < |s.actions| && s.actions[id].status == Pending
    ensures var run := [Open(a, id, Approved, AdminApi)];
      Legal(s, run) && Exec(s, run) == s.(reviews := s.reviews[a := Review(id, Approved, AdminApi)])
  {
    Snoc(s, [], Open(a, id, Approved, AdminApi));
    assert [] + [Open(a, id, Approved, AdminApi)] == [Open(a, id, Approved, AdminApi)];
  }

  lemma JudgedAndSent(o: State, id: Id, vid: nat, h: Handler)
    requires o.processor.stage == Seen(id) && id < |o.actions| && FreshVerdictId(o.verdicts, vid)
    requires o.actions[id].hasTarget && Free(o, h)
    ensures var run := Judged3(vid) + (Request(id, h) + [End(h, Delivered)]);
      && Legal(o, run)
      && var t := Exec(o, run);
         && |t.actions| == |o.actions| && t.actions[id].status == Forwarded && id in t.settled
         && t.windows == o.windows && t.inFlight == o.inFlight && t.reviews == o.reviews
  {
    JudgementEnds(o, id, vid);
    RequestAnswered(Exec(o, Judged3(vid)), id, h);
    Concat(o, Judged3(vid), Request(id, h) + [End(h, Delivered)]);
  }

  lemma RequestAnswered(u: State, id: Id, h: Handler)
    requires CouldForward(u, id) && HasDecision(u.verdicts, id, Approve) && Free(u, h)
    ensures var run := Request(id, h) + [End(h, Delivered)];
      && Legal(u, run)
      && Exec(u, run) == u.(actions := WithStatus(u.actions, id, Forwarded), settled := u.settled + {id})
  {
    RequestSends(u, id, h);
    Snoc(u, Request(id, h), End(h, Delivered));
    assert u.inFlight[h := id] - {h} == u.inFlight;
  }

  lemma RequestSends(u: State, id: Id, h: Handler)
    requires CouldForward(u, id) && HasDecision(u.verdicts, id, Approve) && Free(u, h)
    ensures Legal(u, Request(id, h))
    ensures Exec(u, Request(id, h))
         == u.(actions := WithStatus(u.actions, id, Forwarded), inFlight := u.inFlight[h := id])
  {
    RequestRuns(u, id, h);
    Snoc(u, [Look(h, id)] + [Weigh(h)], Begin(h));
    assert u.windows[h := Window(id, true)] - {h} == u.windows;
  }

  /** A run continued by another run. */
  lemma {:induction false} Concat(s: State, a: seq<Event>, b: seq<Event>)
    requires Legal(s, a) && Legal(Exec(s, a), b)
    ensures Legal(s, a + b) && Exec(s, a + b) == Exec(Exec(s, a), b)
    decreases |b|
  {
    if b == [] {
      assert a + b == a;
    } else {
      Concat(s, a, b[..|b| - 1]);
      ConcatLast(s, a, b);
    }
  }

  lemma ConcatLast(s: State, a: seq<Event>, b: seq<Event>)
    requires b != [] && Legal(s, a) && Legal(Exec(s, a), b)
    requires var front := b[..|b| - 1];
      Legal(s, a + front) && Exec(s, a + front) == Exec(Exec(s, a), front)
    ensures Legal(s, a + b) && Exec(s, a + b) == Exec(Exec(s, a), b)
  {
    assert (a + b)[..|a + b| - 1] == a + b[..|b| - 1];
  }

  // ---------- requests that take turns ----------

  ghost predicate WindowInv(s: State) {
    && (forall h :: h in s.windows ==> StillUnsent(s, h))
    && (forall g, h :: g in s.windows && h in s.windows && g != h ==> s.windows[g].id != s.windows[h].id)
  }

  lemma StepKeepsWindowInv(s: State, e: Event)
    requires Inv(s) && WindowInv(s) && Enabled(s, e)
    requires e.Look? ==> NoWindowOn(s, e.id)
    ensures WindowInv(Apply(s, e))
  {
    if e.Begin? {
      BeginKeepsWindowInv(s, e.handler);
    } else {
      WindowsChangeLittle(s, e);
      var t := Apply(s, e);
      forall h | h in t.windows ensures StillUnsent(t, h) {
        if h in s.windows { OnlyBeginForwards(s, e, s.windows[h].id); }
      }
    }
  }

  /** Only a first read opens a window, on a row not marked as forwarded; none changes its action. */
  lemma WindowsChangeLittle(s: State, e: Event)
    requires Enabled(s, e)
    ensures var t := Apply(s, e);
      forall h :: h in t.windows ==>
        if h in s.windows then t.windows[h].id == s.windows[h].id
        else e.Look? && h == e.handler && t.windows[h].id == e.id && StillUnsent(t, h)
  {
  }

  lemma OnlyBeginForwards(s: State, e: Event, id: Id)
    requires Enabled(s, e) && !e.Begin? && id < |s.actions| && s.actions[id].status != Forwarded
    ensures id < |Apply(s, e).actions| && Apply(s, e).actions[id].status != Forwarded
  {
  }

  lemma BeginKeepsWindowInv(s: State, h: Handler)
    requires WindowInv(s) && Enabled(s, Begin(h))
    ensures WindowInv(Apply(s, Begin(h)))
  {
  }

  /** Requests that take turns pass their own test again when they write. */
  lemma {:induction false} ExclusiveIsTested(s: State, run: seq<Event>)
    requires Inv(s) && WindowInv(s) && Legal(s, run) && Exclusive(s, run)
    ensures BeginsTested(s, run) && WindowInv(Exec(s, run))
    decreases |run|
  {
    if run != [] {
      var front, e := run[..|run| - 1], run[|run| - 1];
      ExclusiveIsTested(s, front);
      RunKeepsInv(s, front);
      StepKeepsWindowInv(Exec(s, front), e);
    }
  }

  /**
   If requests on one action take turns and no override write falls on `forwarded`, each action is
   forwarded at most once.
   */
  lemma ExclusiveForwardsOnce(s: State, run: seq<Event>)
    requires Inv(s) && SentInv(s, {}) && WindowInv(s) && Legal(s, run) && Exclusive(s, run) && MarksSpared(s, run)
    ensures AtMostOnce(s, run)
  {
    ExclusiveIsTested(s, run);
    AtMostOnceIffTested(s, run);
  }

  lemma Snoc(s: State, run: seq<Event>, e: Event)
    requires Legal(s, run) && Enabled(Exec(s, run), e)
    ensures Legal(s, run + [e]) && Exec(s, run + [e]) == Apply(Exec(s, run), e)
  {
    assert (run + [e])[..|run|] == run;
  }

  function BothRead(id: Id, g: Handler, h: Handler): seq<Event> {
    [Look(g, id)] + [Look(h, id)] + [Weigh(g)] + [Weigh(h)]
  }

  function Race(id: Id, g: Handler, h: Handler): seq<Event> {
    BothRead(id, g, h) + [Begin(g)] + [Begin(h)]
  }

  predicate CouldForward(s: State, id: Id) {
    id < |s.actions| && s.actions[id].hasTarget && s.actions[id].status != Forwarded
  }

  predicate Free(s: State, h: Handler) {
    h !in s.windows && h !in s.inFlight
  }

  lemma LookStep(s: State, run: seq<Event>, u: State, h: Handler, id: Id)
    requires Legal(s, run) && Exec(s, run) == u && CouldForward(u, id) && Free(u, h)
    ensures Legal(s, run + [Look(h, id)])
    ensures Exec(s, run + [Look(h, id)]) == u.(windows := u.windows[h := Window(id, false)])
  {
    Snoc(s, run, Look(h, id));
  }

  lemma WeighStep(s: State, run: seq<Event>, u: State, h: Handler, id: Id)
    requires Legal(s, run) && Exec(s, run) == u && HasDecision(u.verdicts, id, Approve)
    requires h in u.windows && u.windows[h].id == id
    ensures Legal(s, run + [Weigh(h)])
    ensures Exec(s, run + [Weigh(h)]) == u.(windows := u.windows[h := Window(id, true)])
  {
    Snoc(s, run, Weigh(h));
  }

  lemma BothMayRead(s: State, id: Id, g: Handler, h: Handler)
    requires CouldForward(s, id) && HasDecision(s.verdicts, id, Approve)
    requires g != h && Free(s, g) && Free(s, h)
    ensures Legal(s, BothRead(id, g, h))
    ensures Exec(s, BothRead(id, g, h)) == s.(windows := s.windows[g := Window(id, true)][h := Window(id, true)])
  {
    var looked := s.windows[g := Window(id, false)][h := Window(id, false)];
    BothMayLook(s, id, g, h);
    WeighStep(s, [Look(g, id)] + [Look(h, id)], s.(windows := looked), g, id);
    var weighed := looked[g := Window(id, true)];
    WeighStep(s, [Look(g, id)] + [Look(h, id)] + [Weigh(g)], s.(windows := weighed), h, id);
    var once: map<Handler, Window> := s.windows[g := Window(id, true)];
    assert weighed[h := Window(id, true)] == once[h := Window(id, true)];
  }

  lemma BothMayLook(s: State, id: Id, g: Handler, h: Handler)
    requires CouldForward(s, id) && g != h && Free(s, g) && Free(s, h)
    ensures Legal(s, [Look(g, id)] + [Look(h, id)])
    ensures Exec(s, [Look(g, id)] + [Look(h, id)])
         == s.(windows := s.windows[g := Window(id, false)][h := Window(id, false)])
  {
    LookStep(s, [], s, g, id);
    assert [] + [Look(g, id)] == [Look(g, id)];
    LookStep(s, [Look(g, id)], s.(windows := s.windows[g := Window(id, false)]), h, id);
  }

  /**
   Nothing in the code makes requests take turns: from every state in which an action could be
   forwarded once, two idle requests can send it twice.
   */
  lemma TwoRequestsCanSendTwice(s: State, id: Id, g: Handler, h: Handler)
    requires CouldForward(s, id) && HasDecision(s.verdicts, id, Approve)
    requires g != h && Free(s, g) && Free(s, h)
    ensures Legal(s, Race(id, g, h)) && !AtMostOnce(s, Race(id, g, h))
    ensures Exec(s, Race(id, g, h)).inFlight == s.inFlight[g := id][h := id]
  {
    BothMayRead(s, id, g, h);
    var r4 := BothRead(id, g, h);
    Snoc(s, r4, Begin(g));
    var r5 := r4 + [Begin(g)];
    Snoc(s, r5, Begin(h));
    assert Race(id, g, h) == r5 + [Begin(h)];
    assert Race(id, g, h)[..|r5|] == r5;
    assert Exec(s, r5).inFlight[g] == id;
  }

  // ---------- overrides never release an action ----------

  /** The processor has already read the action as pending and has yet to save its verdict. */
  predicate UnderJudgement(p: Processor, id: Id) {
    (p.stage.Seen? || p.stage.Claimed? || p.stage.Judged?) && p.stage.id == id
  }

  /** No event can ever give this action an approved verdict. */
  ghost predicate Closed(s: State, id: Id) {
    && id < |s.actions|
    && !HasDecision(s.verdicts, id, Approve)
    && (HasVerdict(s.verdicts, id) || (s.actions[id].status != Pending && !UnderJudgement(s.processor, id)))
  }

  lemma StepKeepsClosed(s: State, e: Event, id: Id)
    requires Inv(s) && Closed(s, id) && Enabled(s, e)
    ensures Closed(Apply(s, e), id)
  {
    if e.Commit? {
      CommitKeepsClosed(s, e.verdictId, e.decision, id);
    } else {
      OtherStepKeepsClosed(s, e, id);
    }
  }

  lemma CommitKeepsClosed(s: State, vid: nat, d: Decision, id: Id)
    requires Inv(s) && Closed(s, id) && Enabled(s, Commit(vid, d))
    ensures Closed(Apply(s, Commit(vid, d)), id)
  {
    AppendVerdict(s.verdicts, Verdict(vid, s.processor.stage.id, d));
  }

  lemma OtherStepKeepsClosed(s: State, e: Event, id: Id)
    requires Inv(s) && Closed(s, id) && Enabled(s, e) && !e.Commit?
    ensures Closed(Apply(s, e), id)
  {
  }

  lemma {:induction false} ClosedForever(s: State, run: seq<Event>, id: Id)
    requires Inv(s) && Closed(s, id) && Legal(s, run)
    ensures Closed(Exec(s, run), id) && Inv(Exec(s, run))
    decreases |run|
  {
    if run != [] {
      ClosedForever(s, run[..|run| - 1], id);
      StepKeepsClosed(Exec(s, run[..|run| - 1]), run[|run| - 1], id);
      StepKeepsInv(Exec(s, run[..|run| - 1]), run[|run| - 1]);
    }
  }

  /** The action an override event writes to. */
  function Target(s: State, e: Event): Id
    requires e.Bulk? || (e.Overwrite? && e.admin in s.reviews)
  {
    if e.Bulk? then e.target else s.reviews[e.admin].id
  }

  /**
   Forwarding obeys the verdict row, not the status: by whatever route, and however stale, an
   override write on an action without an approved verdict never gets it sent in any continuation,
   unless the processor was already judging it and approves it on its own.
   */
  lemma OverrideReleasesNothing(s: State, e: Event, run: seq<Event>)
    requires Inv(s) && (e.Bulk? || e.Overwrite?) && Enabled(s, e) && Legal(Apply(s, e), run)
    requires var id := Target(s, e);
      !HasDecision(s.verdicts, id, Approve) && !UnderJudgement(s.processor, id)
    ensures var id, t := Target(s, e), Exec(Apply(s, e), run);
      && id < |t.actions| && !Sent(t.actions[id].status)
      && id !in t.settled && forall h :: h in t.inFlight ==> t.inFlight[h] != id
  {
    var id, o := Target(s, e), Apply(s, e);
    StepKeepsInv(s, e);
    assert Closed(o, id);
    ClosedForever(o, run, id);
    RunKeepsInv(o, run);
  }

  /** The exception is real: a judgement under way when the override lands can still send the action. */
  lemma JudgementUnderWayCanRelease(s: State, e: Event, vid: nat, h: Handler)
    requires Inv(s) && (e.Bulk? || e.Overwrite?) && Enabled(s, e) && s.processor.stage == Seen(Target(s, e))
    requires FreshVerdictId(s.verdicts, vid) && Free(s, h) && s.actions[Target(s, e)].hasTarget
    ensures var id, o := Target(s, e), Apply(s, e);
      Legal(o, Judged3(vid) + Request(id, h)) && Exec(o, Judged3(vid) + Request(id, h)).inFlight == s.inFlight[h := id]
  {
    var id, o := Target(s, e), Apply(s, e);
    JudgementEnds(o, id, vid);
    var u := Exec(o, Judged3(vid));
    RequestRuns(u, id, h);
    Snoc(u, [Look(h, id)] + [Weigh(h)], Begin(h));
    Concat(o, Judged3(vid), Request(id, h));
  }

  /** What is left of a judgement under way. */
  lemma JudgementEnds(o: State, id: Id, vid: nat)
    requires o.processor.stage == Seen(id) && id < |o.actions| && FreshVerdictId(o.verdicts, vid)
    ensures Legal(o, Judged3(vid))
    ensures var u := Exec(o, Judged3(vid));
      && |u.actions| == |o.actions| && u.actions[id] == o.actions[id].(status := Approved)
      && HasDecision(u.verdicts, id, Approve)
      && u.windows == o.windows && u.inFlight == o.inFlight && u.reviews == o.reviews
  {
    Snoc(o, [], Claim);
    assert [] + [Claim] == [Claim];
    Snoc(o, [Claim], Judge(false));
    Snoc(o, [Claim] + [Judge(false)], Commit(vid, Approve));
    AppendVerdict(o.verdicts, Verdict(vid, id, Approve));
  }
}
