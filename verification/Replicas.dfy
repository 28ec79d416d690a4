/**
 Several processors on one database. The claim is an UPDATE without a condition on the status, and
 the verdicts table does not insist on one row per action. This module says what that allows, and
 what a conditional claim would guarantee. Everywhere else there is one processor.
 */
module Replicas {
  import opened Common

  type Id = nat
  type Worker = nat

  datatype Hand = Idle | Seen(id: Id) | Claimed(id: Id)

  /** The verdict rows are kept as the actions they are about. */
  datatype Store = Store(statuses: seq<Status>, verdicts: seq<Id>, hands: map<Worker, Hand>)

  datatype Event =
    | Read(worker: Worker, id: Id)          // the row is read as pending
    | Claim(worker: Worker)                 // UPDATE to processing, whatever the row says
    | Save(worker: Worker, decision: Decision)
    | Fail(worker: Worker)                  // an error; the caller denies the row
    | Move(id: Id, to: Status)              // expiry, an override or a forward

  predicate Enabled(s: Store, e: Event) {
    match e
    case Read(w, id) => w in s.hands && s.hands[w].Idle? && id < |s.statuses| && s.statuses[id] == Pending
    case Claim(w) => w in s.hands && s.hands[w].Seen? && s.hands[w].id < |s.statuses|
    case Save(w, _) => w in s.hands && s.hands[w].Claimed? && s.hands[w].id < |s.statuses|
    case Fail(w) => w in s.hands && !s.hands[w].Idle? && s.hands[w].id < |s.statuses|
    case Move(id, to) => id < |s.statuses| && to != Pending
  }

  function Apply(s: Store, e: Event): Store
    requires Enabled(s, e)
  {
    match e
    case Read(w, id) => s.(hands := s.hands[w := Seen(id)])
    case Claim(w) =>
      var id := s.hands[w].id;
      s.(statuses := s.statuses[id := Processing], hands := s.hands[w := Claimed(id)])
    case Save(w, d) =>
      var id := s.hands[w].id;
      Store(s.statuses[id := StatusOf(d)], s.verdicts + [id], s.hands[w := Idle])
    case Fail(w) => s.(statuses := s.statuses[s.hands[w].id := Denied], hands := s.hands[w := Idle])
    case Move(id, to) => s.(statuses := s.statuses[id := to])
  }

  predicate Legal(s: Store, run: seq<Event>)
    decreases |run|, 0
  {
    run == [] || (Legal(s, run[..|run| - 1]) && Enabled(Exec(s, run[..|run| - 1]), run[|run| - 1]))
  }

  function Exec(s: Store, run: seq<Event>): Store
    requires Legal(s, run)
    decreases |run|, 1
  {
    if run == [] then s else Apply(Exec(s, run[..|run| - 1]), run[|run| - 1])
  }

  /** A claim with the status in its WHERE clause would have let this event through. */
  predicate Tested(s: Store, e: Event)
    requires Enabled(s, e)
  {
    e.Claim? ==> s.statuses[s.hands[e.worker].id] == Pending
  }

  predicate ClaimsTested(s: Store, run: seq<Event>)
    requires Legal(s, run)
    decreases |run|
  {
    run == [] || (ClaimsTested(s, run[..|run| - 1]) && Tested(Exec(s, run[..|run| - 1]), run[|run| - 1]))
  }

  predicate OneVerdictEach(s: Store) {
    forall j, k :: 0 <= j < k < |s.verdicts| ==> s.verdicts[j] != s.verdicts[k]
  }

  /** What a worker has claimed is nobody else's, is no longer pending and has no verdict. */
  ghost predicate Sound(s: Store) {
    && OneVerdictEach(s)
    && (forall id :: 0 <= id < |s.statuses| && s.statuses[id] == Pending ==> id !in s.verdicts)
    && (forall w :: w in s.hands && s.hands[w].Claimed? ==>
          && s.hands[w].id < |s.statuses| && s.statuses[s.hands[w].id] != Pending && s.hands[w].id !in s.verdicts)
    && (forall v, w :: v in s.hands && w in s.hands && v != w && s.hands[v].Claimed? && s.hands[w].Claimed? ==>
          s.hands[v].id != s.hands[w].id)
  }

  /** The row has been judged, or is being judged by another worker. */
  ghost predicate Contested(s: Store, w: Worker, id: Id) {
    id in s.verdicts || exists v :: v in s.hands && v != w && s.hands[v] == Claimed(id)
  }

  lemma ClaimKeepsSound(s: Store, w: Worker)
    requires Sound(s) && Enabled(s, Claim(w)) && !Contested(s, w, s.hands[w].id)
    ensures Sound(Apply(s, Claim(w)))
  {
  }

  lemma StepKeepsSound(s: Store, e: Event)
    requires Sound(s) && Enabled(s, e) && Tested(s, e)
    ensures Sound(Apply(s, e))
  {
    if e.Claim? { ClaimKeepsSound(s, e.worker); }
  }

  /** With conditional claims any number of processors give an action at most one verdict. */
  lemma {:induction false} TestedClaimsKeepSound(s: Store, run: seq<Event>)
    requires Sound(s) && Legal(s, run) && ClaimsTested(s, run)
    ensures Sound(Exec(s, run))
    decreases |run|
  {
    if run != [] {
      TestedClaimsKeepSound(s, run[..|run| - 1]);
      StepKeepsSound(Exec(s, run[..|run| - 1]), run[|run| - 1]);
    }
  }

  lemma Snoc(s: Store, run: seq<Event>, e: Event)
    requires Legal(s, run) && Enabled(Exec(s, run), e)
    ensures Legal(s, run + [e]) && Exec(s, run + [e]) == Apply(Exec(s, run), e)
    ensures ClaimsTested(s, run + [e]) <==> ClaimsTested(s, run) && Tested(Exec(s, run), e)
  {
    assert (run + [e])[..|run|] == run;
  }

  ghost predicate JudgesTwice(o: Store, run: seq<Event>) {
    Legal(o, run) && ClaimsTested(o, run) && !OneVerdictEach(Exec(o, run))
  }

  lemma SaveStep(s: Store, run: seq<Event>, w: Worker, id: Id)
    requires Legal(s, run) && ClaimsTested(s, run)
    requires var u := Exec(s, run);
      w in u.hands && u.hands[w] == Claimed(id) && id < |u.statuses|
    ensures var longer, u := run + [Save(w, Deny)], Exec(s, run);
      && Legal(s, longer) && ClaimsTested(s, longer)
      && Exec(s, longer) == Store(u.statuses[id := Denied], u.verdicts + [id], u.hands[w := Idle])
  {
    Snoc(s, run, Save(w, Deny));
  }

  lemma SavesOverVerdict(o: Store, w: Worker, id: Id)
    requires id < |o.statuses| && w in o.hands && o.hands[w] == Claimed(id) && id in o.verdicts
    ensures exists run :: JudgesTwice(o, run)
  {
    OneSave(o, w, id);
    Again(o.verdicts, id, Exec(o, [Save(w, Deny)]));
    assert JudgesTwice(o, [Save(w, Deny)]);
  }

  lemma OneSave(o: Store, w: Worker, id: Id)
    requires id < |o.statuses| && w in o.hands && o.hands[w] == Claimed(id)
    ensures Legal(o, [Save(w, Deny)]) && ClaimsTested(o, [Save(w, Deny)])
    ensures Exec(o, [Save(w, Deny)]).verdicts == o.verdicts + [id]
  {
    SaveStep(o, [], w, id);
    assert [] + [Save(w, Deny)] == [Save(w, Deny)];
  }

  lemma Again(vs: seq<Id>, id: Id, s: Store)
    requires id in vs && s.verdicts == vs + [id]
    ensures !OneVerdictEach(s)
  {
    var k :| 0 <= k < |vs| && vs[k] == id;
    assert s.verdicts[k] == s.verdicts[|vs|];
  }

  lemma SavesTwice(o: Store, w: Worker, id: Id)
    requires id < |o.statuses| && w in o.hands && o.hands[w] == Claimed(id) && Contested(o, w, id)
    ensures exists run :: JudgesTwice(o, run)
  {
    if id in o.verdicts {
      SavesOverVerdict(o, w, id);
    } else {
      var v :| v in o.hands && v != w && o.hands[v] == Claimed(id);
      TwoSaves(o, w, v, id);
      Twice(o.verdicts, id, Exec(o, BothSave(w, v)));
      assert JudgesTwice(o, BothSave(w, v));
    }
  }

  function BothSave(w: Worker, v: Worker): seq<Event> {
    [] + [Save(w, Deny)] + [Save(v, Deny)]
  }

  lemma Twice(vs: seq<Id>, id: Id, s: Store)
    requires s.verdicts == vs + [id] + [id]
    ensures !OneVerdictEach(s)
  {
    Again(vs + [id], id, s);
  }

  lemma TwoSaves(o: Store, w: Worker, v: Worker, id: Id)
    requires id < |o.statuses| && v != w && w in o.hands && v in o.hands
    requires o.hands[w] == Claimed(id) && o.hands[v] == Claimed(id)
    ensures Legal(o, BothSave(w, v)) && ClaimsTested(o, BothSave(w, v))
    ensures Exec(o, BothSave(w, v)).verdicts == o.verdicts + [id] + [id]
  {
    SaveStep(o, [], w, id);
    SaveStep(o, [] + [Save(w, Deny)], v, id);
  }

  /**
   One claim on an otherwise sound store opens the way to a second verdict, with every later claim
   tested, exactly when the row has been judged or is in another worker's hands.
   */
  lemma ClaimHarmsIff(s: Store, w: Worker)
    requires Sound(s) && Enabled(s, Claim(w))
    ensures Contested(s, w, s.hands[w].id) <==> exists run :: JudgesTwice(Apply(s, Claim(w)), run)
  {
    var id, o := s.hands[w].id, Apply(s, Claim(w));
    if Contested(s, w, id) {
      if id !in s.verdicts {
        var v :| v in s.hands && v != w && s.hands[v] == Claimed(id);
        assert o.hands[v] == Claimed(id);
      }
      SavesTwice(o, w, id);
    } else {
      ClaimKeepsSound(s, w);
      if run :| JudgesTwice(o, run) {
        TestedClaimsKeepSound(o, run);
      }
    }
  }

  function BothClaim(id: Id, v: Worker, w: Worker): seq<Event> {
    [Read(v, id)] + [Read(w, id)] + [Claim(v)] + [Claim(w)]
  }

  /** Two idle processors and one pending action are enough. */
  lemma TwoProcessorsCanJudgeTwice(s: Store, id: Id, v: Worker, w: Worker)
    requires id < |s.statuses| && s.statuses[id] == Pending && v != w
    requires v in s.hands && w in s.hands && s.hands[v].Idle? && s.hands[w].Idle?
    ensures Legal(s, BothClaim(id, v, w))
    ensures exists run :: JudgesTwice(Exec(s, BothClaim(id, v, w)), run)
  {
    Snoc(s, [], Read(v, id));
    assert [] + [Read(v, id)] == [Read(v, id)];
    Snoc(s, [Read(v, id)], Read(w, id));
    Snoc(s, [Read(v, id)] + [Read(w, id)], Claim(v));
    Snoc(s, [Read(v, id)] + [Read(w, id)] + [Claim(v)], Claim(w));
    var o := Exec(s, BothClaim(id, v, w));
    assert o.hands[v] == Claimed(id) && o.hands[w] == Claimed(id);
    SavesTwice(o, w, id);
  }
}
