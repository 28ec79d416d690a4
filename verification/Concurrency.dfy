/**
 The concurrency rule counts an agent's rows in `processing`. The action under evaluation is one of
 them, and so is every action whose judgement was cut off.
 */
module Concurrency {
  import opened Common
  import opened Lifecycle
  import opened LifecycleSafety
  import opened RunSafety
  import opened PolicyEngine
  import opened Policies

  /** The rows of one agent that the concurrency query counts. */
  ghost function InProgress(rows: seq<Action>, agent: nat): set<Id> {
    set id | 0 <= id < |rows| && rows[id].agent == agent && rows[id].status == Processing
  }

  /** Claimed and not yet judged to the end. */
  predicate AtWorkOn(p: Processor, id: Id) {
    (p.stage.Claimed? || p.stage.Judged?) && p.stage.id == id
  }

  /** The rows of one agent in `processing` that nobody is working on. */
  ghost function Stranded(s: State, agent: nat): set<Id> {
    set id | 0 <= id < |s.actions| && s.actions[id].agent == agent && s.actions[id].status == Processing
             && !AtWorkOn(s.processor, id)
  }

  // ---------- the row in hand ----------

  /** From its claim to its verdict an action stays in `processing`. */
  ghost predicate InHandIsProcessing(s: State) {
    forall id :: 0 <= id < |s.actions| && AtWorkOn(s.processor, id) ==> s.actions[id].status == Processing
  }

  /** A forward never writes to a row in `processing`: such a row has no verdict yet. */
  lemma SendSparesProcessing(s: State, e: Event, id: Id)
    requires Inv(s) && Enabled(s, e) && (e.Begin? || e.End?) && id < |s.actions| && s.actions[id].status == Processing
    ensures Apply(s, e).actions[id] == s.actions[id]
  {
    DecisionIsVerdict(s.verdicts, if e.Begin? then s.windows[e.handler].id else s.inFlight[e.handler], Approve);
  }

  lemma StepKeepsProcessing(s: State, e: Event)
    requires Inv(s) && InHandIsProcessing(s) && Enabled(s, e) && OverrideTested(s, e)
    ensures InHandIsProcessing(Apply(s, e))
  {
    var p := s.processor;
    if (e.Begin? || e.End?) && (p.stage.Claimed? || p.stage.Judged?) { SendSparesProcessing(s, e, p.stage.id); }
  }

  /** While override writes re-pass their own test, nothing else moves the action in hand. */
  lemma {:induction false} RunKeepsProcessing(s: State, run: seq<Event>)
    requires Inv(s) && InHandIsProcessing(s) && Legal(s, run) && OverridesTested(s, run)
    ensures InHandIsProcessing(Exec(s, run))
    decreases |run|
  {
    if run != [] {
      RunKeepsProcessing(s, run[..|run| - 1]);
      RunKeepsInv(s, run[..|run| - 1]);
      StepKeepsProcessing(Exec(s, run[..|run| - 1]), run[|run| - 1]);
    }
  }

  // ---------- stranded rows ----------

  predicate NeverAbandons(run: seq<Event>) {
    forall k :: 0 <= k < |run| ==> !run[k].Abandon?
  }

  ghost predicate NobodyStranded(s: State) {
    forall id :: 0 <= id < |s.actions| && s.actions[id].status == Processing ==> AtWorkOn(s.processor, id)
  }

  lemma StepStrandsNobody(s: State, e: Event)
    requires Inv(s) && NobodyStranded(s) && Enabled(s, e) && !e.Abandon?
    ensures NobodyStranded(Apply(s, e))
  {
  }

  /** Unless the processor gives an action up, the row it has in hand is the only one in `processing`. */
  lemma {:induction false} RunStrandsNobody(s: State, run: seq<Event>)
    requires Inv(s) && NobodyStranded(s) && Legal(s, run) && NeverAbandons(run)
    ensures NobodyStranded(Exec(s, run))
    decreases |run|
  {
    if run != [] {
      RunStrandsNobody(s, run[..|run| - 1]);
      RunKeepsInv(s, run[..|run| - 1]);
      StepStrandsNobody(Exec(s, run[..|run| - 1]), run[|run| - 1]);
    }
  }

  /** In `processing`, in nobody's hands or queue, and not about to be overridden. */
  ghost predicate Stuck(s: State, id: Id) {
    && id < |s.actions| && s.actions[id].status == Processing
    && id !in s.processor.queue && (!s.processor.stage.Idle? ==> s.processor.stage.id != id)
    && forall a :: a in s.reviews ==> s.reviews[a].id != id
  }

  lemma StepKeepsStuck(s: State, e: Event, id: Id)
    requires Inv(s) && Stuck(s, id) && Enabled(s, e)
    ensures Stuck(Apply(s, e), id) && Apply(s, e).actions[id] == s.actions[id]
  {
    if e.Begin? || e.End? {
      SendSparesProcessing(s, e, id);
    } else {
      OtherStepKeepsStuck(s, e, id);
    }
  }

  lemma OtherStepKeepsStuck(s: State, e: Event, id: Id)
    requires Stuck(s, id) && Enabled(s, e) && !e.Begin? && !e.End?
    ensures Stuck(Apply(s, e), id) && Apply(s, e).actions[id] == s.actions[id]
  {
  }

  /**
   Expiry, the batch query and all three override routes pass over `processing`: a row given up in
   that status never leaves it, in any continuation.
   */
  lemma {:induction false} StuckForever(s: State, run: seq<Event>, id: Id)
    requires Inv(s) && Stuck(s, id) && Legal(s, run)
    ensures Stuck(Exec(s, run), id) && Exec(s, run).actions[id] == s.actions[id]
    decreases |run|
  {
    if run != [] {
      StuckForever(s, run[..|run| - 1], id);
      RunKeepsInv(s, run[..|run| - 1]);
      StepKeepsStuck(Exec(s, run[..|run| - 1]), run[|run| - 1], id);
    }
  }

  /** A shutdown, a crash or a denial that failed is enough. */
  lemma AbandonStrands(s: State, id: Id)
    requires Inv(s) && AtWorkOn(s.processor, id) && s.actions[id].status == Processing
    requires forall a :: a in s.reviews ==> s.reviews[a].id != id
    ensures Stuck(Apply(s, Abandon), id)
  {
  }

  // ---------- what the rule does ----------

  lemma CountInProgress(s: State, id: Id, agent: nat)
    requires id < |s.actions| && AtWorkOn(s.processor, id) && s.actions[id].agent == agent
    ensures |InProgress(s.actions, agent)| == |Stranded(s, agent)| + if s.actions[id].status == Processing then 1 else 0
  {
    if s.actions[id].status == Processing {
      assert InProgress(s.actions, agent) == Stranded(s, agent) + {id};
    } else {
      assert InProgress(s.actions, agent) == Stranded(s, agent);
    }
  }

  /** The state in which the processor evaluates an action of this agent, and what the query then answers. */
  ghost predicate EvaluatesWith(s: State, id: Id, agent: nat, db: Reads) {
    && s.processor.stage == Claimed(id) && id < |s.actions| && s.actions[id].agent == agent
    && db.concurrent == Some(|InProgress(s.actions, agent)|)
  }

  /** In any state at all: the row in hand counts while it is in `processing`, and so does every stranded one. */
  lemma LimitAtEvaluation(s: State, id: Id, agent: nat, r: Rule, db: Reads)
    requires EvaluatesWith(s, id, agent, db) && r.kind.ConcurrencyLimit?
    ensures LimitHit(r, db).Some? <==>
              var own := if s.actions[id].status == Processing then 1 else 0;
              r.kind.maxSimultaneous.GetOr(1) <= |Stranded(s, agent)| + own
  {
    CountInProgress(s, id, agent);
  }

  /** Where a run of interest may start: `Init` is such a state. */
  ghost predicate Sound(s: State) {
    Inv(s) && InHandIsProcessing(s)
  }

  /**
   In every run whose override writes re-pass their test, the limit is hit iff it is at most one
   more than the stranded rows.
   */
  lemma LimitHitIff(s: State, run: seq<Event>, id: Id, agent: nat, r: Rule, db: Reads)
    requires Sound(s) && Legal(s, run) && OverridesTested(s, run)
    requires EvaluatesWith(Exec(s, run), id, agent, db) && r.kind.ConcurrencyLimit?
    ensures LimitHit(r, db).Some? <==> r.kind.maxSimultaneous.GetOr(1) <= 1 + |Stranded(Exec(s, run), agent)|
  {
    RunKeepsProcessing(s, run);
    LimitAtEvaluation(Exec(s, run), id, agent, r, db);
  }

  /**
   While no judgement is cut off, the rule denies everything or nothing: it is hit at every
   evaluation if the limit is one (the default) or less, and at none if it is more.
   */
  lemma LimitIsAllOrNothing(run: seq<Event>, id: Id, agent: nat, r: Rule, db: Reads)
    requires Legal(Init, run) && OverridesTested(Init, run) && NeverAbandons(run)
    requires EvaluatesWith(Exec(Init, run), id, agent, db) && r.kind.ConcurrencyLimit?
    ensures LimitHit(r, db).Some? <==> r.kind.maxSimultaneous.GetOr(1) <= 1
  {
    LimitHitIff(Init, run, id, agent, r, db);
    RunStrandsNobody(Init, run);
    assert Stranded(Exec(Init, run), agent) == {};
  }

  /**
   Each judgement ever cut off lowers the agent's limit by one for good: with one, a limit of two
   denies everything.
   */
  lemma StuckRowsCountForever(s: State, run: seq<Event>, stuck: set<Id>, id: Id, agent: nat, r: Rule, db: Reads)
    requires Sound(s) && Legal(s, run) && OverridesTested(s, run)
    requires forall j :: j in stuck ==> Stuck(s, j) && s.actions[j].agent == agent
    requires EvaluatesWith(Exec(s, run), id, agent, db) && r.kind.ConcurrencyLimit?
    ensures r.kind.maxSimultaneous.GetOr(1) <= 1 + |stuck| ==> LimitHit(r, db).Some?
  {
    LimitHitIff(s, run, id, agent, r, db);
    StuckAreStranded(s, run, stuck, agent);
    SubsetSize(stuck, Stranded(Exec(s, run), agent));
  }

  lemma StuckAreStranded(s: State, run: seq<Event>, stuck: set<Id>, agent: nat)
    requires Inv(s) && Legal(s, run)
    requires forall j :: j in stuck ==> Stuck(s, j) && s.actions[j].agent == agent
    ensures stuck <= Stranded(Exec(s, run), agent)
  {
    forall j | j in stuck ensures j in Stranded(Exec(s, run), agent) {
      StuckForever(s, run, j);
    }
  }

  /** A limit of one, which is the default, or less. */
  ghost predicate LimitOfOne(ps: seq<Policy>) {
    exists p, r :: p in ps && r in p.rules.GetOr([]) && r.kind.ConcurrencyLimit? && r.kind.maxSimultaneous.GetOr(1) <= 1
  }

  /** Under such a policy every action that reaches evaluation is denied: it finds itself in progress. */
  lemma LimitOfOneDeniesEverything(run: seq<Event>, ps: seq<Policy>, i: Input, env: Env, id: Id, agent: nat, db: Reads)
    requires Legal(Init, run) && OverridesTested(Init, run) && LimitOfOne(ps)
    requires EvaluatesWith(Exec(Init, run), id, agent, db)
    ensures Evaluate(ps, i, env, db, false).denial.Some?
  {
    var p, r :| p in ps && r in p.rules.GetOr([]) && r.kind.ConcurrencyLimit? && r.kind.maxSimultaneous.GetOr(1) <= 1;
    LimitHitIff(Init, run, id, agent, r, db);
    EvaluateAllowsIff(ps, i, env, db);
  }
}
