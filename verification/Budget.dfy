/**
 The budget rule over whole runs. The evaluator adds up every action of the agent that is not
 denied, the one under evaluation included, and denies when the total reaches the maximum.
 */
module Budget {
  import opened Common
  import opened Lifecycle
  import opened LifecycleSafety
  import opened RunSafety
  import opened PolicyEngine
  import opened Policies
  import opened Pipeline

  const NOT_DENIED := {Pending, Processing, Approved, Escalated, Forwarded, ForwardFailed}
  const SPENT := {Approved, Escalated, Forwarded, ForwardFailed}

  /** What the sum query adds for a row: nothing when the payload has no amount. */
  function Amount(row: Action): real {
    if row.payload.Json? && "amount" in row.payload.paths then row.payload.paths["amount"] else 0.0
  }

  function Weight(row: Action, agent: nat, counted: set<Status>): real {
    if row.agent == agent && row.status in counted then Amount(row) else 0.0
  }

  /** The sum over the rows of one agent whose status is counted. */
  function Total(rows: seq<Action>, agent: nat, counted: set<Status>): real {
    if rows == [] then 0.0
    else Total(rows[..|rows| - 1], agent, counted) + Weight(rows[|rows| - 1], agent, counted)
  }

  lemma {:induction false} TotalUpdate(rows: seq<Action>, id: nat, row: Action, agent: nat, counted: set<Status>)
    requires id < |rows|
    ensures Total(rows[id := row], agent, counted)
         == Total(rows, agent, counted) - Weight(rows[id], agent, counted) + Weight(row, agent, counted)
  {
    var n := |rows| - 1;
    if id == n {
      assert rows[id := row][..n] == rows[..n];
    } else {
      assert rows[id := row][..n] == rows[..n][id := row];
      TotalUpdate(rows[..n], id, row, agent, counted);
    }
  }

  lemma {:induction false} TotalAlike(a: seq<Action>, b: seq<Action>, agent: nat, counted: set<Status>)
    requires |a| == |b| && forall k :: 0 <= k < |a| ==> Weight(a[k], agent, counted) == Weight(b[k], agent, counted)
    ensures Total(a, agent, counted) == Total(b, agent, counted)
  {
    if a != [] {
      TotalAlike(a[..|a| - 1], b[..|b| - 1], agent, counted);
    }
  }

  predicate NonNegative(rows: seq<Action>) {
    forall k :: 0 <= k < |rows| ==> Amount(rows[k]) >= 0.0
  }

  lemma {:induction false} SpentAtMostNotDenied(rows: seq<Action>, agent: nat)
    requires NonNegative(rows)
    ensures 0.0 <= Total(rows, agent, SPENT) <= Total(rows, agent, NOT_DENIED)
  {
    if rows != [] {
      SpentAtMostNotDenied(rows[..|rows| - 1], agent);
    }
  }

  /** The payloads the sum query reads, those of the agent's rows that are not denied, are all JSON. */
  ghost predicate Readable(rows: seq<Action>, agent: nat) {
    forall k :: 0 <= k < |rows| && rows[k].agent == agent && rows[k].status != Denied ==> rows[k].payload != Malformed
  }

  /** What the query answers: one payload that is not JSON, and it is an error. */
  ghost function SpentRead(rows: seq<Action>, agent: nat): Option<real> {
    if Readable(rows, agent) then Some(Total(rows, agent, NOT_DENIED)) else None
  }

  /**
   What one more action of the agent does to the sum: the number its payload holds at `$.amount` is
   added, a payload without one adds nothing, an unreadable one makes the query fail.
   */
  lemma SpentReadMeans(rows: seq<Action>, row: Action, agent: nat)
    requires row.agent == agent && row.status != Denied
    ensures row.payload == Malformed ==> SpentRead(rows + [row], agent) == None
    ensures SpentRead(rows, agent) == None ==> SpentRead(rows + [row], agent) == None
    ensures SpentRead(rows, agent).Some? && row.payload.Json? && "amount" in row.payload.paths ==>
              SpentRead(rows + [row], agent) == Some(SpentRead(rows, agent).value + row.payload.paths["amount"])
    ensures SpentRead(rows, agent).Some?
              && (row.payload == NoPayload || (row.payload.Json? && "amount" !in row.payload.paths)) ==>
              SpentRead(rows + [row], agent) == SpentRead(rows, agent)
  {
    var longer := rows + [row];
    assert longer[..|rows|] == rows && longer[|rows|] == row;
    if SpentRead(rows, agent) == None {
      var k :| 0 <= k < |rows| && rows[k].agent == agent && rows[k].status != Denied && rows[k].payload == Malformed;
      assert longer[k] == rows[k];
    }
  }

  /** Rows of others, and denied ones, do not count; with no rows the answer is zero. */
  lemma SpentReadIgnores(rows: seq<Action>, row: Action, agent: nat)
    requires row.agent != agent || row.status == Denied
    ensures SpentRead(rows + [row], agent) == SpentRead(rows, agent)
    ensures SpentRead([], agent) == Some(0.0)
  {
    var longer := rows + [row];
    assert longer[..|rows|] == rows && longer[|rows|] == row;
    if !Readable(rows, agent) {
      var k :| 0 <= k < |rows| && rows[k].agent == agent && rows[k].status != Denied && rows[k].payload == Malformed;
      assert longer[k] == rows[k];
    }
  }

  /** The rule is in force only while the agent keeps its payloads readable. */
  lemma BudgetHitsIff(rows: seq<Action>, agent: nat, r: Rule, db: Reads)
    requires r.kind.BudgetLimit? && db.spent == SpentRead(rows, agent)
    ensures LimitHit(r, db).Some? <==>
              Readable(rows, agent) && Total(rows, agent, NOT_DENIED) >= r.kind.maxBudget.GetOr(10000.0)
  {
  }

  /** A single action with a payload that is not JSON switches the rule off for its agent. */
  lemma MalformedPayloadLiftsBudget(rows: seq<Action>, id: Id, r: Rule, db: Reads)
    requires id < |rows| && rows[id].payload == Malformed && rows[id].status != Denied
    requires r.kind.BudgetLimit? && db.spent == SpentRead(rows, rows[id].agent)
    ensures LimitHit(r, db).None?
  {
    assert !Readable(rows, rows[id].agent);
  }

  predicate IsBudgetRule(r: Rule, max: real) {
    r.kind.BudgetLimit? && r.kind.maxBudget.GetOr(10000.0) == max
  }

  /** Some active policy carries a budget rule with this maximum. */
  ghost predicate BudgetRuleActive(ps: seq<Policy>, max: real) {
    exists p, r :: p in ps && r in p.rules.GetOr([]) && IsBudgetRule(r, max)
  }

  /** The policy evaluation that this event stands for, on the database as it is. */
  ghost predicate RealEvaluation(s: State, deny: bool, w: World, agent: nat, max: real) {
    && !w.dryRun
    && BudgetRuleActive(w.policies, max)
    && w.db.spent == SpentRead(s.actions, agent)
    && deny == Evaluate(w.policies, w.input, w.env, w.db, w.dryRun).denial.Some?
  }

  lemma AllowedMeansUnderBudget(s: State, w: World, agent: nat, max: real)
    requires RealEvaluation(s, false, w, agent, max) && Readable(s.actions, agent)
    ensures Total(s.actions, agent, NOT_DENIED) < max
  {
    EvaluateAllowsIff(w.policies, w.input, w.env, w.db);
    var p, r :| p in w.policies && r in p.rules.GetOr([]) && IsBudgetRule(r, max);
    assert LimitHit(r, w.db).None?;
  }

  /**
   A run in which the rule is always on: amounts are non-negative, this agent's payloads are
   readable, no override writes, and each evaluation of an action of this agent is the evaluator's
   answer in the world of that moment.
   */
  ghost predicate RuleAlwaysOn(s: State, run: seq<Event>, w: nat -> World, agent: nat, max: real)
    requires Legal(s, run)
    decreases |run|
  {
    run == [] ||
    var front, e := run[..|run| - 1], run[|run| - 1];
    var u := Exec(s, front);
    && RuleAlwaysOn(s, front, w, agent, max)
    && !e.Bulk? && !e.Overwrite?
    && (e.Submit? ==> Fit(e.row, agent))
    && (e.Judge? && u.processor.stage.id < |u.actions| && u.actions[u.processor.stage.id].agent == agent ==>
          RealEvaluation(u, e.deny, w(|front|), agent, max))
  }

  predicate Fit(row: Action, agent: nat) {
    Amount(row) >= 0.0 && (row.agent == agent ==> row.payload != Malformed)
  }

  /** Every payload of the agent is readable, whatever the status of its row. */
  predicate AllReadable(rows: seq<Action>, agent: nat) {
    forall k :: 0 <= k < |rows| && rows[k].agent == agent ==> rows[k].payload != Malformed
  }

  ghost predicate NothingSpent(rows: seq<Action>, agent: nat) {
    forall k :: 0 <= k < |rows| && rows[k].agent == agent ==> rows[k].status !in SPENT
  }

  ghost predicate BudgetInv(s: State, agent: nat, max: real) {
    var stage := s.processor.stage;
    && NonNegative(s.actions) && AllReadable(s.actions, agent)
    && (stage.Claimed? || stage.Judged? ==> stage.id < |s.actions| && s.actions[stage.id].status == Processing)
    && (NothingSpent(s.actions, agent) || Total(s.actions, agent, SPENT) < max)
    && (stage.Judged? && !stage.denied && s.actions[stage.id].agent == agent ==>
          Total(s.actions, agent, SPENT) + Amount(s.actions[stage.id]) < max)
  }

  lemma EvaluateKeepsBudget(s: State, w: World, agent: nat, max: real)
    requires Inv(s) && BudgetInv(s, agent, max) && Enabled(s, Lifecycle.Judge(false))
    requires s.actions[s.processor.stage.id].agent == agent
    requires RealEvaluation(s, false, w, agent, max)
    ensures BudgetInv(Apply(s, Lifecycle.Judge(false)), agent, max)
  {
    var id := s.processor.stage.id;
    AllowedMeansUnderBudget(s, w, agent, max);
    var moved := WithStatus(s.actions, id, Approved);
    TotalUpdate(s.actions, id, moved[id], agent, SPENT);
    TotalUpdate(s.actions, id, moved[id], agent, NOT_DENIED);
    SpentAtMostNotDenied(moved, agent);
  }

  lemma CommitKeepsBudget(s: State, vid: nat, d: Decision, agent: nat, max: real)
    requires Inv(s) && BudgetInv(s, agent, max) && Enabled(s, Commit(vid, d))
    ensures BudgetInv(Apply(s, Commit(vid, d)), agent, max)
  {
    var id := s.processor.stage.id;
    var t := Apply(s, Commit(vid, d));
    TotalUpdate(s.actions, id, t.actions[id], agent, SPENT);
    if NothingSpent(s.actions, agent) && (s.actions[id].agent != agent || d == Deny) {
      assert NothingSpent(t.actions, agent);
    }
  }

  /** Any write that does not add a row to the spent ones. */
  lemma WriteKeepsBudget(s: State, t: State, id: Id, agent: nat, max: real)
    requires BudgetInv(s, agent, max) && id < |s.actions| == |t.actions|
    requires t.actions == s.actions[id := t.actions[id]]
               && t.actions[id] == s.actions[id].(status := t.actions[id].status)
    requires t.actions[id].status in SPENT ==> s.actions[id].status in SPENT
    ensures Total(t.actions, agent, SPENT) <= Total(s.actions, agent, SPENT)
    ensures NonNegative(t.actions) && AllReadable(t.actions, agent)
    ensures NothingSpent(t.actions, agent) || Total(t.actions, agent, SPENT) < max
  {
    TotalUpdate(s.actions, id, t.actions[id], agent, SPENT);
    if NothingSpent(s.actions, agent) {
      assert NothingSpent(t.actions, agent);
    }
  }

  lemma StatusWriteKeepsBudget(s: State, e: Event, id: Id, agent: nat, max: real)
    requires Inv(s) && BudgetInv(s, agent, max) && Enabled(s, e)
    requires (e.Claim? && id == s.processor.stage.id) || (e.ErrorDeny? && id == InHand(s.processor).value)
    ensures BudgetInv(Apply(s, e), agent, max)
  {
    WriteKeepsBudget(s, Apply(s, e), id, agent, max);
  }

  /** While no override writes, an action with an approved verdict is approved or sent. */
  ghost predicate ApprovalStands(s: State) {
    forall id :: 0 <= id < |s.actions| && HasDecision(s.verdicts, id, Approve) ==>
      s.actions[id].status in {Approved, Forwarded, ForwardFailed}
  }

  lemma StepKeepsApproval(s: State, e: Event)
    requires Inv(s) && ApprovalStands(s) && Enabled(s, e) && !e.Bulk? && !e.Overwrite?
    ensures ApprovalStands(Apply(s, e))
  {
    if e.Commit? {
      AppendVerdict(s.verdicts, Verdict(e.verdictId, s.processor.stage.id, e.decision));
      DecisionIsVerdict(s.verdicts, s.processor.stage.id, Approve);
    } else {
      OtherStepKeepsApproval(s, e);
    }
  }

  lemma OtherStepKeepsApproval(s: State, e: Event)
    requires Inv(s) && ApprovalStands(s) && Enabled(s, e) && !e.Bulk? && !e.Overwrite? && !e.Commit?
    ensures ApprovalStands(Apply(s, e))
  {
    if e.ErrorDeny? { InHandIsUnapproved(s); }
    if e.Claim? { DecisionIsVerdict(s.verdicts, s.processor.stage.id, Approve); }
    if e.Submit? { DecisionIsVerdict(s.verdicts, |s.actions|, Approve); }
  }

  lemma SendKeepsBudget(s: State, e: Event, id: Id, agent: nat, max: real)
    requires Inv(s) && BudgetInv(s, agent, max) && ApprovalStands(s) && Enabled(s, e)
    requires (e.Begin? && id == s.windows[e.handler].id) || (e.End? && id == s.inFlight[e.handler])
    ensures BudgetInv(Apply(s, e), agent, max)
  {
    assert HasDecision(s.verdicts, id, Approve);
    DecisionIsVerdict(s.verdicts, id, Approve);
    assert s.actions[id].status in SPENT;
    WriteKeepsBudget(s, Apply(s, e), id, agent, max);
  }

  lemma ExpireKeepsBudget(s: State, cutoff: string, agent: nat, max: real)
    requires BudgetInv(s, agent, max) && Enabled(s, Expire(cutoff))
    ensures BudgetInv(Apply(s, Expire(cutoff)), agent, max)
  {
    TotalAlike(s.actions, ExpireRows(s.actions, cutoff), agent, SPENT);
  }

  lemma SubmitKeepsBudget(s: State, row: Action, agent: nat, max: real)
    requires Inv(s) && BudgetInv(s, agent, max) && Enabled(s, Submit(row)) && Fit(row, agent)
    ensures BudgetInv(Apply(s, Submit(row)), agent, max)
  {
    assert (s.actions + [row])[..|s.actions|] == s.actions;
  }

  lemma StepKeepsBudget(s: State, e: Event, w: World, agent: nat, max: real)
    requires Inv(s) && BudgetInv(s, agent, max) && ApprovalStands(s) && Enabled(s, e)
    requires !e.Bulk? && !e.Overwrite? && (e.Submit? ==> Fit(e.row, agent))
    requires e.Judge? && s.actions[s.processor.stage.id].agent == agent ==> RealEvaluation(s, e.deny, w, agent, max)
    ensures BudgetInv(Apply(s, e), agent, max)
  {
    match e
    case Submit(row) => SubmitKeepsBudget(s, row, agent, max);
    case Claim => StatusWriteKeepsBudget(s, e, s.processor.stage.id, agent, max);
    case Judge(deny) =>
      if !deny && s.actions[s.processor.stage.id].agent == agent {
        EvaluateKeepsBudget(s, w, agent, max);
      } else {
        QuietStepKeepsBudget(s, e, agent, max);
      }
    case Commit(vid, d) => CommitKeepsBudget(s, vid, d, agent, max);
    case ErrorDeny => StatusWriteKeepsBudget(s, e, InHand(s.processor).value, agent, max);
    case Expire(cutoff) => ExpireKeepsBudget(s, cutoff, agent, max);
    case Begin(h) => SendKeepsBudget(s, e, s.windows[h].id, agent, max);
    case End(h, Failed) => SendKeepsBudget(s, e, s.inFlight[h], agent, max);
    case _ => QuietStepKeepsBudget(s, e, agent, max);
  }

  /** Events that change no row. */
  lemma QuietStepKeepsBudget(s: State, e: Event, agent: nat, max: real)
    requires BudgetInv(s, agent, max) && Enabled(s, e)
    requires e.Select? || e.Read? || e.Finish? || e.Abandon? || e.Open? || e.Close? || e.Look? || e.Weigh?
               || e.Drop? || e.Log?
          || (e.Judge? && (e.deny || s.actions[s.processor.stage.id].agent != agent)) || (e.End? && e.outcome != Failed)
    ensures BudgetInv(Apply(s, e), agent, max)
  {
  }

  lemma {:induction false} RunKeepsBudget(s: State, run: seq<Event>, w: nat -> World, agent: nat, max: real)
    requires Inv(s) && BudgetInv(s, agent, max) && ApprovalStands(s) && Legal(s, run)
               && RuleAlwaysOn(s, run, w, agent, max)
    ensures BudgetInv(Exec(s, run), agent, max) && ApprovalStands(Exec(s, run))
    decreases |run|
  {
    if run != [] {
      var front := run[..|run| - 1];
      RunKeepsBudget(s, front, w, agent, max);
      RunKeepsInv(s, front);
      StepKeepsApproval(Exec(s, front), run[|run| - 1]);
      StepKeepsBudget(Exec(s, front), run[|run| - 1], w(|front|), agent, max);
    }
  }

  /**
   While the rule is on, what an agent has had approved, escalated or forwarded stays strictly
   below the maximum in every reachable state; with a maximum of zero or less it stays empty.
   */
  lemma SpentStaysUnderBudget(run: seq<Event>, w: nat -> World, agent: nat, max: real)
    requires Legal(Init, run) && RuleAlwaysOn(Init, run, w, agent, max)
    ensures var rows := Exec(Init, run).actions;
      && (max > 0.0 ==> Total(rows, agent, SPENT) < max)
      && (max <= 0.0 ==> NothingSpent(rows, agent))
  {
    RunKeepsBudget(Init, run, w, agent, max);
    var rows := Exec(Init, run).actions;
    SpentAtMostNotDenied(rows, agent);
    if NothingSpent(rows, agent) {
      NothingAddsUpToZero(rows, agent);
    }
  }

  lemma {:induction false} NothingAddsUpToZero(rows: seq<Action>, agent: nat)
    requires NothingSpent(rows, agent)
    ensures Total(rows, agent, SPENT) == 0.0
  {
    if rows != [] {
      var front := rows[..|rows| - 1];
      assert forall k :: 0 <= k < |front| ==> front[k] == rows[k];
      NothingAddsUpToZero(front, agent);
    }
  }

  // ---------- without readable payloads ----------

  /** As `RuleAlwaysOn`, but agents may store whatever payload they like. */
  ghost predicate RuleEvaluated(s: State, run: seq<Event>, w: World, agent: nat, max: real)
    requires Legal(s, run)
    decreases |run|
  {
    run == [] ||
    var front, e := run[..|run| - 1], run[|run| - 1];
    var u := Exec(s, front);
    && RuleEvaluated(s, front, w, agent, max)
    && !e.Bulk? && !e.Overwrite? && (e.Submit? ==> Amount(e.row) >= 0.0)
    && (e.Judge? && u.processor.stage.id < |u.actions| && u.actions[u.processor.stage.id].agent == agent ==>
          RealEvaluation(u, e.deny, w, agent, max))
  }

  lemma SnocEvaluated(s: State, run: seq<Event>, e: Event, w: World, agent: nat, max: real)
    requires Legal(s, run) && Enabled(Exec(s, run), e) && RuleEvaluated(s, run, w, agent, max)
    requires !e.Bulk? && !e.Overwrite? && (e.Submit? ==> Amount(e.row) >= 0.0)
    requires e.Judge? ==> RealEvaluation(Exec(s, run), e.deny, w, agent, max)
    ensures Legal(s, run + [e]) && Exec(s, run + [e]) == Apply(Exec(s, run), e)
              && RuleEvaluated(s, run + [e], w, agent, max)
  {
    assert (run + [e])[..|run|] == run;
  }

  function OnlyBudget(max: real): seq<Policy> {
    [Policy("budget", "budget", Some([Rule(None, BudgetLimit(Some(max)))]))]
  }

  lemma OnlyBudgetPasses(w: World, max: real)
    requires w.policies == OnlyBudget(max) && !w.dryRun && w.db.spent == None
    ensures BudgetRuleActive(w.policies, max)
    ensures Evaluate(w.policies, w.input, w.env, w.db, w.dryRun).denial.None?
  {
    var rule := Rule(None, BudgetLimit(Some(max)));
    var policy := Policy("budget", "budget", Some([rule]));
    assert policy in w.policies && rule in policy.rules.GetOr([]) && IsBudgetRule(rule, max);
    assert LimitHit(rule, w.db).None? && Eval(rule, w.input, w.env).None?;
    EvaluateAllowsIff(w.policies, w.input, w.env, w.db);
  }

  function TwoSubmits(bad: Action, big: Action): seq<Event> {
    [] + [Submit(bad)] + [Submit(big)] + [Select([1])] + [Read] + [Claim]
  }

  /** An action with an unreadable payload is left pending, say until its execution time, and another one is judged. */
  function Overspend(bad: Action, big: Action, vid: nat): seq<Event> {
    TwoSubmits(bad, big) + [Lifecycle.Judge(false)] + [Commit(vid, Approve)]
  }

  ghost predicate Pair(bad: Action, big: Action) {
    && bad.status == Pending && big.status == Pending && bad.agent == big.agent
    && bad.payload == Malformed && Amount(big) >= 0.0
    && !HasKey(bad, big.agent, big.key)
  }

  lemma TwoSubmitsRun(bad: Action, big: Action, w: World, max: real)
    requires Pair(bad, big)
    ensures Legal(Init, TwoSubmits(bad, big)) && RuleEvaluated(Init, TwoSubmits(bad, big), w, big.agent, max)
    ensures var u := Exec(Init, TwoSubmits(bad, big));
      u.actions == [bad, big.(status := Processing)] && u.verdicts == [] && u.processor == Processor([], Claimed(1))
  {
    BothSubmitted(bad, big, w, max);
    var r2 := [] + [Submit(bad)] + [Submit(big)];
    SecondIsPicked(r2, bad, big, w, max);
    SnocEvaluated(Init, r2 + [Select([1])] + [Read], Claim, w, big.agent, max);
  }

  lemma BothSubmitted(bad: Action, big: Action, w: World, max: real)
    requires Pair(bad, big)
    ensures var run := [] + [Submit(bad)] + [Submit(big)];
      && Legal(Init, run) && RuleEvaluated(Init, run, w, big.agent, max)
      && var u := Exec(Init, run);
         u.actions == [bad, big] && u.verdicts == [] && u.processor == Processor([], Idle)
  {
    SnocEvaluated(Init, [], Submit(bad), w, big.agent, max);
    SnocEvaluated(Init, [] + [Submit(bad)], Submit(big), w, big.agent, max);
  }

  lemma SecondIsPicked(run: seq<Event>, bad: Action, big: Action, w: World, max: real)
    requires Legal(Init, run) && RuleEvaluated(Init, run, w, big.agent, max) && big.status == Pending
    requires var u := Exec(Init, run);
      u.actions == [bad, big] && u.verdicts == [] && u.processor == Processor([], Idle)
    ensures var longer := run + [Select([1])] + [Read];
      && Legal(Init, longer) && RuleEvaluated(Init, longer, w, big.agent, max)
      && var u := Exec(Init, longer);
         u.actions == [bad, big] && u.verdicts == [] && u.processor == Processor([], Seen(1))
  {
    SnocEvaluated(Init, run, Select([1]), w, big.agent, max);
    SnocEvaluated(Init, run + [Select([1])], Read, w, big.agent, max);
  }

  /**
   With one unreadable payload on record an action of any amount is approved, each evaluation being
   the evaluator's own: the agent's spent total is not bounded by the rule.
   */
  lemma UnreadablePayloadOverspends(bad: Action, big: Action, w: World, max: real, vid: nat)
    requires Pair(bad, big) && Amount(big) >= max
    requires w.policies == OnlyBudget(max) && !w.dryRun && w.db.spent == None
    ensures Legal(Init, Overspend(bad, big, vid)) && RuleEvaluated(Init, Overspend(bad, big, vid), w, big.agent, max)
    ensures Total(Exec(Init, Overspend(bad, big, vid)).actions, big.agent, SPENT) >= max
  {
    TwoSubmitsRun(bad, big, w, max);
    var r5 := TwoSubmits(bad, big);
    var u := Exec(Init, r5);
    assert !Readable(u.actions, big.agent) by { assert u.actions[0] == bad; }
    OnlyBudgetPasses(w, max);
    SnocEvaluated(Init, r5, Lifecycle.Judge(false), w, big.agent, max);
    SnocEvaluated(Init, r5 + [Lifecycle.Judge(false)], Commit(vid, Approve), w, big.agent, max);
    OneSpent(bad, big);
  }

  lemma OneSpent(bad: Action, big: Action)
    requires bad.status == Pending
    ensures Total([bad, big.(status := Approved)], big.agent, SPENT) == Amount(big)
  {
    var rows := [bad, big.(status := Approved)];
    assert rows[..1] == [bad] && [bad][..0] == [];
    assert Weight(bad, big.agent, SPENT) == 0.0 && Weight(rows[1], big.agent, SPENT) == Amount(big);
    assert Total([bad], big.agent, SPENT) == 0.0;
  }
}
