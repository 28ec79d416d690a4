/**
 The limits on tables that the processor itself has built: when the database answers of a turn are
 read off the rows at its evaluation, the run laws of the three history-dependent limits apply to
 the run the turn leaves behind.
 */
module Turns {
  import opened Common
  import opened Lifecycle
  import opened LifecycleSafety
  import opened RunSafety
  import opened PolicyEngine
  import opened Policies
  import Pipeline
  import Budget
  import Concurrency
  import History
  import Server

  type World = Pipeline.World

  /** The answers of the limit queries are those of these rows, for the action being judged. */
  ghost predicate ReadOff(db: Reads, rows: seq<Action>, id: Id) {
    && id < |rows|
    && db.spent == Budget.SpentRead(rows, rows[id].agent)
    && db.concurrent == Some(|Concurrency.InProgress(rows, rows[id].agent)|)
    && forall field :: db.history(field) == History.HistoryRead(rows, id, field)
  }

  /** The world of each event: as before up to n, and this one from there on. */
  function From(w: nat -> World, n: nat, world: World): nat -> World {
    (k: nat) => if k < n then w(k) else world
  }

  lemma {:induction false} SameWorlds(run: seq<Event>, v: nat -> World, w: nat -> World, agent: nat, max: real)
    requires Legal(Init, run) && Budget.RuleAlwaysOn(Init, run, v, agent, max)
    requires forall k: nat :: k < |run| ==> v(k) == w(k)
    ensures Budget.RuleAlwaysOn(Init, run, w, agent, max)
    decreases |run|
  {
    if run != [] {
      SameWorlds(run[..|run| - 1], v, w, agent, max);
    }
  }

  /** The rule is in force for this turn, if it judges an action of this agent. */
  ghost predicate RuleInForce(world: World, rows: seq<Action>, id: Id, agent: nat, max: real) {
    id < |rows| && rows[id].agent == agent ==>
      !world.dryRun && Budget.BudgetRuleActive(world.policies, max) && ReadOff(world.db, rows, id)
  }

  lemma JudgementIsReal(run: seq<Event>, k: nat, id: Id, rows: seq<Action>, world: World, agent: nat, max: real)
    requires k < |run| && Server.JudgedAt(run, k, id, rows, Server.PoliciesRefuse(world)) && run[k].Judge?
    requires RuleInForce(world, rows, id, agent, max)
    ensures var u := Exec(Init, run[..k]);
      u.processor.stage.Claimed?
      && (u.processor.stage.id < |u.actions| && u.actions[u.processor.stage.id].agent == agent ==>
            Budget.RealEvaluation(u, run[k].deny, world, agent, max))
  {
  }

  lemma {:induction false} RuleStaysOn(before: seq<Event>, after: seq<Event>, n: nat, id: Id, rows: seq<Action>,
                                       world: World, w: nat -> World, agent: nat, max: real)
    requires |before| <= n <= |after| && Legal(Init, before) && Legal(Init, after)
    requires Server.AllJudgedAs(before, after, id, rows, Server.PoliciesRefuse(world))
    requires Budget.RuleAlwaysOn(Init, before, w, agent, max) && RuleInForce(world, rows, id, agent, max)
    ensures Legal(Init, after[..n]) && Budget.RuleAlwaysOn(Init, after[..n], From(w, |before|, world), agent, max)
    decreases n
  {
    LegalPrefix(Init, after, n);
    var v := From(w, |before|, world);
    if n == |before| {
      assert after[..n] == before;
      SameWorlds(before, w, v, agent, max);
    } else {
      RuleStaysOn(before, after, n - 1, id, rows, world, w, agent, max);
      OneMoreEvent(after, n, id, rows, world, v, agent, max);
    }
  }

  lemma OneMoreEvent(after: seq<Event>, n: nat, id: Id, rows: seq<Action>, world: World, v: nat -> World, agent: nat,
                     max: real)
    requires 0 < n <= |after| && Legal(Init, after[..n]) && Legal(Init, after[..n - 1])
    requires Server.JudgedAt(after, n - 1, id, rows, Server.PoliciesRefuse(world)) && v(n - 1) == world
    requires Budget.RuleAlwaysOn(Init, after[..n - 1], v, agent, max) && RuleInForce(world, rows, id, agent, max)
    ensures Budget.RuleAlwaysOn(Init, after[..n], v, agent, max)
  {
    assert after[..n][..n - 1] == after[..n - 1] && after[..n][n - 1] == after[n - 1];
    if after[n - 1].Judge? {
      JudgementIsReal(after, n - 1, id, rows, world, agent, max);
    }
  }

  /**
   A turn of the processor on tables whose run had the budget rule on: the rule stays on, and what the
   agent has spent in the resulting tables is below the maximum.
   */
  lemma TurnStaysUnderBudget(before: seq<Event>, after: seq<Event>, t: State, id: Id, rows: seq<Action>,
                             world: World, w: nat -> World, agent: nat, max: real)
    requires Legal(Init, before) && Server.Reaches(after, t) && max > 0.0
    requires Server.JudgedAs(before, after, id, rows, Server.PoliciesRefuse(world))
    requires Budget.RuleAlwaysOn(Init, before, w, agent, max) && RuleInForce(world, rows, id, agent, max)
    ensures Legal(Init, after) && Budget.RuleAlwaysOn(Init, after, From(w, |before|, world), agent, max)
    ensures Budget.Total(t.actions, agent, Budget.SPENT) < max
  {
    Server.ReachesMeans(after, t);
    assert Server.AllJudgedAs(before, after, id, rows, Server.PoliciesRefuse(world));
    RuleStaysOn(before, after, |after|, id, rows, world, w, agent, max);
    assert after[..|after|] == after;
    Budget.SpentStaysUnderBudget(after, From(w, |before|, world), agent, max);
  }

  /** The judgement of a turn is an evaluation in the sense of the concurrency and history laws. */
  lemma TurnEvaluates(before: seq<Event>, after: seq<Event>, k: nat, id: Id, rows: seq<Action>, world: World,
                      field: string)
    requires Server.JudgedAs(before, after, id, rows, Server.PoliciesRefuse(world))
    requires |before| <= k < |after| && after[k].Judge? && ReadOff(world.db, rows, id)
    ensures Legal(Init, after[..k])
    ensures Concurrency.EvaluatesWith(Exec(Init, after[..k]), id, rows[id].agent, world.db)
    ensures History.EvaluatesOver(Exec(Init, after[..k]), id, field, world.db)
  {
    assert Server.AllJudgedAs(before, after, id, rows, Server.PoliciesRefuse(world));
    assert Server.JudgedAt(after, k, id, rows, Server.PoliciesRefuse(world));
  }

  /** So a turn under a concurrency limit of one, the default, is refused whatever else happened before it. */
  lemma TurnUnderLimitOfOneIsRefused(before: seq<Event>, after: seq<Event>, k: nat, id: Id, rows: seq<Action>,
                                     world: World)
    requires Server.JudgedAs(before, after, id, rows, Server.PoliciesRefuse(world))
    requires |before| <= k < |after| && after[k].Judge? && ReadOff(world.db, rows, id) && rows[id].status == Processing
    requires !world.dryRun && Concurrency.LimitOfOne(world.policies)
    ensures after[k].deny
  {
    TurnEvaluates(before, after, k, id, rows, world, "");
    assert Server.AllJudgedAs(before, after, id, rows, Server.PoliciesRefuse(world));
    assert Server.JudgedAt(after, k, id, rows, Server.PoliciesRefuse(world));
    LimitOfOneRefuses(Exec(Init, after[..k]), id, rows[id].agent, world);
  }

  lemma LimitOfOneRefuses(s: State, id: Id, agent: nat, world: World)
    requires Concurrency.EvaluatesWith(s, id, agent, world.db) && s.actions[id].status == Processing
    requires !world.dryRun && Concurrency.LimitOfOne(world.policies)
    ensures Server.PoliciesRefuse(world)
  {
    var p, r :| p in world.policies && r in p.rules.GetOr([])
                && r.kind.ConcurrencyLimit? && r.kind.maxSimultaneous.GetOr(1) <= 1;
    Concurrency.LimitAtEvaluation(s, id, agent, r, world.db);
    EvaluateAllowsIff(world.policies, world.input, world.env, world.db);
  }
}
