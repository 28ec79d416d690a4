/**
 The rate rule on the tables. Its query compares the stored stamps with a cutoff written in RFC 3339
 form, as text, so it counts by days: nothing made on the cutoff's own day is counted.
 */
module RateRule {
  import opened Common
  import opened Lifecycle
  import opened Clock
  import opened PolicyEngine
  import opened Policies

  /** The rows the query counts. */
  ghost function Counted(rows: seq<Action>, agent: nat, cutoff: string): set<Id> {
    set id | 0 <= id < |rows| && rows[id].agent == agent && rows[id].status != Pending
             && Before(cutoff, rows[id].createdAt)
  }

  /** When each row was created. */
  ghost predicate MadeAt(rows: seq<Action>, made: seq<Stamp>) {
    |made| == |rows| && forall id :: 0 <= id < |rows| ==> Proper(made[id]) && rows[id].createdAt == Format(made[id])
  }

  /** The rows the rule speaks of: those of the agent, no longer pending, created after the cutoff. */
  ghost function Recent(rows: seq<Action>, made: seq<Stamp>, agent: nat, cutoff: Stamp): set<Id>
    requires MadeAt(rows, made) && Proper(cutoff)
  {
    set id | 0 <= id < |rows| && rows[id].agent == agent && rows[id].status != Pending
             && Seconds(cutoff) < Seconds(made[id])
  }

  /** Those of them that were created on a later day than the cutoff's. */
  ghost function OfLaterDays(rows: seq<Action>, made: seq<Stamp>, agent: nat, cutoff: Stamp): set<Id>
    requires MadeAt(rows, made) && Proper(cutoff)
  {
    set id | id in Recent(rows, made, agent, cutoff) && EarlierDate(cutoff, made[id])
  }

  lemma LaterDayIsLater(a: Stamp, b: Stamp)
    requires Proper(a) && Proper(b) && EarlierDate(a, b)
    ensures Seconds(a) < Seconds(b)
  {
    DateOrder(a, b);
  }

  lemma AfterIso(a: Stamp, b: Stamp, rest: string)
    requires Proper(a) && Proper(b)
    ensures Before(Iso(a, rest), Format(b)) <==> EarlierDate(a, b)
  {
    IsoOrder(a, b, rest);
    BeforeIsTotal(Iso(a, rest), Format(b));
    assert Iso(a, rest)[10] == 'T' && Format(b)[10] == ' ';
  }

  /** The query counts the recent rows of later days, and no others. */
  lemma CountedAreOfLaterDays(rows: seq<Action>, made: seq<Stamp>, agent: nat, cutoff: Stamp, rest: string)
    requires MadeAt(rows, made) && Proper(cutoff)
    ensures Counted(rows, agent, Iso(cutoff, rest)) == OfLaterDays(rows, made, agent, cutoff)
  {
    forall id | 0 <= id < |rows|
      ensures Before(Iso(cutoff, rest), rows[id].createdAt) <==>
                Seconds(cutoff) < Seconds(made[id]) && EarlierDate(cutoff, made[id])
    {
      AfterIso(cutoff, made[id], rest);
      if EarlierDate(cutoff, made[id]) { LaterDayIsLater(cutoff, made[id]); }
    }
  }

  /** The database answers the rate query of this rule from these rows. */
  ghost predicate RateReadOff(db: Reads, r: Rule, rows: seq<Action>, agent: nat, cutoff: Stamp, rest: string)
    requires Proper(cutoff) && r.kind.RateLimit?
  {
    db.rate(r.kind.windowSecs.GetOr(60)) == Some(|Counted(rows, agent, Iso(cutoff, rest))|)
  }

  /** So the rule is hit exactly when its maximum is reached by the recent rows of later days alone. */
  lemma RateHitsIff(rows: seq<Action>, made: seq<Stamp>, agent: nat, r: Rule, db: Reads, cutoff: Stamp, rest: string)
    requires MadeAt(rows, made) && Proper(cutoff) && r.kind.RateLimit?
    requires RateReadOff(db, r, rows, agent, cutoff, rest)
    ensures LimitHit(r, db).Some? <==> |OfLaterDays(rows, made, agent, cutoff)| >= r.kind.maxCount.GetOr(10)
  {
    CountedAreOfLaterDays(rows, made, agent, cutoff, rest);
    CountLimitsMean(r, db);
  }

  /** It never denies for what it should let on, except that a maximum of zero or less denies everything. */
  lemma RateNeverOvercounts(rows: seq<Action>, made: seq<Stamp>, agent: nat, r: Rule, db: Reads, cutoff: Stamp,
                            rest: string)
    requires MadeAt(rows, made) && Proper(cutoff) && r.kind.RateLimit?
    requires RateReadOff(db, r, rows, agent, cutoff, rest)
    ensures LimitHit(r, db).Some? ==> |Recent(rows, made, agent, cutoff)| >= r.kind.maxCount.GetOr(10)
  {
    RateHitsIff(rows, made, agent, r, db, cutoff, rest);
    SubsetSize(OfLaterDays(rows, made, agent, cutoff), Recent(rows, made, agent, cutoff));
  }

  /** The count is what the rule promises exactly when no recent row is from the cutoff's own day. */
  lemma CountIsRightIff(rows: seq<Action>, made: seq<Stamp>, agent: nat, cutoff: Stamp, rest: string)
    requires MadeAt(rows, made) && Proper(cutoff)
    ensures |Counted(rows, agent, Iso(cutoff, rest))| == |Recent(rows, made, agent, cutoff)| <==>
              forall id :: id in Recent(rows, made, agent, cutoff) ==> EarlierDate(cutoff, made[id])
  {
    CountedAreOfLaterDays(rows, made, agent, cutoff, rest);
    AllOfLaterDays(rows, made, agent, cutoff);
    SameSizeIff(OfLaterDays(rows, made, agent, cutoff), Recent(rows, made, agent, cutoff));
  }

  lemma AllOfLaterDays(rows: seq<Action>, made: seq<Stamp>, agent: nat, cutoff: Stamp)
    requires MadeAt(rows, made) && Proper(cutoff)
    ensures OfLaterDays(rows, made, agent, cutoff) <= Recent(rows, made, agent, cutoff)
    ensures OfLaterDays(rows, made, agent, cutoff) == Recent(rows, made, agent, cutoff) <==>
              forall id :: id in Recent(rows, made, agent, cutoff) ==> EarlierDate(cutoff, made[id])
  {
  }

  lemma SameSizeIff(some: set<Id>, all: set<Id>)
    requires some <= all
    ensures |some| == |all| <==> some == all
  {
    if x :| x in all && x !in some { SubsetSize(some, all - {x}); }
  }

  /**
   In any state, however many actions the agent has just made: while the window does not reach back
   over midnight the count is zero, and a rule with a positive maximum is not hit.
   */
  lemma WindowWithinADayNeverDenies(rows: seq<Action>, made: seq<Stamp>, agent: nat, r: Rule, db: Reads,
                                    cutoff: Stamp, now: Stamp, rest: string)
    requires MadeAt(rows, made) && Proper(cutoff) && Proper(now) && r.kind.RateLimit? && r.kind.maxCount.GetOr(10) > 0
    requires RateReadOff(db, r, rows, agent, cutoff, rest)
    requires !EarlierDate(cutoff, now) && forall id :: 0 <= id < |made| ==> Seconds(made[id]) <= Seconds(now)
    ensures LimitHit(r, db).None?
  {
    RateHitsIff(rows, made, agent, r, db, cutoff, rest);
    forall id | id in Recent(rows, made, agent, cutoff) ensures !EarlierDate(cutoff, made[id]) {
      if EarlierDate(cutoff, made[id]) { DateIsNoLater(cutoff, made[id], now); }
    }
    assert OfLaterDays(rows, made, agent, cutoff) == {};
  }

  /** A rate rule with a positive maximum, whose window does not reach back over midnight. */
  ghost predicate ReachesToday(r: Rule, db: Reads, rows: seq<Action>, agent: nat, cutoff: int -> Stamp, now: Stamp,
                               rest: string)
  {
    && r.kind.RateLimit? && r.kind.maxCount.GetOr(10) > 0
    && var from := cutoff(r.kind.windowSecs.GetOr(60));
       Proper(from) && !EarlierDate(from, now) && RateReadOff(db, r, rows, agent, from, rest)
  }

  /** So until its windows reach back over midnight, a policy with nothing but such rules lets everything on. */
  lemma RateRulesAloneLetOn(rows: seq<Action>, made: seq<Stamp>, agent: nat, p: Policy, db: Reads, cutoff: int -> Stamp,
                            now: Stamp, rest: string, i: Input, env: Env)
    requires MadeAt(rows, made) && Proper(now)
    requires forall id :: 0 <= id < |made| ==> Seconds(made[id]) <= Seconds(now)
    requires forall r :: r in p.rules.GetOr([]) ==> ReachesToday(r, db, rows, agent, cutoff, now, rest)
    ensures Evaluate([p], i, env, db, false).denial.None?
  {
    forall r | r in p.rules.GetOr([]) ensures !Denies(r, i, env) && LimitHit(r, db).None? {
      assert ReachesToday(r, db, rows, agent, cutoff, now, rest);
      WindowWithinADayNeverDenies(rows, made, agent, r, db, cutoff(r.kind.windowSecs.GetOr(60)), now, rest);
    }
    OnlyHarmlessRules(p, i, env, db);
  }

  lemma OnlyHarmlessRules(p: Policy, i: Input, env: Env, db: Reads)
    requires forall r :: r in p.rules.GetOr([]) ==> !Denies(r, i, env) && LimitHit(r, db).None?
    ensures Evaluate([p], i, env, db, false).denial.None?
  {
    EvaluateAllowsIff([p], i, env, db);
  }

  lemma DateIsNoLater(cutoff: Stamp, made: Stamp, now: Stamp)
    requires Proper(cutoff) && Proper(made) && Proper(now)
    requires EarlierDate(cutoff, made) && Seconds(made) <= Seconds(now)
    ensures EarlierDate(cutoff, now)
  {
    if EarlierDate(now, made) { LaterDayIsLater(now, made); }
  }
}
