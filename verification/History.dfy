/**
 The z-score rule on the tables. Its query reads the numbers an agent's earlier payloads hold at
 the path `$.` followed by the field name; the value it tests is the member of that very name in the
 payload under evaluation. For a plain name these are the same number, so the value is in its own
 sample.
 */
module History {
  import opened Common
  import opened Lifecycle
  import opened LifecycleSafety
  import opened RunSafety
  import opened PolicyEngine
  import opened Policies
  import opened Statistics

  /** The rows the query keeps: this agent's, not pending, with a payload. */
  predicate Queried(row: Action, agent: nat) {
    row.agent == agent && row.status != Pending && row.payload != NoPayload
  }

  predicate HasNumber(row: Action, agent: nat, field: string) {
    Queried(row, agent) && row.payload.Json? && field in row.payload.paths
  }

  function Sample(rows: seq<Action>, agent: nat, field: string): seq<real> {
    if rows == [] then []
    else
      var row := rows[|rows| - 1];
      Sample(rows[..|rows| - 1], agent, field) + if HasNumber(row, agent, field) then [row.payload.paths[field]] else []
  }

  lemma {:induction false} InSample(rows: seq<Action>, id: Id, agent: nat, field: string) returns (k: nat)
    requires id < |rows| && HasNumber(rows[id], agent, field)
    ensures k < |Sample(rows, agent, field)| && Sample(rows, agent, field)[k] == rows[id].payload.paths[field]
  {
    if id == |rows| - 1 {
      k := |Sample(rows[..id], agent, field)|;
    } else {
      k := InSample(rows[..|rows| - 1], id, agent, field);
    }
  }

  lemma {:induction false} SampleAlike(a: seq<Action>, b: seq<Action>, agent: nat, field: string)
    requires |a| == |b|
    requires forall k :: 0 <= k < |a| ==>
      (HasNumber(a[k], agent, field) <==> HasNumber(b[k], agent, field))
      && (HasNumber(a[k], agent, field) ==> a[k].payload.paths[field] == b[k].payload.paths[field])
    ensures Sample(a, agent, field) == Sample(b, agent, field)
  {
    if a != [] {
      SampleAlike(a[..|a| - 1], b[..|b| - 1], agent, field);
    }
  }

  ghost predicate HistoryReadable(rows: seq<Action>, agent: nat) {
    forall k :: 0 <= k < |rows| && Queried(rows[k], agent) ==> rows[k].payload != Malformed
  }

  /** The field's value in the payload under evaluation, and the aggregates; None when either is missing. */
  ghost function HistoryRead(rows: seq<Action>, id: Id, field: string): Option<(real, Summary)>
    requires id < |rows|
  {
    var row := rows[id];
    var xs := Sample(rows, row.agent, field);
    if row.payload.Json? && field in row.payload.keys && HistoryReadable(rows, row.agent) && xs != []
    then Some((row.payload.keys[field], Summarize(xs)))
    else None
  }

  /**
   What one more action of the agent does to the sample: once past pending, with a JSON payload that
   holds a number at the path, that number joins it; nothing else does.
   */
  lemma SampleMeans(rows: seq<Action>, row: Action, agent: nat, field: string)
    ensures row.agent == agent && row.status != Pending && row.payload.Json? && field in row.payload.paths ==>
              Sample(rows + [row], agent, field) == Sample(rows, agent, field) + [row.payload.paths[field]]
    ensures row.agent != agent || row.status == Pending || !row.payload.Json? || field !in row.payload.paths ==>
              Sample(rows + [row], agent, field) == Sample(rows, agent, field)
    ensures Sample([], agent, field) == []
  {
    assert (rows + [row])[..|rows|] == rows;
  }

  /**
   When the query answers, and with what: the member of that name in the payload under evaluation,
   against the average, count and sum of squares of the sample.
   */
  lemma HistoryReadMeans(rows: seq<Action>, id: Id, field: string)
    requires id < |rows|
    ensures var row, xs := rows[id], Sample(rows, rows[id].agent, field);
      HistoryRead(rows, id, field).Some? <==>
        && row.payload.Json? && field in row.payload.keys && xs != []
        && (forall k :: 0 <= k < |rows| && rows[k].agent == row.agent && rows[k].status != Pending ==>
              rows[k].payload != Malformed)
    ensures HistoryRead(rows, id, field).Some? ==>
              var xs := Sample(rows, rows[id].agent, field);
              var n := |xs| as real;
              HistoryRead(rows, id, field).value
                == (rows[id].payload.keys[field], Summary(Sum(xs) / n, |xs|, Sum(Squares(xs))))
  {
  }

  /** At an evaluation in any reachable state the rule is hit exactly when its test holds of that answer. */
  lemma DeviationIsHitIff(run: seq<Event>, id: Id, r: Rule, db: Reads, sd: real)
    requires Legal(Init, run) && r.kind.HistogramTrend?
    requires var field, s := r.kind.field.GetOr("amount"), Exec(Init, run);
      && EvaluatesOver(s, id, field, db) && HistoryRead(s.actions, id, field).Some?
      && sd >= 0.0 && sd * sd == Variance(Summarize(Sample(s.actions, s.actions[id].agent, field)))
    ensures var field, rows := r.kind.field.GetOr("amount"), Exec(Init, run).actions;
      var xs := Sample(rows, rows[id].agent, field);
      LimitHit(r, db).Some? <==>
        Anomalous(rows[id].payload.keys[field], Summarize(xs), sd, r.kind.threshold.GetOr(2.0))
  {
    var field, rows := r.kind.field.GetOr("amount"), Exec(Init, run).actions;
    var xs := Sample(rows, rows[id].agent, field);
    HistogramHitIff(r, db, rows[id].payload.keys[field], Summarize(xs), sd);
  }

  /** And then, with no rule denying, the live pass refuses the action. */
  lemma DeviantIsRefused(run: seq<Event>, id: Id, ps: seq<Policy>, p: Policy, r: Rule, i: Input, env: Env, db: Reads,
                         sd: real)
    requires Legal(Init, run) && r.kind.HistogramTrend? && p in ps && r in p.rules.GetOr([])
    requires var field, s := r.kind.field.GetOr("amount"), Exec(Init, run);
      && EvaluatesOver(s, id, field, db) && HistoryRead(s.actions, id, field).Some?
      && sd >= 0.0 && sd * sd == Variance(Summarize(Sample(s.actions, s.actions[id].agent, field)))
      && Anomalous(s.actions[id].payload.keys[field], Summarize(Sample(s.actions, s.actions[id].agent, field)), sd,
                   r.kind.threshold.GetOr(2.0))
    ensures Evaluate(ps, i, env, db, false).denial.Some?
  {
    DeviationIsHitIff(run, id, r, db, sd);
    EvaluateAllowsIff(ps, i, env, db);
  }

  // ---------- plain names ----------

  /** A name that stands for itself in a JSON path. */
  predicate PlainName(field: string) {
    field != "" && forall c :: c in field ==> 'a' <= c <= 'z' || 'A' <= c <= 'Z' || '0' <= c <= '9' || c == '_'
  }

  /**
   A numeric member with a plain name is what the path of that name extracts, as it is when no
   member occurs twice.
   */
  predicate PathsFollowKeys(p: Payload) {
    p.Json? ==> forall f :: f in p.keys && PlainName(f) ==> f in p.paths && p.paths[f] == p.keys[f]
  }

  /** What is claimed has left `pending` for good, even if an override has moved it since. */
  ghost predicate ClaimedIsQueried(s: State) {
    var stage := s.processor.stage;
    stage.Claimed? || stage.Judged? ==> stage.id < |s.actions| && s.actions[stage.id].status != Pending
  }

  lemma {:induction false} RunKeepsClaimedQueried(s: State, run: seq<Event>)
    requires Inv(s) && ClaimedIsQueried(s) && Legal(s, run)
    ensures ClaimedIsQueried(Exec(s, run))
    decreases |run|
  {
    if run != [] {
      RunKeepsClaimedQueried(s, run[..|run| - 1]);
      RunKeepsInv(s, run[..|run| - 1]);
      StepKeepsClaimedQueried(Exec(s, run[..|run| - 1]), run[|run| - 1]);
    }
  }

  lemma StepKeepsClaimedQueried(s: State, e: Event)
    requires Inv(s) && ClaimedIsQueried(s) && Enabled(s, e)
    ensures ClaimedIsQueried(Apply(s, e))
  {
  }

  /** The state in which the processor evaluates an action, and what the history query then answers. */
  ghost predicate EvaluatesOver(s: State, id: Id, field: string, db: Reads) {
    s.processor.stage == Claimed(id) && id < |s.actions| && db.history(field) == HistoryRead(s.actions, id, field)
  }

  /** In every reachable state, a plain field's value under test is a member of the sample it is held against. */
  lemma TestedValueIsInSample(run: seq<Event>, id: Id, field: string) returns (k: nat)
    requires Legal(Init, run) && Exec(Init, run).processor.stage == Claimed(id) && id < |Exec(Init, run).actions|
    requires PlainName(field) && PathsFollowKeys(Exec(Init, run).actions[id].payload)
    requires HistoryRead(Exec(Init, run).actions, id, field).Some?
    ensures var rows := Exec(Init, run).actions;
      var xs := Sample(rows, rows[id].agent, field);
      k < |xs| && HistoryRead(rows, id, field) == Some((xs[k], Summarize(xs)))
  {
    RunKeepsClaimedQueried(Init, run);
    var rows := Exec(Init, run).actions;
    k := InSample(rows, id, rows[id].agent, field);
  }

  /**
   So over every run, interleaved however, the rule on a plain field never denies an action whose
   agent has at most five, or at most threshold^2 + 1, numbers on record.
   */
  lemma ShortHistoryIsNeverDenied(run: seq<Event>, id: Id, r: Rule, db: Reads)
    requires Legal(Init, run) && r.kind.HistogramTrend? && r.kind.threshold.GetOr(2.0) >= 0.0
    requires var field, s := r.kind.field.GetOr("amount"), Exec(Init, run);
      && PlainName(field) && EvaluatesOver(s, id, field, db) && PathsFollowKeys(s.actions[id].payload)
      && Short(Sample(s.actions, s.actions[id].agent, field), r.kind.threshold.GetOr(2.0))
    ensures LimitHit(r, db).None?
  {
    var field, rows := r.kind.field.GetOr("amount"), Exec(Init, run).actions;
    if HistoryRead(rows, id, field).Some? {
      var k := TestedValueIsInSample(run, id, field);
      MemberIsNeverDenied(Sample(rows, rows[id].agent, field), k, r, db);
    } else {
      NothingReadNothingDenied(r, db);
    }
  }

  predicate Short(xs: seq<real>, threshold: real) {
    |xs| <= 5 || (|xs| - 1) as real <= threshold * threshold
  }

  lemma MemberIsNeverDenied(xs: seq<real>, k: nat, r: Rule, db: Reads)
    requires r.kind.HistogramTrend? && r.kind.threshold.GetOr(2.0) >= 0.0
    requires k < |xs| && Short(xs, r.kind.threshold.GetOr(2.0))
    requires db.history(r.kind.field.GetOr("amount")) == Some((xs[k], Summarize(xs)))
    ensures LimitHit(r, db).None?
  {
    if |xs| > 5 { NeverDeviates(xs, k, r.kind.threshold.GetOr(2.0)); }
  }

  lemma NothingReadNothingDenied(r: Rule, db: Reads)
    requires r.kind.HistogramTrend? && db.history(r.kind.field.GetOr("amount")) == None
    ensures LimitHit(r, db).None?
  {
  }

  // ---------- other names ----------

  /** Outside its own sample a value can be denied on any varied history of more than five rows. */
  lemma OutsiderDeviates(s: Summary, threshold: real)
    requires s.count > 5 && Variance(s) > 0.0 && threshold >= 0.0
    ensures Deviates(s.avg + (threshold + 1.0) * (Variance(s) + 1.0), s, threshold)
  {
    var v := Variance(s);
    OutsiderGap(threshold, v);
    var gap := (threshold + 1.0) * (v + 1.0);
    assert (s.avg + gap) - s.avg == gap;
  }

  lemma OutsiderGap(t: real, v: real)
    requires t >= 0.0 && v > 0.0
    ensures ((t + 1.0) * (v + 1.0)) * ((t + 1.0) * (v + 1.0)) > t * t * v
  {
    var a, b := (t + 1.0) * (t + 1.0), (v + 1.0) * (v + 1.0);
    assert a == t * t + 2.0 * t + 1.0 && b == v * v + 2.0 * v + 1.0;
    assert ((t + 1.0) * (v + 1.0)) * ((t + 1.0) * (v + 1.0)) == a * b;
    assert a * b >= a * v by { assert b > v; Scale(a, v, b); }
    assert a * v > t * t * v by { assert a > t * t; Scale(v, t * t, a); }
  }

  lemma Scale(c: real, x: real, y: real)
    requires c > 0.0 && x < y
    ensures c * x < c * y && x * c < y * c
  {
    assert c * (y - x) > 0.0;
  }

  /** The row with its members changed and what paths extract left alone, as a dotted name allows. */
  function WithKey(row: Action, field: string, value: real): Action
    requires row.payload.Json?
  {
    row.(payload := row.payload.(keys := row.payload.keys[field := value]))
  }

  /**
   A field such as "order.total" names one member and another path, so the value under test need
   not be in the sample, and the bound fails: on every varied history of more than five numbers
   some payload is denied, however high the threshold.
   */
  lemma DottedFieldEscapesBound(rows: seq<Action>, id: Id, field: string, threshold: real) returns (value: real)
    requires id < |rows| && rows[id].payload.Json? && HistoryReadable(rows, rows[id].agent) && threshold >= 0.0
    requires var xs := Sample(rows, rows[id].agent, field);
      |xs| > 5 && Variance(Summarize(xs)) > 0.0
    ensures var h := HistoryRead(rows[id := WithKey(rows[id], field, value)], id, field);
      h.Some? && Deviates(h.value.0, h.value.1, threshold)
  {
    var s := Summarize(Sample(rows, rows[id].agent, field));
    value := s.avg + (threshold + 1.0) * (Variance(s) + 1.0);
    OutsiderDeviates(s, threshold);
    SampleAlike(rows, rows[id := WithKey(rows[id], field, value)], rows[id].agent, field);
  }
}
