/** What every reachable state of the lifecycle keeps, and what follows for whole runs. */
module LifecycleSafety {
  import opened Common
  import opened Lifecycle

  /** The verdicts recorded in the audit trail, oldest first. */
  function Issued(audit: seq<Entry>): seq<Verdict> {
    if audit == [] then []
    else
      var last := audit[|audit| - 1];
      Issued(audit[..|audit| - 1]) + if last.VerdictIssued? then [last.verdict] else []
  }

  lemma IssuedAppend(audit: seq<Entry>, e: Entry)
    ensures Issued(audit + [e]) == Issued(audit) + if e.VerdictIssued? then [e.verdict] else []
  {
    assert (audit + [e])[..|audit|] == audit;
  }

  ghost predicate VerdictsInv(s: State) {
    && (forall v :: v in s.verdicts ==> v.action < |s.actions|)
    && (forall i, j :: 0 <= i < j < |s.verdicts| ==>
          s.verdicts[i].action != s.verdicts[j].action && s.verdicts[i].id != s.verdicts[j].id)
    && Issued(s.audit) == s.verdicts
  }

  ghost predicate StatusInv(rows: seq<Action>, vs: seq<Verdict>) {
    forall id :: 0 <= id < |rows| ==>
      && (rows[id].status in {Pending, Processing} ==> !HasVerdict(vs, id))
      && (rows[id].status in {Forwarded, ForwardFailed} ==> HasDecision(vs, id, Approve) && rows[id].hasTarget)
  }

  ghost predicate ProcessorInv(p: Processor, rows: seq<Action>, vs: seq<Verdict>) {
    && (forall k :: 0 <= k < |p.queue| ==> p.queue[k] < |rows| && !HasVerdict(vs, p.queue[k]))
    && (forall j, k :: 0 <= j < k < |p.queue| ==> p.queue[j] != p.queue[k])
    && (!p.stage.Idle? ==> p.stage.id < |rows| && p.stage.id !in p.queue)
    && (p.stage.Seen? || p.stage.Claimed? || p.stage.Judged? ==> !HasVerdict(vs, p.stage.id))
    && (p.stage.Saved? ==> HasDecision(vs, p.stage.id, p.stage.decision))
  }

  ghost predicate ForwardInv(s: State) {
    && (forall h :: h in s.windows ==> s.windows[h].id < |s.actions| && s.actions[s.windows[h].id].hasTarget)
    && (forall h :: h in s.windows && s.windows[h].cleared ==> HasDecision(s.verdicts, s.windows[h].id, Approve))
    && (forall h :: h in s.inFlight ==>
          s.inFlight[h] < |s.actions| && s.actions[s.inFlight[h]].hasTarget
              && HasDecision(s.verdicts, s.inFlight[h], Approve))
    && (forall id :: id in s.settled ==> HasDecision(s.verdicts, id, Approve))
  }

  ghost predicate ReviewInv(s: State) {
    forall a :: a in s.reviews ==> s.reviews[a].id < |s.actions|
  }

  ghost predicate Inv(s: State) {
    && VerdictsInv(s)
    && StatusInv(s.actions, s.verdicts)
    && ProcessorInv(s.processor, s.actions, s.verdicts)
    && ForwardInv(s)
    && ReviewInv(s)
  }

  lemma AppendVerdict(vs: seq<Verdict>, v: Verdict)
    ensures forall id :: HasVerdict(vs + [v], id) <==> HasVerdict(vs, id) || id == v.action
    ensures forall id, d :: HasDecision(vs + [v], id, d) <==>
              HasDecision(vs, id, d) || (id == v.action && d == v.decision)
  {
    forall id ensures HasVerdict(vs + [v], id) <==> HasVerdict(vs, id) || id == v.action {
      assert v in vs + [v];
      if HasVerdict(vs, id) {
        var w :| w in vs && w.action == id;
        assert w in vs + [v];
      }
    }
    forall id, d ensures HasDecision(vs + [v], id, d) <==>
        HasDecision(vs, id, d) || (id == v.action && d == v.decision) {
      assert v in vs + [v];
      if HasDecision(vs, id, d) {
        var w :| w in vs && w.action == id && w.decision == d;
        assert w in vs + [v];
      }
    }
  }

  /** A status write leaves everything a forward request relies on. */
  lemma StatusKeepsForwardInv(s: State, e: Event)
    requires ForwardInv(s) && Enabled(s, e)
    requires e.Claim? || e.ErrorDeny? || e.Expire? || e.Bulk? || e.Overwrite?
    ensures ForwardInv(Apply(s, e))
  {
    var t := Apply(s, e);
    assert forall id :: 0 <= id < |s.actions| ==> t.actions[id].hasTarget == s.actions[id].hasTarget;
  }

  lemma DecisionIsVerdict(vs: seq<Verdict>, id: Id, d: Decision)
    ensures HasDecision(vs, id, d) ==> HasVerdict(vs, id)
  {
  }

  /** At most one verdict per action: a second decision on the same action is the same decision. */
  lemma OneDecision(s: State, id: Id, d: Decision, e: Decision)
    requires VerdictsInv(s) && HasDecision(s.verdicts, id, d) && HasDecision(s.verdicts, id, e)
    ensures d == e
  {
    var v :| v in s.verdicts && v.action == id && v.decision == d;
    var w :| w in s.verdicts && w.action == id && w.decision == e;
    var i :| 0 <= i < |s.verdicts| && s.verdicts[i] == v;
    var j :| 0 <= j < |s.verdicts| && s.verdicts[j] == w;
    assert i == j;
  }

  lemma CommitKeepsInv(s: State, vid: nat, d: Decision)
    requires Inv(s) && Enabled(s, Commit(vid, d))
    ensures Inv(Apply(s, Commit(vid, d)))
  {
    var v := Verdict(vid, s.processor.stage.id, d);
    IssuedAppend(s.audit, VerdictIssued(v));
    DistinctVerdicts(s.verdicts, v);
    CommitStatuses(s.actions, s.verdicts, v);
    CommitKeepsForwardInv(s, vid, d);
    AppendVerdict(s.verdicts, v);
  }

  lemma CommitKeepsForwardInv(s: State, vid: nat, d: Decision)
    requires ForwardInv(s) && Enabled(s, Commit(vid, d))
    ensures ForwardInv(Apply(s, Commit(vid, d)))
  {
    AppendVerdict(s.verdicts, Verdict(vid, s.processor.stage.id, d));
  }

  lemma DistinctVerdicts(vs: seq<Verdict>, v: Verdict)
    requires forall i, j :: 0 <= i < j < |vs| ==> vs[i].action != vs[j].action && vs[i].id != vs[j].id
    requires !HasVerdict(vs, v.action) && FreshVerdictId(vs, v.id)
    ensures var t := vs + [v];
      forall i, j :: 0 <= i < j < |t| ==> t[i].action != t[j].action && t[i].id != t[j].id
  {
    forall i | 0 <= i < |vs| ensures vs[i].action != v.action && vs[i].id != v.id {
      assert vs[i] in vs;
    }
  }

  lemma CommitStatuses(rows: seq<Action>, vs: seq<Verdict>, v: Verdict)
    requires StatusInv(rows, vs) && !HasVerdict(vs, v.action) && v.action < |rows|
    ensures StatusInv(WithStatus(rows, v.action, StatusOf(v.decision)), vs + [v])
  {
    AppendVerdict(vs, v);
    DecisionIsVerdict(vs, v.action, Approve);
  }

  /** A write of an ordinary status, or a claim of a row without a verdict. */
  lemma SetStatusKeepsInv(s: State, id: Id, status: Status)
    requires Inv(s) && id < |s.actions|
    requires status !in {Pending, Forwarded, ForwardFailed}
    requires status == Processing ==> !HasVerdict(s.verdicts, id)
    ensures StatusInv(WithStatus(s.actions, id, status), s.verdicts)
  {
  }

  /** The denial after an error never touches an action whose approval has been saved. */
  lemma ErrorDenyKeepsInv(s: State)
    requires Inv(s) && Enabled(s, ErrorDeny)
    ensures Inv(Apply(s, ErrorDeny))
    ensures !HasDecision(s.verdicts, InHand(s.processor).value, Approve)
  {
    SetStatusKeepsInv(s, InHand(s.processor).value, Denied);
    StatusKeepsForwardInv(s, ErrorDeny);
    InHandIsUnapproved(s);
  }

  lemma InHandIsUnapproved(s: State)
    requires VerdictsInv(s) && ProcessorInv(s.processor, s.actions, s.verdicts) && Enabled(s, ErrorDeny)
    ensures !HasDecision(s.verdicts, InHand(s.processor).value, Approve)
  {
    var id := InHand(s.processor).value;
    DecisionIsVerdict(s.verdicts, id, Approve);
    if s.processor.stage.Saved? && HasDecision(s.verdicts, id, Approve) {
      OneDecision(s, id, Approve, s.processor.stage.decision);
    }
  }

  lemma ClaimKeepsInv(s: State)
    requires Inv(s) && Enabled(s, Claim)
    ensures Inv(Apply(s, Claim))
  {
    SetStatusKeepsInv(s, s.processor.stage.id, Processing);
    StatusKeepsForwardInv(s, Claim);
  }

  lemma BulkKeepsInv(s: State, id: Id)
    requires Inv(s) && Enabled(s, Bulk(id))
    ensures Inv(Apply(s, Bulk(id)))
  {
    IssuedAppend(s.audit, Note(Some(id), OverrideNote(AdminBulk)));
    SetStatusKeepsInv(s, id, Approved);
    StatusKeepsForwardInv(s, Bulk(id));
  }

  /** However stale its test has become. */
  lemma OverwriteKeepsInv(s: State, a: Admin)
    requires Inv(s) && Enabled(s, Overwrite(a))
    ensures Inv(Apply(s, Overwrite(a)))
  {
    var r := s.reviews[a];
    IssuedAppend(s.audit, Note(Some(r.id), OverrideNote(r.route)));
    SetStatusKeepsInv(s, r.id, r.to);
    StatusKeepsForwardInv(s, Overwrite(a));
  }

  lemma ReviewKeepsInv(s: State, e: Event)
    requires Inv(s) && Enabled(s, e) && (e.Open? || e.Close?)
    ensures Inv(Apply(s, e))
  {
  }

  lemma SubmitKeepsInv(s: State, row: Action)
    requires Inv(s) && Enabled(s, Submit(row))
    ensures Inv(Apply(s, Submit(row)))
  {
    IssuedAppend(s.audit, Note(Some(|s.actions|), "action_created"));
    DecisionIsVerdict(s.verdicts, |s.actions|, Approve);
  }

  /** Reading, judging, finishing and giving up change no row. */
  lemma ProcessorStepKeepsInv(s: State, e: Event)
    requires Inv(s) && Enabled(s, e)
    requires e.Select? || e.Read? || e.Judge? || e.Finish? || e.Abandon?
    ensures Inv(Apply(s, e))
  {
    ProcessorMoves(s.processor, s.actions, s.verdicts, Apply(s, e).processor);
  }

  /** Taking a batch, taking its head, or letting go. */
  lemma ProcessorMoves(p: Processor, rows: seq<Action>, vs: seq<Verdict>, q: Processor)
    requires ProcessorInv(p, rows, vs) && StatusInv(rows, vs)
    requires q.queue == p.queue || q.queue == []
          || (p.queue != [] && q.queue == p.queue[1..])
          || (q.stage.Idle?
              && (forall k :: 0 <= k < |q.queue| ==> q.queue[k] < |rows| && rows[q.queue[k]].status == Pending)
              && forall j, k :: 0 <= j < k < |q.queue| ==> q.queue[j] != q.queue[k])
    requires q.stage.Idle?
          || (q.stage.Seen? && p.queue != [] && q.stage.id == p.queue[0] && q.queue == p.queue[1..])
          || (q.stage.Judged? && p.stage.Claimed? && q.stage.id == p.stage.id && q.queue == p.queue)
    ensures ProcessorInv(q, rows, vs)
  {
  }

  lemma ExpireKeepsInv(s: State, cutoff: string)
    requires Inv(s) && Enabled(s, Expire(cutoff))
    ensures Inv(Apply(s, Expire(cutoff)))
  {
    StatusKeepsForwardInv(s, Expire(cutoff));
  }

  lemma SendKeepsInv(s: State, e: Event)
    requires Inv(s) && Enabled(s, e)
    requires e.Begin? || e.End?
    ensures Inv(Apply(s, e))
  {
    var id := if e.Begin? then s.windows[e.handler].id else s.inFlight[e.handler];
    assert HasDecision(s.verdicts, id, Approve);
    SentStatusKeepsInv(s.actions, s.verdicts, id, if e.Begin? then Forwarded else ForwardFailed);
    SentKeepsForwardInv(s, e);
  }

  lemma SentKeepsForwardInv(s: State, e: Event)
    requires ForwardInv(s) && Enabled(s, e) && (e.Begin? || e.End?)
    ensures ForwardInv(Apply(s, e))
  {
  }

  /** Marking a row as sent, when an approved verdict covers it. */
  lemma SentStatusKeepsInv(rows: seq<Action>, vs: seq<Verdict>, id: Id, status: Status)
    requires StatusInv(rows, vs) && id < |rows| && HasDecision(vs, id, Approve) && rows[id].hasTarget
    requires status in {Forwarded, ForwardFailed}
    ensures StatusInv(WithStatus(rows, id, status), vs)
  {
  }

  /** The reads of a forward request change no row. */
  lemma WindowKeepsInv(s: State, e: Event)
    requires Inv(s) && Enabled(s, e)
    requires e.Look? || e.Weigh? || e.Drop?
    ensures Inv(Apply(s, e))
  {
  }

  lemma StepKeepsInv(s: State, e: Event)
    requires Inv(s) && Enabled(s, e)
    ensures Inv(Apply(s, e))
  {
    match e
    case Submit(row) => SubmitKeepsInv(s, row);
    case Select(_) => ProcessorStepKeepsInv(s, e);
    case Read => ProcessorStepKeepsInv(s, e);
    case Claim => ClaimKeepsInv(s);
    case Judge(_) => ProcessorStepKeepsInv(s, e);
    case Commit(vid, d) => CommitKeepsInv(s, vid, d);
    case Finish => ProcessorStepKeepsInv(s, e);
    case ErrorDeny => ErrorDenyKeepsInv(s);
    case Abandon => ProcessorStepKeepsInv(s, e);
    case Expire(cutoff) => ExpireKeepsInv(s, cutoff);
    case Bulk(id) => BulkKeepsInv(s, id);
    case Open(_, _, _, _) => ReviewKeepsInv(s, e);
    case Overwrite(a) => OverwriteKeepsInv(s, a);
    case Close(_) => ReviewKeepsInv(s, e);
    case Look(_, _) => WindowKeepsInv(s, e);
    case Weigh(_) => WindowKeepsInv(s, e);
    case Begin(_) => SendKeepsInv(s, e);
    case End(_, _) => SendKeepsInv(s, e);
    case Drop(_) => WindowKeepsInv(s, e);
    case Log(entry) => IssuedAppend(s.audit, entry);
  }

  lemma {:induction false} RunKeepsInv(s: State, run: seq<Event>)
    requires Inv(s) && Legal(s, run)
    ensures Inv(Exec(s, run))
    decreases |run|
  {
    if run != [] {
      RunKeepsInv(s, run[..|run| - 1]);
      StepKeepsInv(Exec(s, run[..|run| - 1]), run[|run| - 1]);
    }
  }
}
