/**
 The handlers and the processor as they run, each a method on the shared tables. The tables
 carry the run of lifecycle events that produced them, so what is proved of runs holds of every
 table these methods build. A method here runs without interference; the lifecycle interleaves
 the same events freely.
 */
module Server {
  import opened Common
  import opened Lifecycle
  import opened LifecycleSafety
  import opened RunSafety
  import opened Strings
  import opened Egress
  import Pipeline
  import Policies
  import Queue
  import ForwardLoop

  /** Which database statement of process_action fails, if any; OnEvaluate is any between claim and verdict. */
  datatype Fault = NoFault | OnRead | OnClaim | OnNote | OnEvaluate | OnSave | OnWebhook

  /** One turn of the batch loop: the world it is judged in and what goes wrong. */
  datatype Turn = Turn(world: Pipeline.World, verdictId: nat, fault: Fault, denyWorks: bool, shutdown: bool)

  datatype CreateReply =
    | EmptyIntent | ScreenshotTooLarge | RefusedTarget(reason: string)
    | Existing(id: Id, shown: Status) | Created(id: Id)

  /** Ten mebibytes of base64 text. */
  const MAX_SCREENSHOT := 10 * 1024 * 1024

  datatype ForwardReply =
    | NotFound | Forbidden | NoVerdictYet | AlreadyForwarded | NoTarget
    | BadTarget(reason: string) | DeniedByVerdict | NeedsReview
    | Relayed(status: int, attempts: int) | RelayFailed(error: string)

  datatype BulkReply = Refused | Broken(at: nat) | Done(count: nat)

  datatype OverrideReply = BadRequest | UnknownAction | NotOverridable | Overridden

  /** What the pipeline decides in this world, kept folded like `Reaches`. */
  ghost predicate IsOpinion(d: Decision, w: Pipeline.World) {
    forall v :: v == w ==> d == Pipeline.Judge(v).decision
  }

  ghost predicate AreOpinions(ds: seq<Decision>, turns: seq<Turn>) {
    |ds| == |turns| && forall k :: 0 <= k < |ds| ==> IsOpinion(ds[k], turns[k].world)
  }

  /** Whether process_action returns an error. The agent's webhook is looked up only for a refusal. */
  predicate Fails(fault: Fault, d: Decision) {
    fault != NoFault && !(fault == OnWebhook && d == Approve)
  }

  predicate Saves(fault: Fault) {
    fault in {NoFault, OnWebhook}
  }

  /** The status process_action leaves on a pending row. */
  function Left(fault: Fault, d: Decision): Status {
    match fault
    case OnRead => Pending
    case OnClaim => Pending
    case OnNote => Processing
    case OnEvaluate => Processing
    case OnSave => Processing
    case _ => StatusOf(d)
  }

  /** The status after the whole turn: an error denies the row, unless that statement fails too. */
  function AfterTurn(t: Turn, d: Decision): Status {
    if Fails(t.fault, d) && t.denyWorks then Denied else Left(t.fault, d)
  }

  /** The batch loop goes on after this turn: no shutdown before it, and no denial that failed. */
  predicate Continues(t: Turn, d: Decision) {
    !t.shutdown && (Fails(t.fault, d) ==> t.denyWorks)
  }

  /** What one turn does to the tables: the status it leaves and the verdict row it inserts, if any. */
  datatype Mark = Mark(status: Status, verdict: seq<Verdict>)

  function MarkOf(id: Id, t: Turn, d: Decision): Mark {
    Mark(AfterTurn(t, d), if Saves(t.fault) then [Verdict(t.verdictId, id, d)] else [])
  }

  function Marks(batch: seq<Id>, turns: seq<Turn>, ds: seq<Decision>): seq<Mark>
    requires |batch| == |turns| == |ds|
  {
    seq(|batch|, i requires 0 <= i < |batch| => MarkOf(batch[i], turns[i], ds[i]))
  }

  /** The verdict rows the first k turns insert, in order. */
  ghost function Inserted(marks: seq<Mark>, k: nat): seq<Verdict>
    requires k <= |marks|
  {
    if k == 0 then [] else Inserted(marks, k - 1) + marks[k - 1].verdict
  }

  /** The rows after the first k turns. */
  ghost function RowsAfter(rows: seq<Action>, batch: seq<Id>, marks: seq<Mark>, k: nat): (r: seq<Action>)
    requires Waiting(rows, batch) && k <= |batch| == |marks|
    ensures |r| == |rows|
  {
    if k == 0 then rows else WithStatus(RowsAfter(rows, batch, marks, k - 1), batch[k - 1], marks[k - 1].status)
  }

  /** The run `after` continues `before` with steps of the processor only. */
  ghost predicate Continued(before: seq<Event>, after: seq<Event>) {
    before <= after && forall k :: |before| <= k < |after| ==> Queue.Steady(after[k])
  }

  /** The same, kept folded like `Reaches`. */
  ghost predicate Steadily(before: seq<Event>, after: seq<Event>) {
    forall r :: r == after ==> Continued(before, r)
  }

  lemma SteadyStep(before: seq<Event>, after: seq<Event>, e: Event)
    requires (before == after || Steadily(before, after)) && Queue.Steady(e)
    ensures Steadily(before, after + [e])
  {
    assert Continued(before, after);
  }

  lemma SteadyChain(a: seq<Event>, b: seq<Event>, c: seq<Event>)
    requires Steadily(a, b) && (b == c || Steadily(b, c))
    ensures Steadily(a, c)
  {
    assert Continued(a, b) && Continued(b, c);
  }

  lemma SteadyStart(a: seq<Event>)
    ensures Steadily(a, a)
  {
    assert Continued(a, a);
  }

  /** Among the new events, a judgement is this one, made on these rows with the action claimed. */
  ghost predicate JudgedAt(run: seq<Event>, k: nat, id: Id, rows: seq<Action>, refused: bool)
    requires k < |run|
  {
    && Legal(Init, run[..k]) && Queue.Steady(run[k]) && !run[k].Bulk? && !run[k].Overwrite?
    && (run[k].Judge? ==>
          && run[k].deny == refused
          && Exec(Init, run[..k]).processor.stage == Claimed(id) && Exec(Init, run[..k]).actions == rows)
  }

  ghost predicate AllJudgedAs(before: seq<Event>, after: seq<Event>, id: Id, rows: seq<Action>, refused: bool) {
    before <= after && forall k :: |before| <= k < |after| ==> JudgedAt(after, k, id, rows, refused)
  }

  /** The same, kept folded like `Reaches`. */
  ghost predicate JudgedAs(before: seq<Event>, after: seq<Event>, id: Id, rows: seq<Action>, refused: bool) {
    forall r :: r == after ==> AllJudgedAs(before, r, id, rows, refused)
  }

  lemma JudgedStart(run: seq<Event>, id: Id, rows: seq<Action>, refused: bool)
    ensures JudgedAs(run, run, id, rows, refused)
  {
    assert AllJudgedAs(run, run, id, rows, refused);
  }

  lemma JudgedStep(before: seq<Event>, after: seq<Event>, s: State, e: Event, id: Id, rows: seq<Action>, refused: bool)
    requires JudgedAs(before, after, id, rows, refused) && Reaches(after, s)
    requires Queue.Steady(e) && !e.Bulk? && !e.Overwrite?
    requires e.Judge? ==> e.deny == refused && s.processor.stage == Claimed(id) && s.actions == rows
    ensures JudgedAs(before, after + [e], id, rows, refused)
  {
    assert AllJudgedAs(before, after, id, rows, refused);
    ReachesMeans(after, s);
    var longer := after + [e];
    forall k | |before| <= k < |longer| ensures JudgedAt(longer, k, id, rows, refused) {
      assert longer[..k] == if k < |after| then after[..k] else after;
      assert k < |after| ==> JudgedAt(after, k, id, rows, refused);
    }
  }

  lemma JudgedChain(a: seq<Event>, b: seq<Event>, c: seq<Event>, id: Id, rows: seq<Action>, refused: bool)
    requires JudgedAs(a, b, id, rows, refused) && JudgedAs(b, c, id, rows, refused)
    ensures JudgedAs(a, c, id, rows, refused)
  {
    assert AllJudgedAs(a, b, id, rows, refused) && AllJudgedAs(b, c, id, rows, refused);
    forall k | |a| <= k < |c| ensures JudgedAt(c, k, id, rows, refused) {
      if k < |b| {
        assert JudgedAt(b, k, id, rows, refused) && b[..k] == c[..k] && b[k] == c[k];
      }
    }
  }

  /** Where each turn ends: as judged, denied after an error, or where the error left it if that denial fails. */
  lemma TurnOutcomes(id: Id, t: Turn, d: Decision)
    ensures var m := MarkOf(id, t, d);
      && (t.fault == NoFault || (t.fault == OnWebhook && d == Approve) ==>
            && m.verdict == [Verdict(t.verdictId, id, d)]
            && (d == Approve ==> m.status == Approved) && (d == Deny ==> m.status == Denied)
            && (d == Escalate ==> m.status == Escalated))
      && (t.fault == OnWebhook ==> m.verdict == [Verdict(t.verdictId, id, d)])
      && (t.fault == OnWebhook && d != Approve && t.denyWorks ==> m.status == Denied)
      && (t.fault == OnWebhook && d == Escalate && !t.denyWorks ==> m.status == Escalated)
      && (t.fault in {OnRead, OnClaim, OnNote, OnEvaluate, OnSave} ==> m.verdict == [])
      && (t.fault in {OnRead, OnClaim, OnNote, OnEvaluate, OnSave} && t.denyWorks ==> m.status == Denied)
      && (t.fault in {OnRead, OnClaim} && !t.denyWorks ==> m.status == Pending)
      && (t.fault in {OnNote, OnEvaluate, OnSave} && !t.denyWorks ==> m.status == Processing)
    ensures Continues(t, d) <==>
              !t.shutdown && (t.denyWorks || t.fault == NoFault || (t.fault == OnWebhook && d == Approve))
  {
  }

  /** The first verdict row of an action, as `fetch_optional` finds it. */
  function FindVerdict(vs: seq<Verdict>, id: Id): Option<Decision> {
    if vs == [] then None
    else if vs[0].action == id then Some(vs[0].decision)
    else FindVerdict(vs[1..], id)
  }

  lemma {:induction false} FindVerdictMeans(vs: seq<Verdict>, id: Id)
    ensures FindVerdict(vs, id).Some? <==> HasVerdict(vs, id)
    ensures FindVerdict(vs, id).Some? ==> HasDecision(vs, id, FindVerdict(vs, id).value)
  {
    if vs != [] {
      FindVerdictMeans(vs[1..], id);
      assert forall v :: v in vs <==> v == vs[0] || v in vs[1..];
      assert vs[0] in vs;
    }
  }

  /** The run leads from empty tables to s. The quantifier keeps the definition of runs folded. */
  ghost predicate Reaches(run: seq<Event>, s: State) {
    forall r :: r == run ==> Legal(Init, r) && s == Exec(Init, r)
  }

  lemma Step(run: seq<Event>, s: State, e: Event)
    requires Reaches(run, s) && Enabled(s, e)
    ensures Reaches(run + [e], Apply(s, e))
  {
    assert Legal(Init, run) && s == Exec(Init, run);
    Snoc(Init, run, e);
  }

  lemma ReachesMeans(run: seq<Event>, s: State)
    ensures Reaches(run, s) <==> Legal(Init, run) && s == Exec(Init, run)
  {
    assert Reaches(run, s) ==> Legal(Init, run);
  }

  class Tables {
    var actions: seq<Action>
    var verdicts: seq<Verdict>
    var audit: seq<Entry>
    ghost var processor: Processor
    ghost var windows: map<Handler, Window>
    ghost var inFlight: map<Handler, Id>
    ghost var settled: set<Id>
    ghost var reviews: map<Admin, Review>
    ghost var run: seq<Event>

    ghost function View(): State
      reads this
    {
      State(actions, verdicts, audit, processor, windows, inFlight, settled, reviews)
    }

    /** These tables are where the run leads from empty tables. */
    ghost predicate Valid()
      reads this
    {
      Reaches(run, View())
    }

    constructor ()
      ensures Valid() && View() == Init
    {
      actions, verdicts, audit := [], [], [];
      processor, windows, inFlight, settled, reviews := Processor([], Idle), map[], map[], {}, map[];
      run := [];
    }

    /** The action an earlier request with this key created. */
    method FindByKey(agent: nat, key: Option<string>) returns (found: Option<Id>)
      ensures found.Some? ==> found.value < |actions| && HasKey(actions[found.value], agent, key)
      ensures found == None <==> KeyIsNew(actions, agent, key)
    {
      for k := 0 to |actions|
        invariant forall j :: 0 <= j < k ==> !HasKey(actions[j], agent, key)
      {
        if HasKey(actions[k], agent, key) { return Some(k); }
      }
      found := None;
    }

    /**
     The submit handler. `row` is the row it would insert. A repeated key answers with the action
     that is there and inserts nothing; so does a request that is refused.
     */
    method CreateAction(row: Action, intent: string, screenshot: Option<nat>, url: Option<string>,
                        parse: string -> Option<Url>)
      returns (reply: CreateReply)
      requires Valid() && row.status == Pending
      modifies this`actions, this`audit, this`run
      ensures Valid()
      ensures reply == EmptyIntent <==> Blank(intent)
      ensures reply == ScreenshotTooLarge <==> !Blank(intent) && screenshot.GetOr(0) > 10485760
      ensures reply.Existing? || reply.Created? <==>
                && !Blank(intent) && screenshot.GetOr(0) <= 10485760
                && (url.Some? ==> ParseTarget(parse, url.value).Ok?)
      ensures reply.Created? ==>
                && KeyIsNew(old(actions), row.agent, row.key) && reply.id == |old(actions)|
                && run == old(run) + [Submit(row)]
                && actions == old(actions) + [row] && audit == old(audit) + [Note(Some(reply.id), "action_created")]
                && (row.key.Some? ==> forall a :: a in old(actions) && a.agent == row.agent ==> a.key != row.key)
      ensures reply.Existing? ==>
                && reply.id < |old(actions)| && row.key.Some?
                && old(actions)[reply.id].agent == row.agent && old(actions)[reply.id].key == row.key
                && reply.shown == (var now := old(actions)[reply.id].status;
                                   if now == ForwardFailed then Pending else now)
      ensures !reply.Created? ==> View() == old(View()) && run == old(run)
    {
      TrimIsEmptyIff(intent);
      if Trim(intent) == [] { return EmptyIntent; }
      if screenshot.GetOr(0) > MAX_SCREENSHOT { return ScreenshotTooLarge; }
      if url.Some? {
        var target := ParseTarget(parse, url.value);
        if target.Err? { return RefusedTarget(target.error); }
      }
      var existing := FindByKey(row.agent, row.key);
      if existing.Some? {
        var status := actions[existing.value].status;
        // the table of the handler lacks forward_failed
        return Existing(existing.value, if status == ForwardFailed then Pending else status);
      }
      Step(run, View(), Submit(row));
      run := run + [Submit(row)];
      reply := Created(|actions|);
      audit := audit + [Note(Some(|actions|), "action_created")];
      actions := actions + [row];
    }

    method Record(subject: Option<Id>, kind: string)
      requires Valid()
      modifies this`audit, this`run
      ensures Valid() && run == old(run) + [Log(Note(subject, kind))]
      ensures audit == old(audit) + [Note(subject, kind)]
    {
      Step(run, View(), Log(Note(subject, kind)));
      run := run + [Log(Note(subject, kind))];
      audit := audit + [Note(subject, kind)];
    }

    // ---------- the statements of the processor ----------

    method ExpireStaleActions(cutoff: string)
      requires Valid() && processor == Processor([], Idle)
      modifies this`actions, this`run
      ensures Valid() && run == old(run) + [Expire(cutoff)]
      ensures actions == ExpireRows(old(actions), cutoff)
      ensures |actions| == |old(actions)| && forall id :: 0 <= id < |actions| ==>
                actions[id] == if old(actions)[id].status == Pending && Before(old(actions)[id].createdAt, cutoff)
                               then old(actions)[id].(status := Denied) else old(actions)[id]
    {
      Step(run, View(), Expire(cutoff));
      run := run + [Expire(cutoff)];
      var rows := ExpireLoop(actions, cutoff);
      actions := rows;
    }

    method ReadStatus(id: Id) returns (pending: bool)
      requires Valid() && processor.stage == Idle && processor.queue != [] && processor.queue[0] == id < |actions|
      modifies this`processor, this`run
      ensures Valid() && run == old(run) + [Read]
      ensures pending == (actions[id].status == Pending)
      ensures processor == Processor(old(processor.queue[1..]), if pending then Seen(id) else Idle)
    {
      Step(run, View(), Read);
      run := run + [Read];
      pending := actions[id].status == Pending;
      processor := Processor(processor.queue[1..], if pending then Seen(id) else Idle);
    }

    method ClaimRow(id: Id)
      requires Valid() && processor.stage == Seen(id) && id < |actions|
      modifies this`actions, this`processor, this`run
      ensures Valid() && run == old(run) + [Claim]
      ensures actions == WithStatus(old(actions), id, Processing)
      ensures processor == old(processor).(stage := Claimed(id))
    {
      Step(run, View(), Claim);
      run := run + [Claim];
      actions := WithStatus(actions, id, Processing);
      processor := processor.(stage := Claimed(id));
    }

    ghost method NoteJudgement(id: Id, deny: bool)
      requires Valid() && processor.stage == Claimed(id)
      modifies this`processor, this`run
      ensures Valid() && run == old(run) + [Judge(deny)]
      ensures processor == old(processor).(stage := Judged(id, deny))
    {
      Step(run, View(), Judge(deny));
      run := run + [Judge(deny)];
      processor := processor.(stage := Judged(id, deny));
    }

    /** The verdict row, the status and the audit entry, in one transaction. */
    method SaveVerdict(verdictId: nat, id: Id, d: Decision, ghost denied: bool)
      requires Valid() && processor.stage == Judged(id, denied) && id < |actions|
      requires (denied ==> d == Deny) && FreshVerdictId(verdicts, verdictId)
      modifies this`actions, this`verdicts, this`audit, this`processor, this`run
      ensures Valid() && run == old(run) + [Commit(verdictId, d)]
      ensures actions == WithStatus(old(actions), id, StatusOf(d))
      ensures verdicts == old(verdicts) + [Verdict(verdictId, id, d)]
      ensures audit == old(audit) + [VerdictIssued(Verdict(verdictId, id, d))]
      ensures processor == old(processor).(stage := Saved(id, d))
    {
      Step(run, View(), Commit(verdictId, d));
      run := run + [Commit(verdictId, d)];
      var v := Verdict(verdictId, id, d);
      verdicts := verdicts + [v];
      actions := WithStatus(actions, id, StatusOf(d));
      audit := audit + [VerdictIssued(v)];
      processor := processor.(stage := Saved(id, d));
    }

    ghost method FinishAction()
      requires Valid() && processor.stage.Saved?
      modifies this`processor, this`run
      ensures Valid() && run == old(run) + [Finish]
      ensures processor == old(processor).(stage := Idle)
    {
      Step(run, View(), Finish);
      run := run + [Finish];
      processor := processor.(stage := Idle);
    }

    method DenyOnError(id: Id)
      requires Valid() && DeniableAs(processor, id) && id < |actions|
      modifies this`actions, this`processor, this`run
      ensures Valid() && run == old(run) + [ErrorDeny]
      ensures actions == WithStatus(old(actions), id, Denied)
      ensures processor.stage == Idle
      ensures processor.queue == if old(processor.stage).Idle? then old(processor.queue)[1..] else old(processor.queue)
    {
      Step(run, View(), ErrorDeny);
      run := run + [ErrorDeny];
      actions := WithStatus(actions, id, Denied);
      processor := Processor(if processor.stage == Idle then processor.queue[1..] else processor.queue, Idle);
    }

    ghost method GiveUp()
      requires Valid()
      modifies this`processor, this`run
      ensures Valid() && run == old(run) + [Abandon]
      ensures processor == Processor([], Idle)
    {
      Step(run, View(), Abandon);
      run := run + [Abandon];
      processor := Processor([], Idle);
    }

    ghost method Take(batch: seq<Id>)
      requires Valid() && processor == Processor([], Idle)
      requires Waiting(actions, batch)
      modifies this`processor, this`run
      ensures Valid() && run == old(run) + [Select(batch)]
      ensures processor == Processor(batch, Idle)
    {
      Step(run, View(), Select(batch));
      run := run + [Select(batch)];
      processor := Processor(batch, Idle);
    }

    // ---------- process_action ----------

    /** Saving the verdict of a judged action. Afterwards only the webhook lookup of a refusal can fail. */
    method SaveJudged(id: Id, verdictId: nat, d: Decision, ghost denied: bool, fault: Fault, ghost rows: seq<Action>)
      returns (ok: bool)
      requires Valid() && processor.stage == Judged(id, denied) && id < |actions|
      requires (denied ==> d == Deny) && FreshVerdictId(verdicts, verdictId)
      requires fault in {NoFault, OnSave, OnWebhook} && actions[id].status == Processing
      modifies this`actions, this`verdicts, this`audit, this`processor, this`run
      ensures Valid() && Steadily(old(run), run)
      ensures JudgedAs(old(run), run, id, rows, denied)
      ensures ok == !Fails(fault, d)
      ensures actions == WithStatus(old(actions), id, Left(fault, d))
      ensures verdicts == old(verdicts) + if Saves(fault) then [Verdict(verdictId, id, d)] else []
      ensures ok ==> processor == Processor(old(processor.queue), Idle)
      ensures !ok ==> processor.queue == old(processor.queue) && DeniableAs(processor, id) && !processor.stage.Idle?
    {
      SteadyStart(run);
      JudgedStart(run, id, rows, denied);
      if fault == OnSave { return false; }
      JudgedStep(run, run, View(), Commit(verdictId, d), id, rows, denied);
      SaveVerdict(verdictId, id, d, denied);
      SteadyStep(old(run), old(run), Commit(verdictId, d));
      if fault == OnWebhook && d != Approve { return false; }
      SteadyStep(old(run), run, Finish);
      JudgedStep(old(run), run, View(), Finish, id, rows, denied);
      FinishAction();
      ok := true;
    }

    /** The claim and its audit entry. */
    method StartProcessing(id: Id, fault: Fault, ghost refused: bool) returns (ok: bool)
      requires Valid() && processor.stage == Seen(id) && id < |actions|
      modifies this`actions, this`audit, this`processor, this`run
      ensures Valid() && Steadily(old(run), run) && ok == (fault != OnNote)
      ensures JudgedAs(old(run), run, id, actions, refused)
      ensures actions == WithStatus(old(actions), id, Processing)
      ensures processor == old(processor).(stage := Claimed(id))
    {
      SteadyStep(run, run, Claim);
      ghost var rows := WithStatus(actions, id, Processing);
      JudgedStart(run, id, rows, refused);
      JudgedStep(run, run, View(), Claim, id, rows, refused);
      ClaimRow(id);
      if fault == OnNote { return false; }
      SteadyStep(old(run), run, Log(Note(Some(id), "processing_started")));
      JudgedStep(old(run), run, View(), Log(Note(Some(id), "processing_started")), id, rows, refused);
      Record(Some(id), "processing_started");
      ok := true;
    }

    /** Judges a claimed row: the policies and the providers, then the verdict. */
    method JudgeClaimed(id: Id, verdictId: nat, d: Decision, ghost denied: bool, fault: Fault) returns (ok: bool)
      requires Valid() && processor.stage == Claimed(id) && id < |actions| && actions[id].status == Processing
      requires (denied ==> d == Deny) && FreshVerdictId(verdicts, verdictId)
      requires fault in {NoFault, OnEvaluate, OnSave, OnWebhook}
      modifies this`actions, this`verdicts, this`audit, this`processor, this`run
      ensures Valid() && Steadily(old(run), run)
      ensures JudgedAs(old(run), run, id, old(actions), denied)
      ensures ok == !Fails(fault, d)
      ensures actions == WithStatus(old(actions), id, Left(fault, d))
      ensures verdicts == old(verdicts) + if Saves(fault) then [Verdict(verdictId, id, d)] else []
      ensures ok ==> processor == Processor(old(processor.queue), Idle)
      ensures !ok ==> processor.queue == old(processor.queue) && DeniableAs(processor, id) && !processor.stage.Idle?
    {
      SteadyStart(run);
      ghost var rows := actions;
      JudgedStart(run, id, rows, denied);
      if fault == OnEvaluate {
        SameStatus(actions, id, Processing);
        return false;
      }
      SteadyStep(run, run, Judge(denied));
      JudgedStep(run, run, View(), Judge(denied), id, rows, denied);
      NoteJudgement(id, denied);
      ghost var judged := run;
      ok := SaveJudged(id, verdictId, d, denied, fault, rows);
      SteadyChain(old(run), judged, run);
      JudgedChain(old(run), judged, run, id, rows, denied);
    }

    /** Claims and judges a row just read as pending, up to the first failing statement. */
    method JudgeSeen(id: Id, verdictId: nat, d: Decision, ghost denied: bool, fault: Fault) returns (ok: bool)
      requires Valid() && processor.stage == Seen(id) && id < |actions| && actions[id].status == Pending
      requires (denied ==> d == Deny) && FreshVerdictId(verdicts, verdictId)
      requires fault != OnRead
      modifies this`actions, this`verdicts, this`audit, this`processor, this`run
      ensures Valid() && Steadily(old(run), run)
      ensures JudgedAs(old(run), run, id, WithStatus(old(actions), id, Processing), denied)
      ensures ok == !Fails(fault, d)
      ensures actions == WithStatus(old(actions), id, Left(fault, d))
      ensures verdicts == old(verdicts) + if Saves(fault) then [Verdict(verdictId, id, d)] else []
      ensures ok ==> processor == Processor(old(processor.queue), Idle)
      ensures !ok ==> processor.queue == old(processor.queue) && DeniableAs(processor, id) && !processor.stage.Idle?
    {
      SteadyStart(run);
      JudgedStart(run, id, WithStatus(actions, id, Processing), denied);
      if fault == OnClaim {
        SameStatus(actions, id, Pending);
        return false;
      }
      ok := StartProcessing(id, fault, denied);
      if !ok { return false; }
      ghost var claimed := run;
      ok := JudgeClaimed(id, verdictId, d, denied, fault);
      SteadyChain(old(run), claimed, run);
      JudgedChain(old(run), claimed, run, id, WithStatus(old(actions), id, Processing), denied);
    }

    /** One action of the batch. On an error the caller denies it. */
    method ProcessAction(id: Id, turn: Turn, ghost d: Decision) returns (ok: bool)
      requires Valid() && processor.stage == Idle && processor.queue != [] && processor.queue[0] == id < |actions|
      requires IsOpinion(d, turn.world) && FreshVerdictId(verdicts, turn.verdictId)
      modifies this`actions, this`verdicts, this`audit, this`processor, this`run
      ensures Valid() && Steadily(old(run), run)
      ensures JudgedAs(old(run), run, id, WithStatus(old(actions), id, Processing), PoliciesRefuse(turn.world))
      ensures old(actions)[id].status == Pending ==>
                && ok == !Fails(turn.fault, d)
                && actions == WithStatus(old(actions), id, Left(turn.fault, d))
                && verdicts == old(verdicts) + MarkOf(id, turn, d).verdict
      ensures old(actions)[id].status != Pending ==>
                ok == (turn.fault != OnRead) && actions == old(actions) && verdicts == old(verdicts)
      ensures ok ==> processor == Processor(old(processor.queue)[1..], Idle)
      ensures !ok ==> DeniableAs(processor, id)
                      && processor.queue == if processor.stage == Idle then old(processor.queue)
                          else old(processor.queue)[1..]
    {
      SteadyStart(run);
      ghost var rows, refused := WithStatus(actions, id, Processing), PoliciesRefuse(turn.world);
      JudgedStart(run, id, rows, refused);
      if turn.fault == OnRead {
        SameStatus(actions, id, Pending);
        return false;
      }
      SteadyStep(run, run, Read);
      JudgedStep(run, run, View(), Read, id, rows, refused);
      var pending := ReadStatus(id);
      if !pending { return true; }
      var judgement := Pipeline.JudgeAction(turn.world);
      RefusalDenies(turn.world);
      ok := JudgeSeen(id, turn.verdictId, judgement.decision, refused, turn.fault);
      SteadyChain(old(run), old(run) + [Read], run);
      JudgedChain(old(run), old(run) + [Read], run, id, rows, refused);
    }

    // ---------- process_pending ----------

    /** The body of the batch loop: an error denies the row, and an error in that ends the loop. */
    method TakeTurn(id: Id, turn: Turn, ghost d: Decision) returns (ok: bool)
      requires Valid() && processor.stage == Idle && processor.queue != [] && processor.queue[0] == id < |actions|
      requires IsOpinion(d, turn.world) && FreshVerdictId(verdicts, turn.verdictId)
                 && actions[id].status == Pending && !turn.shutdown
      modifies this`actions, this`verdicts, this`audit, this`processor, this`run
      ensures Valid() && ok == Continues(turn, d)
      ensures actions == WithStatus(old(actions), id, MarkOf(id, turn, d).status)
      ensures verdicts == old(verdicts) + MarkOf(id, turn, d).verdict
      ensures ok ==> Steadily(old(run), run)
      ensures processor == Processor(if ok then old(processor.queue)[1..] else [], Idle)
    {
      ok := ProcessAction(id, turn, d);
      if !ok {
        if turn.denyWorks {
          SteadyStep(old(run), run, ErrorDeny);
          DenyOnError(id);
          ok := true;
        } else {
          GiveUp();
        }
      }
    }

    /** The loop body for action k, seen from the whole batch: unless shutdown stops it, one turn. */
    method OneTurn(batch: seq<Id>, turns: seq<Turn>, k: nat, ghost ds: seq<Decision>,
                   ghost rows: seq<Action>, ghost vs: seq<Verdict>, ghost start: seq<Event>)
      returns (taken: nat, more: bool)
      requires Valid() && k < |batch| == |turns| == |ds| && AllContinue(turns, ds, k)
      requires NewIds(vs, turns) && AreOpinions(ds, turns)
      requires processor == Processor(batch[k..], Idle) && Steadily(start, run)
      requires Progress(rows, vs, actions, verdicts, batch, Marks(batch, turns, ds), k)
      modifies this`actions, this`verdicts, this`audit, this`processor, this`run
      ensures Valid() && (taken == k || taken == k + 1)
      ensures processor == Processor(if more then batch[taken..] else [], Idle)
      ensures Progress(rows, vs, actions, verdicts, batch, Marks(batch, turns, ds), taken)
      ensures if more then taken == k + 1 && AllContinue(turns, ds, taken) && Steadily(start, run)
              else StopsAfter(turns, ds, taken, false)
    {
      if turns[k].shutdown {
        GiveUp();
        return k, false;
      }
      NextTurn(rows, vs, actions, verdicts, batch, turns, ds, k);
      taken := k + 1;
      more := TakeTurn(batch[k], turns[k], ds[k]);
      if more { SteadyChain(start, old(run), run); }
    }

    /**
     The batch loop. Afterwards every row whose turn was taken has the status of its turn, no other
     row has changed, and the verdict rows are exactly those the turns saved, in order.
     */
    method TakeTurns(batch: seq<Id>, turns: seq<Turn>, ghost ds: seq<Decision>) returns (taken: nat, finished: bool)
      requires Valid() && processor == Processor(batch, Idle) && Waiting(actions, batch)
      requires |turns| == |batch| && NewIds(verdicts, turns) && AreOpinions(ds, turns)
      modifies this`actions, this`verdicts, this`audit, this`processor, this`run
      ensures Valid() && processor == Processor([], Idle)
      ensures StopsAfter(turns, ds, taken, finished)
      ensures Progress(old(actions), old(verdicts), actions, verdicts, batch, Marks(batch, turns, ds), taken)
      ensures finished ==> taken == |batch| && Steadily(old(run), run)
    {
      taken, finished := 0, true;
      SteadyStart(run);
      while taken < |batch| && finished
        invariant taken <= |batch| && Valid()
        invariant processor == Processor(if finished then batch[taken..] else [], Idle)
        invariant Progress(old(actions), old(verdicts), actions, verdicts, batch, Marks(batch, turns, ds), taken)
        invariant finished ==> AllContinue(turns, ds, taken) && Steadily(old(run), run)
        invariant !finished ==> StopsAfter(turns, ds, taken, false)
        decreases |batch| - taken, finished
      {
        taken, finished := OneTurn(batch, turns, taken, ds, old(actions), old(verdicts), old(run));
      }
    }

    /** `batch` is what the batch query returned. */
    method ProcessPending(limit: nat, now: string, batch: seq<Id>, turns: seq<Turn>, ghost ds: seq<Decision>)
      returns (taken: nat, finished: bool)
      requires Valid() && processor == Processor([], Idle)
      requires Queue.IsBatch(actions, now, limit, batch) && |turns| == |batch|
      requires NewIds(verdicts, turns) && AreOpinions(ds, turns)
      modifies this`actions, this`verdicts, this`audit, this`processor, this`run
      ensures Valid() && processor == Processor([], Idle)
      ensures StopsAfter(turns, ds, taken, finished)
      ensures Progress(old(actions), old(verdicts), actions, verdicts, batch, Marks(batch, turns, ds), taken)
      ensures finished ==> taken == |batch| && Steadily(old(run) + [Select(batch)], run)
    {
      BatchIsWaiting(actions, now, limit, batch);
      Take(batch);
      taken, finished := TakeTurns(batch, turns, ds);
    }

    /** One tick of the processor: what it does is a tick of the queue, so the queue's laws hold of it. */
    method RunTick(cutoff: string, limit: nat, now: string, batch: seq<Id>, turns: seq<Turn>, ghost ds: seq<Decision>)
      returns (finished: bool, ghost trace: seq<Event>)
      requires Valid() && processor == Processor([], Idle)
      requires Queue.IsBatch(ExpireRows(actions, cutoff), now, limit, batch) && |turns| == |batch|
      requires NewIds(verdicts, turns) && AreOpinions(ds, turns)
      modifies this`actions, this`verdicts, this`audit, this`processor, this`run
      ensures Valid() && processor == Processor([], Idle)
      ensures finished ==> Queue.Tick(old(View()), trace, cutoff, now, limit, batch)
      ensures finished ==> View() == Exec(old(View()), [Expire(cutoff)] + [Select(batch)] + trace)
    {
      ExpireStaleActions(cutoff);
      var taken;
      taken, finished := ProcessPending(limit, now, batch, turns, ds);
      if finished {
        assert old(run) + [Expire(cutoff)] + [Select(batch)] == old(run) + ([Expire(cutoff)] + [Select(batch)]);
        trace := TickIsTick(old(run), old(View()), run, View(), cutoff, now, limit, batch);
      } else {
        trace := [];
      }
    }

    // ---------- forwarding ----------

    /** Every test of the forward handler, in its order; None when the request may be sent. */
    method CheckForward(agent: nat, id: Id, target: Result<Url, string>) returns (refusal: Option<ForwardReply>)
      requires Valid()
      ensures refusal == None <==> Sendable(View(), agent, id) && target.Ok?
      ensures refusal == Some(NotFound) <==> id >= |actions|
      ensures refusal == Some(Forbidden) <==> id < |actions| && actions[id].agent != agent
      ensures refusal == Some(NoVerdictYet) <==> Mine(View(), agent, id) && !HasVerdict(verdicts, id)
      ensures refusal == Some(AlreadyForwarded) <==>
                Mine(View(), agent, id) && HasVerdict(verdicts, id) && actions[id].status == Forwarded
      ensures refusal == Some(NoTarget) <==>
                Answerable(View(), agent, id) && !actions[id].hasTarget
      ensures refusal.Some? && refusal.value.BadTarget? <==>
                Answerable(View(), agent, id) && actions[id].hasTarget && target.Err?
      ensures refusal == Some(DeniedByVerdict) <==>
                Answerable(View(), agent, id) && actions[id].hasTarget && target.Ok? && HasDecision(verdicts, id, Deny)
      ensures refusal == Some(NeedsReview) <==>
                Answerable(View(), agent, id) && actions[id].hasTarget && target.Ok?
                    && HasDecision(verdicts, id, Escalate)
      ensures refusal.Some? ==> !refusal.value.Relayed? && !refusal.value.RelayFailed?
    {
      if id >= |actions| { return Some(NotFound); }
      if actions[id].agent != agent { return Some(Forbidden); }
      var verdict := FindVerdict(verdicts, id);
      FindVerdictMeans(verdicts, id);
      SoleDecision(run, View(), id);
      if verdict == None { return Some(NoVerdictYet); }
      if actions[id].status == Forwarded { return Some(AlreadyForwarded); }
      if !actions[id].hasTarget { return Some(NoTarget); }
      if target.Err? { return Some(BadTarget(target.error)); }
      match verdict.value
      case Approve => refusal := None;
      case Deny => refusal := Some(DeniedByVerdict);
      case Escalate => refusal := Some(NeedsReview);
    }

    /** The status write that precedes the first request. */
    method BeginForward(h: Handler, id: Id)
      requires Valid() && h !in windows && h !in inFlight && id < |actions|
      requires actions[id].status != Forwarded && actions[id].hasTarget && HasDecision(verdicts, id, Approve)
      modifies this`actions, this`inFlight, this`run
      ensures Valid() && run == old(run) + [Look(h, id)] + [Weigh(h)] + [Begin(h)]
      ensures actions == WithStatus(old(actions), id, Forwarded)
      ensures inFlight == old(inFlight)[h := id]
    {
      ThreeReads(run, View(), h, id);
      run := run + [Look(h, id)] + [Weigh(h)] + [Begin(h)];
      actions := WithStatus(actions, id, Forwarded);
      inFlight := inFlight[h := id];
    }

    /** The end of a forward: a failure is written back unless that write fails too. */
    method EndForward(h: Handler, id: Id, outcome: Outcome)
      requires Valid() && h in inFlight && inFlight[h] == id < |actions|
      modifies this`actions, this`inFlight, this`settled, this`run
      ensures Valid() && run == old(run) + [End(h, outcome)]
      ensures actions == if outcome == Failed then WithStatus(old(actions), id, ForwardFailed) else old(actions)
      ensures settled == if outcome == Failed then old(settled) else old(settled) + {id}
      ensures inFlight == old(inFlight) - {h}
    {
      Step(run, View(), End(h, outcome));
      run := run + [End(h, outcome)];
      if outcome == Failed {
        actions := WithStatus(actions, id, ForwardFailed);
      }
      settled := if outcome == Failed then settled else settled + {id};
      inFlight := inFlight - {h};
    }

    /** An accepted request: mark the row, send, and write back a failure. */
    method Relay(h: Handler, id: Id, target: Url, verb: string, payload: Option<string>, net: ForwardLoop.Net,
                 revertWorks: bool)
      returns (reply: ForwardReply, sent: seq<ForwardLoop.Sent>, ghost hops: seq<ForwardLoop.Hop>)
      requires Valid() && h !in windows && h !in inFlight && id < |actions| && Acceptable(target)
      requires actions[id].status != Forwarded && actions[id].hasTarget && HasDecision(verdicts, id, Approve)
      modifies this`actions, this`audit, this`inFlight, this`settled, this`run
      ensures Valid() && inFlight == old(inFlight) && (reply.Relayed? || reply.RelayFailed?)
      ensures reply.Relayed? ==> actions == WithStatus(old(actions), id, Forwarded) && id in settled
      ensures reply.RelayFailed? ==>
                actions == WithStatus(old(actions), id, if revertWorks then ForwardFailed else Forwarded)
      ensures RelayedAs(net, ForwardLoop.Hop(1, 0, target, verb, payload.GetOr("")), hops, sent, reply)
    {
      BeginForward(h, id);
      var r;
      r, hops, sent := ForwardLoop.Execute(net, verb, payload, target);
      match r
      case Ok((status, _, attempts)) =>
        EndAndRecord(h, id, Delivered, "action_forwarded");
        reply := Relayed(status, attempts);
      case Err(error) =>
        EndAndRecord(h, id, if revertWorks then Failed else Unknown, "forward_failed");
        WriteTwice(old(actions), id, Forwarded, ForwardFailed);
        reply := RelayFailed(error);
    }

    method EndAndRecord(h: Handler, id: Id, outcome: Outcome, note: string)
      requires Valid() && h in inFlight && inFlight[h] == id < |actions|
      modifies this`actions, this`audit, this`inFlight, this`settled, this`run
      ensures Valid()
      ensures actions == if outcome == Failed then WithStatus(old(actions), id, ForwardFailed) else old(actions)
      ensures settled == if outcome == Failed then old(settled) else old(settled) + {id}
      ensures inFlight == old(inFlight) - {h}
    {
      EndForward(h, id, outcome);
      Record(Some(id), note);
    }

    /**
     The forward handler. `text`, `verb` and `payload` are the action's own columns. A refused
     request changes nothing and sends nothing; an accepted one leaves `forwarded` if the target
     answered and `forward_failed` if it did not.
     */
    method ForwardAction(agent: nat, h: Handler, id: Id, text: string, verb: string, payload: Option<string>,
                         net: ForwardLoop.Net, revertWorks: bool)
      returns (reply: ForwardReply, sent: seq<ForwardLoop.Sent>, ghost hops: seq<ForwardLoop.Hop>)
      requires Valid() && h !in windows && h !in inFlight
      modifies this`actions, this`audit, this`inFlight, this`settled, this`run
      ensures Valid() && inFlight == old(inFlight)
      ensures reply.Relayed? || reply.RelayFailed? <==>
                Sendable(old(View()), agent, id) && ParseTarget(net.parse, text).Ok?
      ensures !reply.Relayed? && !reply.RelayFailed? ==> View() == old(View()) && sent == []
      ensures reply.Relayed? ==> actions == WithStatus(old(actions), id, Forwarded) && id in settled
      ensures reply.RelayFailed? ==>
                actions == WithStatus(old(actions), id, if revertWorks then ForwardFailed else Forwarded)
      ensures reply.Relayed? || reply.RelayFailed? ==>
                var target := ParseTarget(net.parse, text).value;
                RelayedAs(net, ForwardLoop.Hop(1, 0, target, verb, payload.GetOr("")), hops, sent, reply)
    {
      var target := ParseTarget(net.parse, text);
      var refusal := CheckForward(agent, id, target);
      if refusal.Some? { return refusal.value, [], []; }
      ParsedIsAcceptable(net.parse, text);
      reply, sent, hops := Relay(h, id, target.value, verb, payload, net, revertWorks);
    }

    // ---------- overrides ----------

    /** The status test of an override has been passed. */
    ghost method OpenReview(a: Admin, id: Id, to: Ordinary, route: Route)
      requires Valid() && id < |actions| && OverrideAllowed(route, actions[id].status, to)
      requires a !in reviews && route != AdminBulk
      modifies this`reviews, this`run
      ensures Valid() && run == old(run) + [Open(a, id, to, route)]
      ensures reviews == old(reviews)[a := Review(id, to, route)]
    {
      Step(run, View(), Open(a, id, to, route));
      run := run + [Open(a, id, to, route)];
      reviews := reviews[a := Review(id, to, route)];
    }

    /** The status write of an override: whatever the row says by now. */
    method WriteReview(a: Admin, id: Id, to: Ordinary, route: Route)
      requires Valid() && a in reviews && reviews[a] == Review(id, to, route) && id < |actions|
      modifies this`actions, this`audit, this`reviews, this`run
      ensures Valid() && run == old(run) + [Overwrite(a)]
      ensures actions == WithStatus(old(actions), id, to) && reviews == old(reviews) - {a}
      ensures audit == old(audit) + [Note(Some(id), OverrideNote(route))]
    {
      Step(run, View(), Overwrite(a));
      run := run + [Overwrite(a)];
      actions := WithStatus(actions, id, to);
      audit := audit + [Note(Some(id), OverrideNote(route))];
      reviews := reviews - {a};
    }

    /** The admin form. Only a denied or escalated action can be approved. */
    method OverrideForm(a: Admin, id: Id, reason: string, confirm: Option<string>) returns (reply: OverrideReply)
      requires Valid() && a !in reviews
      modifies this`actions, this`audit, this`reviews, this`run
      ensures Valid() && reviews == old(reviews)
      ensures reply == BadRequest <==> Blank(reason) || confirm != Some("yes")
      ensures reply == UnknownAction <==> !Blank(reason) && confirm == Some("yes") && id >= |old(actions)|
      ensures reply == Overridden <==>
                !Blank(reason) && confirm == Some("yes") && id < |old(actions)|
                && old(actions)[id].status in {Denied, Escalated}
      ensures reply == Overridden ==>
                && actions == WithStatus(old(actions), id, Approved)
                && audit == old(audit) + [Note(Some(id), "admin_override")]
                && run == old(run) + [Open(a, id, Approved, AdminForm)] + [Overwrite(a)]
      ensures reply != Overridden ==> View() == old(View()) && run == old(run)
    {
      TrimIsEmptyIff(reason);
      if Trim(reason) == [] || confirm != Some("yes") { return BadRequest; }
      if id >= |actions| { return UnknownAction; }
      var status := actions[id].status;
      if status != Denied && status != Escalated { return NotOverridable; }
      OpenReview(a, id, Approved, AdminForm);
      WriteReview(a, id, Approved, AdminForm);
      reply := Overridden;
    }

    /** The row has been given this status by the API route, in its two steps. */
    ghost predicate WrittenAs(rows: seq<Action>, before: seq<Event>, a: Admin, id: Id, to: Ordinary)
      requires id < |rows|
      reads this
    {
      actions == rows[id := rows[id].(status := to)] && run == before + [Open(a, id, to, AdminApi)] + [Overwrite(a)]
    }

    /** The API route. */
    method OverrideApi(a: Admin, id: Id, decision: string, reason: string) returns (reply: OverrideReply)
      requires Valid() && a !in reviews
      modifies this`actions, this`audit, this`reviews, this`run
      ensures Valid() && reviews == old(reviews)
      ensures reply == UnknownAction <==> !Blank(reason) && id >= |old(actions)|
      ensures reply == BadRequest <==>
                Blank(reason) || (id < |old(actions)| && decision !in {"approved", "denied", "escalated"})
      ensures reply == Overridden ==> !Blank(reason) && id < |old(actions)|
      ensures !Blank(reason) && id < |old(actions)| ==>
                && (decision == "approved" ==>
                      (reply == Overridden <==> old(actions)[id].status in {Denied, Escalated, Pending}))
                && (decision == "denied" ==> (reply == Overridden <==> old(actions)[id].status in {Pending, Escalated}))
                && (decision == "escalated" ==> (reply == Overridden <==> old(actions)[id].status == Pending))
      ensures reply == Overridden ==>
                && (decision == "approved" ==> WrittenAs(old(actions), old(run), a, id, Approved))
                && (decision == "denied" ==> WrittenAs(old(actions), old(run), a, id, Denied))
                && (decision == "escalated" ==> WrittenAs(old(actions), old(run), a, id, Escalated))
                && audit == old(audit) + [Note(Some(id), "admin_override")]
      ensures reply != Overridden ==> View() == old(View()) && run == old(run)
    {
      TrimIsEmptyIff(reason);
      if Trim(reason) == [] { return BadRequest; }
      if id >= |actions| { return UnknownAction; }
      var current := actions[id].status;
      var status: Ordinary;
      match decision {
        case "approved" =>
          if current != Denied && current != Escalated && current != Pending { return NotOverridable; }
          status := Approved;
        case "denied" =>
          if current != Pending && current != Escalated { return NotOverridable; }
          status := Denied;
        case "escalated" =>
          if current != Pending { return NotOverridable; }
          status := Escalated;
        case _ => return BadRequest;
      }
      OpenReview(a, id, status, AdminApi);
      WriteReview(a, id, status, AdminApi);
      reply := Overridden;
    }

    /** One conditional UPDATE of the bulk route. */
    method BulkWrite(id: Id) returns (changed: bool)
      requires Valid()
      modifies this`actions, this`audit, this`run
      ensures Valid() && changed == (id < |old(actions)| && old(actions)[id].status in {Denied, Escalated})
      ensures changed ==> run == old(run) + [Bulk(id)] && actions == WithStatus(old(actions), id, Approved)
      ensures changed ==> audit == old(audit) + [Note(Some(id), "action_overridden")]
      ensures !changed ==> View() == old(View()) && run == old(run)
    {
      changed := id < |actions| && actions[id].status in {Denied, Escalated};
      if changed {
        Step(run, View(), Bulk(id));
        run := run + [Bulk(id)];
        actions := WithStatus(actions, id, Approved);
        audit := audit + [Note(Some(id), "action_overridden")];
      }
    }

    /**
     The bulk route. Each named action that was denied or escalated is approved, and counted once.
     `works` says which of the UPDATEs the database executes: the first that fails ends the request
     and leaves the ones before it done.
     */
    method BulkOverride(ids: seq<Id>, reason: string, confirm: Option<string>, works: nat -> bool)
      returns (reply: BulkReply)
      requires Valid()
      modifies this`actions, this`audit, this`run
      ensures Valid()
      ensures reply == Refused <==> confirm != Some("yes") || Blank(reason) || |ids| > 100
      ensures reply == Refused ==> View() == old(View()) && run == old(run)
      ensures reply.Done? ==> actions == BulkRows(old(actions), ids) && reply.count == |Chosen(old(actions), ids)|
      ensures reply.Done? ==> |actions| == |old(actions)| && forall id :: 0 <= id < |actions| ==>
                actions[id] == if id in ids && old(actions)[id].status in {Denied, Escalated}
                               then old(actions)[id].(status := Approved) else old(actions)[id]
      ensures reply.Done? ==> forall k: nat :: k < |ids| ==> works(k)
      ensures reply.Broken? ==>
                reply.at < |ids| && !works(reply.at) && actions == BulkRows(old(actions), ids[..reply.at])
      ensures reply.Broken? ==> forall k: nat :: k < reply.at ==> works(k)
      ensures OnlyBulk(old(run), run)
    {
      TrimIsEmptyIff(reason);
      if confirm != Some("yes") || Trim(reason) == [] || |ids| > 100 { return Refused; }
      var overridden := 0;
      for k := 0 to |ids|
        invariant Valid() && actions == BulkRows(old(actions), ids[..k])
                    && overridden == |Chosen(old(actions), ids[..k])|
        invariant OnlyBulk(old(run), run) && forall j: nat :: j < k ==> works(j)
      {
        if !works(k) { return Broken(k); }
        BulkStep(old(actions), ids, k);
        var changed := BulkWrite(ids[k]);
        if changed { overridden := overridden + 1; }
      }
      assert ids[..|ids|] == ids;
      reply := Done(overridden);
    }
  }

  /** The run `after` continues `before` with bulk writes only. */
  ghost predicate OnlyBulk(before: seq<Event>, after: seq<Event>) {
    before <= after && forall k :: |before| <= k < |after| ==> after[k].Bulk?
  }

  /** The identifiers the turns will give their verdicts are new and distinct. */
  ghost predicate NewIds(vs: seq<Verdict>, turns: seq<Turn>) {
    && (forall k :: 0 <= k < |turns| ==> FreshVerdictId(vs, turns[k].verdictId))
    && (forall j, k :: 0 <= j < k < |turns| ==> turns[j].verdictId != turns[k].verdictId)
  }

  ghost predicate AllContinue(turns: seq<Turn>, ds: seq<Decision>, k: nat) {
    k <= |turns| == |ds| && forall j :: 0 <= j < k ==> Continues(turns[j], ds[j])
  }

  /** The loop stops before a shutdown, after a denial that failed, or at the end. */
  ghost predicate StopsAfter(turns: seq<Turn>, ds: seq<Decision>, taken: nat, finished: bool) {
    && taken <= |turns| == |ds|
    && (if finished then taken == |turns| && AllContinue(turns, ds, taken)
        else (taken < |turns| && turns[taken].shutdown && AllContinue(turns, ds, taken))
             || (taken > 0 && !turns[taken - 1].shutdown && !Continues(turns[taken - 1], ds[taken - 1])
                 && AllContinue(turns, ds, taken - 1)))
  }

  /** Distinct pending rows. */
  ghost predicate Waiting(rows: seq<Action>, batch: seq<Id>) {
    && (forall k :: 0 <= k < |batch| ==> batch[k] < |rows| && rows[batch[k]].status == Pending)
    && (forall j, k :: 0 <= j < k < |batch| ==> batch[j] != batch[k])
  }

  lemma BatchIsWaiting(rows: seq<Action>, now: string, limit: nat, batch: seq<Id>)
    requires Queue.IsBatch(rows, now, limit, batch)
    ensures Waiting(rows, batch)
  {
  }

  /** What the first k turns have made of the rows and the verdicts. */
  ghost predicate Progress(rows: seq<Action>, vs: seq<Verdict>, rowsNow: seq<Action>, vsNow: seq<Verdict>,
                           batch: seq<Id>, marks: seq<Mark>, k: nat) {
    && Waiting(rows, batch) && k <= |batch| == |marks|
    && rowsNow == RowsAfter(rows, batch, marks, k)
    && vsNow == vs + Inserted(marks, k)
  }

  /** What the loop body may rely on at turn k, and where the turn leads. */
  lemma NextTurn(rows: seq<Action>, vs: seq<Verdict>, rowsNow: seq<Action>, vsNow: seq<Verdict>,
                 batch: seq<Id>, turns: seq<Turn>, ds: seq<Decision>, k: nat)
    requires k < |batch| == |turns| == |ds| && NewIds(vs, turns)
    requires Progress(rows, vs, rowsNow, vsNow, batch, Marks(batch, turns, ds), k)
    ensures batch[k..] != [] && batch[k..][0] == batch[k] && batch[k..][1..] == batch[k + 1..]
    ensures batch[k] < |rowsNow| && rowsNow[batch[k]].status == Pending
    ensures FreshVerdictId(vsNow, turns[k].verdictId)
    ensures var m := MarkOf(batch[k], turns[k], ds[k]);
      Progress(rows, vs, WithStatus(rowsNow, batch[k], m.status), vsNow + m.verdict, batch, Marks(batch, turns, ds),
          k + 1)
  {
    OtherRowsAfter(rows, batch, Marks(batch, turns, ds), k, batch[k]);
    InsertedIds(batch, turns, ds, k);
  }

  /** A row whose turn has not been taken is untouched. */
  lemma {:induction false} OtherRowsAfter(rows: seq<Action>, batch: seq<Id>, marks: seq<Mark>, k: nat, id: Id)
    requires Waiting(rows, batch) && k <= |batch| == |marks| && id < |rows|
    requires forall j :: 0 <= j < k ==> batch[j] != id
    ensures RowsAfter(rows, batch, marks, k)[id] == rows[id]
  {
    if k > 0 { OtherRowsAfter(rows, batch, marks, k - 1, id); }
  }

  /** A row of the batch is left with the status of its own turn. */
  lemma {:induction false} RowAfterItsTurn(rows: seq<Action>, batch: seq<Id>, marks: seq<Mark>, k: nat, j: nat)
    requires Waiting(rows, batch) && j < k <= |batch| == |marks|
    ensures RowsAfter(rows, batch, marks, k)[batch[j]] == rows[batch[j]].(status := marks[j].status)
  {
    if j < k - 1 {
      RowAfterItsTurn(rows, batch, marks, k - 1, j);
    } else {
      OtherRowsAfter(rows, batch, marks, k - 1, batch[j]);
    }
  }

  /** Every verdict saved so far carries the identifier of a turn already taken. */
  lemma {:induction false} InsertedIds(batch: seq<Id>, turns: seq<Turn>, ds: seq<Decision>, k: nat)
    requires k <= |batch| == |turns| == |ds|
    ensures forall v :: v in Inserted(Marks(batch, turns, ds), k) ==>
              exists j :: 0 <= j < k && turns[j].verdictId == v.id
  {
    if k > 0 {
      InsertedIds(batch, turns, ds, k - 1);
      forall v | v in Marks(batch, turns, ds)[k - 1].verdict ensures v.id == turns[k - 1].verdictId {
        assert v in MarkOf(batch[k - 1], turns[k - 1], ds[k - 1]).verdict;
      }
    }
  }

  /** A finished tick of the tables is a tick in the sense of the queue. */
  ghost method TickIsTick(before: seq<Event>, s: State, after: seq<Event>, t: State,
                          cutoff: string, now: string, limit: nat, batch: seq<Id>) returns (trace: seq<Event>)
    requires Reaches(before, s) && Reaches(after, t) && t.processor == Processor([], Idle)
    requires Steadily(before + ([Expire(cutoff)] + [Select(batch)]), after)
    requires Queue.IsBatch(ExpireRows(s.actions, cutoff), now, limit, batch)
    ensures Queue.Tick(s, trace, cutoff, now, limit, batch) && t == Exec(s, [Expire(cutoff)] + [Select(batch)] + trace)
  {
    SteadyTail(before, [Expire(cutoff)] + [Select(batch)], after);
    trace := after[|before| + 2..];
    Resume(before, s, [Expire(cutoff)] + [Select(batch)] + trace, after, t);
  }

  ghost predicate AllSteady(run: seq<Event>) {
    forall k :: 0 <= k < |run| ==> Queue.Steady(run[k])
  }

  lemma SteadyTail(before: seq<Event>, head: seq<Event>, after: seq<Event>)
    requires Steadily(before + head, after)
    ensures |before| + |head| <= |after| && after == before + (head + after[|before| + |head|..])
    ensures AllSteady(after[|before| + |head|..])
  {
    assert Continued(before + head, after);
  }

  /** A longer run continues from where the shorter one led. */
  lemma Resume(before: seq<Event>, s: State, more: seq<Event>, after: seq<Event>, t: State)
    requires Reaches(before, s) && Reaches(after, t) && after == before + more
    ensures Legal(s, more) && t == Exec(s, more)
  {
    ReachesMeans(before, s);
    ReachesMeans(after, t);
    Queue.ExecConcat(Init, before, more);
  }

  // ---------- forwarding ----------

  /** These hops are the whole relay, these the requests it issued, and this what came of it. */
  ghost predicate RelayedAs(net: ForwardLoop.Net, first: ForwardLoop.Hop, hops: seq<ForwardLoop.Hop>,
                            sent: seq<ForwardLoop.Sent>, reply: ForwardReply) {
    && ForwardLoop.IsRelay(net, first, hops) && ForwardLoop.Ended(net, hops) && sent == ForwardLoop.Issued(net, hops)
    && match ForwardLoop.Told(net, hops)
       case Ok((status, _, attempts)) => reply == Relayed(status, attempts)
       case Err(e) => reply == RelayFailed(e)
  }

  /** What a reply to a forward request says: the status of the last answer, and the attempt that got it. */
  lemma RelayedMeans(net: ForwardLoop.Net, first: ForwardLoop.Hop, hops: seq<ForwardLoop.Hop>,
                     sent: seq<ForwardLoop.Sent>, reply: ForwardReply)
    requires RelayedAs(net, first, hops, sent, reply) && first.attempt == 1 && first.hop == 0
    ensures hops != [] && (reply.Relayed? || reply.RelayFailed?)
    ensures var k := |hops| - 1;
      && (reply.Relayed? <==>
            && ForwardLoop.LookedUp(net, hops[k], k)
            && net.answer(k).Response? && !(300 <= net.answer(k).status <= 399))
      && (reply.Relayed? ==>
            reply.status == net.answer(k).status && reply.attempts == hops[k].attempt
            && ForwardLoop.Sent(k, hops[k]) in sent)
  {
    var k := |hops| - 1;
    ForwardLoop.ToldMeans(net, first, hops);
    ForwardLoop.OtherCourse(net, hops[k], k);
    if ForwardLoop.LookedUp(net, hops[k], k) && net.answer(k).Response? && 300 <= net.answer(k).status <= 399 {
      ForwardLoop.RedirectCourse(net, hops[k], k);
    }
  }

  ghost predicate Mine(s: State, agent: nat, id: Id) {
    id < |s.actions| && s.actions[id].agent == agent
  }

  /** The agent's own action has a verdict and is not already marked as forwarded. */
  ghost predicate Answerable(s: State, agent: nat, id: Id) {
    Mine(s, agent, id) && HasVerdict(s.verdicts, id) && s.actions[id].status != Forwarded
  }

  /** Nothing but the target itself is left to object. */
  ghost predicate Sendable(s: State, agent: nat, id: Id) {
    Answerable(s, agent, id) && s.actions[id].hasTarget && HasDecision(s.verdicts, id, Approve)
  }

  /** In tables built by a run the decision found on an action is its only one. */
  lemma SoleDecision(run: seq<Event>, s: State, id: Id)
    requires Reaches(run, s)
    ensures forall d :: HasDecision(s.verdicts, id, d) ==> FindVerdict(s.verdicts, id) == Some(d)
  {
    ReachesMeans(run, s);
    RunKeepsInv(Init, run);
    forall d | HasDecision(s.verdicts, id, d) ensures FindVerdict(s.verdicts, id) == Some(d) {
      FindVerdictMeans(s.verdicts, id);
      DecisionIsVerdict(s.verdicts, id, d);
      OneDecision(s, id, d, FindVerdict(s.verdicts, id).value);
    }
  }

  /** The three statements of a forward request that nothing comes between. */
  lemma ThreeReads(run: seq<Event>, s: State, h: Handler, id: Id)
    requires Reaches(run, s) && h !in s.windows && h !in s.inFlight && id < |s.actions|
    requires s.actions[id].status != Forwarded && s.actions[id].hasTarget && HasDecision(s.verdicts, id, Approve)
    ensures Reaches(run + [Look(h, id)] + [Weigh(h)] + [Begin(h)],
                    s.(actions := WithStatus(s.actions, id, Forwarded), inFlight := s.inFlight[h := id]))
  {
    Step(run, s, Look(h, id));
    TwoReads(run + [Look(h, id)], s, h, id);
  }

  lemma TwoReads(run: seq<Event>, s: State, h: Handler, id: Id)
    requires Reaches(run, s.(windows := s.windows[h := Window(id, false)])) && h !in s.windows && h !in s.inFlight
               && id < |s.actions|
    requires HasDecision(s.verdicts, id, Approve)
    ensures Reaches(run + [Weigh(h)] + [Begin(h)],
                    s.(actions := WithStatus(s.actions, id, Forwarded), inFlight := s.inFlight[h := id]))
  {
    var looked := s.(windows := s.windows[h := Window(id, false)]);
    Step(run, looked, Weigh(h));
    BeginStep(run + [Weigh(h)], Apply(looked, Weigh(h)), s, h, id);
  }

  lemma BeginStep(run: seq<Event>, u: State, s: State, h: Handler, id: Id)
    requires Reaches(run, u) && u == s.(windows := s.windows[h := Window(id, false)][h := Window(id, true)])
    requires h !in s.windows && h !in s.inFlight && id < |s.actions|
    ensures Reaches(run + [Begin(h)],
              s.(actions := WithStatus(s.actions, id, Forwarded), inFlight := s.inFlight[h := id]))
  {
    Step(run, u, Begin(h));
    assert u.windows - {h} == s.windows;
  }

  lemma ParsedIsAcceptable(parse: string -> Option<Url>, text: string)
    ensures ParseTarget(parse, text).Ok? ==> Acceptable(ParseTarget(parse, text).value)
  {
    if parse(text).Some? { ValidateIff(parse(text).value); }
  }

  lemma WriteTwice(rows: seq<Action>, id: Id, first: Status, second: Status)
    requires id < |rows|
    ensures WithStatus(WithStatus(rows, id, first), id, second) == WithStatus(rows, id, second)
  {
  }

  // ---------- overrides ----------

  function BulkRow(row: Action, named: bool): Action {
    if named && row.status in {Denied, Escalated} then row.(status := Approved) else row
  }

  function BulkRows(rows: seq<Action>, ids: seq<Id>): seq<Action> {
    seq(|rows|, i requires 0 <= i < |rows| => BulkRow(rows[i], i in ids))
  }

  /** The named actions that were denied or escalated. */
  ghost function Chosen(rows: seq<Action>, ids: seq<Id>): set<Id> {
    set id | id in ids && id < |rows| && rows[id].status in {Denied, Escalated}
  }

  lemma BulkStep(rows: seq<Action>, ids: seq<Id>, k: nat)
    requires k < |ids|
    ensures var now := BulkRows(rows, ids[..k]);
      if ids[k] < |rows| && now[ids[k]].status in {Denied, Escalated}
      then BulkRows(rows, ids[..k + 1]) == WithStatus(now, ids[k], Approved)
           && |Chosen(rows, ids[..k + 1])| == |Chosen(rows, ids[..k])| + 1
      else BulkRows(rows, ids[..k + 1]) == now && Chosen(rows, ids[..k + 1]) == Chosen(rows, ids[..k])
  {
    assert ids[..k + 1] == ids[..k] + [ids[k]];
    var now := BulkRows(rows, ids[..k]);
    if ids[k] < |rows| && now[ids[k]].status in {Denied, Escalated} {
      assert Chosen(rows, ids[..k + 1]) == Chosen(rows, ids[..k]) + {ids[k]};
    }
  }

  lemma SameStatus(rows: seq<Action>, id: Id, status: Status)
    requires id < |rows|
    ensures rows[id].status == status ==> WithStatus(rows, id, status) == rows
  {
  }

  /** The caller's denial applies to this action, whose approval has not been saved. */
  ghost predicate DeniableAs(p: Processor, id: Id) {
    InHand(p) == Some(id) && (p.stage.Saved? ==> p.stage.decision != Approve)
  }

  /** Whether the policies refuse the action in this world. */
  ghost predicate PoliciesRefuse(w: Pipeline.World) {
    Policies.Evaluate(w.policies, w.input, w.env, w.db, w.dryRun).denial.Some?
  }

  lemma RefusalDenies(w: Pipeline.World)
    ensures PoliciesRefuse(w) ==> Pipeline.Judge(w).decision == Deny
  {
  }

  /** Tables these methods build satisfy everything that is proved of reachable states. */
  lemma TablesKeepInv(t: Tables)
    requires t.Valid()
    ensures Inv(t.View())
  {
    ReachesMeans(t.run, t.View());
    RunKeepsInv(Init, t.run);
  }

  /**
   Outside dry-run a turn leaves its action approved exactly when its verdict was saved and every
   gate of the pipeline let it through; the verdict row then says so too.
   */
  lemma ApprovalPassedEveryGate(id: Id, t: Turn, d: Decision)
    requires IsOpinion(d, t.world) && !t.world.dryRun
    ensures var w := t.world;
      MarkOf(id, t, d).status == Approved <==>
        && t.fault in {NoFault, OnWebhook}
        && (forall p :: p in w.policies ==> !Policies.SomeDenies(p.rules.GetOr([]), w.input, w.env))
        && Policies.NoLimitHit(w.policies, w.db)
        && !Pipeline.CriticalFound(w)
        && (exists k :: Pipeline.ApprovedBy(w.order, k, w.ask, w.env.lower))
    ensures MarkOf(id, t, d).status == Approved ==> MarkOf(id, t, d).verdict == [Verdict(t.verdictId, id, Approve)]
  {
    Pipeline.FailClosed(t.world);
    assert d == Pipeline.Judge(t.world).decision;
  }

  /** The row loop of the expiry statement. */
  method ExpireLoop(before: seq<Action>, cutoff: string) returns (rows: seq<Action>)
    ensures rows == ExpireRows(before, cutoff)
  {
    rows := before;
    for k := 0 to |before|
      invariant |rows| == |before|
      invariant forall j :: 0 <= j < |before| ==> rows[j] == if j < k then ExpireRow(before[j], cutoff) else before[j]
    {
      if rows[k].status == Pending && Before(rows[k].createdAt, cutoff) {
        rows := WithStatus(rows, k, Denied);
      }
    }
  }
}
