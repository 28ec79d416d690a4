/**
 The life of an action as a transition system. Agents submit and forward, one background
 processor claims and judges, and three admin routes override; all of them share the
 `actions`, `verdicts` and `audit_log` tables.

 One event is one database statement (or one transaction). A forward request is three of
 them: it reads the action row, reads the verdict row, and later writes the new status. An
 override is two: it reads the status and tests it, and later writes the new one whatever the
 row says by then. Other events may fall between. Only the bulk route tests and writes at once.
 */
module Lifecycle {
  import opened Common

  /** Actions are numbered by row. */
  type Id = nat
  type Handler = nat
  type Admin = nat

  /**
   The payload column, which the agent writes as it likes. `keys` are the numeric top-level members;
   `paths` is what CAST(JSON_EXTRACT(payload, '$.' || path) AS REAL) yields, where that is not NULL.
   On text that is not JSON the function raises an error.
   */
  datatype Payload = NoPayload | Malformed | Json(keys: map<string, real>, paths: map<string, real>)

  datatype Action = Action(
    agent: nat,
    payload: Payload,
    key: Option<string>,        // idempotency key, unique per agent
    hasTarget: bool,
    priority: int,
    createdAt: string,
    executeAt: Option<string>,
    status: Status)

  datatype Verdict = Verdict(id: nat, action: Id, decision: Decision)

  datatype Entry =
    | VerdictIssued(verdict: Verdict)
    | Note(subject: Option<Id>, kind: string)

  /** What the processor is doing with the action it has in hand. */
  datatype Stage =
    | Idle
    | Seen(id: Id)                          // read as pending, not yet claimed
    | Claimed(id: Id)                       // status set to processing
    | Judged(id: Id, denied: bool)          // policies evaluated
    | Saved(id: Id, decision: Decision)     // verdict transaction committed

  datatype Processor = Processor(queue: seq<Id>, stage: Stage)

  /** A forward request between its first read and its status write. */
  datatype Window = Window(id: Id, cleared: bool)

  /** The statuses an admin can ask for. */
  type Ordinary = s: Status | s == Approved || s == Denied || s == Escalated witness Approved

  /** An override between its status test and its status write. */
  datatype Review = Review(id: Id, to: Ordinary, route: Route)

  datatype Outcome = Delivered | Failed | Unknown

  datatype Route = AdminForm | AdminBulk | AdminApi

  datatype State = State(
    actions: seq<Action>,
    verdicts: seq<Verdict>,
    audit: seq<Entry>,
    processor: Processor,
    windows: map<Handler, Window>,
    inFlight: map<Handler, Id>,
    settled: set<Id>,       // actions with a forward that ended other than in a recorded failure
    reviews: map<Admin, Review>)

  const Init := State([], [], [], Processor([], Idle), map[], map[], {}, map[])

  datatype Event =
    | Submit(row: Action)
    | Select(batch: seq<Id>)                // the processor reads its next batch
    | Read                                  // the status check on the head of the batch
    | Claim
    | Judge(deny: bool)
    | Commit(verdictId: nat, decision: Decision)
    | Finish
    | ErrorDeny                             // process_action failed; the caller denies the row
    | Abandon                               // shutdown, crash, or the denial itself failed
    | Expire(cutoff: string)
    | Bulk(target: Id)                      // bulk override: one conditional UPDATE
    | Open(admin: Admin, id: Id, to: Ordinary, route: Route)  // override: read the status and test it
    | Overwrite(admin: Admin)               // override: write the status, unconditionally
    | Close(admin: Admin)                   // the override died before its write
    | Look(handler: Handler, id: Id)        // forward: read the action row
    | Weigh(handler: Handler)               // forward: read the verdict row
    | Begin(handler: Handler)               // forward: write `forwarded`, start sending
    | End(handler: Handler, outcome: Outcome)
    | Drop(handler: Handler)                // the request died before writing anything
    | Log(entry: Entry)                     // any other audit record

  /** SQLite compares these text columns byte by byte. */
  predicate Before(a: string, b: string) {
    if b == [] then false
    else if a == [] then true
    else if a[0] != b[0] then a[0] < b[0]
    else Before(a[1..], b[1..])
  }

  function WithStatus(rows: seq<Action>, id: Id, status: Status): seq<Action>
    requires id < |rows|
  {
    rows[id := rows[id].(status := status)]
  }

  function ExpireRow(row: Action, cutoff: string): Action {
    if row.status == Pending && Before(row.createdAt, cutoff) then row.(status := Denied) else row
  }

  function ExpireRows(rows: seq<Action>, cutoff: string): seq<Action> {
    seq(|rows|, i requires 0 <= i < |rows| => ExpireRow(rows[i], cutoff))
  }

  /** Which status changes each admin route lets through. */
  predicate OverrideAllowed(route: Route, from: Status, to: Status) {
    match route
    case AdminForm => to == Approved && from in {Denied, Escalated}
    case AdminBulk => to == Approved && from in {Denied, Escalated}
    case AdminApi =>
      match to
      case Approved => from in {Denied, Escalated, Pending}
      case Denied => from in {Pending, Escalated}
      case Escalated => from == Pending
      case _ => false
  }

  function OverrideNote(route: Route): string {
    if route == AdminBulk then "action_overridden" else "admin_override"
  }

  ghost predicate HasVerdict(vs: seq<Verdict>, id: Id) {
    exists v :: v in vs && v.action == id
  }

  ghost predicate HasDecision(vs: seq<Verdict>, id: Id, d: Decision) {
    exists v :: v in vs && v.action == id && v.decision == d
  }

  ghost predicate FreshVerdictId(vs: seq<Verdict>, id: nat) {
    forall v :: v in vs ==> v.id != id
  }

  predicate HasKey(row: Action, agent: nat, key: Option<string>) {
    key.Some? && row.agent == agent && row.key == key
  }

  /** The unique index on agent and idempotency key lets the insert through. */
  predicate KeyIsNew(rows: seq<Action>, agent: nat, key: Option<string>) {
    forall k :: 0 <= k < |rows| ==> !HasKey(rows[k], agent, key)
  }

  /** The action the processor has in hand, or will take next. */
  function InHand(p: Processor): Option<Id> {
    match p.stage
    case Idle => if p.queue == [] then None else Some(p.queue[0])
    case Seen(id) => Some(id)
    case Claimed(id) => Some(id)
    case Judged(id, _) => Some(id)
    case Saved(id, _) => Some(id)
  }

  ghost predicate Enabled(s: State, e: Event) {
    var stage := s.processor.stage;
    match e
    case Submit(row) => row.status == Pending && KeyIsNew(s.actions, row.agent, row.key)
    case Select(batch) =>
      && stage == Idle && s.processor.queue == []
      && (forall k :: 0 <= k < |batch| ==> batch[k] < |s.actions| && s.actions[batch[k]].status == Pending)
      && (forall j, k :: 0 <= j < k < |batch| ==> batch[j] != batch[k])
    case Read => stage == Idle && s.processor.queue != [] && s.processor.queue[0] < |s.actions|
    case Claim => stage.Seen? && stage.id < |s.actions|
    case Judge(_) => stage.Claimed?
    case Commit(vid, d) =>
      && stage.Judged? && stage.id < |s.actions|
      && (stage.denied ==> d == Deny)
      && FreshVerdictId(s.verdicts, vid)
    case Finish => stage.Saved?
    // after an approved commit nothing that can fail is left to do
    case ErrorDeny =>
      && InHand(s.processor).Some? && InHand(s.processor).value < |s.actions|
      && (stage.Saved? ==> stage.decision != Approve)
    case Abandon => true
    case Expire(_) => stage == Idle && s.processor.queue == []
    case Bulk(id) => id < |s.actions| && OverrideAllowed(AdminBulk, s.actions[id].status, Approved)
    case Open(a, id, to, route) =>
      && a !in s.reviews && route != AdminBulk
      && id < |s.actions| && OverrideAllowed(route, s.actions[id].status, to)
    case Overwrite(a) => a in s.reviews && s.reviews[a].id < |s.actions|
    case Close(a) => a in s.reviews
    case Look(h, id) =>
      && h !in s.windows && h !in s.inFlight
      && id < |s.actions| && s.actions[id].status != Forwarded && s.actions[id].hasTarget
    case Weigh(h) => h in s.windows && HasDecision(s.verdicts, s.windows[h].id, Approve)
    case Begin(h) => h in s.windows && s.windows[h].cleared && h !in s.inFlight && s.windows[h].id < |s.actions|
    case End(h, _) => h in s.inFlight && s.inFlight[h] < |s.actions|
    case Drop(h) => h in s.windows
    case Log(entry) => entry.Note?
  }

  ghost function Apply(s: State, e: Event): State
    requires Enabled(s, e)
  {
    var p := s.processor;
    match e
    case Submit(row) => s.(actions := s.actions + [row], audit := s.audit + [Note(Some(|s.actions|), "action_created")])
    case Select(batch) => s.(processor := Processor(batch, Idle))
    case Read =>
      var id := p.queue[0];
      if s.actions[id].status == Pending
      then s.(processor := Processor(p.queue[1..], Seen(id)))
      else s.(processor := Processor(p.queue[1..], Idle))
    case Claim =>
      s.(actions := WithStatus(s.actions, p.stage.id, Processing),
         processor := p.(stage := Claimed(p.stage.id)))
    case Judge(deny) => s.(processor := p.(stage := Judged(p.stage.id, deny)))
    case Commit(vid, d) =>
      var v := Verdict(vid, p.stage.id, d);
      s.(verdicts := s.verdicts + [v],
         actions := WithStatus(s.actions, v.action, StatusOf(d)),
         audit := s.audit + [VerdictIssued(v)],
         processor := p.(stage := Saved(v.action, d)))
    case Finish => s.(processor := p.(stage := Idle))
    case ErrorDeny =>
      s.(actions := WithStatus(s.actions, InHand(p).value, Denied),
         processor := Processor(if p.stage == Idle then p.queue[1..] else p.queue, Idle))
    case Abandon => s.(processor := Processor([], Idle))
    case Expire(cutoff) => s.(actions := ExpireRows(s.actions, cutoff))
    case Bulk(id) =>
      s.(actions := WithStatus(s.actions, id, Approved), audit := s.audit + [Note(Some(id), OverrideNote(AdminBulk))])
    case Open(a, id, to, route) => s.(reviews := s.reviews[a := Review(id, to, route)])
    case Overwrite(a) =>
      var r := s.reviews[a];
      s.(actions := WithStatus(s.actions, r.id, r.to),
         audit := s.audit + [Note(Some(r.id), OverrideNote(r.route))],
         reviews := s.reviews - {a})
    case Close(a) => s.(reviews := s.reviews - {a})
    case Look(h, id) => s.(windows := s.windows[h := Window(id, false)])
    case Weigh(h) => s.(windows := s.windows[h := s.windows[h].(cleared := true)])
    case Begin(h) =>
      var id := s.windows[h].id;
      s.(actions := WithStatus(s.actions, id, Forwarded),
         windows := s.windows - {h},
         inFlight := s.inFlight[h := id])
    case End(h, outcome) =>
      var id := s.inFlight[h];
      if outcome == Failed
      then s.(actions := WithStatus(s.actions, id, ForwardFailed), inFlight := s.inFlight - {h})
      else s.(settled := s.settled + {id}, inFlight := s.inFlight - {h})
    case Drop(h) => s.(windows := s.windows - {h})
    case Log(entry) => s.(audit := s.audit + [entry])
  }

  ghost predicate Legal(s: State, run: seq<Event>)
    decreases |run|, 0
  {
    run == [] || (Legal(s, run[..|run| - 1]) && Enabled(Exec(s, run[..|run| - 1]), run[|run| - 1]))
  }

  ghost function Exec(s: State, run: seq<Event>): State
    requires Legal(s, run)
    decreases |run|, 1
  {
    if run == [] then s else Apply(Exec(s, run[..|run| - 1]), run[|run| - 1])
  }

  /** Every prefix of a legal run is legal. */
  lemma {:induction false} LegalPrefix(s: State, run: seq<Event>, k: nat)
    requires Legal(s, run) && k <= |run|
    ensures Legal(s, run[..k])
    ensures k < |run| ==> Enabled(Exec(s, run[..k]), run[k]) && Legal(s, run[..k + 1])
    ensures k < |run| ==> Exec(s, run[..k + 1]) == Apply(Exec(s, run[..k]), run[k])
    decreases |run|
  {
    if k == |run| {
      assert run[..k] == run;
    } else {
      var front := run[..|run| - 1];
      assert run[..k] == front[..k];
      if k < |front| {
        LegalPrefix(s, front, k);
        assert front[..k + 1] == run[..k + 1];
      } else {
        assert run[..k + 1] == run && run[..k] == front;
      }
    }
  }
}
