# A verified model of Deko's decision core

Deko stands between AI agents and the systems they act on: an agent submits an action, a background
processor judges it against policies and language-model providers, an admin may override, and the
agent may then have the approved action relayed to its target. Every decision goes into a
tamper-evident audit log. This project models that core in Dafny and proves what it keeps.
`dafny verify dfyconfig.toml` checks everything.

The model has five layers.

- **The life of an action.** `Lifecycle` is a transition system over the shared tables: one event is
  one database statement or one transaction, and the events of agents, the processor, expiry and the
  three override routes interleave freely. `LifecycleSafety` proves its inductive invariant,
  `RunSafety` what follows for whole runs, `Budget`, `Concurrency`, `History` and `RateRule` what the
  four limits that read the tables do, `Queue` and `Clock` how ticks drain the queue. `Server`
  holds the processor and the handlers as imperative methods on a `Tables` object. The object
  carries, as ghost state, the run of lifecycle events that produced it, so the theorems about runs
  apply to it; `Turns` does so for the limits. `Replicas` is a small system of its own for several
  processors.
- **Judgement.** `PolicyEngine` (recursive rules, the in-place stable sort), `Policies` (live pass,
  limits, the two simulation endpoints), `Statistics` (the z-score rule), `Pipeline` (injection scan,
  provider chain, the whole judgement).
- **The audit chain.** `AuditChain` (hashed text, verification, tampering, concurrent writers,
  backfill) and `AuditTable` (the stored table with its triggers, the external checkpoint, startup).
- **Relaying.** `Egress` (the address guard) and `ForwardLoop` (redirects and retries).
- **Counters.** `Limiters`, `Metrics` and the webhook signature in `Webhook`.

## How the database and the world are modelled

- An action's id is its row number; a verdict id is any id not used before.
- A forward request is three statements, as in the code: read the action row, read the verdict row,
  later write the status. The form and API overrides are two: read and test the status, later write
  the new one with no condition. Other events may fall between. The bulk route is one conditional
  UPDATE for each action. Submitting is one event with its audit entry.
- One processor is assumed, except in `Replicas`: the claim in `src/services/verdict.rs:132` is an
  unconditional UPDATE, and the verdicts table has no uniqueness constraint on the action.
- The methods of `Server` run without interference; the interleavings are those of `Lifecycle`.
  Which statements fail, what providers and targets answer, and what the batch query returns are
  arguments. The database answers the policies read (`Reads`) are arguments too; `Budget`,
  `Concurrency`, `History` and `RateRule` tie them to the tables.
- A concurrent audit writer reads the head and later commits; a commit is refused when another came
  between, which is what SQLite's snapshot rule does to a transaction that read first.
- SHA-256 and HMAC are parameters. What is assumed of them is stated where it is used (`Ideal`):
  different texts have different digests, no digest is the genesis value, digests are non-empty
  lower-case hexadecimal. Floating-point numbers are exact reals.

## What the code does, where that differs from what is said of it

- **At-most-once forwarding is not guaranteed.** Two things break it. The forward handler tests the
  status it read and writes later, so two overlapping requests can both send. And the write of a form
  or API override can fall on a row that has been forwarded since the override read it; the row then
  reads `approved` (or `denied`), and a fresh request, which only asks whether the status is
  `forwarded`, sends again with every test passed and nothing overlapping. Exactly: each send finds no
  other of its action in flight, and none that ended otherwise than in a recorded failure, if and only
  if no forward writes over `forwarded` or over what an override left of it
  (`RunSafety.AtMostOnceIffMarksRespected`). If no override write falls on `forwarded`, that comes
  down to forwards re-passing their own test (`RunSafety.AtMostOnceIffTested`). Of a single override write:
  it opens the way to a second send exactly when it falls on `forwarded`
  (`RunSafety.OverwriteReopensIff`); writes that fail their re-test elsewhere do no such harm.
  The property counts forwards, not deliveries: one forward makes up to three attempts, and an
  attempt that ended in a transport error may have reached the target.
- **`docs/architecture.md:89` says claims use compare-and-set.** They do not. With conditional claims
  any number of processors would save at most one verdict per action; as it is, a claim can lead to a
  second verdict exactly when the row has one already or is in another processor's hands.
- **`docs/architecture.md:53` says the agent limiter is a sliding window.** It is a fixed window: a
  key can be admitted 2*max-1 times within one window's length, and no more. It keeps a sliding
  window's promise on every run only for a limit of one or less.
- **An override does not release an action.** It changes the status, but forwarding obeys the
  verdict row, which stays what it was.
- **The z-score rule is inert on short histories.** With a field whose name is plain and occurs once in
  the payload, the value under test is in its own sample, so nothing is denied with at most five
  numbers on record or with n-1 <= threshold^2; at the default threshold of 2 six are needed. With a
  name such as `order.total` the code tests the member of that name and samples a different path, and
  the bound does not hold.
- **A concurrency limit denies everything or nothing.** The action being judged counts itself and is
  the only one in progress, so a limit of one, the default, denies every action, and a larger one
  denies none. A row given up in `processing`, by a shutdown, a crash or a failed denial, never leaves
  that status and counts against its agent for good. (An override that read a row while it was pending
  can still write over `processing`; `Concurrency.LimitAtEvaluation` covers that too.)
- **The budget rule can be switched off by the agent.** Payloads are stored unchecked, and the sum
  query fails on one that is not JSON; the rule is then skipped for all of the agent's actions until
  that one is denied.
- **Limits are read in declared order, without the priority sort, and at the top level of a policy
  only.** Inside an `or` a limit is ignored. Inside an `and` it never matches, so it disables the
  whole `and`: a keyword rule combined with a budget rule that way never denies.
- **A test of a policy is blind to method and metadata**, so it can pass what the live pass denies, and
  with an `or` it can also deny what the live pass lets on.
- **The integer mean is for requests one after the other.** Overlapping ones lose samples: two first
  requests of the same length can leave half of it as the mean.
- **The rate rule counts by days.** Its cutoff is written in RFC 3339 form and compared, as text, with
  space-separated stamps, so nothing made on the cutoff's own day is counted. While the window does not
  reach back over midnight the count is zero and the rule denies nothing, whatever the agent does.
- **An execution time in RFC 3339 form waits for the next day**, since it is compared as text, and an
  action scheduled past its time to live is expired before it is due.
- **A repeated submission of an action whose forward failed is told `pending`.**
- **The hashed text does not always determine the row.** It does exactly for rows none of whose four
  hashed fields holds a `|`; any other row can be edited, keeping its hash, without verification
  reporting it, and a strict start accepts the edited table. The action ids, event names and
  timestamps the code writes hold none, but the details hold the agent's intent, in which a `|` stays
  as it is: the part of the details after it can be moved in front of the timestamp.
- **Backfill hashes the normalised timestamp but leaves the stored one.** One legacy row with a
  readable RFC 3339 stamp, and the chain does not verify and the server does not start, on any later
  try either.
- **The checkpoint is written at startup only.** A strict restart is therefore refused after any
  honest append, and a lenient restart on a truncated log replaces the checkpoint that would have
  shown it.

## Model

| member | source | states |
|---|---|---|
| `LifecycleSafety.StepKeepsInv` | src/services/verdict.rs:112-247 | every event of every actor (agents, processor, expiry, the reads and the later writes of overrides) keeps the invariant: pending and processing rows have no verdict, no action has two, verdict rows match the `verdict_issued` audit entries one for one, a sent row has an approved verdict and a target, whoever is mid-request holds an approved verdict |
| `LifecycleSafety.RunKeepsInv` | src/services/verdict.rs:112-247 | the invariant holds in every state any interleaved run reaches |
| `LifecycleSafety.CommitKeepsInv` | src/services/verdict.rs:597-639 | the verdict transaction adds the only verdict of its action, and its audit entry, with no gap between them |
| `LifecycleSafety.ErrorDenyKeepsInv` | src/services/processor.rs:92-98 | the denial after an error keeps the invariant and never falls on an action whose approval has been saved |
| `LifecycleSafety.OneDecision` | src/services/verdict.rs:597-613 | two verdict rows of one action in a reachable state carry the same decision |
| `RunSafety.VerdictDiscipline` | src/services/verdict.rs:597-639 | in every reachable state: pending means no verdict, no second verdict per action, the audit trail lists exactly the verdict rows in order, and a sent row has an approved verdict whatever an override did to its status |
| `RunSafety.VerdictsOnlyGrow` | src/services/verdict.rs:599-613 | over any run verdict rows are only appended, and an action keeps everything but its status |
| `RunSafety.OneActionPerKey` | migrations/008_add_idempotency_key.sql:1-3 | over any run an agent never has two actions under one idempotency key |
| `RunSafety.OnlyOverwritesUnsendRows` | src/services/processor.rs:55-98 | an event takes a row out of forwarded or forward_failed if and only if it is the status write of an override on that row, and such a write would fail its own test; processor, expiry and bulk events never touch the row |
| `RunSafety.SentStaysSentIff` | src/routes/api_admin.rs:267-311 | a sent row stays forwarded or forward_failed throughout a run if and only if the run holds no override write on it |
| `RunSafety.TestedOverridesKeepSent` | src/routes/api_admin.rs:267-311 | so it does whenever override writes re-pass their own test |
| `RunSafety.AtMostOnceIffMarksRespected` | src/routes/actions.rs:594-655 | over every run, each send is the only one in flight for its action and all before it ended in a recorded failure, if and only if no forward writes its status over `forwarded`, or over what an override has left of `forwarded` |
| `RunSafety.AtMostOnceIffTested` | src/routes/actions.rs:594-655 | where no override write falls on `forwarded`, that is so if and only if every forward re-passes its own test when it writes its status |
| `RunSafety.TestedOverridesSpareMarks` | src/routes/api_admin.rs:267-311 | override writes that re-pass their own test never fall on `forwarded` |
| `RunSafety.OverwriteReopensIff` | src/routes/api_admin.rs:267-311 | one override write lets a later run send twice, with every later test passed, if and only if it falls on a row marked `forwarded` |
| `RunSafety.StaleOverwriteSendsTwice` | src/routes/api_admin.rs:267-311 | it does so even when requests take turns |
| `RunSafety.OverrideCanBeOvertaken` | src/routes/api_admin.rs:267-311 | from every state in which a pending action has just been read, an API override can be overtaken by approval, forward and reply, and then writes over `forwarded` |
| `RunSafety.UntestedWriteCanBeHarmless` | src/routes/api_admin.rs:267-311 | not every override write that fails its re-test does harm, so re-testing them all is sufficient and not necessary |
| `RunSafety.ExclusiveForwardsOnce` | src/routes/actions.rs:594-620 | if requests on one action take turns and no override write falls on `forwarded`, each action is sent at most once |
| `RunSafety.TwoRequestsCanSendTwice` | src/routes/actions.rs:594-620 | nothing in the code makes them take turns: from every state in which an approved action could be sent, two idle requests can both send it |
| `RunSafety.OverrideReleasesNothing` | src/routes/admin.rs:191-213 | an override write, however stale, on an action without an approved verdict never gets it sent in any continuation, unless the processor was already judging it: forwarding obeys the verdict row |
| `RunSafety.JudgementUnderWayCanRelease` | src/routes/api_admin.rs:274-311 | that exception is real: a judgement under way when the override lands can approve and so send the action |
| `Server.Tables.CreateAction` | src/routes/actions.rs:102-205 | when a submission is refused, answered with the action its key already names (forward_failed shown as pending), or inserted as a pending row with its audit entry; in the first two cases nothing changes |
| `Server.Tables.SaveVerdict` | src/services/verdict.rs:597-639 | verdict row, status and audit entry change together and nothing else does |
| `Server.Tables.ProcessAction` | src/services/verdict.rs:112-247 | for every statement that may fail: the exact status and verdict row left behind, an action no longer pending is skipped untouched, and an error always leaves a state the caller may deny |
| `Server.Tables.DenyOnError` | src/services/processor.rs:92-98 | the row in hand becomes denied, and no other row changes |
| `Server.Tables.TakeTurns` | src/services/processor.rs:87-101 | the batch loop, with errors, failed denials and shutdown: rows and verdicts are exactly those of the turns taken, in order |
| `Server.Tables.ProcessPending` | src/services/processor.rs:76-104 | the same from the batch query on; a finished pass took every action of the batch |
| `Server.Tables.RunTick` | src/services/processor.rs:43-51 | a finished tick of the tables is a tick in the sense of `Queue.TickLowersDue`, so the draining laws hold of it |
| `Server.RowAfterItsTurn` | src/services/processor.rs:87-101 | after the loop a row of the batch carries the status of its own turn |
| `Server.TurnOutcomes` | src/services/verdict.rs:112-247 | for each failing statement and each decision, the status and verdict row a turn leaves, and when the batch goes on |
| `Common.StatusesOfDecisions` | src/services/verdict.rs:583-595 | the status each decision writes |
| `Server.OtherRowsAfter` | src/services/processor.rs:87-101 | and a row without a turn is untouched |
| `Server.ApprovalPassedEveryGate` | src/services/verdict.rs:145-247 | outside dry-run a turn leaves its action approved if and only if the verdict was saved, no rule denied, no limit was hit, no critical pattern occurred and the first provider to answer approved |
| `Server.FindVerdictMeans` | src/routes/actions.rs:600-608 | the row found for an action exists exactly when a verdict does, and says what it decided |
| `Server.Tables.CheckForward` | src/routes/actions.rs:569-632 | when each refusal of the forward handler is given, both ways, and that a request is accepted exactly for the owner of an approved, not yet forwarded action with an acceptable target |
| `Server.Tables.ForwardAction` | src/routes/actions.rs:569-681 | a refused request changes nothing and sends nothing; an accepted one is one whole relay: its requests are exactly the cleared hops, its answer is what the relay was told, and it leaves forwarded if the target answered, forward_failed if not (or forwarded when that write fails) |
| `Server.RelayedMeans` | src/routes/actions.rs:616-655 | a success is answered iff the last hop got a response that is no redirect, with its status and the attempt that got it |
| `Server.Tables.OverrideForm` | src/routes/admin.rs:166-217 | undisturbed, the form is accepted exactly for a non-blank reason, the confirmation header and a denied or escalated action; its read and its write are two events; otherwise nothing changes |
| `Server.Tables.OverrideApi` | src/routes/api_admin.rs:258-325 | undisturbed, on the literal words: "approved" is accepted from denied, escalated and pending, "denied" from pending and escalated, "escalated" from pending, each writing that status; any other word or a blank reason is refused and nothing changes; its read and its write are two events |
| `Server.Tables.WriteReview` | src/routes/api_admin.rs:305-323 | the write of an override sets the status whatever the row says by then, and records it |
| `Server.Tables.BulkOverride` | src/routes/admin.rs:224-264 | at most 100 ids; exactly the named denied or escalated actions become approved, each counted once even if named twice; a database error leaves exactly the ids before it done |
| `Server.Tables.ExpireStaleActions` | src/services/processor.rs:55-74 | the expiry statement denies exactly the pending rows created before the cutoff |
| `Server.TablesKeepInv` | src/services/verdict.rs:112-247 | tables built by these methods satisfy the invariant of reachable states |
| `Concurrency.RunKeepsProcessing` | src/services/verdict.rs:132-137 | while override writes re-pass their test, nothing else moves the action in hand out of processing |
| `Concurrency.RunStrandsNobody` | src/services/processor.rs:87-101 | unless the processor gives an action up, the row in hand is the only one in processing |
| `Concurrency.AbandonStrands` | src/services/processor.rs:92-98 | a shutdown, crash or failed denial leaves the row in processing with nobody working on it |
| `Concurrency.StuckForever` | src/services/processor.rs:55-82 | such a row, if no override has read it before, never leaves processing in any continuation: expiry, the batch query and the overrides all pass over it |
| `Concurrency.LimitAtEvaluation` | src/services/verdict.rs:476-498 | in any state the limit is hit iff it is at most the stranded rows plus the row in hand, if that is still in processing |
| `Concurrency.LimitIsAllOrNothing` | src/services/verdict.rs:476-498 | while nothing is given up and override writes re-pass their test, the limit is hit at every evaluation if it is one (the default) or less, and at none if it is more |
| `Concurrency.StuckRowsCountForever` | src/services/verdict.rs:476-498 | each stranded row lowers the limit of its agent by one for good |
| `Concurrency.LimitOfOneDeniesEverything` | src/services/verdict.rs:476-498 | under a limit of one every action that reaches evaluation is denied by the live pass |
| `Budget.TotalUpdate` | src/services/verdict.rs:538-540 | rewriting one row changes the sum by the difference of its weights |
| `Budget.BudgetHitsIff` | src/services/verdict.rs:536-554 | the rule is hit iff every payload the query reads is JSON and the total reaches the maximum |
| `Budget.SpentReadMeans` | src/services/verdict.rs:536-540 | what one more row does to the answer: the number at `$.amount` is added, none adds nothing, an unreadable payload fails the query |
| `Budget.SpentReadIgnores` | src/services/verdict.rs:536-540 | rows of others and denied rows do not count |
| `Budget.MalformedPayloadLiftsBudget` | src/services/verdict.rs:536-554 | one action of the agent with a payload that is not JSON switches the rule off for it |
| `Budget.UnreadablePayloadOverspends` | src/services/verdict.rs:536-554 | a run in which each judgement is the evaluator's own, yet with one unreadable payload on record the spent total reaches any amount |
| `Budget.AllowedMeansUnderBudget` | src/services/verdict.rs:536-554 | an evaluation that did not deny saw a total strictly below the maximum |
| `Budget.StepKeepsBudget` | src/services/verdict.rs:536-639 | every event keeps the agent's approved, escalated and sent total below the maximum while the rule is on |
| `Budget.SpentStaysUnderBudget` | src/services/verdict.rs:536-554 | over every run with the rule on, readable payloads, non-negative amounts and no override writes, that total stays strictly below `max_budget`; with a maximum of zero or less it stays empty |
| `Statistics.VarianceIsMeanSquare` | src/services/verdict.rs:515-516 | sum_sq/n - avg^2 is the mean squared deviation, hence never negative |
| `Statistics.DeviatesIsAnomalous` | src/services/verdict.rs:515-519 | the test with the square root is the test on squares |
| `Statistics.Samuelson` | src/services/verdict.rs:503-519 | a member of an n-row sample is at most n-1 variances (squared) from the mean |
| `Statistics.NeverDeviates` | src/services/verdict.rs:515-519 | so no member of a sample deviates when n-1 <= threshold^2 |
| `Statistics.HistogramCanDenyIff` | src/services/verdict.rs:499-530 | for a non-negative threshold some member of some n-row sample deviates if and only if n > 5 and n-1 > threshold^2 |
| `History.TestedValueIsInSample` | src/services/verdict.rs:132-137 | in every reachable state the value under test of a plain field is a member of the sample the query aggregates, because the claimed row is no longer pending |
| `History.ShortHistoryIsNeverDenied` | src/services/verdict.rs:499-530 | so over every run the rule on a plain field never denies when its agent has at most five, or threshold^2 + 1, numbers on record |
| `History.SampleMeans` | src/services/verdict.rs:503-514 | which rows put which number into the sample: the agent's own, past pending, with a number at the path |
| `History.HistoryReadMeans` | src/services/verdict.rs:499-519 | when the query answers, and that it answers the member under test with mean, count and sum of squares of the sample |
| `History.DeviationIsHitIff` | src/services/verdict.rs:499-530 | at an evaluation in any reachable state the limit is hit iff the value deviates from the sample on record |
| `History.DeviantIsRefused` | src/services/verdict.rs:499-530 | and then the live pass refuses the action |
| `History.DottedFieldEscapesBound` | src/services/verdict.rs:503-514 | when the member and the path of the field differ, as for `order.total`, some payload is denied on every varied history of more than five numbers, however high the threshold |
| `RateRule.CountedAreOfLaterDays` | src/services/verdict.rs:453-461 | the rate query counts the agent's recent actions of later days than the cutoff's, and no others, since an RFC 3339 cutoff is compared with space-separated stamps as text |
| `RateRule.RateHitsIff` | src/services/verdict.rs:453-474 | so the limit is hit iff those alone reach the maximum |
| `RateRule.CountIsRightIff` | src/services/verdict.rs:456-461 | the count is the number of actions in the window if and only if none of these is from the cutoff's own day |
| `RateRule.RateNeverOvercounts` | src/services/verdict.rs:453-474 | a hit is never undeserved |
| `RateRule.WindowWithinADayNeverDenies` | src/services/verdict.rs:453-474 | whatever the agent has done, a positive limit is not hit while its window does not reach back over midnight |
| `RateRule.RateRulesAloneLetOn` | src/services/verdict.rs:374-565 | so until then a policy of rate rules alone lets every action on |
| `PolicyEngine.EvaluateRule` | src/services/policy_engine.rs:76-83 | the recursive evaluator computes the specification on every nesting; what that specification says of leaves, lists and composites is in the rows below |
| `PolicyEngine.EvaluateComposite` | src/services/policy_engine.rs:110-131 | the collecting loop of a composite computes the specification |
| `PolicyEngine.AndMeaning` | src/services/policy_engine.rs:85-131 | `and` matches iff it is non-empty and every part matches; it denies iff some part does, at the highest risk of its parts |
| `PolicyEngine.OrMeaning` | src/services/policy_engine.rs:110-131 | `or` is its first matching part |
| `PolicyEngine.LimitDisablesAnd` | src/services/policy_engine.rs:50-131 | an `and` with a limit as a part never matches, so its denying parts are disabled |
| `PolicyEngine.OrIgnoresLimit` | src/services/policy_engine.rs:50-131 | dropping a limit from an `or` changes nothing |
| `PolicyEngine.LeafMeaning` | src/services/policy_engine.rs:133-300 | a leaf matches exactly as declared (a keyword or pattern occurs in the text at some place, countries agree but for the case of ASCII letters), an unknown type always, and only denying leaves deny |
| `PolicyEngine.ContainsMeans` | src/services/policy_engine.rs:135-146 | containment is occurrence at some place of the text, not only at its start |
| `PolicyEngine.LeafRisk` | src/services/policy_engine.rs:133-300 | the risk of every kind of matching leaf |
| `PolicyEngine.LeafNamesFirst` | src/services/policy_engine.rs:133-203 | a leaf that goes through a list of keywords, methods or patterns names the first entry that fits; an amount is named with its maximum |
| `PolicyEngine.LeafNamesPlace` | src/services/policy_engine.rs:204-300 | what leaves on URL, address, country and time, and unknown types, say |
| `PolicyEngine.MessagesJoin` | src/services/policy_engine.rs:86-108 | messages are joined by "; " in the order of the parts |
| `PolicyEngine.AndMessage` | src/services/policy_engine.rs:86-131 | a matching `and` says what all its parts say, in order |
| `Common.AsciiLowerMeans` | src/services/policy_engine.rs:264-285 | lower-cased texts agree exactly when the texts differ only in the case of ASCII letters |
| `Common.RisksAscend` | src/services/policy_engine.rs:86-100 | the order of risks that the maximum is taken in |
| `PolicyEngine.DenialHasALeaf` | src/services/policy_engine.rs:76-131 | at any depth a denial comes from a matching leaf that denies |
| `PolicyEngine.SortInPlace` | src/services/policy_engine.rs:69-71 | the array sort yields the sorted permutation |
| `PolicyEngine.SortIsStable` | src/services/policy_engine.rs:69-71 | sorted, a permutation, and equal priorities keep their order |
| `PolicyEngine.SortedByPriority` | src/services/policy_engine.rs:69-71 | lower priority numbers come first, and a rule without one stands as if it had 0 |
| `PolicyEngine.StableSortIsUnique` | src/services/policy_engine.rs:69-71 | those properties determine the result, so it is what any stable sort returns |
| `PolicyEngine.DistinctPrioritiesSortAlike` | src/services/policy_engine.rs:69-71 | with distinct priorities the declared order is irrelevant |
| `Policies.TestPolicy` | src/routes/policies.rs:197-255 | the test endpoint computes the simulation |
| `Policies.TestPolicyInner` | src/routes/policies.rs:311-356 | the simulate endpoint has a loop of its own; it computes the same simulation, and answers nothing exactly when nothing matched |
| `Policies.SimulateAll` | src/routes/policies.rs:264-303 | one result per policy, each its simulation |
| `Policies.ContextRulesNeverMatch` | src/routes/policies.rs:197-221 | both endpoints leave out method and metadata, so rules on method, source address or country never match in a test |
| `Policies.TestAgreesWithLive` | src/routes/policies.rs:311-319 | for a policy without such rules, at any depth, a test gives the simulation of the live input |
| `Policies.TestCanMissDenial` | src/routes/policies.rs:311-319 | with one it need not: an address outside the allowlist is denied live and passes the test |
| `Policies.TestDeniesNoMore` | src/routes/policies.rs:311-344 | for rules without an `or`, at any depth, a test never denies what the live input would not |
| `Policies.TestCanDenyMore` | src/routes/policies.rs:311-344 | with an `or` it can: a part on the method that does not deny hides, live, the part that does |
| `Policies.DeniesIffSomeRuleDenies` | src/routes/policies.rs:326-344 | a policy denies iff some rule of it does, wherever it stands |
| `Policies.DenialComesFromFirst` | src/routes/policies.rs:326-344 | the reported reason and risk are those of the first denying rule in priority order |
| `Policies.MatchComesFromLast` | src/routes/policies.rs:326-344 | without a denial, reason and risk are those of the last matching rule in priority order |
| `Policies.NothingMatches` | src/routes/policies.rs:223-255 | without a match, the report is "No rules matched" |
| `Policies.OrderOfRulesIsIrrelevant` | src/routes/policies.rs:326-344 | permuting the rules changes neither denial nor match; with distinct priorities it changes nothing at all |
| `Policies.LiveAgreesWithSimulation` | src/services/verdict.rs:392-437 | the live rule pass denies iff some policy's simulation does, and the first such policy in live order supplies id, reason and risk |
| `Policies.DryRunNeverDenies` | src/services/verdict.rs:392-446 | in dry-run the pass never denies but still reports whenever anything matched |
| `Policies.LimitPassMeaning` | src/services/verdict.rs:449-560 | the limit pass denies iff some top-level limit is hit |
| `Policies.EvaluateAllowsIff` | src/services/verdict.rs:374-565 | outside dry-run an action is let on iff no rule denies it and no limit is hit |
| `Policies.EvaluateLive` | src/services/verdict.rs:374-565 | the two passes over policies and rules compute the evaluation, context included; whom it denies, why, and what the context holds is in the rows around this one |
| `Policies.EvaluateDenialMeans` | src/services/verdict.rs:374-565 | a denial is that of the first denying rule in priority order of the first such policy, with its id, message and risk; else that of the first limit hit |
| `Policies.LimitPassIsFirst` | src/services/verdict.rs:449-560 | the limit pass reports the first limit hit, policies and rules in declared order |
| `Policies.CountLimitsMean` | src/services/verdict.rs:449-498 | when a rate, concurrency or budget limit is hit, with the defaults 10 in 60 s, 1 and 10000, what is reported, and that an unanswered query never hits |
| `Policies.HistogramHitIff` | src/services/verdict.rs:499-530 | the z-score limit is hit iff its test on the answered value, mean, root and threshold (default 2) holds, and reports field, value and threshold at High |
| `Policies.DryRunLetsAllThrough` | src/services/verdict.rs:374-565 | in dry-run neither a rule nor a limit denies |
| `Policies.LiveRulesJoin` | src/services/verdict.rs:401-437 | the rules of a policy are taken in order: notes of earlier ones come first, a denial ends the pass |
| `Policies.RulePassJoins` | src/services/verdict.rs:392-437 | so are the policies |
| `Policies.ContextIsNotes` | src/services/verdict.rs:401-437 | when nothing denies, the context holds the policy name and message of every rule that matched, and nothing else |
| `Pipeline.Analyze` | src/services/prompt_injection.rs:104-135 | all matches, and a risk that is the worst of them |
| `Pipeline.CriticalIffSomePattern` | src/services/prompt_injection.rs:104-135 | a critical match exists iff some critical pattern occurs in intent and payload |
| `Pipeline.OnePattern` | src/services/prompt_injection.rs:110-120 | each occurrence of a pattern is reported under its name and severity, in order |
| `Pipeline.AllMatchesJoin` | src/services/prompt_injection.rs:110-120 | the patterns are searched for in their order |
| `Pipeline.BuildProviderChain` | src/services/verdict.rs:47-70 | default first, no duplicates, exactly the configured ones after it, in the order of the candidate list |
| `Pipeline.TryLlmAnalysis` | src/services/verdict.rs:287-371 | the opinion is that of the first provider whose reply can be read; all before it failed; what the reply's words stand for is in the next rows |
| `Pipeline.ConsultReads` | src/services/llm.rs:157-170 | approved iff the word is "approved", escalated iff "escalate" or "escalated", denied otherwise; low, high and critical iff so named, medium otherwise; the confidence kept between 0 and 1 |
| `Pipeline.ConsultNobody` | src/services/verdict.rs:355-371 | with no readable reply the opinion is a denial at High with no confidence |
| `Pipeline.ConsultApproves` | src/services/verdict.rs:296-371 | approval iff that provider said approved; if none answers, denied |
| `Pipeline.JudgeAction` | src/services/verdict.rs:145-247 | the loops over policies, patterns and providers compute the judgement described in the next row |
| `Pipeline.JudgeMeans` | src/services/verdict.rs:145-247 | who decides, in order, and what: a policy denial with its id and risk, else a critical pattern at Critical, else the words of the first readable reply, all three decisions and four risks |
| `Pipeline.FailClosed` | src/services/verdict.rs:145-247 | approval iff no rule denies, no limit is hit, no critical pattern occurs and the first answering provider approves |
| `Pipeline.NoProviderMeansDeny` | src/services/verdict.rs:355-371 | without an answer the action is denied, in dry-run too |
| `AuditChain.TextIsUnique` | src/services/audit.rs:23-41 | between rows whose action id, event type and timestamp have no pipe character, the joined text determines every field, even when details do |
| `AuditChain.TextDeterminesIff` | src/services/audit.rs:23-41 | the hashed text of a row determines its content among all rows if and only if none of its four hashed fields holds a `&#124;` |
| `AuditChain.PipesCanShift` | src/services/audit.rs:23-41 | from every row with a `&#124;` in a hashed field, the row with other content and the same text: action id into event type, event type into details, details into timestamp, timestamp into details |
| `AuditChain.VerifyChain` | src/services/audit.rs:108-160 | valid iff every row is linked; otherwise `entries_checked` is the longest valid prefix and `first_broken_id` the next row |
| `AuditChain.ChainedRow` | src/services/audit.rs:18-41 | how a row of a valid chain reads: the hash of its predecessor, 64 zeros for the first, and the hash of previous hash, action id, event, details and time joined by `&#124;` |
| `AuditChain.HashesAreDistinct` | src/services/audit.rs:23-41 | no hash occurs twice in a valid chain: no fork and no cycle |
| `AuditChain.HeadCommits` | src/services/audit.rs:108-160 | two valid logs with one head have equal length and equal hashed text row by row |
| `AuditChain.SameHeadIffSameHistory` | src/services/audit.rs:108-160 | with plain fields, same head iff same content row by row (ids not hashed, missing and empty action ids alike) |
| `AuditChain.TruncationChangesHead` | src/services/audit.rs:162-167 | cutting rows off leaves a valid chain with another head |
| `AuditChain.EditIsReported` | src/services/audit.rs:125-160 | an in-place edit is reported, at that row, iff the hashed text changed |
| `AuditChain.PlainEditIsReported` | src/services/audit.rs:125-160 | every edit of the hashed content of a row without a `&#124;`, whatever it puts there, is reported at that row |
| `AuditChain.PlainRewriteIsReported` | src/services/audit.rs:125-160 | so is every edit that puts no `&#124;` outside the details, of a row that has none there |
| `AuditChain.UnreportedEditIff` | src/services/audit.rs:125-160 | a row of a valid chain has an edit that keeps its hash and is not reported if and only if one of its hashed fields holds a `&#124;` |
| `AuditChain.SameHeadIffSameTexts` | src/services/audit.rs:108-160 | any two valid logs have the same head if and only if their hashed texts agree row by row |
| `AuditChain.RehashedEditIsReported` | src/services/audit.rs:125-160 | rehashing the edited row moves the report to its successor, or changes the head |
| `AuditChain.DeletionIsReported` | src/services/audit.rs:125-160 | deleting a middle row reports its successor |
| `AuditChain.AppendLinksIff` | src/services/audit.rs:57-93 | a row joins the chain iff it was hashed over the head it follows |
| `AuditChain.InterleavedAppendsStayChained` | src/services/audit.rs:57-105 | however writers interleave, if a commit aborts when another came between, the log stays chained |
| `AuditChain.BackfillTouches` | src/services/audit.rs:188-221 | backfill rewrites exactly the rows without a hash |
| `AuditChain.BackfillIsIdempotent` | src/services/audit.rs:186-221 | a second backfill changes nothing |
| `AuditChain.BackfillBuildsTheChain` | src/services/audit.rs:188-221 | over a valid prefix and canonical stamps, backfill is the log chained appends would have built |
| `AuditChain.BackfillVerifiesIff` | src/services/audit.rs:188-242 | the table verifies after backfill if and only if the hashed rows were a valid prefix and normalisation changes no legacy stamp |
| `AuditChain.UpgradeVerifiesIff` | src/services/audit.rs:188-242 | with the normalisation the code uses: if and only if the hashed rows were a valid prefix and no legacy stamp is a readable RFC 3339 one |
| `AuditChain.RewrittenStampBreaksChain` | src/services/audit.rs:188-242 | one legacy row with a readable RFC 3339 stamp, and the backfilled table does not verify |
| `AuditTable.Table.UpdateHashes` | migrations/019_audit_tamper_guards.sql:11-16 | the update trigger: a hashed row is frozen |
| `AuditTable.Table.Execute` | migrations/019_audit_tamper_guards.sql:11-22 | any statement, as the triggers let it through: which take effect and how, and that hashed rows stay in place and unchanged |
| `AuditTable.HashedRowsAreFrozen` | migrations/019_audit_tamper_guards.sql:11-22 | no sequence of inserts, updates and deletes touches a hashed row |
| `AuditTable.ChainSurvivesStatements` | migrations/019_audit_tamper_guards.sql:11-22 | so a chain stays a valid prefix of the table under any statements |
| `AuditTable.Table.Record` | src/services/audit.rs:57-105 | one audited write appends the row chained to the head, and keeps a chain a chain |
| `AuditTable.Table.BackfillUnchained` | src/services/audit.rs:188-221 | the loop computes the backfill, returns the number of legacy rows, and is never refused by the trigger |
| `AuditTable.CheckpointRoundTrip` | src/services/audit.rs:170-184 | a head written to the checkpoint is read back |
| `AuditTable.ReadCheckpointMeans` | src/services/audit.rs:179-184 | a checkpoint is found iff the file is there and not blank, and is its text without the blanks around it |
| `AuditTable.StartServer` | src/main.rs:78-128 | backfill, verify, compare, write: when the server starts, what it reports otherwise, and what the checkpoint then holds |
| `AuditTable.RewrittenStampStopsServer` | src/main.rs:78-107 | a single such legacy row keeps the server from ever starting, on later tries too |
| `AuditTable.StrictStartMeansSameTexts` | src/main.rs:113-128 | a strict start over a checkpoint succeeds iff the log verifies and has the checkpointed texts row by row, for every log |
| `AuditTable.StrictStartPinsHistoryIff` | src/main.rs:113-128 | a strict start accepts the checkpointed content only, if and only if no hashed field of the checkpointed log holds a `&#124;` |
| `AuditTable.StartOverForgery` | src/main.rs:78-128 | with a `&#124;` in the details of one row, what follows it can be moved in front of the timestamp, and the server starts on the forged table in strict mode with the old checkpoint |
| `AuditTable.StrictStartMeansSameHistory` | src/main.rs:113-128 | between logs that have no `&#124;` outside the details, a strict start succeeds iff the log verifies and has the checkpointed content |
| `AuditTable.StrictStartRefusesHonestGrowth` | src/main.rs:113-135 | the checkpoint is written at startup only, so any honest append since makes a strict start fail |
| `AuditTable.LenientStartForgetsTruncation` | src/main.rs:113-135 | a lenient start over a truncated log records the shorter head, which strict starts then accept |
| `Turns.TurnStaysUnderBudget` | src/services/verdict.rs:145-247 | when a turn of the processor judges with the sum query's own answer, the run it leaves keeps the rule on, and the agent's spent total in the resulting tables is below the maximum |
| `Turns.TurnEvaluates` | src/services/verdict.rs:145-247 | such a judgement is an evaluation in the sense of the concurrency and history laws, on the rows with the action claimed |
| `Turns.TurnUnderLimitOfOneIsRefused` | src/services/verdict.rs:476-498 | so a turn under a concurrency limit of one is refused |
| `Egress.PermittedV4IffOutsideBlocks` | src/services/egress.rs:100-114 | the octet tests permit exactly the addresses outside the listed CIDR blocks |
| `Egress.MappedAgrees` | src/services/egress.rs:116-123 | a v4-mapped address is judged as its v4 address |
| `Egress.PermittedV6IffOutsideBlocks` | src/services/egress.rs:116-135 | the masked segment tests permit exactly the addresses outside the v6 blocks, mapped ones judged by their v4 address |
| `Egress.MasksKeepLeadingBits` | src/services/egress.rs:125-127 | bitwise and with the three masks of the guard keeps the leading 7, 10 and 8 bits |
| `Egress.ValidateIff` | src/services/egress.rs:30-61 | a parsed target passes iff it is http(s), has no credentials, has a host, and that is neither localhost nor a blocked literal |
| `Egress.ParseTargetIff` | src/services/egress.rs:30-61 | a text passes iff it parses to an acceptable URL, which is then the target |
| `Egress.AssertResolvable` | src/services/egress.rs:63-90 | no objection iff the name resolved to something and every address is permitted |
| `ForwardLoop.Execute` | src/routes/actions.rs:691-801 | terminates; its hops are one whole relay that starts with the action's own URL, method and body, each hop looking up its own host and leading where the lookup and the reply lead (next rows); its requests are exactly the hops whose lookup was cleared, and its result is what the last hop came to |
| `ForwardLoop.HopsGoWhereSent` | src/routes/actions.rs:738-761 | a hop after a redirect goes to the URL that the reply's Location, joined to the URL before, parses to; the first of each attempt goes to the action's own with its method and body |
| `ForwardLoop.NextTargetMeans` | src/routes/actions.rs:745-753 | a redirect target is the acceptable URL the joined Location parses to, if there is one |
| `ForwardLoop.RedirectCourse` | src/routes/actions.rs:738-761 | where a response from 300 to 399 leads, with method and body; the fourth of an attempt, or one leading nowhere acceptable, ends the relay |
| `ForwardLoop.OtherCourse` | src/routes/actions.rs:717-795 | a refused lookup or a broken connection fails the attempt; any other response is the reply |
| `ForwardLoop.ClearedMeans` | src/services/egress.rs:63-90 | a lookup is cleared iff it found an address and none in a blocked range |
| `ForwardLoop.OnTheWire` | src/routes/actions.rs:722-730 | the method sent for each verb, and which of them carry the body |
| `ForwardLoop.HopsAreBounded` | src/routes/actions.rs:703-760 | at most twelve hops, at most three redirects in an attempt, and every URL passed the guard |
| `ForwardLoop.IssuedAscends` | src/routes/actions.rs:719-737 | requests are issued in the order of the hops, each for its own cleared lookup |
| `ForwardLoop.RepliesAndFaultsAreLast` | src/routes/actions.rs:740-785 | a reply, a fourth redirect or an unusable redirect target ends the relay |
| `ForwardLoop.ToldMeans` | src/routes/actions.rs:713-801 | a reply is reported iff the last hop got one; a refused lookup or transport error is reported only after all three attempts failed that way |
| `ForwardLoop.AfterSeeOther` | src/routes/actions.rs:755-761 | after a 303 the rest of the attempt goes out as GET with no content (section 15.4.4 of RFC 9110) |
| `ForwardLoop.VerbIsKept` | src/routes/actions.rs:711-760 | without a 303 every hop keeps the action's method and body |
| `ForwardLoop.AttemptsAscend` | src/routes/actions.rs:710-795 | attempts follow one another |
| `ForwardLoop.EveryRequestIsGuarded` | src/routes/actions.rs:717-737 | each request is issued right after a lookup of its own host that found an address, and found none inside the blocked v4 or v6 ranges |
| `Limiters.RateLimiter.IsAllowed` | src/services/metrics.rs:215-236 | admission and the new entry, for a new key, after a full window and within one, with every other key untouched |
| `Limiters.RateLimiter.Cleanup` | src/services/metrics.rs:200-213 | drops exactly the entries a full window old |
| `Limiters.RateLimiterBound` | src/services/metrics.rs:200-236 | at most 2*max-1 admissions of a key in any half-open interval of one window, sweeps included |
| `Limiters.RateLimiterBoundIsReached` | src/services/metrics.rs:215-236 | that bound is reached for every positive max and every window above one tick, without any sweep |
| `Limiters.SlidingIffLimitOfOne` | src/services/metrics.rs:200-236 | the limiter keeps what a sliding window promises on every run if and only if max is one or less |
| `Limiters.KeysAreIndependent` | src/services/metrics.rs:215-236 | a key fares as if other keys' requests had not happened |
| `Limiters.LoginThrottle.Allow` | src/routes/admin.rs:48-58 | admission and the stored times, other addresses untouched |
| `Limiters.ThrottleBound` | src/routes/admin.rs:48-58 | at most max_attempts per address in any half-open interval of one window |
| `Limiters.ThrottleIsExact` | src/routes/admin.rs:48-58 | it lets an attempt in iff fewer than max were let in during the last window |
| `Metrics.MeanDrift` | src/services/metrics.rs:134-140 | after n samples 0 <= sum - n*mean <= n(n-1)/2 for the integer running mean |
| `Metrics.MetricsCollector.RecordRequest` | src/services/metrics.rs:134-140 | keeps the count and that running mean |
| `Metrics.UninterruptedIsNextMean` | src/services/metrics.rs:134-140 | the four atomic steps of a request, uninterrupted, make that update |
| `Metrics.OverlapLosesHalf` | src/services/metrics.rs:134-140 | two overlapping requests leave half their time as the mean, so the bound holds only for requests one after the other |
| `Metrics.RunningMean` | src/services/llm.rs:60-66 | in exact reals the update keeps the true mean |
| `Metrics.Percentiles` | src/services/llm.rs:72-82 | p50 <= p95 <= p99, each an element of the sample with the rank its share calls for: that many elements are no greater, and the rest no smaller |
| `Metrics.PercentilesMean` | src/services/llm.rs:72-82 | more than half, 95 and 99 in a hundred of the sample are no greater, and at least the rest no smaller |
| `Metrics.RankMeans` | src/services/llm.rs:72-82 | the rank of a share is the truncated product |
| `Metrics.LastWindowMeans` | src/services/llm.rs:68-72 | the sample is the last thousand latencies |
| `Metrics.ProviderMetrics.RecordRequest` | src/services/llm.rs:60-86 | keeps the true mean of all samples, the percentiles of the last thousand, the token total and its price |
| `Clock.TextOrderIsTimeOrder` | src/services/processor.rs:56-62 | on "YYYY-MM-DD HH:MM:SS" text order is time order |
| `Clock.FormatShape` | src/services/audit.rs:74-75 | the nineteen characters of a stamp |
| `Queue.ExpiryLeavesNothingStale` | src/services/processor.rs:55-74 | after expiry a row is pending iff it was and is not older than the cutoff; the older pending ones are denied and all others are as before |
| `Queue.DueMeans` | src/services/processor.rs:77-80 | a pending action is due at once without an execution time, and from its time on with one |
| `Queue.BatchTakesFirst` | src/services/processor.rs:77-80 | a batch takes lower priority numbers first and among equals the older action |
| `Queue.IsoTimeWaitsForNextDay` | src/services/processor.rs:77-80 | an execution time in RFC 3339 form is due exactly from the day after its own |
| `Queue.DueOnlyWithinTtl` | src/services/processor.rs:43-80 | at a tick an action is due exactly when its time has come and its age is within the time to live |
| `Queue.ScheduledPastTtlNeverRuns` | src/services/processor.rs:43-80 | an action scheduled past its time to live is expired before it is ever due |
| `Queue.TickLowersDue` | src/services/processor.rs:36-104 | a tick removes a whole batch from the due rows and adds none, under any interleaved requests and overrides |
| `Queue.TicksDrain` | src/services/processor.rs:36-104 | after k ticks at most n - k*batch_size of n are left |
| `Queue.QueueEmpties` | src/services/processor.rs:36-104 | ceil(n / batch_size) ticks empty the queue |
| `Replicas.TestedClaimsKeepSound` | src/services/verdict.rs:124-137 | if each claim found its row still pending, any number of processors would give an action at most one verdict |
| `Replicas.ClaimHarmsIff` | src/services/verdict.rs:124-137 | one claim lets a later run save two verdicts, with every later claim tested, if and only if the row has a verdict or is in another processor's hands |
| `Replicas.TwoProcessorsCanJudgeTwice` | migrations/003_create_verdicts.sql:2-12 | two idle processors and a pending action are enough, since nothing in the schema forbids a second verdict |
| `Webhook.ConstantTimeEqIsEquality` | src/services/webhook.rs:56-66 | the fold over bytes is equality of texts |
| `Webhook.SignedIsInjective` | src/services/webhook.rs:36-47 | the signed text determines timestamp and payload |
| `Webhook.SignIs` | src/services/webhook.rs:36-47 | the header, and the text under its MAC |
| `Webhook.VerifyIsEquality` | src/services/webhook.rs:52-66 | a header verifies iff without the blanks around it it is the signed one |
| `Webhook.VerifyAcceptsOnlyWhatWasSigned` | src/services/webhook.rs:36-67 | a signed header is accepted for its own timestamp and payload and for no other |

## Left out

- Several processors are modelled in `Replicas` only, as far as verdicts go; everything else assumes one.
- A failing audit write after a submission, an override or a relay: those entries are written with their event.
- Server.Tables.CreateAction: truncating the intent, building the metadata and waiting for a verdict are not modelled.
- Server.Tables.ProcessAction: an id without a row is not modelled; ids come from the batch query and rows are never deleted.
- Server.Tables.ForwardAction: response transforms, the note when the URL has no method, and truncating the body at 256 KiB are not modelled.
- AuditTable.StartServer: database errors during backfill and verification, which end the start, and the shortened heads in its messages are not modelled.
- AuditTable.Table.Record: the transaction around it is in `AuditChain.InterleavedAppendsStayChained`, on values.
- Budget.BudgetHitsIff: other failures of the sum query than unreadable payloads are not modelled; the code then skips the limit.
- History.TestedValueIsInSample: that a plain member occurring once is what its JSON path extracts is assumed of SQLite.
- RateRule.RateHitsIff: the fraction of a second in the cutoff is part of the text after its date, which never matters to the comparison; failures of the query are `None` in `Reads`.
- Policies.EvaluateLive: the wording of the limit messages is not modelled; reasons carry the numbers in them.
- PolicyEngine.LeafMeaning: regular expressions, case mapping beyond ASCII where the code uses Unicode, the clock and the calendar are inputs.
- Metrics.Percentiles: the rank is computed in exact reals, so rounding of `len * 0.95` in doubles is not captured.
- Metrics.MetricsCollector.RecordRequest: counters do not wrap at 2^64; overlapping requests are in `Metrics.OverlapLosesHalf`, on values.
- Egress.ValidateIff: URL parsing and DNS are inputs.
- ForwardLoop.Execute: failing to build the HTTP client, and the pauses between attempts, are not modelled.
- ForwardLoop.EveryRequestIsGuarded: the HTTP client resolves the name again when it connects, and that answer is not checked by the code or modelled.
- Pipeline.TryLlmAnalysis: provider HTTP code and reading JSON out of a reply are inputs.
- Webhook.VerifyAcceptsOnlyWhatWasSigned: payloads are texts, and delivery with its retries is not modelled.
- HTTP routing, authentication, sessions, attachments, websockets, exports, health checks, configuration and the client libraries.
