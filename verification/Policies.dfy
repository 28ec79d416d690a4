/**
 Evaluating whole policies: the live rule pass, the limit pass that needs database db, and
 the two simulations an admin can run.
 */
module Policies {
  import opened Common
  import opened PolicyEngine
  import Statistics

  /** `rules` is None when the stored value is not an array. */
  datatype Policy = Policy(id: string, name: string, rules: Option<seq<Rule>>)

  // ---------- simulation ----------

  datatype Simulation = Simulation(matched: bool, deny: bool, reason: string, risk: Option<Risk>)

  const NoMatch := Simulation(false, false, "No rules matched", None)

  function Denies(r: Rule, i: Input, env: Env): bool {
    var o := Eval(r, i, env);
    o.Some? && o.value.deny
  }

  /** The rule loop of a simulation, from a state in which `acc` has been seen. */
  function Scan(rs: seq<Rule>, i: Input, env: Env, acc: Simulation): Simulation {
    if rs == [] then acc
    else
      match Eval(rs[0], i, env)
      case None => Scan(rs[1..], i, env, acc)
      case Some(o) =>
        var seen := Simulation(true, acc.deny || o.deny, o.message, Some(o.risk));
        if o.deny then seen else Scan(rs[1..], i, env, seen)
  }

  function Simulate(rules: Option<seq<Rule>>, i: Input, env: Env): Simulation {
    match rules
    case None => NoMatch
    case Some(rs) => Scan(SortRules(rs), i, env, NoMatch)
  }

  /** What the two endpoints accept: nothing about the method, the source address or the country. */
  datatype TestRequest = TestRequest(intent: string, payload: Option<string>, amount: Option<real>, url: Option<string>)

  function TestInput(q: TestRequest): Input {
    Input(q.intent, q.payload, q.amount, q.url, None, None, None)
  }

  /** The policy test endpoint. */
  method TestPolicy(rules: Option<seq<Rule>>, q: TestRequest, env: Env) returns (r: Simulation)
    ensures r == Simulate(rules, TestInput(q), env)
  {
    var input := TestInput(q);
    var matched, immediateDeny, reason, risk := false, false, "No rules matched", None;
    if rules.Some? {
      var copy := new Rule[|rules.value|](k requires 0 <= k < |rules.value| => rules.value[k]);
      assert copy[..] == rules.value;
      SortInPlace(copy);
      var sorted := copy[..];
      assert sorted[0..] == sorted;
      for k := 0 to |sorted|
        invariant !immediateDeny && (!matched ==> reason == NoMatch.reason && risk == None)
        invariant Scan(sorted, input, env, NoMatch)
               == Scan(sorted[k..], input, env, Simulation(matched, immediateDeny, reason, risk))
      {
        assert sorted[k..][0] == sorted[k] && sorted[k..][1..] == sorted[k + 1..];
        var outcome := EvaluateRule(sorted[k], input, env);
        if outcome.Some? {
          matched, immediateDeny := true, immediateDeny || outcome.value.deny;
          reason, risk := outcome.value.message, Some(outcome.value.risk);
          if outcome.value.deny { break; }
        }
      }
    }
    r := Simulation(matched, immediateDeny, if matched then reason else "No rules matched", risk);
  }

  /** The simulate endpoint's own copy of that loop, which answers None when nothing matched. */
  method TestPolicyInner(rules: Option<seq<Rule>>, q: TestRequest, env: Env) returns (r: Option<Simulation>)
    ensures r.GetOr(NoMatch) == Simulate(rules, TestInput(q), env)
    ensures r.Some? <==> Simulate(rules, TestInput(q), env).matched
  {
    var input := TestInput(q);
    var matched, immediateDeny, reason, risk := false, false, "", None;
    if rules.Some? {
      var copy := new Rule[|rules.value|](k requires 0 <= k < |rules.value| => rules.value[k]);
      assert copy[..] == rules.value;
      SortInPlace(copy);
      var sorted := copy[..];
      assert sorted[0..] == sorted;
      for k := 0 to |sorted|
        invariant !immediateDeny && (!matched ==> risk == None)
        invariant Scan(sorted, input, env, NoMatch)
               == Scan(sorted[k..], input, env,
                       if matched then Simulation(matched, immediateDeny, reason, risk) else NoMatch)
      {
        assert sorted[k..][0] == sorted[k] && sorted[k..][1..] == sorted[k + 1..];
        var outcome := EvaluateRule(sorted[k], input, env);
        if outcome.Some? {
          matched, immediateDeny := true, immediateDeny || outcome.value.deny;
          reason, risk := outcome.value.message, Some(outcome.value.risk);
          if outcome.value.deny { break; }
        }
      }
    }
    r := if matched then Some(Simulation(matched, immediateDeny, reason, risk)) else None;
  }

  /** What the simulate endpoint reports for each policy. */
  method SimulateAll(policies: seq<Policy>, q: TestRequest, env: Env) returns (results: seq<(string, Simulation)>)
    ensures |results| == |policies|
    ensures forall k :: 0 <= k < |policies| ==>
              results[k] == (policies[k].id, Simulate(policies[k].rules, TestInput(q), env))
  {
    results := [];
    for k := 0 to |policies|
      invariant |results| == k
      invariant forall j :: 0 <= j < k ==>
                  results[j] == (policies[j].id, Simulate(policies[j].rules, TestInput(q), env))
    {
      var inner := TestPolicyInner(policies[k].rules, q, env);
      results := results + [(policies[k].id, inner.GetOr(NoMatch))];
    }
  }

  // ---------- what the endpoints cannot see ----------

  /** The live input of an action, as an admin would retype it into a test request. */
  function Retyped(i: Input): Input {
    TestInput(TestRequest(i.intent, i.payload, i.amount, i.url))
  }

  predicate ReadsContext(kind: Kind) {
    kind.RequireApproval? || kind.IpAllowlist? || kind.Geofence?
  }

  predicate ContextFree(r: Rule)
    decreases r
  {
    match r.kind
    case And(subs) => forall k :: 0 <= k < |subs| ==> ContextFree(subs[k])
    case Or(subs) => forall k :: 0 <= k < |subs| ==> ContextFree(subs[k])
    case kind => !ReadsContext(kind)
  }

  /** Rules on the method, the source address or the country never match in a test. */
  lemma ContextRulesNeverMatch(r: Rule, q: TestRequest, env: Env)
    requires ReadsContext(r.kind)
    ensures Eval(r, TestInput(q), env).None?
  {
  }

  lemma {:induction false} RetypedAgrees(r: Rule, i: Input, env: Env)
    requires ContextFree(r)
    ensures Eval(r, Retyped(i), env) == Eval(r, i, env)
    decreases r, 0
  {
    match r.kind
    case And(subs) => EachRetypedAgrees(subs, i, env);
    case Or(subs) => EachRetypedAgrees(subs, i, env);
    case _ =>
  }

  lemma {:induction false} EachRetypedAgrees(subs: seq<Rule>, i: Input, env: Env)
    requires forall k :: 0 <= k < |subs| ==> ContextFree(subs[k])
    ensures EvalEach(subs, Retyped(i), env) == EvalEach(subs, i, env)
    ensures EvalFirst(subs, Retyped(i), env) == EvalFirst(subs, i, env)
    decreases subs, 1
  {
    if subs != [] {
      RetypedAgrees(subs[0], i, env);
      assert forall k :: 0 <= k < |subs| - 1 ==> subs[1..][k] == subs[k + 1];
      EachRetypedAgrees(subs[1..], i, env);
    }
  }

  /** For a policy without such rules, at any depth, a test says what the live pass would. */
  lemma TestAgreesWithLive(rs: seq<Rule>, i: Input, env: Env)
    requires forall r :: r in rs ==> ContextFree(r)
    ensures Simulate(Some(rs), Retyped(i), env) == Simulate(Some(rs), i, env)
  {
    SortKeepsMembers(rs);
    ScanRetyped(SortRules(rs), i, env, NoMatch);
  }

  lemma {:induction false} ScanRetyped(rs: seq<Rule>, i: Input, env: Env, acc: Simulation)
    requires forall r :: r in rs ==> ContextFree(r)
    ensures Scan(rs, Retyped(i), env, acc) == Scan(rs, i, env, acc)
  {
    if rs != [] {
      RetypedAgrees(rs[0], i, env);
      assert forall r :: r in rs[1..] ==> r in rs;
      match Eval(rs[0], i, env)
      case None => ScanRetyped(rs[1..], i, env, acc);
      case Some(o) => ScanRetyped(rs[1..], i, env, Simulation(true, acc.deny || o.deny, o.message, Some(o.risk)));
    }
  }

  /** With one it need not: an address outside the allowlist is denied live and passes the test. */
  lemma TestCanMissDenial(rs: seq<Rule>, r: Rule, i: Input, env: Env)
    requires rs == [r] && r.kind.IpAllowlist? && r.kind.allowed.Some? && i.sourceIp.Some?
    requires forall p :: p in r.kind.allowed.value ==> !Contains(i.sourceIp.value, p)
    ensures Simulate(Some(rs), i, env).deny && Simulate(Some(rs), Retyped(i), env) == NoMatch
  {
    assert r in rs && Denies(r, i, env);
    DeniesIffSomeRuleDenies(rs, i, env);
    ScanUnmatched(SortRules(rs), Retyped(i), env);
    SortKeepsMembers(rs);
  }

  predicate OrFree(r: Rule)
    decreases r
  {
    match r.kind
    case And(subs) => forall k :: 0 <= k < |subs| ==> OrFree(subs[k])
    case Or(_) => false
    case _ => true
  }

  /** Without an `or`, what matches in a test matches live with the same outcome. */
  lemma {:induction false} OrFreeMatchesLive(r: Rule, i: Input, env: Env)
    requires OrFree(r) && Eval(r, Retyped(i), env).Some?
    ensures Eval(r, i, env) == Eval(r, Retyped(i), env)
    decreases r, 0
  {
    match r.kind
    case And(subs) => EachMatchesLive(subs, i, env);
    case _ =>
  }

  lemma {:induction false} EachMatchesLive(subs: seq<Rule>, i: Input, env: Env)
    requires (forall k :: 0 <= k < |subs| ==> OrFree(subs[k])) && EvalEach(subs, Retyped(i), env).Some?
    ensures EvalEach(subs, i, env) == EvalEach(subs, Retyped(i), env)
    decreases subs, 1
  {
    if subs != [] {
      OrFreeMatchesLive(subs[0], i, env);
      assert forall k :: 0 <= k < |subs| - 1 ==> subs[1..][k] == subs[k + 1];
      EachMatchesLive(subs[1..], i, env);
    }
  }

  /** For rules without an `or` a test never denies what the live input would not. */
  lemma TestDeniesNoMore(rs: seq<Rule>, i: Input, env: Env)
    requires forall r :: r in rs ==> OrFree(r)
    ensures Simulate(Some(rs), Retyped(i), env).deny ==> Simulate(Some(rs), i, env).deny
  {
    DeniesIffSomeRuleDenies(rs, Retyped(i), env);
    DeniesIffSomeRuleDenies(rs, i, env);
    if r :| r in rs && Denies(r, Retyped(i), env) {
      OrFreeMatchesLive(r, i, env);
      assert Denies(r, i, env);
    }
  }

  /**
   With one it can: live, an `or` stops at a part on the method that does not deny; the test does not
   see the method and goes on to the part that does.
   */
  lemma TestCanDenyMore(r: Rule, i: Input, env: Env)
    requires r.kind.Or? && |r.kind.subs| == 2
    requires r.kind.subs[0].kind.RequireApproval? && Eval(r.kind.subs[0], i, env).Some?
    requires r.kind.subs[1].kind.DenyKeyword? && Eval(r.kind.subs[1], i, env).Some?
    ensures !Simulate(Some([r]), i, env).deny && Simulate(Some([r]), Retyped(i), env).deny
  {
    OrOfTwo(r, i, env);
    OrOfTwo(r, Retyped(i), env);
    LeafDenies(r.kind.subs[0], i, env);
    LeafDenies(r.kind.subs[1], i, env);
    RetypedAgrees(r.kind.subs[1], i, env);
    ContextRulesNeverMatch(r.kind.subs[0], TestRequest(i.intent, i.payload, i.amount, i.url), env);
    SingleRule(r, i, env);
    SingleRule(r, Retyped(i), env);
  }

  lemma OrOfTwo(r: Rule, i: Input, env: Env)
    requires r.kind.Or? && |r.kind.subs| == 2
    ensures Eval(r, i, env) ==
            if Eval(r.kind.subs[0], i, env).Some? then Eval(r.kind.subs[0], i, env) else Eval(r.kind.subs[1], i, env)
  {
    var rest := r.kind.subs[1..];
    assert rest[0] == r.kind.subs[1] && rest[1..] == [];
    assert EvalFirst(rest, i, env) == Eval(rest[0], i, env);
  }

  lemma LeafDenies(r: Rule, i: Input, env: Env)
    requires !r.kind.And? && !r.kind.Or? && Eval(r, i, env).Some?
    ensures Eval(r, i, env).value.deny == DenyingLeaf(r.kind)
  {
    LeafMeaning(r.kind, i, env);
  }

  lemma SingleRule(r: Rule, i: Input, env: Env)
    ensures Simulate(Some([r]), i, env).deny <==> Denies(r, i, env)
  {
    DeniesIffSomeRuleDenies([r], i, env);
    assert r in [r];
  }

  ghost predicate SomeMatches(rs: seq<Rule>, i: Input, env: Env) {
    exists r :: r in rs && Eval(r, i, env).Some?
  }

  ghost predicate SomeDenies(rs: seq<Rule>, i: Input, env: Env) {
    exists r :: r in rs && Denies(r, i, env)
  }

  lemma HeadOrTail(rs: seq<Rule>, i: Input, env: Env)
    requires rs != []
    ensures SomeMatches(rs, i, env) <==> Eval(rs[0], i, env).Some? || SomeMatches(rs[1..], i, env)
    ensures SomeDenies(rs, i, env) <==> Denies(rs[0], i, env) || SomeDenies(rs[1..], i, env)
  {
    assert forall r :: r in rs <==> r == rs[0] || r in rs[1..];
    if Eval(rs[0], i, env).Some? { assert rs[0] in rs; }
  }

  lemma {:induction false} ScanKeepsMatch(rs: seq<Rule>, i: Input, env: Env, acc: Simulation)
    ensures acc.matched ==> Scan(rs, i, env, acc).matched
  {
    if rs != [] {
      match Eval(rs[0], i, env)
      case None => ScanKeepsMatch(rs[1..], i, env, acc);
      case Some(o) => ScanKeepsMatch(rs[1..], i, env, Simulation(true, acc.deny || o.deny, o.message, Some(o.risk)));
    }
  }

  lemma {:induction false} ScanUnmatched(rs: seq<Rule>, i: Input, env: Env)
    ensures var s := Scan(rs, i, env, NoMatch);
      (!s.matched ==> s == NoMatch) && (s.matched <==> SomeMatches(rs, i, env))
  {
    if rs != [] {
      HeadOrTail(rs, i, env);
      match Eval(rs[0], i, env)
      case None => ScanUnmatched(rs[1..], i, env);
      case Some(o) => ScanKeepsMatch(rs[1..], i, env, Simulation(true, o.deny, o.message, Some(o.risk)));
    }
  }

  /** Where the loop stops: at the first denying rule, if there is one. */
  ghost predicate FirstDenial(rs: seq<Rule>, k: int, i: Input, env: Env) {
    0 <= k < |rs| && Denies(rs[k], i, env) && forall j :: 0 <= j < k ==> !Denies(rs[j], i, env)
  }

  function DenialOf(r: Rule, i: Input, env: Env): Simulation
    requires Denies(r, i, env)
  {
    Simulation(true, true, Eval(r, i, env).value.message, Some(Eval(r, i, env).value.risk))
  }

  lemma {:induction false} ScanStops(rs: seq<Rule>, k: int, i: Input, env: Env, acc: Simulation)
    requires !acc.deny && FirstDenial(rs, k, i, env)
    ensures Scan(rs, i, env, acc) == DenialOf(rs[k], i, env)
  {
    if k > 0 {
      var o := Eval(rs[0], i, env);
      assert !Denies(rs[0], i, env);
      assert forall j :: 0 <= j < k ==> rs[1..][j] == rs[j + 1];
      ScanStops(rs[1..], k - 1, i, env,
                if o.Some? then Simulation(true, acc.deny || o.value.deny, o.value.message, Some(o.value.risk))
                    else acc);
    }
  }

  lemma {:induction false} ScanPasses(rs: seq<Rule>, i: Input, env: Env, acc: Simulation)
    requires !acc.deny && !SomeDenies(rs, i, env)
    ensures !Scan(rs, i, env, acc).deny
  {
    if rs != [] {
      HeadOrTail(rs, i, env);
      var o := Eval(rs[0], i, env);
      ScanPasses(rs[1..], i, env,
                 if o.Some? then Simulation(true, acc.deny || o.value.deny, o.value.message, Some(o.value.risk))
                     else acc);
    }
  }

  lemma {:induction false} FirstTrue(bs: seq<bool>) returns (k: int)
    requires true in bs
    ensures 0 <= k < |bs| && bs[k] && forall j :: 0 <= j < k ==> !bs[j]
  {
    if bs[0] {
      k := 0;
    } else {
      assert bs == [bs[0]] + bs[1..];
      var j := FirstTrue(bs[1..]);
      k := j + 1;
    }
  }

  lemma FindDenial(rs: seq<Rule>, i: Input, env: Env) returns (k: int)
    requires SomeDenies(rs, i, env)
    ensures FirstDenial(rs, k, i, env)
  {
    var bs := seq(|rs|, j requires 0 <= j < |rs| => Denies(rs[j], i, env));
    var r :| r in rs && Denies(r, i, env);
    var at :| 0 <= at < |rs| && rs[at] == r;
    assert bs[at];
    k := FirstTrue(bs);
    forall j | 0 <= j < k ensures !Denies(rs[j], i, env) {
      assert !bs[j];
    }
  }

  lemma ScanDeniesIff(rs: seq<Rule>, i: Input, env: Env, acc: Simulation)
    requires !acc.deny
    ensures Scan(rs, i, env, acc).deny <==> SomeDenies(rs, i, env)
  {
    if SomeDenies(rs, i, env) {
      var k := FindDenial(rs, i, env);
      ScanStops(rs, k, i, env, acc);
    } else {
      ScanPasses(rs, i, env, acc);
    }
  }

  lemma SortKeepsMembers(rs: seq<Rule>)
    ensures forall r :: r in rs <==> r in SortRules(rs)
  {
    SortIsStable(rs);
    forall r ensures r in rs <==> r in SortRules(rs) {
      assert r in multiset(rs) <==> r in multiset(SortRules(rs));
    }
  }

  /** A policy denies exactly when some rule of it does, wherever that rule stands. */
  lemma DeniesIffSomeRuleDenies(rs: seq<Rule>, i: Input, env: Env)
    ensures Simulate(Some(rs), i, env).deny <==> SomeDenies(rs, i, env)
  {
    SortKeepsMembers(rs);
    ScanDeniesIff(SortRules(rs), i, env, NoMatch);
  }

  /** Its reason and risk are those of the first denying rule in priority order. */
  lemma DenialComesFromFirst(rs: seq<Rule>, k: int, i: Input, env: Env)
    requires FirstDenial(SortRules(rs), k, i, env)
    ensures Simulate(Some(rs), i, env) == DenialOf(SortRules(rs)[k], i, env)
  {
    ScanStops(SortRules(rs), k, i, env, NoMatch);
  }

  /** Where the loop stops if nothing denies: the last rule that matches. */
  ghost predicate LastMatch(rs: seq<Rule>, k: int, i: Input, env: Env) {
    0 <= k < |rs| && Eval(rs[k], i, env).Some? && forall j :: k < j < |rs| ==> Eval(rs[j], i, env).None?
  }

  lemma {:induction false} ScanOfNone(rs: seq<Rule>, i: Input, env: Env, acc: Simulation)
    requires forall j :: 0 <= j < |rs| ==> Eval(rs[j], i, env).None?
    ensures Scan(rs, i, env, acc) == acc
  {
    if rs != [] {
      ScanOfNone(rs[1..], i, env, acc);
    }
  }

  lemma {:induction false} ScanEnds(rs: seq<Rule>, k: int, i: Input, env: Env, acc: Simulation)
    requires !acc.deny && !SomeDenies(rs, i, env) && LastMatch(rs, k, i, env)
    ensures Scan(rs, i, env, acc)
         == Simulation(true, false, Eval(rs[k], i, env).value.message, Some(Eval(rs[k], i, env).value.risk))
  {
    HeadOrTail(rs, i, env);
    var o := Eval(rs[0], i, env);
    if k == 0 {
      ScanOfNone(rs[1..], i, env, Simulation(true, false, o.value.message, Some(o.value.risk)));
    } else {
      assert LastMatch(rs[1..], k - 1, i, env);
      ScanEnds(rs[1..], k - 1, i, env,
               if o.Some? then Simulation(true, false, o.value.message, Some(o.value.risk)) else acc);
    }
  }

  /** When no rule denies, reason and risk are those of the last rule, in priority order, that matches. */
  lemma MatchComesFromLast(rs: seq<Rule>, k: int, i: Input, env: Env)
    requires !SomeDenies(rs, i, env) && LastMatch(SortRules(rs), k, i, env)
    ensures var o := Eval(SortRules(rs)[k], i, env).value;
      Simulate(Some(rs), i, env) == Simulation(true, false, o.message, Some(o.risk))
  {
    SortKeepsMembers(rs);
    ScanEnds(SortRules(rs), k, i, env, NoMatch);
  }

  /** When no rule matches, nothing is reported. */
  lemma NothingMatches(rs: seq<Rule>, i: Input, env: Env)
    requires !SomeMatches(rs, i, env)
    ensures Simulate(Some(rs), i, env) == Simulation(false, false, "No rules matched", None)
  {
    SortKeepsMembers(rs);
    ScanUnmatched(SortRules(rs), i, env);
  }

  /** Reordering a policy's rules cannot change whether it denies; with distinct priorities, nothing changes. */
  lemma OrderOfRulesIsIrrelevant(a: seq<Rule>, b: seq<Rule>, i: Input, env: Env)
    requires multiset(a) == multiset(b)
    ensures Simulate(Some(a), i, env).deny == Simulate(Some(b), i, env).deny
    ensures Simulate(Some(a), i, env).matched == Simulate(Some(b), i, env).matched
    ensures DistinctKeys(a) && DistinctKeys(b) ==> Simulate(Some(a), i, env) == Simulate(Some(b), i, env)
  {
    DeniesIffSomeRuleDenies(a, i, env);
    DeniesIffSomeRuleDenies(b, i, env);
    SortKeepsMembers(a);
    SortKeepsMembers(b);
    ScanUnmatched(SortRules(a), i, env);
    ScanUnmatched(SortRules(b), i, env);
    forall r ensures r in a <==> r in b {
      assert r in multiset(a) <==> r in multiset(b);
    }
    if DistinctKeys(a) && DistinctKeys(b) {
      DistinctPrioritiesSortAlike(a, b);
    }
  }

  // ---------- the live pass ----------

  datatype Reason =
    | Violated(policyName: string, message: string)
    | RateExceeded(count: int, windowSecs: int, max: int)
    | TooManyAtOnce(count: int, max: int)
    | Anomaly(field: string, value: real, threshold: real)
    | OverBudget(total: real, budget: real)

  datatype Denial = Denial(policyId: string, reason: Reason, risk: Risk)

  datatype Evaluation = Evaluation(denial: Option<Denial>, context: seq<string>)

  /** The rule loop of one policy: the messages of its matches, and the outcome that denied, if any. */
  function LiveRules(p: Policy, rs: seq<Rule>, i: Input, env: Env, dryRun: bool): (Option<Outcome>, seq<string>) {
    if rs == [] then (None, [])
    else
      match Eval(rs[0], i, env)
      case None => LiveRules(p, rs[1..], i, env, dryRun)
      case Some(o) =>
        var note := [p.name + ": " + o.message];
        if o.deny && !dryRun then (Some(o), note)
        else
          var rest := LiveRules(p, rs[1..], i, env, dryRun);
          (rest.0, note + rest.1)
  }

  function RulePass(ps: seq<Policy>, i: Input, env: Env, dryRun: bool): Evaluation {
    if ps == [] then Evaluation(None, [])
    else if ps[0].rules.None? then RulePass(ps[1..], i, env, dryRun)
    else
      var (denied, notes) := LiveRules(ps[0], SortRules(ps[0].rules.value), i, env, dryRun);
      match denied
      case Some(o) => Evaluation(Some(Denial(ps[0].id, Violated(ps[0].name, o.message), o.risk)), notes)
      case None =>
        var rest := RulePass(ps[1..], i, env, dryRun);
        rest.(context := notes + rest.context)
  }

  lemma {:induction false} LiveRulesOutcome(p: Policy, rs: seq<Rule>, i: Input, env: Env, acc: Simulation)
    requires !acc.deny
    ensures var live := LiveRules(p, rs, i, env, false).0;
      var s := Scan(rs, i, env, acc);
      && (live.Some? <==> s.deny)
      && (live.Some? ==> s == Simulation(true, true, live.value.message, Some(live.value.risk)))
  {
    if rs != [] {
      match Eval(rs[0], i, env)
      case None => LiveRulesOutcome(p, rs[1..], i, env, acc);
      case Some(o) =>
        if !o.deny {
          LiveRulesOutcome(p, rs[1..], i, env, Simulation(true, false, o.message, Some(o.risk)));
        }
    }
  }

  ghost predicate SomePolicyDenies(ps: seq<Policy>, i: Input, env: Env) {
    exists p :: p in ps && Simulate(p.rules, i, env).deny
  }

  /** The k-th policy is the first, in live order, whose simulation denies. */
  ghost predicate FirstPolicy(ps: seq<Policy>, k: int, i: Input, env: Env) {
    && 0 <= k < |ps| && Simulate(ps[k].rules, i, env).deny
    && forall j :: 0 <= j < k ==> !Simulate(ps[j].rules, i, env).deny
  }

  function LiveDenial(p: Policy, i: Input, env: Env): Option<Denial> {
    var s := Simulate(p.rules, i, env);
    if s.risk.Some? then Some(Denial(p.id, Violated(p.name, s.reason), s.risk.value)) else None
  }

  lemma LiveHead(ps: seq<Policy>, i: Input, env: Env)
    requires ps != []
    ensures Simulate(ps[0].rules, i, env).deny ==>
              RulePass(ps, i, env, false).denial == LiveDenial(ps[0], i, env) && LiveDenial(ps[0], i, env).Some?
    ensures !Simulate(ps[0].rules, i, env).deny ==>
              RulePass(ps, i, env, false).denial == RulePass(ps[1..], i, env, false).denial
  {
    if ps[0].rules.Some? {
      LiveRulesOutcome(ps[0], SortRules(ps[0].rules.value), i, env, NoMatch);
    }
  }

  lemma {:induction false} LiveStops(ps: seq<Policy>, k: int, i: Input, env: Env)
    requires FirstPolicy(ps, k, i, env)
    ensures RulePass(ps, i, env, false).denial == LiveDenial(ps[k], i, env) && LiveDenial(ps[k], i, env).Some?
  {
    LiveHead(ps, i, env);
    if k > 0 {
      assert !Simulate(ps[0].rules, i, env).deny;
      assert forall j :: 0 <= j < k ==> ps[1..][j] == ps[j + 1];
      LiveStops(ps[1..], k - 1, i, env);
    }
  }

  lemma {:induction false} LiveDeniesIff(ps: seq<Policy>, i: Input, env: Env)
    ensures RulePass(ps, i, env, false).denial.Some? <==> SomePolicyDenies(ps, i, env)
  {
    if ps != [] {
      LiveHead(ps, i, env);
      LiveDeniesIff(ps[1..], i, env);
      assert forall p :: p in ps <==> p == ps[0] || p in ps[1..];
      if Simulate(ps[0].rules, i, env).deny {
        assert ps[0] in ps;
      }
    }
  }

  /**
   Outside dry-run the live pass denies exactly when some policy's simulation does, and the
   first such policy in live order supplies the policy id, the reason and the risk.
   */
  lemma LiveAgreesWithSimulation(ps: seq<Policy>, i: Input, env: Env)
    ensures RulePass(ps, i, env, false).denial.Some? <==> SomePolicyDenies(ps, i, env)
    ensures forall k :: FirstPolicy(ps, k, i, env) ==>
              RulePass(ps, i, env, false).denial == LiveDenial(ps[k], i, env)
  {
    LiveDeniesIff(ps, i, env);
    forall k | FirstPolicy(ps, k, i, env)
      ensures RulePass(ps, i, env, false).denial == LiveDenial(ps[k], i, env)
    {
      LiveStops(ps, k, i, env);
    }
  }

  /** In dry-run the rule pass never denies, but it still reports every match. */
  lemma {:induction false} DryRunNeverDenies(ps: seq<Policy>, i: Input, env: Env)
    ensures RulePass(ps, i, env, true).denial.None?
    ensures RulePass(ps, i, env, true).context == [] <==>
              forall k :: 0 <= k < |ps| ==> !Simulate(ps[k].rules, i, env).matched
  {
    if ps != [] {
      DryRunNeverDenies(ps[1..], i, env);
      assert forall k :: 0 < k < |ps| ==> ps[k] == ps[1..][k - 1];
      if ps[0].rules.Some? {
        var rs := SortRules(ps[0].rules.value);
        DryRunNotes(ps[0], rs, i, env);
        ScanUnmatched(rs, i, env);
      }
    }
  }

  lemma {:induction false} DryRunNotes(p: Policy, rs: seq<Rule>, i: Input, env: Env)
    ensures LiveRules(p, rs, i, env, true).0.None?
    ensures LiveRules(p, rs, i, env, true).1 != [] <==> SomeMatches(rs, i, env)
  {
    if rs != [] {
      DryRunNotes(p, rs[1..], i, env);
      HeadOrTail(rs, i, env);
    }
  }

  // ---------- limits that need the database ----------

  /** What the limit queries answer for the action under evaluation; None when a query fails. */
  datatype Reads = Reads(
    rate: int -> Option<int>,
    concurrent: Option<int>,
    history: string -> Option<(real, Statistics.Summary)>,    // the field's value, and the sample with it
    spent: Option<real>)

  function LimitHit(r: Rule, db: Reads): Option<(Reason, Risk)> {
    match r.kind
    case RateLimit(maxCount, windowSecs) =>
      var max, secs := maxCount.GetOr(10), windowSecs.GetOr(60);
      if db.rate(secs).Some? && db.rate(secs).value >= max
      then Some((RateExceeded(db.rate(secs).value, secs, max), Medium)) else None
    case ConcurrencyLimit(maxSimultaneous) =>
      var max := maxSimultaneous.GetOr(1);
      if db.concurrent.Some? && db.concurrent.value >= max
      then Some((TooManyAtOnce(db.concurrent.value, max), Medium)) else None
    case HistogramTrend(field, threshold) =>
      var name, limit := field.GetOr("amount"), threshold.GetOr(2.0);
      if db.history(name).Some? && Statistics.Deviates(db.history(name).value.0, db.history(name).value.1, limit)
      then Some((Anomaly(name, db.history(name).value.0, limit), High)) else None
    case BudgetLimit(maxBudget) =>
      var max := maxBudget.GetOr(10000.0);
      if db.spent.Some? && db.spent.value >= max
      then Some((OverBudget(db.spent.value, max), High)) else None
    case _ => None
  }

  /** When a rate, concurrency or budget limit is hit, and what is reported; an unanswered query never hits. */
  lemma CountLimitsMean(r: Rule, db: Reads)
    ensures match r.kind
      case RateLimit(max, secs) =>
        (forall n :: db.rate(secs.GetOr(60)) == Some(n) && n >= max.GetOr(10) ==>
           LimitHit(r, db) == Some((RateExceeded(n, secs.GetOr(60), max.GetOr(10)), Medium)))
        && (LimitHit(r, db).Some? ==> exists n :: db.rate(secs.GetOr(60)) == Some(n) && n >= max.GetOr(10))
      case ConcurrencyLimit(max) =>
        (forall n :: db.concurrent == Some(n) && n >= max.GetOr(1) ==>
           LimitHit(r, db) == Some((TooManyAtOnce(n, max.GetOr(1)), Medium)))
        && (LimitHit(r, db).Some? ==> exists n :: db.concurrent == Some(n) && n >= max.GetOr(1))
      case BudgetLimit(max) =>
        (forall x :: db.spent == Some(x) && x >= max.GetOr(10000.0) ==>
           LimitHit(r, db) == Some((OverBudget(x, max.GetOr(10000.0)), High)))
        && (LimitHit(r, db).Some? ==> exists x :: db.spent == Some(x) && x >= max.GetOr(10000.0))
      case HistogramTrend(_, _) => true
      case _ => LimitHit(r, db).None?
  {
  }

  /** The z-score rule is hit exactly when its query answers and its test, square root and all, holds. */
  lemma HistogramHitIff(r: Rule, db: Reads, value: real, s: Statistics.Summary, sd: real)
    requires r.kind.HistogramTrend? && db.history(r.kind.field.GetOr("amount")) == Some((value, s))
    requires s.count > 0 && sd >= 0.0 && sd * sd == Statistics.Variance(s)
    ensures LimitHit(r, db).Some? <==> Statistics.Anomalous(value, s, sd, r.kind.threshold.GetOr(2.0))
    ensures LimitHit(r, db).Some? ==>
              LimitHit(r, db).value == (Anomaly(r.kind.field.GetOr("amount"), value, r.kind.threshold.GetOr(2.0)), High)
  {
    Statistics.DeviatesIsAnomalous(value, s, sd, r.kind.threshold.GetOr(2.0));
  }

  lemma UnansweredHistogram(r: Rule, db: Reads)
    requires r.kind.HistogramTrend? && db.history(r.kind.field.GetOr("amount")) == None
    ensures LimitHit(r, db).None?
  {
  }

  /** The limits of one policy, in declared order: the priority sort does not apply here. */
  function LimitsOf(id: string, rs: seq<Rule>, db: Reads): Option<Denial> {
    if rs == [] then None
    else
      match LimitHit(rs[0], db)
      case Some(hit) => Some(Denial(id, hit.0, hit.1))
      case None => LimitsOf(id, rs[1..], db)
  }

  function LimitPass(ps: seq<Policy>, db: Reads, dryRun: bool): Option<Denial> {
    if dryRun || ps == [] then None
    else
      match LimitsOf(ps[0].id, ps[0].rules.GetOr([]), db)
      case Some(d) => Some(d)
      case None => LimitPass(ps[1..], db, dryRun)
  }

  function Evaluate(ps: seq<Policy>, i: Input, env: Env, db: Reads, dryRun: bool): Evaluation {
    var rules := RulePass(ps, i, env, dryRun);
    if rules.denial.Some? then rules else rules.(denial := LimitPass(ps, db, dryRun))
  }

  method EvaluateLive(ps: seq<Policy>, i: Input, env: Env, db: Reads, dryRun: bool) returns (e: Evaluation)
    ensures e == Evaluate(ps, i, env, db, dryRun)
  {
    var context: seq<string> := [];
    assert ps[0..] == ps;
    assert [] + RulePass(ps, i, env, dryRun).context == RulePass(ps, i, env, dryRun).context;
    for k := 0 to |ps|
      invariant RulePass(ps, i, env, dryRun) == After(context, RulePass(ps[k..], i, env, dryRun))
    {
      assert ps[k..][0] == ps[k] && ps[k..][1..] == ps[k + 1..];
      if ps[k].rules.Some? {
        var given := ps[k].rules.value;
        var copy := new Rule[|given|](j requires 0 <= j < |given| => given[j]);
        assert copy[..] == given;
        SortInPlace(copy);
        var rs := copy[..];
        var denied, notes := LiveLoop(ps[k], rs, i, env, dryRun);
        if denied.Some? {
          return Evaluation(Some(Denial(ps[k].id, Violated(ps[k].name, denied.value.message), denied.value.risk)),
                            context + notes);
        }
        AfterStep(context, notes, RulePass(ps[k + 1..], i, env, dryRun));
        context := context + notes;
      }
    }
    assert context + [] == context;
    for k := 0 to |ps|
      invariant LimitPass(ps, db, dryRun) == LimitPass(ps[k..], db, dryRun)
    {
      assert ps[k..][0] == ps[k] && ps[k..][1..] == ps[k + 1..];
      var rs := ps[k].rules.GetOr([]);
      assert rs[0..] == rs;
      for j := 0 to |rs|
        invariant LimitsOf(ps[k].id, rs, db) == LimitsOf(ps[k].id, rs[j..], db)
                  || (dryRun && LimitPass(ps, db, dryRun).None?)
      {
        assert rs[j..][0] == rs[j] && rs[j..][1..] == rs[j + 1..];
        var hit := LimitHit(rs[j], db);
        if hit.Some? && !dryRun {
          return Evaluation(Some(Denial(ps[k].id, hit.value.0, hit.value.1)), context);
        }
      }
    }
    e := Evaluation(None, context);
  }

  method LiveLoop(p: Policy, rs: seq<Rule>, i: Input, env: Env, dryRun: bool)
    returns (denied: Option<Outcome>, notes: seq<string>)
    ensures (denied, notes) == LiveRules(p, rs, i, env, dryRun)
  {
    denied, notes := None, [];
    assert rs[0..] == rs;
    assert [] + LiveRules(p, rs, i, env, dryRun).1 == LiveRules(p, rs, i, env, dryRun).1;
    for k := 0 to |rs|
      invariant denied.None?
      invariant var rest := LiveRules(p, rs[k..], i, env, dryRun);
        LiveRules(p, rs, i, env, dryRun) == (rest.0, notes + rest.1)
    {
      assert rs[k..][0] == rs[k] && rs[k..][1..] == rs[k + 1..];
      var result := EvaluateRule(rs[k], i, env);
      if result.Some? {
        var note := [p.name + ": " + result.value.message];
        ghost var rest := LiveRules(p, rs[k + 1..], i, env, dryRun);
        assert notes + (note + rest.1) == notes + note + rest.1;
        notes := notes + note;
        if result.value.deny && !dryRun {
          return result, notes;
        }
      }
    }
    assert notes + [] == notes;
  }

  ghost function After(context: seq<string>, e: Evaluation): Evaluation {
    e.(context := context + e.context)
  }

  lemma AfterStep(context: seq<string>, notes: seq<string>, e: Evaluation)
    ensures After(context + notes, e) == After(context, e.(context := notes + e.context))
  {
    assert context + notes + e.context == context + (notes + e.context);
  }

  lemma {:induction false} LimitsOfIsFirstHit(id: string, rs: seq<Rule>, db: Reads)
    ensures LimitsOf(id, rs, db).None? <==> forall r :: r in rs ==> LimitHit(r, db).None?
  {
    if rs != [] {
      LimitsOfIsFirstHit(id, rs[1..], db);
      assert forall r :: r in rs <==> r == rs[0] || r in rs[1..];
    }
  }

  ghost predicate NoLimitHit(ps: seq<Policy>, db: Reads) {
    forall p, r :: p in ps && r in p.rules.GetOr([]) ==> LimitHit(r, db).None?
  }

  lemma {:induction false} LimitPassMeaning(ps: seq<Policy>, db: Reads)
    ensures LimitPass(ps, db, false).None? <==> NoLimitHit(ps, db)
  {
    if ps != [] {
      LimitPassMeaning(ps[1..], db);
      LimitsOfIsFirstHit(ps[0].id, ps[0].rules.GetOr([]), db);
      assert forall p :: p in ps <==> p == ps[0] || p in ps[1..];
    }
  }

  /** The j-th rule of the k-th policy is the first whose limit is hit, in declared order throughout. */
  ghost predicate FirstLimit(ps: seq<Policy>, k: int, j: int, db: Reads) {
    && 0 <= k < |ps| && 0 <= j < |ps[k].rules.GetOr([])| && LimitHit(ps[k].rules.GetOr([])[j], db).Some?
    && (forall m :: 0 <= m < j ==> LimitHit(ps[k].rules.GetOr([])[m], db).None?)
    && (forall n, r :: 0 <= n < k && r in ps[n].rules.GetOr([]) ==> LimitHit(r, db).None?)
  }

  lemma {:induction false} LimitsOfStops(id: string, rs: seq<Rule>, j: int, db: Reads)
    requires 0 <= j < |rs| && LimitHit(rs[j], db).Some? && forall m :: 0 <= m < j ==> LimitHit(rs[m], db).None?
    ensures LimitsOf(id, rs, db) == Some(Denial(id, LimitHit(rs[j], db).value.0, LimitHit(rs[j], db).value.1))
  {
    if j > 0 {
      assert LimitHit(rs[0], db).None?;
      assert forall m :: 0 <= m < j - 1 ==> rs[1..][m] == rs[m + 1];
      LimitsOfStops(id, rs[1..], j - 1, db);
    }
  }

  /** The denial of the limit pass names the policy, the numbers and the risk of the first limit hit. */
  lemma {:induction false} LimitPassIsFirst(ps: seq<Policy>, k: int, j: int, db: Reads)
    requires FirstLimit(ps, k, j, db)
    ensures var hit := LimitHit(ps[k].rules.GetOr([])[j], db).value;
      LimitPass(ps, db, false) == Some(Denial(ps[k].id, hit.0, hit.1))
  {
    if k == 0 {
      LimitsOfStops(ps[0].id, ps[0].rules.GetOr([]), j, db);
    } else {
      LimitsOfIsFirstHit(ps[0].id, ps[0].rules.GetOr([]), db);
      assert forall n :: 0 <= n < |ps| - 1 ==> ps[1..][n] == ps[n + 1];
      LimitPassIsFirst(ps[1..], k - 1, j, db);
    }
  }

  /** The m-th rule in priority order of the k-th policy is the first that denies, over all policies in live order. */
  ghost predicate FirstDenyingRule(ps: seq<Policy>, k: int, m: int, i: Input, env: Env) {
    FirstPolicy(ps, k, i, env) && ps[k].rules.Some? && FirstDenial(SortRules(ps[k].rules.value), m, i, env)
  }

  /**
   Where a denial comes from: the first policy in live order with a denying rule, by the first such
   rule in priority order, if there is one; else the first limit hit.
   */
  lemma EvaluateDenialMeans(ps: seq<Policy>, i: Input, env: Env, db: Reads)
    ensures forall k, m :: FirstDenyingRule(ps, k, m, i, env) ==>
              var o := Eval(SortRules(ps[k].rules.value)[m], i, env).value;
              Evaluate(ps, i, env, db, false).denial == Some(Denial(ps[k].id, Violated(ps[k].name, o.message), o.risk))
    ensures forall k, j :: !SomePolicyDenies(ps, i, env) && FirstLimit(ps, k, j, db) ==>
              var hit := LimitHit(ps[k].rules.GetOr([])[j], db).value;
              Evaluate(ps, i, env, db, false).denial == Some(Denial(ps[k].id, hit.0, hit.1))
  {
    LiveDeniesIff(ps, i, env);
    forall k, m | FirstDenyingRule(ps, k, m, i, env)
      ensures var o := Eval(SortRules(ps[k].rules.value)[m], i, env).value;
        Evaluate(ps, i, env, db, false).denial == Some(Denial(ps[k].id, Violated(ps[k].name, o.message), o.risk))
    {
      LiveStops(ps, k, i, env);
      DenialComesFromFirst(ps[k].rules.value, m, i, env);
    }
    forall k, j | !SomePolicyDenies(ps, i, env) && FirstLimit(ps, k, j, db)
      ensures var hit := LimitHit(ps[k].rules.GetOr([])[j], db).value;
        Evaluate(ps, i, env, db, false).denial == Some(Denial(ps[k].id, hit.0, hit.1))
    {
      LimitPassIsFirst(ps, k, j, db);
    }
  }

  // ---------- the context handed to the providers ----------

  /** The note of a matched rule: the policy's name and the rule's message. */
  ghost predicate RuleNote(name: string, r: Rule, note: string, i: Input, env: Env) {
    Eval(r, i, env).Some? && note == name + ": " + Eval(r, i, env).value.message
  }

  ghost predicate SomeRuleNote(name: string, rs: seq<Rule>, note: string, i: Input, env: Env) {
    exists r :: r in rs && RuleNote(name, r, note, i, env)
  }

  ghost predicate SomeNote(ps: seq<Policy>, note: string, i: Input, env: Env) {
    exists p :: p in ps && SomeRuleNote(p.name, p.rules.GetOr([]), note, i, env)
  }

  lemma FirstRuleNote(name: string, rs: seq<Rule>, note: string, i: Input, env: Env)
    requires rs != []
    ensures SomeRuleNote(name, rs, note, i, env) <==>
              RuleNote(name, rs[0], note, i, env) || SomeRuleNote(name, rs[1..], note, i, env)
  {
    assert forall r :: r in rs <==> r == rs[0] || r in rs[1..];
  }

  lemma {:induction false} LiveNotes(p: Policy, rs: seq<Rule>, note: string, i: Input, env: Env, dryRun: bool)
    requires LiveRules(p, rs, i, env, dryRun).0.None?
    ensures note in LiveRules(p, rs, i, env, dryRun).1 <==> SomeRuleNote(p.name, rs, note, i, env)
  {
    if rs != [] {
      FirstRuleNote(p.name, rs, note, i, env);
      LiveNotes(p, rs[1..], note, i, env, dryRun);
    }
  }

  /** If no rule denies, the context holds a note for every rule that matched, and nothing else. */
  lemma {:induction false} ContextIsNotes(ps: seq<Policy>, note: string, i: Input, env: Env, dryRun: bool)
    requires RulePass(ps, i, env, dryRun).denial.None?
    ensures note in RulePass(ps, i, env, dryRun).context <==> SomeNote(ps, note, i, env)
  {
    if ps != [] {
      assert forall p :: p in ps <==> p == ps[0] || p in ps[1..];
      ContextIsNotes(ps[1..], note, i, env, dryRun);
      if ps[0].rules.Some? {
        var rs := SortRules(ps[0].rules.value);
        LiveNotes(ps[0], rs, note, i, env, dryRun);
        SortKeepsMembers(ps[0].rules.value);
        assert SomeRuleNote(ps[0].name, rs, note, i, env) <==>
          SomeRuleNote(ps[0].name, ps[0].rules.value, note, i, env);
      }
    }
  }

  /** One matching rule leaves one note, and ends the pass if it denies outside dry-run. */
  lemma OneLiveRule(p: Policy, r: Rule, i: Input, env: Env, dryRun: bool)
    ensures var o, live := Eval(r, i, env), LiveRules(p, [r], i, env, dryRun);
      if o.None? then live == (None, [])
      else live == (if o.value.deny && !dryRun then o else None, [p.name + ": " + o.value.message])
  {
    var o := Eval(r, i, env);
    assert LiveRules(p, [r][1..], i, env, dryRun) == (None, []);
    if o.Some? {
      var note := [p.name + ": " + o.value.message];
      assert note + [] == note;
    }
  }

  /** A first pass that did not deny, and what comes after it. */
  ghost function Then(first: (Option<Outcome>, seq<string>), rest: (Option<Outcome>, seq<string>))
    : (Option<Outcome>, seq<string>)
  {
    if first.0.Some? then first else (rest.0, first.1 + rest.1)
  }

  lemma ThenAssociates(note: seq<string>, a: (Option<Outcome>, seq<string>), b: (Option<Outcome>, seq<string>))
    ensures Then((None, note), Then(a, b)) == Then(Then((None, note), a), b)
  {
    assert note + (a.1 + b.1) == note + a.1 + b.1;
  }

  /** The rules are taken in order: the notes of the earlier come first, and a denial among them ends the pass. */
  lemma {:induction false} LiveRulesJoin(p: Policy, a: seq<Rule>, b: seq<Rule>, i: Input, env: Env, dryRun: bool)
    ensures LiveRules(p, a + b, i, env, dryRun)
         == Then(LiveRules(p, a, i, env, dryRun), LiveRules(p, b, i, env, dryRun))
  {
    if a == [] {
      var rest := LiveRules(p, b, i, env, dryRun);
      assert a + b == b && [] + rest.1 == rest.1;
    } else {
      assert (a + b)[1..] == a[1..] + b && (a + b)[0] == a[0];
      LiveRulesJoin(p, a[1..], b, i, env, dryRun);
      LiveRulesHead(p, a, i, env, dryRun);
      LiveRulesHead(p, a + b, i, env, dryRun);
      var o := Eval(a[0], i, env);
      if o.Some? {
        ThenAssociates([p.name + ": " + o.value.message], LiveRules(p, a[1..], i, env, dryRun),
                       LiveRules(p, b, i, env, dryRun));
      }
    }
  }

  lemma LiveRulesHead(p: Policy, rs: seq<Rule>, i: Input, env: Env, dryRun: bool)
    requires rs != []
    ensures var o, rest := Eval(rs[0], i, env), LiveRules(p, rs[1..], i, env, dryRun);
      LiveRules(p, rs, i, env, dryRun)
        == if o.None? then rest
           else Then((if o.value.deny && !dryRun then o else None, [p.name + ": " + o.value.message]), rest)
  {
  }

  /** A policy's own pass, over its rules in priority order. */
  lemma OneLivePolicy(p: Policy, i: Input, env: Env, dryRun: bool)
    ensures p.rules.None? ==> RulePass([p], i, env, dryRun) == Evaluation(None, [])
    ensures p.rules.Some? ==>
              var live, e := LiveRules(p, SortRules(p.rules.value), i, env, dryRun), RulePass([p], i, env, dryRun);
              && e.context == live.1 && (e.denial.Some? <==> live.0.Some?)
              && (live.0.Some? ==>
                    e.denial == Some(Denial(p.id, Violated(p.name, live.0.value.message), live.0.value.risk)))
  {
    assert RulePass([p][1..], i, env, dryRun) == Evaluation(None, []);
    if p.rules.Some? {
      var notes := LiveRules(p, SortRules(p.rules.value), i, env, dryRun).1;
      assert notes + [] == notes;
    }
  }

  /** The policies are taken in order as well. */
  lemma {:induction false} RulePassJoins(a: seq<Policy>, b: seq<Policy>, i: Input, env: Env, dryRun: bool)
    ensures var first, all := RulePass(a, i, env, dryRun), RulePass(a + b, i, env, dryRun);
      all == if first.denial.Some? then first else After(first.context, RulePass(b, i, env, dryRun))
  {
    if a == [] {
      assert a + b == b;
    } else {
      assert (a + b)[1..] == a[1..] + b && (a + b)[0] == a[0];
      RulePassJoins(a[1..], b, i, env, dryRun);
      RulePassHead(a, i, env, dryRun);
      RulePassHead(a + b, i, env, dryRun);
      var one := RulePass([a[0]], i, env, dryRun);
      AfterStep(one.context, RulePass(a[1..], i, env, dryRun).context, RulePass(b, i, env, dryRun));
    }
  }

  lemma RulePassHead(ps: seq<Policy>, i: Input, env: Env, dryRun: bool)
    requires ps != []
    ensures var one, rest := RulePass([ps[0]], i, env, dryRun), RulePass(ps[1..], i, env, dryRun);
      RulePass(ps, i, env, dryRun) == if one.denial.Some? then one else After(one.context, rest)
  {
    var rest := RulePass(ps[1..], i, env, dryRun);
    OneLivePolicy(ps[0], i, env, dryRun);
    if ps[0].rules.None? {
      assert After([], rest).context == rest.context;
    }
  }

  /** In dry-run nothing is denied, by a rule or by a limit. */
  lemma DryRunLetsAllThrough(ps: seq<Policy>, i: Input, env: Env, db: Reads)
    ensures Evaluate(ps, i, env, db, true).denial.None?
    ensures Evaluate(ps, i, env, db, true).context == RulePass(ps, i, env, true).context
  {
    DryRunNeverDenies(ps, i, env);
  }

  lemma SomePolicyDeniesIff(ps: seq<Policy>, i: Input, env: Env)
    ensures SomePolicyDenies(ps, i, env) <==> exists p :: p in ps && SomeDenies(p.rules.GetOr([]), i, env)
  {
    forall p | p in ps
      ensures Simulate(p.rules, i, env).deny <==> SomeDenies(p.rules.GetOr([]), i, env)
    {
      if p.rules.Some? { DeniesIffSomeRuleDenies(p.rules.value, i, env); }
    }
  }

  /** Outside dry-run, evaluation lets an action on exactly when no rule denies it and no limit is hit. */
  lemma EvaluateAllowsIff(ps: seq<Policy>, i: Input, env: Env, db: Reads)
    ensures Evaluate(ps, i, env, db, false).denial.None? <==>
              (forall p :: p in ps ==> !SomeDenies(p.rules.GetOr([]), i, env)) && NoLimitHit(ps, db)
  {
    LiveDeniesIff(ps, i, env);
    LimitPassMeaning(ps, db);
    SomePolicyDeniesIff(ps, i, env);
  }
}
