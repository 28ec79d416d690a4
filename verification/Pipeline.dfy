/**
 From a claimed action to its verdict: policies, the prompt-injection scan, then the chain of
 LLM providers. Regex searches and provider replies are arbitrary inputs.
 */
module Pipeline {
  import opened Common
  import opened PolicyEngine
  import opened Policies

  // ---------- prompt-injection scan ----------

  datatype Pattern = Pattern(name: string, regex: string, severity: Risk)
  datatype Match = Match(name: string, severity: Risk, text: string)
  datatype Scan = Scan(detected: bool, matches: seq<Match>, risk: Risk)

  /** Every occurrence of a pattern in a text; empty when the pattern does not compile. */
  type Finder = (string, string) -> seq<string>

  function MatchesOf(p: Pattern, hits: seq<string>): seq<Match> {
    seq(|hits|, k requires 0 <= k < |hits| => Match(p.name, p.severity, hits[k]))
  }

  function AllMatches(ps: seq<Pattern>, find: Finder, text: string): seq<Match> {
    if ps == [] then []
    else AllMatches(ps[..|ps| - 1], find, text) + MatchesOf(ps[|ps| - 1], find(ps[|ps| - 1].regex, text))
  }

  /** Every occurrence of the one pattern, under its name and severity. */
  lemma OnePattern(p: Pattern, find: Finder, text: string)
    ensures var hits, all := find(p.regex, text), AllMatches([p], find, text);
      |all| == |hits| && forall k :: 0 <= k < |hits| ==> all[k] == Match(p.name, p.severity, hits[k])
  {
    assert [p][..0] == [];
  }

  /** The patterns are searched for in their order. */
  lemma {:induction false} AllMatchesJoin(a: seq<Pattern>, b: seq<Pattern>, find: Finder, text: string)
    ensures AllMatches(a + b, find, text) == AllMatches(a, find, text) + AllMatches(b, find, text)
  {
    if b == [] {
      assert a + b == a;
    } else {
      AllMatchesJoin(a, b[..|b| - 1], find, text);
      assert (a + b)[..|a + b| - 1] == a + b[..|b| - 1];
    }
  }

  function Worse(a: Risk, b: Risk): Risk {
    if Severity(b) > Severity(a) then b else a
  }

  method Analyze(ps: seq<Pattern>, find: Finder, intent: string, payload: Option<string>) returns (r: Scan)
    ensures var text := intent + " " + payload.GetOr("");
      && r.matches == AllMatches(ps, find, text)
      && (r.detected <==> r.matches != [])
      && (forall m :: m in r.matches ==> Severity(m.severity) <= Severity(r.risk))
      && (r.risk == Low || exists m :: m in r.matches && m.severity == r.risk)
  {
    var text := intent + " " + payload.GetOr("");
    var matched: seq<Match> := [];
    var worst := Low;
    for k := 0 to |ps|
      invariant matched == AllMatches(ps[..k], find, text)
      invariant forall m :: m in matched ==> Severity(m.severity) <= Severity(worst)
      invariant worst == Low || exists m :: m in matched && m.severity == worst
    {
      var hits := find(ps[k].regex, text);
      var before := matched;
      for j := 0 to |hits|
        invariant matched == before + MatchesOf(ps[k], hits)[..j]
        invariant forall m :: m in matched ==> Severity(m.severity) <= Severity(worst)
        invariant worst == Low || exists m :: m in matched && m.severity == worst
      {
        var m := Match(ps[k].name, ps[k].severity, hits[j]);
        ghost var earlier := matched;
        matched := matched + [m];
        assert m in matched && forall x :: x in earlier ==> x in matched;
        worst := Worse(worst, m.severity);
      }
      assert MatchesOf(ps[k], hits)[..|hits|] == MatchesOf(ps[k], hits);
      assert ps[..k + 1][..k] == ps[..k];
    }
    assert ps[..|ps|] == ps;
    r := Scan(matched != [], matched, worst);
  }

  predicate HasCritical(matches: seq<Match>) {
    exists k :: 0 <= k < |matches| && matches[k].severity == Critical
  }

  lemma {:induction false} CriticalIffSomePattern(ps: seq<Pattern>, find: Finder, text: string)
    ensures HasCritical(AllMatches(ps, find, text)) <==>
              exists p :: p in ps && p.severity == Critical && find(p.regex, text) != []
  {
    if ps != [] {
      var front, p := ps[..|ps| - 1], ps[|ps| - 1];
      CriticalIffSomePattern(front, find, text);
      var hits := find(p.regex, text);
      var before, all := AllMatches(front, find, text), AllMatches(ps, find, text);
      assert forall q :: q in ps <==> q in front || q == p;
      if HasCritical(before) {
        var k :| 0 <= k < |before| && before[k].severity == Critical;
        assert all[k].severity == Critical;
      }
      if p.severity == Critical && hits != [] {
        assert all[|before|] == MatchesOf(p, hits)[0];
      }
      if HasCritical(all) {
        var k :| 0 <= k < |all| && all[k].severity == Critical;
        if k < |before| {
          assert before[k] == all[k];
        } else {
          assert all[k] == MatchesOf(p, hits)[k - |before|];
        }
      }
    }
  }

  // ---------- the provider chain ----------

  datatype Provider = OpenAI | Gemini | Anthropic | Ollama | Azure | Bedrock | Custom

  const CANDIDATES := [OpenAI, Gemini, Anthropic, Ollama, Azure, Bedrock, Custom]

  method BuildProviderChain(first: Provider, configured: set<Provider>) returns (order: seq<Provider>)
    ensures order != [] && order[0] == first
    ensures forall j, k :: 0 <= j < k < |order| ==> order[j] != order[k]
    ensures forall p :: p in order <==> p == first || p in configured
    ensures forall j, k :: 1 <= j < k < |order| ==> Place(order[j]) < Place(order[k])
  {
    order := [first];
    for k := 0 to |CANDIDATES|
      invariant order != [] && order[0] == first
      invariant forall i, j :: 0 <= i < j < |order| ==> order[i] != order[j]
      invariant forall p :: p in order <==> p == first || (p in configured && p in CANDIDATES[..k])
      invariant forall j :: 1 <= j < |order| ==> Place(order[j]) < k
      invariant forall i, j :: 1 <= i < j < |order| ==> Place(order[i]) < Place(order[j])
    {
      var p := CANDIDATES[k];
      CandidatesInPlace(k);
      if p !in order && p in configured {
        order := order + [p];
      }
      assert CANDIDATES[..k + 1] == CANDIDATES[..k] + [p];
    }
    forall p: Provider ensures p in CANDIDATES[..|CANDIDATES|] {
      assert CANDIDATES[..|CANDIDATES|] == CANDIDATES;
      EveryProviderIsCandidate(p);
    }
  }

  /** Where a provider stands in the order of fallbacks. */
  function Place(p: Provider): nat {
    match p
    case OpenAI => 0
    case Gemini => 1
    case Anthropic => 2
    case Ollama => 3
    case Azure => 4
    case Bedrock => 5
    case Custom => 6
  }

  lemma CandidatesInPlace(k: nat)
    requires k < |CANDIDATES|
    ensures Place(CANDIDATES[k]) == k
  {
    assert CANDIDATES[0] == OpenAI && CANDIDATES[1] == Gemini && CANDIDATES[2] == Anthropic && CANDIDATES[3] == Ollama;
    assert CANDIDATES[4] == Azure && CANDIDATES[5] == Bedrock && CANDIDATES[6] == Custom;
  }

  lemma EveryProviderIsCandidate(p: Provider)
    ensures p in CANDIDATES
  {
    assert CANDIDATES[0] == OpenAI && CANDIDATES[1] == Gemini && CANDIDATES[2] == Anthropic && CANDIDATES[3] == Ollama;
    assert CANDIDATES[4] == Azure && CANDIDATES[5] == Bedrock && CANDIDATES[6] == Custom;
  }

  /** A provider's reply: an error, text that is not a verdict, or the fields of one. */
  datatype Reply = Unreachable(error: string) | Garbled(error: string)
      | Reply(decision: string, risk: string, confidence: real)

  datatype Opinion = Opinion(decision: Decision, risk: Risk, confidence: real)

  function ParseReply(r: Reply, lower: string -> string): Result<Opinion, string> {
    match r
    case Unreachable(e) => Err(e)
    case Garbled(e) => Err(e)
    case Reply(decision, risk, confidence) =>
      var d := lower(decision);
      var l := lower(risk);
      Ok(Opinion(
           if d == "approved" then Approve else if d == "denied" then Deny
           else if d == "escalate" || d == "escalated" then Escalate else Deny,
           if l == "low" then Low else if l == "medium" then Medium else if l == "high" then High
           else if l == "critical" then Critical else Medium,
           confidence))
  }

  function Clamp(x: real): real {
    if x < 0.0 then 0.0 else if x > 1.0 then 1.0 else x
  }

  const NO_ANSWER := Opinion(Deny, High, 0.0)

  /** What the first provider to answer said. */
  function Consult(order: seq<Provider>, ask: Provider -> Reply, lower: string -> string): Opinion {
    if order == [] then NO_ANSWER
    else
      match ParseReply(ask(order[0]), lower)
      case Ok(o) => o.(confidence := Clamp(o.confidence))
      case Err(_) => Consult(order[1..], ask, lower)
  }

  method TryLlmAnalysis(order: seq<Provider>, ask: Provider -> Reply, lower: string -> string)
    returns (opinion: Opinion, failed: seq<Provider>)
    ensures opinion == Consult(order, ask, lower)
    ensures failed <= order
    ensures forall p :: p in failed ==> ParseReply(ask(p), lower).Err?
    ensures failed == order || ParseReply(ask(order[|failed|]), lower).Ok?
  {
    failed := [];
    assert order[0..] == order;
    for k := 0 to |order|
      invariant failed == order[..k]
      invariant forall p :: p in failed ==> ParseReply(ask(p), lower).Err?
      invariant Consult(order, ask, lower) == Consult(order[k..], ask, lower)
    {
      assert order[k..][0] == order[k] && order[k..][1..] == order[k + 1..];
      var result := ParseReply(ask(order[k]), lower);
      if result.Ok? {
        return result.value.(confidence := Clamp(result.value.confidence)), failed;
      }
      failed := failed + [order[k]];
      assert order[..k + 1] == order[..k] + [order[k]];
    }
    assert order[..|order|] == order;
    opinion := NO_ANSWER;
  }

  /** The k-th provider is the first whose reply can be read, and it approves. */
  ghost predicate ApprovedBy(order: seq<Provider>, k: int, ask: Provider -> Reply, lower: string -> string) {
    && 0 <= k < |order|
    && ask(order[k]).Reply? && lower(ask(order[k]).decision) == "approved"
    && forall j :: 0 <= j < k ==> !ask(order[j]).Reply?
  }

  lemma {:induction false} ConsultApproves(order: seq<Provider>, ask: Provider -> Reply, lower: string -> string)
    ensures Consult(order, ask, lower).decision == Approve <==> exists k :: ApprovedBy(order, k, ask, lower)
    ensures (forall p :: p in order ==> !ask(p).Reply?) ==> Consult(order, ask, lower) == NO_ANSWER
    ensures 0.0 <= Consult(order, ask, lower).confidence <= 1.0
  {
    if order != [] {
      ConsultApproves(order[1..], ask, lower);
      if ask(order[0]).Reply? {
        assert ApprovedBy(order, 0, ask, lower) <==> Consult(order, ask, lower).decision == Approve;
      } else {
        if k :| ApprovedBy(order[1..], k, ask, lower) {
          forall j | 0 <= j < k + 1 ensures !ask(order[j]).Reply? {
            if j > 0 { assert order[j] == order[1..][j - 1]; }
          }
          assert order[1..][k] == order[k + 1];
          assert ApprovedBy(order, k + 1, ask, lower);
        }
        if k :| ApprovedBy(order, k, ask, lower) {
          assert forall j :: 0 <= j < k - 1 ==> order[1..][j] == order[j + 1];
          assert order[1..][k - 1] == order[k];
          assert ApprovedBy(order[1..], k - 1, ask, lower);
        }
      }
    }
  }

  /** The k-th provider is the first whose reply can be read. */
  ghost predicate FirstReadable(order: seq<Provider>, k: int, ask: Provider -> Reply) {
    0 <= k < |order| && ask(order[k]).Reply? && forall j :: 0 <= j < k ==> !ask(order[j]).Reply?
  }

  /** What each word of a reply stands for, and what any other word does. */
  ghost predicate SaysDecision(word: string, d: Decision) {
    && (d == Approve <==> word == "approved")
    && (d == Escalate <==> word == "escalate" || word == "escalated")
  }

  ghost predicate SaysRisk(word: string, r: Risk) {
    && (r == Low <==> word == "low")
    && (r == High <==> word == "high")
    && (r == Critical <==> word == "critical")
  }

  /** A confidence kept between 0 and 1. */
  ghost predicate Within01(said: real, kept: real) {
    if said < 0.0 then kept == 0.0 else if said > 1.0 then kept == 1.0 else kept == said
  }

  /**
   The opinion is the first readable reply, word for word: "denied", like any word that is neither an
   approval nor an escalation, denies; "medium", like any unknown risk, is Medium.
   */
  lemma {:induction false} ConsultReads(order: seq<Provider>, k: int, ask: Provider -> Reply, lower: string -> string)
    requires FirstReadable(order, k, ask)
    ensures var o, said := Consult(order, ask, lower), ask(order[k]);
      && SaysDecision(lower(said.decision), o.decision)
      && SaysRisk(lower(said.risk), o.risk)
      && Within01(said.confidence, o.confidence)
  {
    if k > 0 {
      assert !ask(order[0]).Reply?;
      assert forall j :: 0 <= j < k ==> order[1..][j] == order[j + 1];
      ConsultReads(order[1..], k - 1, ask, lower);
    }
  }

  /** With no readable reply: denied, at High, with no confidence. */
  lemma {:induction false} ConsultNobody(order: seq<Provider>, ask: Provider -> Reply, lower: string -> string)
    requires forall p :: p in order ==> !ask(p).Reply?
    ensures Consult(order, ask, lower) == Opinion(Deny, High, 0.0)
  {
    if order != [] { ConsultNobody(order[1..], ask, lower); }
  }

  // ---------- the whole judgement ----------

  /** Everything outside the program that a judgement depends on. */
  datatype World = World(
    policies: seq<Policy>,
    input: Input,
    env: Env,
    db: Reads,
    dryRun: bool,
    patterns: seq<Pattern>,
    find: Finder,
    order: seq<Provider>,
    ask: Provider -> Reply)

  function ScannedText(w: World): string {
    w.input.intent + " " + w.input.payload.GetOr("")
  }

  datatype Judgement = Judgement(decision: Decision, risk: Risk, policyId: Option<string>, model: string)

  function Judge(w: World): Judgement {
    var e := Evaluate(w.policies, w.input, w.env, w.db, w.dryRun);
    if e.denial.Some? then Judgement(Deny, e.denial.value.risk, Some(e.denial.value.policyId), "policy_engine")
    else if HasCritical(AllMatches(w.patterns, w.find, ScannedText(w)))
    then Judgement(Deny, Critical, None, "prompt_injection_detector")
    else
      var o := Consult(w.order, w.ask, w.env.lower);
      Judgement(o.decision, o.risk, None, "llm")
  }

  method JudgeAction(w: World) returns (j: Judgement)
    ensures j == Judge(w)
  {
    var e := EvaluateLive(w.policies, w.input, w.env, w.db, w.dryRun);
    if e.denial.Some? {
      return Judgement(Deny, e.denial.value.risk, Some(e.denial.value.policyId), "policy_engine");
    }
    var scan := Analyze(w.patterns, w.find, w.input.intent, w.input.payload);
    if scan.detected && HasCritical(scan.matches) {
      return Judgement(Deny, Critical, None, "prompt_injection_detector");
    }
    var opinion, failed := TryLlmAnalysis(w.order, w.ask, w.env.lower);
    j := Judgement(opinion.decision, opinion.risk, None, "llm");
  }

  /** A critical pattern occurs in the intent and payload. */
  ghost predicate CriticalFound(w: World) {
    exists p :: p in w.patterns && p.severity == Critical
                && w.find(p.regex, w.input.intent + " " + w.input.payload.GetOr("")) != []
  }

  /**
   Which of the three decides, in this order, and what its judgement says: the policies, by the id and
   risk of their denial; a critical pattern; the first readable reply.
   */
  lemma JudgeMeans(w: World)
    ensures var j, denial := Judge(w), Evaluate(w.policies, w.input, w.env, w.db, w.dryRun).denial;
      && (denial.Some? ==> j == Judgement(Deny, denial.value.risk, Some(denial.value.policyId), "policy_engine"))
      && (denial.None? && CriticalFound(w) ==> j == Judgement(Deny, Critical, None, "prompt_injection_detector"))
      && (denial.None? && !CriticalFound(w) ==>
            && j.policyId == None && j.model == "llm"
            && (forall k :: FirstReadable(w.order, k, w.ask) ==>
                  && SaysDecision(w.env.lower(w.ask(w.order[k]).decision), j.decision)
                  && SaysRisk(w.env.lower(w.ask(w.order[k]).risk), j.risk))
            && ((forall p :: p in w.order ==> !w.ask(p).Reply?) ==> j.decision == Deny && j.risk == High))
  {
    CriticalIffSomePattern(w.patterns, w.find, ScannedText(w));
    forall k | FirstReadable(w.order, k, w.ask)
      ensures var o := Consult(w.order, w.ask, w.env.lower);
        && SaysDecision(w.env.lower(w.ask(w.order[k]).decision), o.decision)
        && SaysRisk(w.env.lower(w.ask(w.order[k]).risk), o.risk)
    {
      ConsultReads(w.order, k, w.ask, w.env.lower);
    }
    if forall p :: p in w.order ==> !w.ask(p).Reply? {
      ConsultNobody(w.order, w.ask, w.env.lower);
    }
  }

  /**
   Outside dry-run an action is approved exactly when no rule of any policy denies it, no limit
   is hit, no critical pattern occurs, and the first provider with a readable reply approves it.
   */
  lemma FailClosed(w: World)
    requires !w.dryRun
    ensures Judge(w).decision == Approve <==>
              && (forall p :: p in w.policies ==> !SomeDenies(p.rules.GetOr([]), w.input, w.env))
              && NoLimitHit(w.policies, w.db)
              && !CriticalFound(w)
              && (exists k :: ApprovedBy(w.order, k, w.ask, w.env.lower))
  {
    EvaluateAllowsIff(w.policies, w.input, w.env, w.db);
    CriticalIffSomePattern(w.patterns, w.find, ScannedText(w));
    ConsultApproves(w.order, w.ask, w.env.lower);
  }

  /** When no provider gives a readable reply the action is denied, in dry-run too. */
  lemma NoProviderMeansDeny(w: World)
    requires forall p :: p in w.order ==> !w.ask(p).Reply?
    ensures Judge(w).decision == Deny
  {
    ConsultApproves(w.order, w.ask, w.env.lower);
  }
}
