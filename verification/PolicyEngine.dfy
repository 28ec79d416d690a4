/**
 The rule evaluator: leaf rules, `and`/`or` composites of any nesting, and the stable
 priority sort. Text matching that the program leaves to libraries is a parameter.
 */
module PolicyEngine {
  import opened Common

  /** Library text operations, the clock, and number formatting, as the evaluator sees them. */
  datatype Env = Env(
    lower: string -> string,
    upper: string -> string,
    matches: (string, string) -> bool,     // pattern compiles and matches the text
    show: real -> string,
    showWindow: (int, int, Option<seq<int>>) -> string,
    hour: int,
    weekday: int)

  /** What a rule may inspect. Payload and metadata fields are the parsed JSON values. */
  datatype Input = Input(
    intent: string,
    payload: Option<string>,
    amount: Option<real>,
    url: Option<string>,
    method_: Option<string>,
    sourceIp: Option<string>,
    country: Option<string>)

  datatype Rule = Rule(priority: Option<int>, kind: Kind)

  /** A missing list of keywords, patterns or sub-rules behaves as an empty one, except in allowlists. */
  datatype Kind =
    | Untyped
    | And(subs: seq<Rule>)
    | Or(subs: seq<Rule>)
    | DenyKeyword(keywords: seq<string>)
    | RequireApproval(types: seq<string>)
    | MaxAmount(max: Option<real>)
    | RegexDeny(patterns: seq<string>)
    | RiskFlag(keywords: seq<string>)
    | UrlAllowlist(allowed: Option<seq<string>>)
    | UrlBlocklist(patterns: seq<string>)
    | TimeWindow(start: Option<int>, end: Option<int>, days: Option<seq<int>>)
    | IpAllowlist(allowed: Option<seq<string>>)
    | Geofence(countries: seq<string>)
    | RateLimit(maxCount: Option<int>, windowSecs: Option<int>)
    | ConcurrencyLimit(maxSimultaneous: Option<int>)
    | BudgetLimit(maxBudget: Option<real>)
    | HistogramTrend(field: Option<string>, threshold: Option<real>)
    | TrendAnomaly
    | Unknown(name: string)

  datatype Outcome = Outcome(deny: bool, message: string, risk: Risk)

  predicate Contains(text: string, part: string) {
    part <= text || (text != [] && Contains(text[1..], part))
  }

  /** The part stands in the text at place k. */
  predicate At(text: string, part: string, k: int) {
    0 <= k <= |text| - |part| && text[k..k + |part|] == part
  }

  ghost predicate Within(text: string, part: string) {
    exists k :: At(text, part, k)
  }

  lemma {:induction false} ContainsMeans(text: string, part: string)
    ensures Contains(text, part) <==> Within(text, part)
  {
    if part <= text {
      assert At(text, part, 0);
    }
    if text != [] {
      ContainsMeans(text[1..], part);
      if k :| At(text[1..], part, k) {
        assert text[1..][k..k + |part|] == text[k + 1..k + 1 + |part|];
        assert At(text, part, k + 1);
      }
      if k :| At(text, part, k) {
        if k > 0 {
          assert text[1..][k - 1..k - 1 + |part|] == text[k..k + |part|];
          assert At(text[1..], part, k - 1);
        }
      }
    }
  }

  lemma ContainsIsWithin()
    ensures forall text, part :: Contains(text, part) <==> Within(text, part)
  {
    forall text, part ensures Contains(text, part) <==> Within(text, part) {
      ContainsMeans(text, part);
    }
  }

  /** The first element a loop with an early return stops at. */
  function FirstHit(xs: seq<string>, hit: string -> bool): (r: Option<string>)
    ensures r.Some? <==> exists x :: x in xs && hit(x)
    ensures r.Some? ==>
              exists k :: 0 <= k < |xs| && xs[k] == r.value && hit(xs[k]) && forall j :: 0 <= j < k ==> !hit(xs[j])
  {
    if xs == [] then None
    else if hit(xs[0]) then Some(xs[0])
    else
      var r := FirstHit(xs[1..], hit);
      assert forall x :: x in xs <==> x == xs[0] || x in xs[1..];
      r
  }

  function Flag(hit: Option<string>, deny: bool, risk: Risk, prefix: string, suffix: string): Option<Outcome> {
    match hit
    case None => None
    case Some(x) => Some(Outcome(deny, prefix + x + suffix, risk))
  }

  function EvalSimple(kind: Kind, i: Input, env: Env): Option<Outcome> {
    match kind
    case DenyKeyword(ks) =>
      Flag(FirstHit(ks, k => Contains(env.lower(i.intent), env.lower(k))), true, Critical, "Denied keyword match: ", "")
    case RequireApproval(ts) =>
      if i.method_.None? then None
      else Flag(FirstHit(ts, t => env.upper(i.method_.value) == env.upper(t)), false, High,
                "Requires human approval for ", " actions")
    case MaxAmount(max) =>
      if max.Some? && i.amount.Some? && i.amount.value > max.value
      then Some(Outcome(true, "Amount " + env.show(i.amount.value) + " exceeds maximum " + env.show(max.value), High))
      else None
    case RegexDeny(ps) =>
      Flag(FirstHit(ps, p => env.matches(p, i.intent + " " + i.payload.GetOr(""))), true, Critical,
           "Regex pattern matched: ", "")
    case RiskFlag(ks) =>
      Flag(FirstHit(ks, k => Contains(env.lower(i.intent), env.lower(k))), false, Medium, "Risk flag: ", "")
    case UrlAllowlist(allowed) =>
      if allowed.None? || i.url.None? || FirstHit(allowed.value, p => Contains(i.url.value, p)).Some? then None
      else Some(Outcome(true, "URL not in allowlist: " + i.url.value, High))
    case UrlBlocklist(ps) =>
      if i.url.None? then None
      else Flag(FirstHit(ps, p => Contains(i.url.value, p)), true, Critical, "URL matches blocklist: ", "")
    case TimeWindow(start, end, days) =>
      var s, e := start.GetOr(0), end.GetOr(24);
      if (days.Some? && env.weekday !in days.value) || env.hour < s || env.hour >= e
      then Some(Outcome(true, "Action outside allowed time window (" + env.showWindow(s, e, days) + ")", Medium))
      else None
    case IpAllowlist(allowed) =>
      if i.sourceIp.None? || allowed.None?
          || FirstHit(allowed.value, p => Contains(i.sourceIp.value, p)).Some? then None
      else Some(Outcome(true, "Source IP " + i.sourceIp.value + " not in allowlist", High))
    case Geofence(countries) =>
      if i.country.Some? && FirstHit(countries, c => AsciiLower(c) == AsciiLower(i.country.value)).Some?
      then Some(Outcome(true, "Country " + i.country.value + " is blocked by geofence policy", High))
      else None
    case Unknown(name) =>
      Some(Outcome(true,
                   "Policy contains unknown rule type '" + name
                   + "' (fail-closed deny); review the policy definition", High))
    // limits are checked later, with database context
    case _ => None
  }

  function Eval(r: Rule, i: Input, env: Env): Option<Outcome>
    decreases r, 0
  {
    match r.kind
    case And(subs) => Merge(EvalEach(subs, i, env))
    case Or(subs) => EvalFirst(subs, i, env)
    case kind => EvalSimple(kind, i, env)
  }

  /** The outcomes of all sub-rules, or None as soon as one does not match. */
  function EvalEach(subs: seq<Rule>, i: Input, env: Env): Option<seq<Outcome>>
    decreases subs, 1
  {
    if subs == [] then Some([])
    else
      match Eval(subs[0], i, env)
      case None => None
      case Some(o) =>
        match EvalEach(subs[1..], i, env)
        case None => None
        case Some(rest) => Some([o] + rest)
  }

  function EvalFirst(subs: seq<Rule>, i: Input, env: Env): Option<Outcome>
    decreases subs, 1
  {
    if subs == [] then None
    else if Eval(subs[0], i, env).Some? then Eval(subs[0], i, env)
    else EvalFirst(subs[1..], i, env)
  }

  function MaxRisk(os: seq<Outcome>): Risk {
    if os == [] then Low
    else
      var rest := MaxRisk(os[1..]);
      if Severity(os[0].risk) > Severity(rest) then os[0].risk else rest
  }

  predicate AnyDeny(os: seq<Outcome>) {
    exists k :: 0 <= k < |os| && os[k].deny
  }

  function Messages(os: seq<Outcome>): string {
    if os == [] then ""
    else if |os| == 1 then os[0].message
    else os[0].message + "; " + Messages(os[1..])
  }

  function Merge(all: Option<seq<Outcome>>): Option<Outcome> {
    if all.None? || all.value == [] then None
    else Some(Outcome(AnyDeny(all.value), Messages(all.value), MaxRisk(all.value)))
  }

  // ---------- the loops of the evaluator ----------

  method EvaluateRule(r: Rule, i: Input, env: Env) returns (o: Option<Outcome>)
    ensures o == Eval(r, i, env)
    decreases r, 2
  {
    match r.kind
    case And(subs) => o := EvaluateComposite(subs, true, i, env);
    case Or(subs) => o := EvaluateComposite(subs, false, i, env);
    case kind => o := EvalSimple(kind, i, env);
  }

  method EvaluateComposite(subs: seq<Rule>, isAnd: bool, i: Input, env: Env) returns (o: Option<Outcome>)
    ensures o == if isAnd then Merge(EvalEach(subs, i, env)) else EvalFirst(subs, i, env)
    decreases subs, 3
  {
    var collected: seq<Outcome> := [];
    assert subs[0..] == subs;
    PrependNothing(EvalEach(subs, i, env));
    for k := 0 to |subs|
      invariant isAnd ==> EvalEach(subs, i, env) == Prepend(collected, EvalEach(subs[k..], i, env))
      invariant !isAnd ==> EvalFirst(subs, i, env) == EvalFirst(subs[k..], i, env)
    {
      var result := EvaluateRule(subs[k], i, env);
      assert subs[k..][0] == subs[k] && subs[k..][1..] == subs[k + 1..];
      if result.Some? {
        if !isAnd {
          return result;
        }
        PrependStep(collected, result.value, EvalEach(subs[k + 1..], i, env));
        collected := collected + [result.value];
      } else if isAnd {
        return None;
      }
    }
    assert collected + [] == collected;
    o := if isAnd then Merge(Some(collected)) else None;
  }

  ghost function Prepend(done: seq<Outcome>, rest: Option<seq<Outcome>>): Option<seq<Outcome>> {
    if rest.None? then None else Some(done + rest.value)
  }

  lemma PrependNothing(rest: Option<seq<Outcome>>)
    ensures Prepend([], rest) == rest
  {
    if rest.Some? {
      assert [] + rest.value == rest.value;
    }
  }

  lemma PrependStep(done: seq<Outcome>, o: Outcome, rest: Option<seq<Outcome>>)
    ensures Prepend(done + [o], rest) == if rest.None? then None else Prepend(done, Some([o] + rest.value))
  {
    if rest.Some? {
      assert done + [o] + rest.value == done + ([o] + rest.value);
    }
  }

  // ---------- what composites mean ----------

  lemma {:induction false} EachMatches(subs: seq<Rule>, i: Input, env: Env)
    ensures var all := EvalEach(subs, i, env);
      && (all.Some? <==> forall k :: 0 <= k < |subs| ==> Eval(subs[k], i, env).Some?)
      && (all.Some? ==> |all.value| == |subs| && forall k :: 0 <= k < |subs| ==>
          Eval(subs[k], i, env) == Some(all.value[k]))
  {
    if subs != [] {
      EachMatches(subs[1..], i, env);
      var all := EvalEach(subs, i, env);
      if forall k :: 0 <= k < |subs| ==> Eval(subs[k], i, env).Some? {
        assert Eval(subs[0], i, env).Some?;
        assert forall k :: 0 <= k < |subs| - 1 ==> subs[1..][k] == subs[k + 1];
      }
      if all.Some? {
        forall k | 0 <= k < |subs| ensures Eval(subs[k], i, env) == Some(all.value[k]) {
          if k > 0 { assert subs[k] == subs[1..][k - 1]; }
        }
      }
    }
  }

  lemma {:induction false} MaxRiskIsMax(os: seq<Outcome>)
    ensures forall k :: 0 <= k < |os| ==> Severity(os[k].risk) <= Severity(MaxRisk(os))
    ensures os != [] ==> exists k :: 0 <= k < |os| && os[k].risk == MaxRisk(os)
  {
    if os != [] {
      MaxRiskIsMax(os[1..]);
      forall k | 0 <= k < |os| ensures Severity(os[k].risk) <= Severity(MaxRisk(os)) {
        if k > 0 { assert os[k] == os[1..][k - 1]; }
      }
      if os[0].risk != MaxRisk(os) {
        if |os| > 1 {
          var k :| 0 <= k < |os| - 1 && os[1..][k].risk == MaxRisk(os[1..]);
          assert os[k + 1].risk == MaxRisk(os);
        }
      }
    }
  }

  /** The messages of the parts, joined by "; " in their order. */
  lemma {:induction false} MessagesJoin(a: seq<Outcome>, b: seq<Outcome>)
    requires a != [] && b != []
    ensures Messages(a + b) == Messages(a) + "; " + Messages(b)
  {
    if |a| == 1 {
      assert a + b == [a[0]] + b && (a + b)[1..] == b;
    } else {
      MessagesJoin(a[1..], b);
      assert (a + b)[1..] == a[1..] + b;
      assert (a + b)[0] == a[0];
    }
  }

  /** What a matching `and` says: one part's message as it is, several joined in order. */
  lemma AndMessage(r: Rule, i: Input, env: Env) returns (all: seq<Outcome>)
    requires r.kind.And? && Eval(r, i, env).Some?
    ensures |all| == |r.kind.subs| && forall k :: 0 <= k < |all| ==> Eval(r.kind.subs[k], i, env) == Some(all[k])
    ensures Eval(r, i, env).value.message == Messages(all)
    ensures |all| == 1 ==> Messages(all) == all[0].message
    ensures forall k :: 0 < k < |all| ==> Messages(all) == Messages(all[..k]) + "; " + Messages(all[k..])
  {
    EachMatches(r.kind.subs, i, env);
    all := EvalEach(r.kind.subs, i, env).value;
    JoinedAnywhere(all);
  }

  lemma JoinedAnywhere(all: seq<Outcome>)
    ensures forall k :: 0 < k < |all| ==> Messages(all) == Messages(all[..k]) + "; " + Messages(all[k..])
  {
    forall k | 0 < k < |all| ensures Messages(all) == Messages(all[..k]) + "; " + Messages(all[k..]) {
      MessagesJoin(all[..k], all[k..]);
      assert all[..k] + all[k..] == all;
    }
  }

  /** `and` matches when it is non-empty and every part does; it denies if any part does, at the top risk. */
  lemma AndMeaning(r: Rule, i: Input, env: Env)
    requires r.kind.And?
    ensures var subs, o := r.kind.subs, Eval(r, i, env);
      && (o.Some? <==> subs != [] && forall k :: 0 <= k < |subs| ==> Eval(subs[k], i, env).Some?)
      && (o.Some? ==>
            && (o.value.deny <==> exists k :: 0 <= k < |subs| && Eval(subs[k], i, env).value.deny)
            && (exists k :: 0 <= k < |subs| && Eval(subs[k], i, env).value.risk == o.value.risk)
            && (forall k :: 0 <= k < |subs| ==> Severity(Eval(subs[k], i, env).value.risk) <= Severity(o.value.risk)))
  {
    var subs := r.kind.subs;
    EachMatches(subs, i, env);
    var all := EvalEach(subs, i, env);
    if all.Some? {
      MaxRiskIsMax(all.value);
      if Eval(r, i, env).Some? {
        var k :| 0 <= k < |all.value| && all.value[k].risk == MaxRisk(all.value);
        assert Eval(subs[k], i, env).value.risk == MaxRisk(all.value);
        if j :| 0 <= j < |subs| && Eval(subs[j], i, env).value.deny {
          assert all.value[j].deny;
        }
      }
    }
  }

  /** `or` yields exactly its first matching part. */
  lemma {:induction false} FirstMeaning(subs: seq<Rule>, i: Input, env: Env)
    ensures EvalFirst(subs, i, env).None? <==> forall k :: 0 <= k < |subs| ==> Eval(subs[k], i, env).None?
    ensures EvalFirst(subs, i, env).Some? ==>
              exists k :: 0 <= k < |subs| && Eval(subs[k], i, env) == EvalFirst(subs, i, env)
                && forall j :: 0 <= j < k ==> Eval(subs[j], i, env).None?
  {
    if subs != [] {
      FirstMeaning(subs[1..], i, env);
      if Eval(subs[0], i, env).Some? {
        assert Eval(subs[0], i, env) == EvalFirst(subs, i, env);
      } else {
        if EvalFirst(subs, i, env).Some? {
          var k :| 0 <= k < |subs| - 1 && Eval(subs[1..][k], i, env) == EvalFirst(subs[1..], i, env)
            && forall j :: 0 <= j < k ==> Eval(subs[1..][j], i, env).None?;
          assert Eval(subs[k + 1], i, env) == EvalFirst(subs, i, env);
          forall j | 0 <= j < k + 1 ensures Eval(subs[j], i, env).None? {
            if j > 0 { assert subs[j] == subs[1..][j - 1]; }
          }
        } else {
          forall k | 0 <= k < |subs| ensures Eval(subs[k], i, env).None? {
            if k > 0 { assert subs[k] == subs[1..][k - 1]; }
          }
        }
      }
    }
  }

  lemma OrMeaning(r: Rule, i: Input, env: Env)
    requires r.kind.Or?
    ensures var subs, o := r.kind.subs, Eval(r, i, env);
      && (o.None? <==> forall k :: 0 <= k < |subs| ==> Eval(subs[k], i, env).None?)
      && (o.Some? ==>
            exists k :: 0 <= k < |subs| && Eval(subs[k], i, env) == o
              && forall j :: 0 <= j < k ==> Eval(subs[j], i, env).None?)
  {
    FirstMeaning(r.kind.subs, i, env);
  }

  // ---------- limits inside composites ----------

  /** The kinds that are evaluated with database context only. */
  predicate IsLimit(kind: Kind) {
    kind.RateLimit? || kind.ConcurrencyLimit? || kind.BudgetLimit? || kind.HistogramTrend?
  }

  /** A limit as a part of an `and` disables the whole `and`, its denying parts included. */
  lemma LimitDisablesAnd(r: Rule, k: nat, i: Input, env: Env)
    requires r.kind.And? && k < |r.kind.subs| && IsLimit(r.kind.subs[k].kind)
    ensures Eval(r, i, env).None?
  {
    assert Eval(r.kind.subs[k], i, env).None?;
    AndMeaning(r, i, env);
  }

  /** A limit as a part of an `or` might as well not be there. */
  lemma OrIgnoresLimit(subs: seq<Rule>, k: nat, i: Input, env: Env)
    requires k < |subs| && IsLimit(subs[k].kind)
    ensures EvalFirst(subs[..k] + subs[k + 1..], i, env) == EvalFirst(subs, i, env)
  {
    assert Eval(subs[k], i, env).None?;
    assert subs[k..][1..] == subs[k + 1..] && subs[..k] + subs[k..] == subs;
    FirstOfBoth(subs[..k], subs[k..], i, env);
    FirstOfBoth(subs[..k], subs[k + 1..], i, env);
  }

  lemma {:induction false} FirstOfBoth(a: seq<Rule>, b: seq<Rule>, i: Input, env: Env)
    ensures EvalFirst(a + b, i, env) == if EvalFirst(a, i, env).Some? then EvalFirst(a, i, env)
              else EvalFirst(b, i, env)
  {
    if a == [] {
      assert a + b == b;
    } else {
      FirstOfBoth(a[1..], b, i, env);
      assert (a + b)[1..] == a[1..] + b;
    }
  }

  /** The leaves whose match alone denies. */
  predicate DenyingLeaf(kind: Kind) {
    kind.DenyKeyword? || kind.MaxAmount? || kind.RegexDeny? || kind.UrlAllowlist? || kind.UrlBlocklist?
    || kind.TimeWindow? || kind.IpAllowlist? || kind.Geofence? || kind.Unknown?
  }

  /** When a leaf matches, said without the loops that look for the match. */
  ghost predicate LeafMatches(kind: Kind, i: Input, env: Env) {
    match kind
    case DenyKeyword(ks) => exists k :: k in ks && Within(env.lower(i.intent), env.lower(k))
    case RiskFlag(ks) => exists k :: k in ks && Within(env.lower(i.intent), env.lower(k))
    case RequireApproval(ts) => i.method_.Some? && exists t :: t in ts && env.upper(i.method_.value) == env.upper(t)
    case MaxAmount(max) => max.Some? && i.amount.Some? && i.amount.value > max.value
    case RegexDeny(ps) => exists p :: p in ps && env.matches(p, i.intent + " " + i.payload.GetOr(""))
    case UrlAllowlist(allowed) =>
      allowed.Some? && i.url.Some? && forall p :: p in allowed.value ==> !Within(i.url.value, p)
    case UrlBlocklist(ps) => i.url.Some? && exists p :: p in ps && Within(i.url.value, p)
    case TimeWindow(start, end, days) =>
      !(start.GetOr(0) <= env.hour < end.GetOr(24)) || (days.Some? && env.weekday !in days.value)
    case IpAllowlist(allowed) =>
      allowed.Some? && i.sourceIp.Some? && forall p :: p in allowed.value ==> !Within(i.sourceIp.value, p)
    case Geofence(cs) => i.country.Some? && exists c :: c in cs && SameButCase(c, i.country.value)
    case Unknown(_) => true
    case _ => false
  }

  /** A leaf matches as declared, an unknown type always does, and only denying leaves deny. */
  lemma LeafMeaning(kind: Kind, i: Input, env: Env)
    ensures EvalSimple(kind, i, env).Some? <==> LeafMatches(kind, i, env)
    ensures EvalSimple(kind, i, env).Some? ==> EvalSimple(kind, i, env).value.deny == DenyingLeaf(kind)
  {
    if ReadsWords(kind) { WordLeafMeaning(kind, i, env); } else { PlaceLeafMeaning(kind, i, env); }
  }

  /** Leaves about what the action says, as against where and when it acts. */
  predicate ReadsWords(kind: Kind) {
    kind.DenyKeyword? || kind.RiskFlag? || kind.RequireApproval? || kind.MaxAmount? || kind.RegexDeny?
  }

  lemma WordLeafMeaning(kind: Kind, i: Input, env: Env)
    requires ReadsWords(kind)
    ensures EvalSimple(kind, i, env).Some? <==> LeafMatches(kind, i, env)
    ensures EvalSimple(kind, i, env).Some? ==> EvalSimple(kind, i, env).value.deny == DenyingLeaf(kind)
  {
    ContainsIsWithin();
  }

  lemma PlaceLeafMeaning(kind: Kind, i: Input, env: Env)
    requires !ReadsWords(kind)
    ensures EvalSimple(kind, i, env).Some? <==> LeafMatches(kind, i, env)
    ensures EvalSimple(kind, i, env).Some? ==> EvalSimple(kind, i, env).value.deny == DenyingLeaf(kind)
  {
    ContainsIsWithin();
    forall a, b ensures AsciiLower(a) == AsciiLower(b) <==> SameButCase(a, b) {
      AsciiLowerMeans(a, b);
    }
  }

  /** How bad a matching leaf is. */
  lemma LeafRisk(kind: Kind, i: Input, env: Env)
    requires EvalSimple(kind, i, env).Some?
    ensures var risk := EvalSimple(kind, i, env).value.risk;
      && (kind.DenyKeyword? || kind.RegexDeny? || kind.UrlBlocklist? ==> risk == Critical)
      && (kind.RequireApproval? || kind.MaxAmount? ==> risk == High)
      && (kind.UrlAllowlist? || kind.IpAllowlist? || kind.Geofence? || kind.Unknown? ==> risk == High)
      && (kind.RiskFlag? || kind.TimeWindow? ==> risk == Medium)
  {
  }

  /** The first of these texts that fits, with everything before it not fitting. */
  ghost predicate FirstFit(xs: seq<string>, fits: string -> bool, x: string) {
    exists k :: 0 <= k < |xs| && xs[k] == x && fits(x) && forall j :: 0 <= j < k ==> !fits(xs[j])
  }

  /** A leaf that goes through a list names the first entry that matched; an amount is named with its maximum. */
  lemma LeafNamesFirst(kind: Kind, i: Input, env: Env)
    requires ReadsWords(kind) && EvalSimple(kind, i, env).Some?
    ensures var m := EvalSimple(kind, i, env).value.message;
      match kind
      case DenyKeyword(ks) =>
        exists x :: FirstFit(ks, k => Contains(env.lower(i.intent), env.lower(k)), x)
                    && m == "Denied keyword match: " + x
      case RiskFlag(ks) =>
        exists x :: FirstFit(ks, k => Contains(env.lower(i.intent), env.lower(k)), x) && m == "Risk flag: " + x
      case RegexDeny(ps) =>
        exists x :: FirstFit(ps, p => env.matches(p, i.intent + " " + i.payload.GetOr("")), x)
                    && m == "Regex pattern matched: " + x
      case RequireApproval(ts) =>
        i.method_.Some? &&
        exists x :: FirstFit(ts, t => env.upper(i.method_.value) == env.upper(t), x)
                    && m == "Requires human approval for " + x + " actions"
      case MaxAmount(max) =>
        i.amount.Some? && max.Some?
        && m == "Amount " + env.show(i.amount.value) + " exceeds maximum " + env.show(max.value)
      case _ => true
  {
  }

  /** A leaf about the place, the time or an unknown type says what it objects to. */
  lemma LeafNamesPlace(kind: Kind, i: Input, env: Env)
    requires !ReadsWords(kind) && EvalSimple(kind, i, env).Some?
    ensures var m := EvalSimple(kind, i, env).value.message;
      match kind
      case UrlBlocklist(ps) =>
        i.url.Some? && exists x :: FirstFit(ps, p => Contains(i.url.value, p), x) && m == "URL matches blocklist: " + x
      case UrlAllowlist(_) => i.url.Some? && m == "URL not in allowlist: " + i.url.value
      case IpAllowlist(_) => i.sourceIp.Some? && m == "Source IP " + i.sourceIp.value + " not in allowlist"
      case Geofence(_) => i.country.Some? && m == "Country " + i.country.value + " is blocked by geofence policy"
      case TimeWindow(start, end, days) =>
        m == "Action outside allowed time window (" + env.showWindow(start.GetOr(0), end.GetOr(24), days) + ")"
      case Unknown(name) =>
        m == "Policy contains unknown rule type '" + name + "' (fail-closed deny); review the policy definition"
      case _ => true
  {
  }

  /** Whether some matching leaf of this rule, at any depth, is one that denies. */
  ghost predicate HasDenyingLeaf(r: Rule, i: Input, env: Env)
    decreases r
  {
    match r.kind
    case And(subs) => exists k :: 0 <= k < |subs| && HasDenyingLeaf(subs[k], i, env)
    case Or(subs) => exists k :: 0 <= k < |subs| && HasDenyingLeaf(subs[k], i, env)
    case kind => DenyingLeaf(kind) && LeafMatches(kind, i, env)
  }

  /** However deep the nesting, a denial always comes from a leaf that denies. */
  lemma {:induction false} DenialHasALeaf(r: Rule, i: Input, env: Env)
    requires Eval(r, i, env).Some? && Eval(r, i, env).value.deny
    ensures HasDenyingLeaf(r, i, env)
    decreases r
  {
    match r.kind
    case And(subs) =>
      AndMeaning(r, i, env);
      var k :| 0 <= k < |subs| && Eval(subs[k], i, env).value.deny;
      DenialHasALeaf(subs[k], i, env);
    case Or(subs) =>
      OrMeaning(r, i, env);
      var k :| 0 <= k < |subs| && Eval(subs[k], i, env) == Eval(r, i, env);
      DenialHasALeaf(subs[k], i, env);
    case kind => LeafMeaning(kind, i, env);
  }

  // ---------- the stable sort ----------

  function Key(r: Rule): int {
    r.priority.GetOr(0)
  }

  predicate Sorted(rs: seq<Rule>) {
    forall j, k :: 0 <= j < k < |rs| ==> Key(rs[j]) <= Key(rs[k])
  }

  /** The rules of one priority, in order. */
  function OfKey(rs: seq<Rule>, p: int): seq<Rule> {
    if rs == [] then []
    else if Key(rs[0]) == p then [rs[0]] + OfKey(rs[1..], p)
    else OfKey(rs[1..], p)
  }

  function Insert(r: Rule, rs: seq<Rule>): seq<Rule> {
    if rs == [] || Key(r) <= Key(rs[0]) then [r] + rs else [rs[0]] + Insert(r, rs[1..])
  }

  function SortRules(rs: seq<Rule>): seq<Rule> {
    if rs == [] then [] else Insert(rs[0], SortRules(rs[1..]))
  }

  /** Sorting as the callers see it: in place, on their own copy of the rules. */
  method SortInPlace(rules: array<Rule>)
    modifies rules
    ensures rules[..] == SortRules(old(rules[..]))
  {
    ghost var was := rules[..];
    var sorted := SortRules(rules[..]);
    SortIsStable(was);
    assert |sorted| == |multiset(was)| == rules.Length by {
      assert |multiset(sorted)| == |sorted|;
    }
    forall k | 0 <= k < rules.Length {
      rules[k] := sorted[k];
    }
  }

  /** Lower numbers come first, and a rule without a number counts as 0. */
  lemma SortedByPriority(rs: seq<Rule>, j: nat, k: nat)
    requires j < k < |SortRules(rs)|
    ensures var a, b := SortRules(rs)[j].priority, SortRules(rs)[k].priority;
      && (a.Some? && b.Some? ==> a.value <= b.value)
      && (a.Some? && b.None? ==> a.value <= 0)
      && (a.None? && b.Some? ==> 0 <= b.value)
  {
    SortIsStable(rs);
  }

  lemma {:induction false} InsertSorted(r: Rule, rs: seq<Rule>)
    requires Sorted(rs)
    ensures Sorted(Insert(r, rs))
  {
    if rs != [] && Key(r) > Key(rs[0]) {
      var rest := Insert(r, rs[1..]);
      InsertSorted(r, rs[1..]);
      InsertMembers(r, rs[1..]);
      forall k | 0 <= k < |rest| ensures Key(rs[0]) <= Key(rest[k]) {
        assert rest[k] in rest;
      }
    }
  }

  lemma {:induction false} InsertMembers(r: Rule, rs: seq<Rule>)
    ensures multiset(Insert(r, rs)) == multiset{r} + multiset(rs)
    ensures forall q :: q in Insert(r, rs) <==> q == r || q in rs
  {
    if rs != [] && Key(r) > Key(rs[0]) {
      InsertMembers(r, rs[1..]);
      assert rs == [rs[0]] + rs[1..];
    }
  }

  /** Insertion before the first rule of higher priority value, so ahead of its equals. */
  lemma {:induction false} InsertOfKey(r: Rule, rs: seq<Rule>, p: int)
    ensures OfKey(Insert(r, rs), p) == if Key(r) == p then [r] + OfKey(rs, p) else OfKey(rs, p)
  {
    if rs == [] || Key(r) <= Key(rs[0]) {
      assert ([r] + rs)[1..] == rs;
    } else {
      InsertOfKey(r, rs[1..], p);
      assert Insert(r, rs)[1..] == Insert(r, rs[1..]);
    }
  }

  /** A sorted permutation that keeps the order of equal priorities. */
  lemma {:induction false} SortIsStable(rs: seq<Rule>)
    ensures Sorted(SortRules(rs)) && multiset(SortRules(rs)) == multiset(rs)
    ensures forall p :: OfKey(SortRules(rs), p) == OfKey(rs, p)
  {
    if rs != [] {
      SortIsStable(rs[1..]);
      InsertSorted(rs[0], SortRules(rs[1..]));
      InsertMembers(rs[0], SortRules(rs[1..]));
      forall p ensures OfKey(SortRules(rs), p) == OfKey(rs, p) {
        InsertOfKey(rs[0], SortRules(rs[1..]), p);
      }
      assert rs == [rs[0]] + rs[1..];
    }
  }

  lemma {:induction false} OfKeyMembers(rs: seq<Rule>, p: int)
    ensures forall r :: r in OfKey(rs, p) <==> r in rs && Key(r) == p
  {
    if rs != [] {
      OfKeyMembers(rs[1..], p);
      assert forall r :: r in rs <==> r == rs[0] || r in rs[1..];
    }
  }

  /** Those two properties determine the result: any stable sort gives this sequence. */
  lemma {:induction false} StableSortIsUnique(a: seq<Rule>, b: seq<Rule>)
    requires Sorted(a) && Sorted(b) && forall p :: OfKey(a, p) == OfKey(b, p)
    ensures a == b
  {
    if b != [] {
      OfKeyMembers(a, Key(b[0]));
      OfKeyMembers(b, Key(b[0]));
      assert b[0] in a;
    }
    if a != [] {
      var p := Key(a[0]);
      assert OfKey(a, p)[0] == a[0];
      OfKeyMembers(b, p);
      assert a[0] in OfKey(b, p);
      OfKeyMembers(a, Key(b[0]));
      assert b[0] in OfKey(b, Key(b[0]));
      assert Key(b[0]) == p;
      assert b[0] == OfKey(b, p)[0];
      forall q ensures OfKey(a[1..], q) == OfKey(b[1..], q) {
        assert OfKey(a, q) == OfKey(b, q);
        if q == p {
          assert OfKey(a, q)[1..] == OfKey(a[1..], q);
          assert OfKey(b, q)[1..] == OfKey(b[1..], q);
        }
      }
      StableSortIsUnique(a[1..], b[1..]);
      assert a == [a[0]] + a[1..] && b == [b[0]] + b[1..];
    }
  }

  predicate DistinctKeys(rs: seq<Rule>) {
    forall j, k :: 0 <= j < k < |rs| ==> Key(rs[j]) != Key(rs[k])
  }

  lemma {:induction false} NoneOfKey(rs: seq<Rule>, p: int)
    requires forall k :: 0 <= k < |rs| ==> Key(rs[k]) != p
    ensures OfKey(rs, p) == []
  {
    if rs != [] {
      NoneOfKey(rs[1..], p);
    }
  }

  lemma {:induction false} DistinctOfKey(rs: seq<Rule>, p: int)
    requires DistinctKeys(rs)
    ensures |OfKey(rs, p)| <= 1
  {
    if rs != [] {
      if Key(rs[0]) == p {
        forall k | 0 <= k < |rs| - 1 ensures Key(rs[1..][k]) != p {
          assert rs[1..][k] == rs[k + 1];
        }
        NoneOfKey(rs[1..], p);
      } else {
        DistinctOfKey(rs[1..], p);
      }
    }
  }

  lemma DistinctOfKeyAlike(a: seq<Rule>, b: seq<Rule>, p: int)
    requires multiset(a) == multiset(b) && DistinctKeys(a) && DistinctKeys(b)
    ensures OfKey(a, p) == OfKey(b, p)
  {
    DistinctOfKey(a, p);
    DistinctOfKey(b, p);
    OfKeyMembers(a, p);
    OfKeyMembers(b, p);
    forall r ensures r in OfKey(a, p) <==> r in OfKey(b, p) {
      assert r in a <==> r in multiset(a);
      assert r in b <==> r in multiset(b);
    }
    if OfKey(a, p) != [] { assert OfKey(a, p)[0] in OfKey(b, p); }
    if OfKey(b, p) != [] { assert OfKey(b, p)[0] in OfKey(a, p); }
  }

  /** With distinct priorities the declared order does not matter at all. */
  lemma DistinctPrioritiesSortAlike(a: seq<Rule>, b: seq<Rule>)
    requires multiset(a) == multiset(b) && DistinctKeys(a) && DistinctKeys(b)
    ensures SortRules(a) == SortRules(b)
  {
    SortIsStable(a);
    SortIsStable(b);
    forall p ensures OfKey(SortRules(a), p) == OfKey(SortRules(b), p) {
      DistinctOfKeyAlike(a, b, p);
    }
    StableSortIsUnique(SortRules(a), SortRules(b));
  }
}
