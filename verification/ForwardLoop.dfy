/**
 Relaying an approved action to its target: up to three attempts, redirects followed by hand, and
 the egress guard before every request. DNS answers and HTTP replies are arbitrary inputs.
 */
module ForwardLoop {
  import opened Common
  import opened Egress

  const MAX_ATTEMPTS := 3
  const MAX_REDIRECTS := 3

  datatype Answer = Broken(error: string) | Response(status: int, location: Option<string>, body: string)

  /**
   The network and the URL library. A relay looks a host up once for every hop, so hops number both
   the lookups and the replies; a hop whose lookup is refused has no reply.
   */
  datatype Net = Net(
    resolve: (Host, nat) -> Option<seq<Ip>>,
    answer: nat -> Answer,
    parse: string -> Option<Url>,
    join: (string, string) -> Option<string>)

  /** One turn of the inner loop: where it is in the relay, and what it would send. */
  datatype Hop = Hop(attempt: int, hop: int, url: Url, verb: string, body: string)

  /** A request as issued, at this hop of the relay. */
  datatype Sent = Sent(at: nat, request: Hop)

  predicate IsRedirect(a: Answer) {
    a.Response? && 300 <= a.status < 400
  }

  /** Verbs the client knows; anything else goes out as GET. Only the first three carry the body. */
  function WireVerb(verb: string): string {
    if verb in {"POST", "PUT", "PATCH", "DELETE"} then verb else "GET"
  }

  function WireBody(h: Hop): string {
    if h.verb in {"POST", "PUT", "PATCH"} then h.body else ""
  }

  /** The redirect target, if the reply names one that parses and passes the guard. */
  function NextTarget(net: Net, from: Url, a: Answer): Result<Url, string>
    requires IsRedirect(a)
  {
    match a.location
    case None => Err("redirect without location header")
    case Some(loc) =>
      match net.join(from.text, loc)
      case None => Err("bad redirect location")
      case Some(text) => ParseTarget(net.parse, text)
  }

  // ---------- where a hop leads ----------

  /** A failed attempt, the end of the relay without or with a reply, or a redirect to follow. */
  datatype Course = Retry(error: string) | Fault(error: string) | Reply(status: int, body: string) | Follow(next: Hop)

  /** What the resolver says about this hop's own host, at this hop of the relay. */
  function Lookup(net: Net, h: Hop, k: nat): Option<seq<Ip>> {
    if h.url.host.Some? then net.resolve(h.url.host.value, k) else None
  }

  /** The lookup found an address, and every address it found is permitted. */
  predicate Cleared(net: Net, h: Hop, k: nat) {
    Objection(Lookup(net, h, k)).None?
  }

  /** Section 15.4.4 of RFC 9110 for 303; any other redirect repeats the method and the content. */
  function Redirected(h: Hop, status: int, to: Url): Hop {
    Hop(h.attempt, h.hop + 1, to, if status == 303 then "GET" else h.verb, if status == 303 then "" else h.body)
  }

  function CourseOf(net: Net, h: Hop, k: nat): Course {
    if !Cleared(net, h, k) then Retry(Objection(Lookup(net, h, k)).value)
    else
      var a := net.answer(k);
      match a
      case Broken(e) => Retry(e)
      case Response(status, _, body) =>
        if !IsRedirect(a) then Reply(status, body)
        else if h.hop >= MAX_REDIRECTS then Fault("exceeded 3 redirect hops")
        else
          match NextTarget(net, h.url, a)
          case Err(e) => Fault(e)
          case Ok(to) => Follow(Redirected(h, status, to))
  }

  // ---------- a whole relay ----------

  /** Hop k of a relay leads to hop n: along a redirect, or by a fresh attempt after a failed one. */
  predicate Leads(net: Net, first: Hop, h: Hop, k: nat, n: Hop) {
    match CourseOf(net, h, k)
    case Follow(next) => n == next
    case Retry(_) => h.attempt < MAX_ATTEMPTS && n == first.(attempt := h.attempt + 1)
    case _ => false
  }

  ghost predicate IsRelay(net: Net, first: Hop, hops: seq<Hop>) {
    && (hops != [] ==> hops[0] == first)
    && (forall k :: 0 <= k < |hops| - 1 ==> Leads(net, first, hops[k], k, hops[k + 1]))
  }

  /** The relay is over: with a reply, with a fault, or with the last attempt. */
  predicate Ended(net: Net, hops: seq<Hop>) {
    && hops != []
    && var h := hops[|hops| - 1];
       match CourseOf(net, h, |hops| - 1)
       case Follow(_) => false
       case Retry(_) => h.attempt == MAX_ATTEMPTS
       case _ => true
  }

  /** What the caller is told: status, body and the attempt that got them, or why there is none. */
  function Told(net: Net, hops: seq<Hop>): Result<(int, string, int), string>
    requires Ended(net, hops)
  {
    var h := hops[|hops| - 1];
    match CourseOf(net, h, |hops| - 1)
    case Reply(status, body) => Ok((status, body, h.attempt))
    case Fault(e) => Err(e)
    case Retry(e) => Err("forward failed after 3 attempts: " + e)
  }

  /** The requests that leave the server: one for each hop whose lookup was cleared. */
  function Issued(net: Net, hops: seq<Hop>): seq<Sent> {
    if hops == [] then []
    else
      var k := |hops| - 1;
      Issued(net, hops[..k]) + if Cleared(net, hops[k], k) then [Sent(k, hops[k])] else []
  }

  // ---------- the loops ----------

  lemma OneMoreHop(net: Net, hops: seq<Hop>, h: Hop)
    ensures Issued(net, hops + [h])
         == Issued(net, hops) + if Cleared(net, h, |hops|) then [Sent(|hops|, h)] else []
  {
    assert (hops + [h])[..|hops|] == hops;
  }

  /** One turn of the inner loop: look up, check, send, and read the reply. */
  method TakeHop(net: Net, h: Hop, k: nat) returns (c: Course, sent: seq<Sent>)
    requires Acceptable(h.url)
    ensures c == CourseOf(net, h, k)
    ensures sent == if Cleared(net, h, k) then [Sent(k, h)] else []
  {
    var refused := AssertResolvable(net.resolve(h.url.host.value, k));
    if refused.Some? {
      return Retry(refused.value), [];
    }
    sent := [Sent(k, h)];
    var a := net.answer(k);
    if a.Broken? {
      return Retry(a.error), sent;
    }
    if !IsRedirect(a) {
      return Reply(a.status, a.body), sent;
    }
    if h.hop >= MAX_REDIRECTS {
      return Fault("exceeded 3 redirect hops"), sent;
    }
    var next := NextTarget(net, h.url, a);
    if next.Err? {
      return Fault(next.error), sent;
    }
    c := Follow(Redirected(h, a.status, next.value));
  }

  /** The hop about to be taken continues the relay. */
  ghost predicate Continues(net: Net, first: Hop, hops: seq<Hop>, h: Hop) {
    && IsRelay(net, first, hops + [h])
    && Acceptable(h.url) && 0 <= h.hop <= MAX_REDIRECTS && |hops| <= 4 * (h.attempt - 1) + h.hop
  }

  lemma HopLeadsOn(net: Net, first: Hop, hops: seq<Hop>, h: Hop, n: Hop)
    requires Continues(net, first, hops, h) && Leads(net, first, h, |hops|, n)
    requires first.hop == 0 && Acceptable(first.url)
    ensures Continues(net, first, hops + [h], n)
  {
    var longer := hops + [h] + [n];
    forall k | 0 <= k < |longer| - 1 ensures Leads(net, first, longer[k], k, longer[k + 1]) {
      if k < |hops| {
        assert (hops + [h])[k] == longer[k] && (hops + [h])[k + 1] == longer[k + 1];
      }
    }
    if CourseOf(net, h, |hops|).Follow? {
      NextIsAcceptable(net, h.url, net.answer(|hops|));
    }
  }

  lemma NextIsAcceptable(net: Net, from: Url, a: Answer)
    requires IsRedirect(a)
    ensures NextTarget(net, from, a).Ok? ==> Acceptable(NextTarget(net, from, a).value)
  {
    NextTargetMeans(net, from, a);
  }

  /** The Location of a reply, joined to the URL it came from, parses to this acceptable URL. */
  predicate LocatedAt(net: Net, from: Url, location: Option<string>, to: Url) {
    && location.Some? && net.join(from.text, location.value).Some?
    && net.parse(net.join(from.text, location.value).value) == Some(to) && Acceptable(to)
  }

  lemma NextTargetMeans(net: Net, from: Url, a: Answer)
    requires IsRedirect(a)
    ensures forall to :: NextTarget(net, from, a) == Ok(to) <==> LocatedAt(net, from, a.location, to)
  {
    if a.location.Some? && net.join(from.text, a.location.value).Some? {
      var text := net.join(from.text, a.location.value).value;
      forall to ensures ParseTarget(net.parse, text) == Ok(to) <==> net.parse(text) == Some(to) && Acceptable(to) {
        ParseTargetIff(net.parse, text, to);
      }
    }
  }

  // ---------- each course, in terms of lookup and reply ----------

  /** What the resolver found for this hop, if it found anything, is fit to connect to. */
  ghost predicate LookedUp(net: Net, h: Hop, k: nat) {
    && h.url.host.Some? && net.resolve(h.url.host.value, k).Some?
    && var found := net.resolve(h.url.host.value, k).value;
       found != [] && forall ip :: ip in found ==> !Blocked(ip)
  }

  lemma ClearedMeans(net: Net, h: Hop, k: nat)
    ensures Cleared(net, h, k) <==> LookedUp(net, h, k)
  {
    if h.url.host.Some? && net.resolve(h.url.host.value, k).Some? {
      var found := net.resolve(h.url.host.value, k).value;
      forall ip ensures Permitted(ip) <==> !Blocked(ip) {
        PermittedIffNotBlocked(ip);
      }
      assert Safe(found) <==> found != [] && forall ip :: ip in found ==> Permitted(ip);
    }
  }

  /** A status from 300 to 399 is a redirect. The fourth of an attempt ends the relay, as does one leading nowhere. */
  lemma RedirectCourse(net: Net, h: Hop, k: nat)
    requires LookedUp(net, h, k) && net.answer(k).Response? && 300 <= net.answer(k).status <= 399
    ensures var a, c := net.answer(k), CourseOf(net, h, k);
      && (h.hop >= 3 ==> c.Fault?)
      && (h.hop < 3 ==> forall to :: LocatedAt(net, h.url, a.location, to) ==> c.Follow? && c.next.url == to)
      && (h.hop < 3 && c.Follow? ==> LocatedAt(net, h.url, a.location, c.next.url))
      && (c.Follow? ==> c.next.attempt == h.attempt && c.next.hop == h.hop + 1)
      && (c.Follow? && a.status == 303 ==> c.next.verb == "GET" && c.next.body == "")
      && (c.Follow? && a.status != 303 ==> c.next.verb == h.verb && c.next.body == h.body)
      && (c.Follow? || c.Fault?)
  {
    ClearedMeans(net, h, k);
    NextTargetMeans(net, h.url, net.answer(k));
  }

  /** Anything else: a refused lookup or a broken connection fails the attempt, any other response is the reply. */
  lemma OtherCourse(net: Net, h: Hop, k: nat)
    ensures !LookedUp(net, h, k) ==> CourseOf(net, h, k).Retry?
    ensures LookedUp(net, h, k) && net.answer(k).Broken? ==> CourseOf(net, h, k) == Retry(net.answer(k).error)
    ensures LookedUp(net, h, k) && net.answer(k).Response? && !(300 <= net.answer(k).status <= 399) ==>
              CourseOf(net, h, k) == Reply(net.answer(k).status, net.answer(k).body)
  {
    ClearedMeans(net, h, k);
  }

  /** The inner loop: one attempt, until its course is no longer a redirect. */
  method Attempt(net: Net, first: Hop, start: Hop, ghost sofar: seq<Hop>, taken: nat, sent0: seq<Sent>)
    returns (c: Course, ghost hops: seq<Hop>, lookups: nat, sent: seq<Sent>)
    requires first.hop == 0 && Acceptable(first.url) && 1 <= start.attempt <= MAX_ATTEMPTS
    requires Continues(net, first, sofar, start) && taken == |sofar| && sent0 == Issued(net, sofar)
    ensures IsRelay(net, first, hops) && hops != [] && lookups == |hops| <= 4 * start.attempt
    ensures hops[|hops| - 1].attempt == start.attempt && c == CourseOf(net, hops[|hops| - 1], |hops| - 1) && !c.Follow?
    ensures sent == Issued(net, hops)
  {
    hops, lookups, sent := sofar, taken, sent0;
    var current := start;
    while true
      invariant Continues(net, first, hops, current) && current.attempt == start.attempt
      invariant lookups == |hops| && sent == Issued(net, hops)
      decreases MAX_REDIRECTS - current.hop
    {
      var issued;
      c, issued := TakeHop(net, current, lookups);
      OneMoreHop(net, hops, current);
      sent := sent + issued;
      lookups := lookups + 1;
      if !c.Follow? {
        hops := hops + [current];
        return;
      }
      HopLeadsOn(net, first, hops, current, c.next);
      hops := hops + [current];
      current := c.next;
    }
  }

  /** The relay so far ends in an attempt that failed. */
  ghost predicate Failed(net: Net, hops: seq<Hop>, attempt: int, e: string) {
    hops != [] && hops[|hops| - 1].attempt == attempt && CourseOf(net, hops[|hops| - 1], |hops| - 1) == Retry(e)
  }

  lemma RetryLeadsOn(net: Net, first: Hop, hops: seq<Hop>, attempt: int, e: string)
    requires IsRelay(net, first, hops) && Failed(net, hops, attempt, e) && 1 <= attempt < MAX_ATTEMPTS
    requires first.hop == 0 && Acceptable(first.url) && |hops| <= 4 * attempt
    ensures Continues(net, first, hops, first.(attempt := attempt + 1))
  {
    var longer := hops + [first.(attempt := attempt + 1)];
    forall k | 0 <= k < |longer| - 1 ensures Leads(net, first, longer[k], k, longer[k + 1]) {
    }
  }

  /** `payload` and `target` are the action's; the target has already passed `ParseTarget`. */
  method Execute(net: Net, verb: string, payload: Option<string>, target: Url)
    returns (r: Result<(int, string, int), string>, ghost hops: seq<Hop>, sent: seq<Sent>)
    requires Acceptable(target)
    ensures IsRelay(net, Hop(1, 0, target, verb, payload.GetOr("")), hops) && Ended(net, hops)
    ensures r == Told(net, hops) && sent == Issued(net, hops)
  {
    var first := Hop(1, 0, target, verb, payload.GetOr(""));
    var lastError := "no attempts made";
    var lookups := 0;
    hops, sent := [], [];
    assert [] + [first] == [first];
    for attempt := 1 to MAX_ATTEMPTS + 1
      invariant lookups == |hops| && sent == Issued(net, hops)
      invariant attempt <= MAX_ATTEMPTS ==> Continues(net, first, hops, first.(attempt := attempt))
      invariant attempt > 1 ==> IsRelay(net, first, hops) && Failed(net, hops, attempt - 1, lastError)
    {
      var c;
      c, hops, lookups, sent := Attempt(net, first, first.(attempt := attempt), hops, lookups, sent);
      match c
      case Reply(status, body) => return Ok((status, body, attempt)), hops, sent;
      case Fault(e) => return Err(e), hops, sent;
      case Retry(e) =>
        lastError := e;
        if attempt < MAX_ATTEMPTS { RetryLeadsOn(net, first, hops, attempt, e); }
    }
    r := Err("forward failed after 3 attempts: " + lastError);
  }

  // ---------- what follows for every relay ----------

  /**
   A hop that is not the first of its attempt follows a redirect: the reply before it names, relative
   to the URL it came from, the URL of this hop. The first of an attempt goes to the action's own.
   */
  lemma HopsGoWhereSent(net: Net, first: Hop, hops: seq<Hop>, k: nat)
    requires IsRelay(net, first, hops) && k < |hops|
    requires first.attempt == 1 && first.hop == 0 && Acceptable(first.url)
    ensures hops[k].hop == 0 ==> hops[k].url == first.url && hops[k].verb == first.verb && hops[k].body == first.body
    ensures hops[k].hop > 0 ==>
              && k > 0 && net.answer(k - 1).Response? && 300 <= net.answer(k - 1).status <= 399
              && LocatedAt(net, hops[k - 1].url, net.answer(k - 1).location, hops[k].url)
  {
    if k > 0 {
      HopsAreBounded(net, first, hops, k - 1);
      assert Leads(net, first, hops[k - 1], k - 1, hops[k]);
      if CourseOf(net, hops[k - 1], k - 1).Follow? {
        NextTargetMeans(net, hops[k - 1].url, net.answer(k - 1));
      }
    }
  }

  /** What goes over the wire: five verbs as they are and GET for any other; content with three of them. */
  lemma OnTheWire(h: Hop)
    ensures h.verb == "POST" ==> WireVerb(h.verb) == "POST" && WireBody(h) == h.body
    ensures h.verb == "PUT" ==> WireVerb(h.verb) == "PUT" && WireBody(h) == h.body
    ensures h.verb == "PATCH" ==> WireVerb(h.verb) == "PATCH" && WireBody(h) == h.body
    ensures h.verb == "DELETE" ==> WireVerb(h.verb) == "DELETE" && WireBody(h) == ""
    ensures h.verb !in {"POST", "PUT", "PATCH", "DELETE"} ==> WireVerb(h.verb) == "GET" && WireBody(h) == ""
  {
  }

  /** A relay takes at most twelve hops, so it issues at most twelve requests; every hop's URL has passed the guard. */
  lemma {:induction false} HopsAreBounded(net: Net, first: Hop, hops: seq<Hop>, k: nat)
    requires IsRelay(net, first, hops) && k < |hops|
    requires first.attempt == 1 && first.hop == 0 && Acceptable(first.url)
    ensures 1 <= hops[k].attempt <= 3 && 0 <= hops[k].hop <= 3
    ensures k <= 4 * (hops[k].attempt - 1) + hops[k].hop < 12
    ensures Acceptable(hops[k].url)
  {
    if k > 0 {
      HopsAreBounded(net, first, hops, k - 1);
      assert Leads(net, first, hops[k - 1], k - 1, hops[k]);
      if CourseOf(net, hops[k - 1], k - 1).Follow? {
        NextIsAcceptable(net, hops[k - 1].url, net.answer(k - 1));
      }
    }
  }

  lemma {:induction false} IssuedAscends(net: Net, hops: seq<Hop>)
    ensures |Issued(net, hops)| <= |hops|
    ensures forall i :: 0 <= i < |Issued(net, hops)| ==>
              && Issued(net, hops)[i].at < |hops| && Issued(net, hops)[i].request == hops[Issued(net, hops)[i].at]
              && Cleared(net, Issued(net, hops)[i].request, Issued(net, hops)[i].at)
    ensures forall i, j :: 0 <= i < j < |Issued(net, hops)| ==> Issued(net, hops)[i].at < Issued(net, hops)[j].at
    ensures forall k :: 0 <= k < |hops| && Cleared(net, hops[k], k) ==> Sent(k, hops[k]) in Issued(net, hops)
  {
    if hops != [] {
      IssuedAscends(net, hops[..|hops| - 1]);
    }
  }

  /**
   Every request is issued right after a lookup of its own host that found an address, and found none
   in a blocked range; by `IssuedAscends` no lookup serves two requests. The client looks the name up again when it
   connects; that second answer is not checked.
   */
  lemma EveryRequestIsGuarded(net: Net, first: Hop, hops: seq<Hop>, s: Sent)
    requires IsRelay(net, first, hops) && s in Issued(net, hops)
    requires first.attempt == 1 && first.hop == 0 && Acceptable(first.url)
    ensures s.at < |hops| <= 12 && |Issued(net, hops)| <= 12 && s.request == hops[s.at]
    ensures Acceptable(s.request.url) && s.request.url.host.Some?
    ensures var found := net.resolve(s.request.url.host.value, s.at);
      found.Some? && found.value != [] && forall ip :: ip in found.value ==> !Blocked(ip)
  {
    IssuedAscends(net, hops);
    var i :| 0 <= i < |Issued(net, hops)| && Issued(net, hops)[i] == s;
    HopsAreBounded(net, first, hops, s.at);
    HopsAreBounded(net, first, hops, |hops| - 1);
    var found := net.resolve(s.request.url.host.value, s.at);
    forall ip | ip in found.value ensures !Blocked(ip) {
      PermittedIffNotBlocked(ip);
    }
  }

  /** A reply or a redirect fault ends the relay: no request follows it. */
  lemma RepliesAndFaultsAreLast(net: Net, first: Hop, hops: seq<Hop>, k: nat)
    requires IsRelay(net, first, hops) && k < |hops|
    ensures CourseOf(net, hops[k], k).Reply? || CourseOf(net, hops[k], k).Fault? ==> k == |hops| - 1
  {
    if k < |hops| - 1 { assert Leads(net, first, hops[k], k, hops[k + 1]); }
  }

  /** This attempt ended in a refused lookup or a transport error. */
  ghost predicate AttemptFailed(net: Net, hops: seq<Hop>, attempt: int) {
    exists j :: 0 <= j < |hops| && hops[j].attempt == attempt && CourseOf(net, hops[j], j).Retry?
  }

  /** A hop of a later attempt comes only after every attempt before it has failed that way. */
  lemma {:induction false} EarlierAttemptsFailed(net: Net, first: Hop, hops: seq<Hop>, k: nat, a: int)
    requires IsRelay(net, first, hops) && k < |hops| && first.attempt == 1 && 1 <= a < hops[k].attempt
    ensures AttemptFailed(net, hops, a)
  {
    assert Leads(net, first, hops[k - 1], k - 1, hops[k]);
    if a == hops[k - 1].attempt && CourseOf(net, hops[k - 1], k - 1).Retry? {
      assert AttemptFailed(net, hops, a);
    } else {
      EarlierAttemptsFailed(net, first, hops, k - 1, a);
    }
  }

  /**
   The caller is told of a reply exactly when the last hop got one. A refused lookup or a transport
   error is retried until the third attempt: it is reported only when all three have failed that way.
   */
  lemma ToldMeans(net: Net, first: Hop, hops: seq<Hop>)
    requires IsRelay(net, first, hops) && Ended(net, hops) && first.attempt == 1 && first.hop == 0
    ensures var k := |hops| - 1;
      var c := CourseOf(net, hops[k], k);
      && (Told(net, hops).Ok? <==> c.Reply?)
      && (c.Reply? ==>
            Sent(k, hops[k]) in Issued(net, hops) && Told(net, hops).value == (c.status, c.body, hops[k].attempt))
      && (c.Retry? ==> forall a :: 1 <= a <= 3 ==> AttemptFailed(net, hops, a))
  {
    var k := |hops| - 1;
    IssuedAscends(net, hops);
    if CourseOf(net, hops[k], k).Retry? {
      forall a | 1 <= a <= 3 ensures AttemptFailed(net, hops, a) {
        if a < 3 { EarlierAttemptsFailed(net, first, hops, k, a); }
      }
    }
  }

  lemma {:induction false} AttemptsAscend(net: Net, first: Hop, hops: seq<Hop>, i: nat, j: nat)
    requires IsRelay(net, first, hops) && i <= j < |hops|
    ensures hops[i].attempt <= hops[j].attempt
  {
    if i < j {
      AttemptsAscend(net, first, hops, i, j - 1);
      assert Leads(net, first, hops[j - 1], j - 1, hops[j]);
    }
  }

  /** This hop got the reply 303. */
  predicate SeeOther(net: Net, h: Hop, k: nat) {
    Cleared(net, h, k) && net.answer(k).Response? && net.answer(k).status == 303
  }

  /** Section 15.4.4 of RFC 9110: after a 303 the rest of the attempt is GET with no content. */
  lemma {:induction false} AfterSeeOther(net: Net, first: Hop, hops: seq<Hop>, i: nat, j: nat)
    requires IsRelay(net, first, hops) && i < j < |hops|
    requires SeeOther(net, hops[i], i) && hops[i].attempt == hops[j].attempt
    ensures hops[j].verb == "GET" && hops[j].body == "" && WireVerb(hops[j].verb) == "GET" && WireBody(hops[j]) == ""
  {
    AttemptsAscend(net, first, hops, i, j - 1);
    AttemptsAscend(net, first, hops, j - 1, j);
    assert Leads(net, first, hops[j - 1], j - 1, hops[j]);
    if i < j - 1 {
      AfterSeeOther(net, first, hops, i, j - 1);
    }
  }

  /** Without a 303 the method and the content are the action's own on every hop. */
  lemma {:induction false} VerbIsKept(net: Net, first: Hop, hops: seq<Hop>, j: nat)
    requires IsRelay(net, first, hops) && j < |hops|
    requires forall i :: 0 <= i < j ==> !SeeOther(net, hops[i], i)
    ensures hops[j].verb == first.verb && hops[j].body == first.body
  {
    if j > 0 {
      VerbIsKept(net, first, hops, j - 1);
      assert Leads(net, first, hops[j - 1], j - 1, hops[j]);
    }
  }
}
