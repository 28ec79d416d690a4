/** Value types shared by every component of the model. */
module Common {

  datatype Option<+T> = None | Some(value: T) {
    function GetOr(default: T): T {
      match this
      case Some(v) => v
      case None => default
    }
  }

  datatype Result<+T, +E> = Ok(value: T) | Err(error: E)

  /** Life of a row of the `actions` table. */
  datatype Status = Pending | Processing | Approved | Denied | Escalated | Forwarded | ForwardFailed

  /** What a verdict row says. */
  datatype Decision = Approve | Deny | Escalate

  datatype Risk = Low | Medium | High | Critical

  function Severity(r: Risk): nat {
    match r
    case Low => 0
    case Medium => 1
    case High => 2
    case Critical => 3
  }

  function StatusOf(d: Decision): Status {
    match d
    case Approve => Approved
    case Deny => Denied
    case Escalate => Escalated
  }

  function Digit(n: nat): (c: char)
    requires n < 10
    ensures '0' <= c <= '9'
  {
    '0' + n as char
  }

  lemma {:induction false} SubsetSize<T>(a: set<T>, b: set<T>)
    requires a <= b
    ensures |a| <= |b|
  {
    if a != {} {
      var x :| x in a;
      SubsetSize(a - {x}, b - {x});
    }
  }

  /** How bad each level is, from the least on. */
  lemma RisksAscend()
    ensures Severity(Low) < Severity(Medium) < Severity(High) < Severity(Critical)
  {
  }

  /** The status a verdict gives its action. */
  lemma StatusesOfDecisions()
    ensures StatusOf(Approve) == Approved && StatusOf(Deny) == Denied && StatusOf(Escalate) == Escalated
  {
  }

  function LowerChar(c: char): char {
    if 'A' <= c <= 'Z' then c - 'A' + 'a' else c
  }

  function AsciiLower(s: string): string {
    seq(|s|, i requires 0 <= i < |s| => LowerChar(s[i]))
  }

  /** An ASCII capital and its small letter, 32 apart. */
  predicate CasePair(c: char, d: char) {
    'A' <= c <= 'Z' && d as int == c as int + 32
  }

  /** The same text but for the case of ASCII letters. */
  predicate SameButCase(a: string, b: string) {
    |a| == |b| && forall k :: 0 <= k < |a| ==> a[k] == b[k] || CasePair(a[k], b[k]) || CasePair(b[k], a[k])
  }

  lemma LowerCharMeans(c: char, d: char)
    ensures LowerChar(c) == LowerChar(d) <==> c == d || CasePair(c, d) || CasePair(d, c)
  {
  }

  lemma AsciiLowerMeans(a: string, b: string)
    ensures AsciiLower(a) == AsciiLower(b) <==> SameButCase(a, b)
  {
    forall c, d ensures LowerChar(c) == LowerChar(d) <==> c == d || CasePair(c, d) || CasePair(d, c) {
      LowerCharMeans(c, d);
    }
    if AsciiLower(a) == AsciiLower(b) {
      assert |AsciiLower(a)| == |a| && |AsciiLower(b)| == |b|;
      forall k | 0 <= k < |a| ensures LowerChar(a[k]) == LowerChar(b[k]) {
        assert AsciiLower(a)[k] == AsciiLower(b)[k];
      }
    }
  }
}
