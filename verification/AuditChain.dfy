/**
 The tamper-evident audit log. Each row stores the hash of its predecessor and a hash of its own
 text joined to that. SHA-256 is a parameter; what is assumed of it is `Ideal`.
 */
module AuditChain {
  import opened Common
  import opened Strings

  datatype Row = Row(
    id: string,
    actionId: Option<string>,
    eventType: string,
    details: string,
    createdAt: string,
    prevHash: Option<string>,
    entryHash: Option<string>)

  type Hash = string -> string

  function Zeros(n: nat): (s: string)
    ensures |s| == n && forall k :: 0 <= k < n ==> s[k] == '0'
  {
    if n == 0 then "" else "0" + Zeros(n - 1)
  }

  const GENESIS: string := Zeros(64)

  predicate PipeFree(s: string) {
    Lacks(s, '|')
  }

  /** The hashed text. The row id is not part of it, and a missing action id reads as an empty one. */
  function Text(prev: string, r: Row, stamp: string): string {
    prev + ("|" + (r.actionId.GetOr("") + ("|" + (r.eventType + ("|" + (r.details + ("|" + stamp)))))))
  }

  predicate Hex(s: string) {
    forall c :: c in s ==> '0' <= c <= '9' || 'a' <= c <= 'f'
  }

  /** Collision-free, never the genesis value, and written as lower-case hexadecimal digits. */
  ghost predicate Ideal(sha: Hash) {
    && (forall x, y :: sha(x) == sha(y) ==> x == y)
    && (forall x :: sha(x) != GENESIS)
    && (forall x :: Hex(sha(x)) && sha(x) != "")
  }

  // ---------- unique decoding of the hashed text ----------

  predicate PlainFields(r: Row) {
    PipeFree(r.actionId.GetOr("")) && PipeFree(r.eventType) && PipeFree(r.createdAt)
  }

  /** Equal in everything the hash covers. */
  predicate SameContent(r: Row, q: Row) {
    && r.actionId.GetOr("") == q.actionId.GetOr("") && r.eventType == q.eventType
    && r.details == q.details && r.createdAt == q.createdAt
  }

  /** The text determines the fields even when the details contain '|'. */
  lemma TextIsUnique(p: string, r: Row, q: string, t: Row)
    requires PipeFree(p) && PipeFree(q) && PlainFields(r) && PlainFields(t)
    ensures Text(p, r, r.createdAt) == Text(q, t, t.createdAt) <==> p == q && SameContent(r, t)
  {
    if Text(p, r, r.createdAt) == Text(q, t, t.createdAt) {
      var r3, t3 := r.details + ("|" + r.createdAt), t.details + ("|" + t.createdAt);
      var r2, t2 := r.eventType + ("|" + r3), t.eventType + ("|" + t3);
      var r1, t1 := r.actionId.GetOr("") + ("|" + r2), t.actionId.GetOr("") + ("|" + t2);
      FirstMark('|', p, r1, q, t1);
      FirstMark('|', r.actionId.GetOr(""), r2, t.actionId.GetOr(""), t2);
      FirstMark('|', r.eventType, r3, t.eventType, t3);
      LastMark('|', r.details, r.createdAt, t.details, t.createdAt);
    }
  }

  lemma TextStartsWithPrev(p: string, r: Row, x: string, q: string, t: Row, y: string)
    requires PipeFree(p) && PipeFree(q) && Text(p, r, x) == Text(q, t, y)
    ensures p == q
  {
    var rest, more := Text(p, r, x)[|p| + 1..], Text(q, t, y)[|q| + 1..];
    assert Text(p, r, x) == p + ("|" + rest);
    assert Text(q, t, y) == q + ("|" + more);
    FirstMark('|', p, rest, q, more);
  }

  lemma TextEndsWithStamp(p: string, r: Row, x: string, y: string)
    requires Text(p, r, x) == Text(p, r, y)
    ensures x == y
  {
    var front := p + ("|" + (r.actionId.GetOr("") + ("|" + (r.eventType + ("|" + (r.details + "|"))))));
    assert Text(p, r, x) == front + x && Text(p, r, y) == front + y;
    assert x == (front + x)[|front|..] && y == (front + y)[|front|..];
  }

  // ---------- exactly when the hashed text determines the fields ----------

  /** None of the four hashed fields of the row holds a separator. */
  predicate NoPipes(r: Row) {
    PlainFields(r) && PipeFree(r.details)
  }

  function Pipes(s: string): nat {
    if s == "" then 0 else Pipes(s[1..]) + if s[0] == '|' then 1 else 0
  }

  lemma {:induction false} PipesAdd(a: string, b: string)
    ensures Pipes(a + b) == Pipes(a) + Pipes(b)
  {
    if a == "" {
      assert a + b == b;
    } else {
      PipesAdd(a[1..], b);
      assert (a + b)[1..] == a[1..] + b;
    }
  }

  lemma {:induction false} NoPipesCounted(s: string)
    ensures Pipes(s) == 0 <==> PipeFree(s)
  {
    if s != "" {
      NoPipesCounted(s[1..]);
      assert s == [s[0]] + s[1..];
    }
  }

  lemma TextPipes(p: string, r: Row, stamp: string)
    ensures Pipes(Text(p, r, stamp))
         == Pipes(p) + Pipes(r.actionId.GetOr("")) + Pipes(r.eventType) + Pipes(r.details) + Pipes(stamp) + 4
  {
    var t3 := r.details + ("|" + stamp);
    var t2 := r.eventType + ("|" + t3);
    var t1 := r.actionId.GetOr("") + ("|" + t2);
    OnePipe(r.details, stamp);
    OnePipe(r.eventType, t3);
    OnePipe(r.actionId.GetOr(""), t2);
    OnePipe(p, t1);
  }

  lemma OnePipe(a: string, b: string)
    ensures Pipes(a + ("|" + b)) == Pipes(a) + Pipes(b) + 1
  {
    PipesAdd(a, "|" + b);
    assert ("|" + b)[1..] == b;
  }

  /** A row without separators shares its text only with rows of the same content, whatever those hold. */
  lemma NoPipesIsUnique(p: string, r: Row, t: Row)
    requires PipeFree(p) && NoPipes(r) && Text(p, t, t.createdAt) == Text(p, r, r.createdAt)
    ensures SameContent(t, r)
  {
    TextPipes(p, r, r.createdAt);
    TextPipes(p, t, t.createdAt);
    NoPipesCounted(r.actionId.GetOr(""));
    NoPipesCounted(r.eventType);
    NoPipesCounted(r.details);
    NoPipesCounted(r.createdAt);
    NoPipesCounted(t.actionId.GetOr(""));
    NoPipesCounted(t.eventType);
    NoPipesCounted(t.createdAt);
    TextIsUnique(p, t, p, r);
  }

  function FirstPart(s: string): string {
    if s == "" || s[0] == '|' then "" else [s[0]] + FirstPart(s[1..])
  }

  function OtherPart(s: string): string {
    if s == "" then "" else if s[0] == '|' then s[1..] else OtherPart(s[1..])
  }

  lemma {:induction false} SplitAtPipe(s: string)
    requires !PipeFree(s)
    ensures s == FirstPart(s) + ("|" + OtherPart(s)) && FirstPart(s) != s
  {
    if s[0] != '|' {
      assert s == [s[0]] + s[1..];
      SplitAtPipe(s[1..]);
      assert s == [s[0]] + (FirstPart(s[1..]) + ("|" + OtherPart(s[1..])));
    }
    assert |s| == |FirstPart(s)| + 1 + |OtherPart(s)|;
  }

  /** A row with a separator in a field, and that separator taken for the boundary of the field. */
  function Shifted(r: Row): Row
    requires !NoPipes(r)
  {
    var id := r.actionId.GetOr("");
    if !PipeFree(id) then r.(actionId := Some(FirstPart(id)), eventType := OtherPart(id) + ("|" + r.eventType))
    else if !PipeFree(r.eventType) then
      r.(eventType := FirstPart(r.eventType), details := OtherPart(r.eventType) + ("|" + r.details))
    else if !PipeFree(r.details) then
      r.(details := FirstPart(r.details), createdAt := OtherPart(r.details) + ("|" + r.createdAt))
    else r.(details := r.details + ("|" + FirstPart(r.createdAt)), createdAt := OtherPart(r.createdAt))
  }

  lemma Regroup(a: string, b: string, c: string)
    ensures (a + ("|" + b)) + ("|" + c) == a + ("|" + (b + ("|" + c)))
  {
  }

  /** The shifted row has other content and the same text. */
  lemma PipesCanShift(p: string, r: Row)
    requires !NoPipes(r)
    ensures !SameContent(Shifted(r), r) && Text(p, Shifted(r), Shifted(r).createdAt) == Text(p, r, r.createdAt)
  {
    var id := r.actionId.GetOr("");
    if !PipeFree(id) {
      SplitAtPipe(id);
      var rest := r.details + ("|" + r.createdAt);
      Regroup(FirstPart(id), OtherPart(id), r.eventType + ("|" + rest));
      Regroup(OtherPart(id), r.eventType, rest);
    } else if !PipeFree(r.eventType) {
      SplitAtPipe(r.eventType);
      Regroup(FirstPart(r.eventType), OtherPart(r.eventType), r.details + ("|" + r.createdAt));
      Regroup(OtherPart(r.eventType), r.details, r.createdAt);
    } else if !PipeFree(r.details) {
      SplitAtPipe(r.details);
      Regroup(FirstPart(r.details), OtherPart(r.details), r.createdAt);
    } else {
      SplitAtPipe(r.createdAt);
      Regroup(r.details, FirstPart(r.createdAt), OtherPart(r.createdAt));
      assert |Shifted(r).details| > |r.details|;
    }
  }

  /** The text determines a row's content among all rows exactly when no hashed field holds a separator. */
  lemma TextDeterminesIff(p: string, r: Row)
    requires PipeFree(p)
    ensures (forall t: Row :: Text(p, t, t.createdAt) == Text(p, r, r.createdAt) ==> SameContent(t, r)) <==> NoPipes(r)
  {
    if NoPipes(r) {
      forall t: Row | Text(p, t, t.createdAt) == Text(p, r, r.createdAt) ensures SameContent(t, r) {
        NoPipesIsUnique(p, r, t);
      }
    } else {
      PipesCanShift(p, r);
      assert !SameContent(Shifted(r), r);
    }
  }

  // ---------- the chain ----------

  function Prev(log: seq<Row>, k: nat): string
    requires k <= |log|
  {
    if k == 0 then GENESIS else log[k - 1].entryHash.GetOr("")
  }

  function Head(log: seq<Row>): string {
    Prev(log, |log|)
  }

  predicate Linked(sha: Hash, log: seq<Row>, k: nat)
    requires k < |log|
  {
    && log[k].prevHash == Some(Prev(log, k))
    && log[k].entryHash == Some(sha(Text(Prev(log, k), log[k], log[k].createdAt)))
  }

  ghost predicate Chained(sha: Hash, log: seq<Row>) {
    forall k :: 0 <= k < |log| ==> Linked(sha, log, k)
  }

  /** The first row at which the chain breaks. */
  ghost predicate BreaksAt(sha: Hash, log: seq<Row>, i: nat) {
    i < |log| && !Linked(sha, log, i) && forall k :: 0 <= k < i ==> Linked(sha, log, k)
  }

  datatype Report = Report(valid: bool, checked: nat, head: Option<string>, firstBroken: Option<string>)

  method VerifyChain(sha: Hash, log: seq<Row>) returns (r: Report)
    ensures r.valid <==> Chained(sha, log)
    ensures r.valid ==> r.checked == |log| && r.head == Some(Head(log)) && r.firstBroken == None
    ensures !r.valid ==> BreaksAt(sha, log, r.checked) && r.head == None && r.firstBroken == Some(log[r.checked].id)
  {
    var expected := GENESIS;
    var checked := 0;
    while checked < |log|
      invariant 0 <= checked <= |log|
      invariant expected == Prev(log, checked)
      invariant forall k :: 0 <= k < checked ==> Linked(sha, log, k)
    {
      var row := log[checked];
      if row.prevHash.Some? && row.entryHash.Some? && row.prevHash.value == expected {
        var recomputed := sha(Text(row.prevHash.value, row, row.createdAt));
        if recomputed != row.entryHash.value {
          assert !Linked(sha, log, checked);
          return Report(false, checked, None, Some(row.id));
        }
        expected := row.entryHash.value;
      } else {
        assert !Linked(sha, log, checked);
        return Report(false, checked, None, Some(row.id));
      }
      checked := checked + 1;
    }
    r := Report(true, checked, Some(expected), None);
  }

  /** How a row of a valid chain reads: its predecessor's hash, or 64 zeros, and the hash of the five joined texts. */
  lemma ChainedRow(sha: Hash, log: seq<Row>, k: nat)
    requires Chained(sha, log) && k < |log|
    ensures log[k].prevHash.Some? && log[k].entryHash.Some?
    ensures var r, prev := log[k], log[k].prevHash.value;
      && (k == 0 ==> |prev| == 64 && forall c :: c in prev ==> c == '0')
      && (k > 0 ==> log[k - 1].entryHash == Some(prev))
      && r.entryHash.value
           == sha(prev + "|" + r.actionId.GetOr("") + "|" + r.eventType + "|" + r.details + "|" + r.createdAt)
  {
    var r, prev := log[k], Prev(log, k);
    assert Linked(sha, log, k);
    if k > 0 { assert Linked(sha, log, k - 1); }
    TextIsFlat(prev, r, r.createdAt);
  }

  lemma TextIsFlat(prev: string, r: Row, stamp: string)
    ensures Text(prev, r, stamp)
         == prev + "|" + r.actionId.GetOr("") + "|" + r.eventType + "|" + r.details + "|" + stamp
  {
  }

  lemma ChainedPrefix(sha: Hash, log: seq<Row>, k: nat)
    requires k <= |log|
    ensures Chained(sha, log) ==> Chained(sha, log[..k]) && Head(log[..k]) == Prev(log, k)
    ensures forall j :: 0 <= j < k ==> (Linked(sha, log[..k], j) <==> Linked(sha, log, j))
  {
    forall j | 0 <= j < k ensures Linked(sha, log[..k], j) <==> Linked(sha, log, j) {
      assert Prev(log[..k], j) == Prev(log, j) && log[..k][j] == log[j];
    }
  }

  lemma PrevIsPipeFree(sha: Hash, log: seq<Row>, k: nat)
    requires Ideal(sha) && Chained(sha, log) && k <= |log|
    ensures Hex(Prev(log, k)) && PipeFree(Prev(log, k)) && Prev(log, k) != ""
  {
    if k > 0 {
      assert Linked(sha, log, k - 1);
    }
  }

  /** No hash occurs twice, so the chain has no fork and no cycle. */
  lemma {:induction false} HashesAreDistinct(sha: Hash, log: seq<Row>, j: nat, k: nat)
    requires Ideal(sha) && Chained(sha, log) && j < k <= |log|
    ensures Prev(log, j) != Prev(log, k)
    decreases j
  {
    assert Linked(sha, log, k - 1);
    if j > 0 && Prev(log, j) == Prev(log, k) {
      assert Linked(sha, log, j - 1);
      PrevIsPipeFree(sha, log, j - 1);
      PrevIsPipeFree(sha, log, k - 1);
      TextStartsWithPrev(Prev(log, j - 1), log[j - 1], log[j - 1].createdAt, Prev(log, k - 1), log[k - 1],
          log[k - 1].createdAt);
      HashesAreDistinct(sha, log, j - 1, k - 1);
    }
  }

  // ---------- the head commits to the history ----------

  function RowText(log: seq<Row>, k: nat): string
    requires k < |log|
  {
    Text(Prev(log, k), log[k], log[k].createdAt)
  }

  lemma SameHeadStep(sha: Hash, a: seq<Row>, b: seq<Row>)
    requires Ideal(sha) && Chained(sha, a) && Chained(sha, b) && Head(a) == Head(b)
    ensures a == [] <==> b == []
    ensures a != [] ==> RowText(a, |a| - 1) == RowText(b, |b| - 1) && Prev(a, |a| - 1) == Prev(b, |b| - 1)
  {
    if a != [] { assert Linked(sha, a, |a| - 1); }
    if b != [] { assert Linked(sha, b, |b| - 1); }
    if a != [] {
      var m, n := |a| - 1, |b| - 1;
      PrevIsPipeFree(sha, a, m);
      PrevIsPipeFree(sha, b, n);
      TextStartsWithPrev(Prev(a, m), a[m], a[m].createdAt, Prev(b, n), b[n], b[n].createdAt);
    }
  }

  /** Two logs that verify and share a head are the same history, row by row. */
  lemma {:induction false} HeadCommits(sha: Hash, a: seq<Row>, b: seq<Row>)
    requires Ideal(sha) && Chained(sha, a) && Chained(sha, b) && Head(a) == Head(b)
    ensures |a| == |b|
    ensures forall k :: 0 <= k < |a| ==> Prev(a, k) == Prev(b, k) && RowText(a, k) == RowText(b, k)
    decreases |a|
  {
    SameHeadStep(sha, a, b);
    if a != [] {
      var m, n := |a| - 1, |b| - 1;
      ChainedPrefix(sha, a, m);
      ChainedPrefix(sha, b, n);
      HeadCommits(sha, a[..m], b[..n]);
      forall k | 0 <= k < m ensures Prev(a, k) == Prev(b, k) && RowText(a, k) == RowText(b, k) {
        assert Prev(a[..m], k) == Prev(b[..n], k) && RowText(a[..m], k) == RowText(b[..n], k);
      }
    }
  }

  /** Equal hashed text, row by row. */
  predicate SameTexts(a: seq<Row>, b: seq<Row>) {
    |a| == |b| && forall k :: 0 <= k < |a| ==> RowText(a, k) == RowText(b, k)
  }

  /** Of any two verified logs: one head exactly when the hashed texts agree. */
  lemma SameHeadIffSameTexts(sha: Hash, a: seq<Row>, b: seq<Row>)
    requires Ideal(sha) && Chained(sha, a) && Chained(sha, b)
    ensures Head(a) == Head(b) <==> SameTexts(a, b)
  {
    if Head(a) == Head(b) {
      HeadCommits(sha, a, b);
    }
    if SameTexts(a, b) && a != [] {
      assert Linked(sha, a, |a| - 1) && Linked(sha, b, |b| - 1);
      assert RowText(a, |a| - 1) == RowText(b, |b| - 1);
    }
  }

  predicate AllPlain(log: seq<Row>) {
    forall k :: 0 <= k < |log| ==> PlainFields(log[k])
  }

  predicate SameHistory(a: seq<Row>, b: seq<Row>) {
    |a| == |b| && forall k :: 0 <= k < |a| ==> SameContent(a[k], b[k])
  }

  /** With plain fields, verified logs share a head exactly when their contents agree. */
  lemma SameHeadIffSameHistory(sha: Hash, a: seq<Row>, b: seq<Row>)
    requires Ideal(sha) && Chained(sha, a) && Chained(sha, b) && AllPlain(a) && AllPlain(b)
    ensures Head(a) == Head(b) <==> SameHistory(a, b)
  {
    if Head(a) == Head(b) {
      HeadCommits(sha, a, b);
      forall k | 0 <= k < |a| ensures SameContent(a[k], b[k]) {
        PrevIsPipeFree(sha, a, k);
        TextIsUnique(Prev(a, k), a[k], Prev(b, k), b[k]);
      }
    }
    if SameHistory(a, b) {
      SameHistorySamePrev(sha, a, b, |a|);
    }
  }

  lemma {:induction false} SameHistorySamePrev(sha: Hash, a: seq<Row>, b: seq<Row>, k: nat)
    requires Chained(sha, a) && Chained(sha, b) && SameHistory(a, b) && k <= |a|
    ensures Prev(a, k) == Prev(b, k)
  {
    if k > 0 {
      SameHistorySamePrev(sha, a, b, k - 1);
      assert Linked(sha, a, k - 1) && Linked(sha, b, k - 1);
      assert SameContent(a[k - 1], b[k - 1]);
    }
  }

  /** Cutting rows off the end leaves a chain that verifies, but under another head. */
  lemma TruncationChangesHead(sha: Hash, log: seq<Row>, k: nat)
    requires Ideal(sha) && Chained(sha, log) && k < |log|
    ensures Chained(sha, log[..k]) && Head(log[..k]) != Head(log)
  {
    ChainedPrefix(sha, log, k);
    HashesAreDistinct(sha, log, k, |log|);
  }

  // ---------- where tampering is reported ----------

  /** Editing a row in place is seen exactly when the hashed text changed, and at that row. */
  lemma EditIsReported(sha: Hash, log: seq<Row>, i: nat, row: Row)
    requires Ideal(sha) && Chained(sha, log) && i < |log|
    requires row.prevHash == log[i].prevHash && row.entryHash == log[i].entryHash
    ensures var same := Text(Prev(log, i), row, row.createdAt) == Text(Prev(log, i), log[i], log[i].createdAt);
      && (same ==> Chained(sha, log[i := row]))
      && (!same ==> BreaksAt(sha, log[i := row], i))
  {
    var edited := log[i := row];
    assert Linked(sha, log, i);
    forall k | 0 <= k < |log| && k != i ensures Linked(sha, edited, k) {
      assert Linked(sha, log, k) && Prev(edited, k) == Prev(log, k);
    }
    assert Prev(edited, i) == Prev(log, i);
  }

  /** An edit of the hashed content of row i that leaves the chain valid. */
  ghost predicate Unreported(sha: Hash, log: seq<Row>, i: nat, row: Row)
    requires i < |log|
  {
    && row.prevHash == log[i].prevHash && row.entryHash == log[i].entryHash && !SameContent(row, log[i])
    && Chained(sha, log[i := row])
  }

  /** Any edit at all of the content of a row without separators is reported, and at that row. */
  lemma PlainEditIsReported(sha: Hash, log: seq<Row>, i: nat, row: Row)
    requires Ideal(sha) && Chained(sha, log) && i < |log|
    requires row.prevHash == log[i].prevHash && row.entryHash == log[i].entryHash
    requires NoPipes(log[i]) && !SameContent(row, log[i])
    ensures BreaksAt(sha, log[i := row], i)
  {
    PrevIsPipeFree(sha, log, i);
    EditIsReported(sha, log, i, row);
    if Text(Prev(log, i), row, row.createdAt) == Text(Prev(log, i), log[i], log[i].createdAt) {
      NoPipesIsUnique(Prev(log, i), log[i], row);
    }
  }

  /** So is an edit that puts no separator outside the details, of a row that has none there. */
  lemma PlainRewriteIsReported(sha: Hash, log: seq<Row>, i: nat, row: Row)
    requires Ideal(sha) && Chained(sha, log) && i < |log|
    requires row.prevHash == log[i].prevHash && row.entryHash == log[i].entryHash
    requires PlainFields(row) && PlainFields(log[i]) && !SameContent(row, log[i])
    ensures BreaksAt(sha, log[i := row], i)
  {
    PrevIsPipeFree(sha, log, i);
    TextIsUnique(Prev(log, i), row, Prev(log, i), log[i]);
    EditIsReported(sha, log, i, row);
  }

  /** The shifted row in place of row i: other content, yet a valid chain with the same head. */
  lemma ShiftIsUnreported(sha: Hash, log: seq<Row>, i: nat)
    requires Ideal(sha) && Chained(sha, log) && i < |log| && !NoPipes(log[i])
    ensures Unreported(sha, log, i, Shifted(log[i])) && Head(log[i := Shifted(log[i])]) == Head(log)
  {
    PipesCanShift(Prev(log, i), log[i]);
    EditIsReported(sha, log, i, Shifted(log[i]));
  }

  /** Row i can be edited unreported exactly when one of its four hashed fields holds a separator. */
  lemma UnreportedEditIff(sha: Hash, log: seq<Row>, i: nat)
    requires Ideal(sha) && Chained(sha, log) && i < |log|
    ensures (exists row :: Unreported(sha, log, i, row)) <==> !NoPipes(log[i])
  {
    if NoPipes(log[i]) {
      forall row ensures !Unreported(sha, log, i, row) {
        if row.prevHash == log[i].prevHash && row.entryHash == log[i].entryHash && !SameContent(row, log[i]) {
          PlainEditIsReported(sha, log, i, row);
        }
      }
    } else {
      ShiftIsUnreported(sha, log, i);
    }
  }

  /** Recomputing the edited row's own hash only moves the report to its successor. */
  lemma RehashedEditIsReported(sha: Hash, log: seq<Row>, i: nat, row: Row)
    requires Ideal(sha) && Chained(sha, log) && i < |log|
    requires Linked(sha, log[i := row], i)
    requires Text(Prev(log, i), row, row.createdAt) != Text(Prev(log, i), log[i], log[i].createdAt)
    ensures i + 1 < |log| ==> BreaksAt(sha, log[i := row], i + 1)
    ensures i + 1 == |log| ==> Head(log[i := row]) != Head(log)
  {
    var edited := log[i := row];
    assert Linked(sha, log, i) && Prev(edited, i) == Prev(log, i);
    assert edited[i].entryHash != log[i].entryHash;
    forall k | 0 <= k < i ensures Linked(sha, edited, k) {
      assert Linked(sha, log, k) && Prev(edited, k) == Prev(log, k);
    }
    if i + 1 < |log| {
      assert Linked(sha, log, i + 1);
    }
  }

  /** Deleting a row that is not the last is reported at its successor. */
  lemma DeletionIsReported(sha: Hash, log: seq<Row>, i: nat)
    requires Ideal(sha) && Chained(sha, log) && i + 1 < |log|
    ensures var left := log[..i] + log[i + 1..];
      BreaksAt(sha, left, i) && left[i] == log[i + 1]
  {
    var left := log[..i] + log[i + 1..];
    forall k | 0 <= k < i ensures Linked(sha, left, k) {
      assert Linked(sha, log, k) && Prev(left, k) == Prev(log, k);
    }
    assert Linked(sha, log, i + 1);
    HashesAreDistinct(sha, log, i, i + 1);
    assert Prev(left, i) == Prev(log, i);
  }

  // ---------- appending ----------

  /** The hash of the newest row that has one. */
  function CurrentHead(rows: seq<Row>): string {
    if rows == [] then GENESIS
    else if rows[|rows| - 1].entryHash.Some? then rows[|rows| - 1].entryHash.value
    else CurrentHead(rows[..|rows| - 1])
  }

  function Hashed(sha: Hash, row: Row, prev: string, stamp: string): Row {
    row.(prevHash := Some(prev), entryHash := Some(sha(Text(prev, row, stamp))))
  }

  function Append(sha: Hash, log: seq<Row>, row: Row): seq<Row> {
    log + [Hashed(sha, row, CurrentHead(log), row.createdAt)]
  }

  lemma ChainedHead(sha: Hash, log: seq<Row>)
    requires Chained(sha, log)
    ensures CurrentHead(log) == Head(log)
  {
    if log != [] { assert Linked(sha, log, |log| - 1); }
  }

  /** A row joins the chain exactly when it was hashed over the head it now follows. */
  lemma AppendLinksIff(sha: Hash, log: seq<Row>, row: Row, prev: string)
    requires Chained(sha, log)
    ensures Chained(sha, log + [Hashed(sha, row, prev, row.createdAt)]) <==> prev == Head(log)
  {
    var longer := log + [Hashed(sha, row, prev, row.createdAt)];
    assert Prev(longer, |log|) == Head(log);
    forall k | 0 <= k < |log| ensures Linked(sha, longer, k) {
      assert Linked(sha, log, k) && Prev(longer, k) == Prev(log, k);
    }
    assert longer[|log|] == Hashed(sha, row, prev, row.createdAt);
    if Chained(sha, longer) {
      assert Linked(sha, longer, |log|);
    }
  }

  // ---------- concurrent writers ----------

  type Writer = nat

  /** A transaction that has read the head; `seen` is how long the log was. */
  datatype Txn = Txn(head: string, seen: nat)

  datatype Store = Store(log: seq<Row>, open_: map<Writer, Txn>)

  datatype WriterEvent =
    | ReadHead(writer: Writer)
    | Commit(writer: Writer, row: Row)
    | Rollback(writer: Writer)

  /** A commit is refused when another writer committed after this one's read. */
  function WriterStep(sha: Hash, s: Store, e: WriterEvent): Store {
    match e
    case ReadHead(w) => s.(open_ := s.open_[w := Txn(CurrentHead(s.log), |s.log|)])
    case Rollback(w) => s.(open_ := s.open_ - {w})
    case Commit(w, row) =>
      if w in s.open_ && s.open_[w].seen == |s.log|
      then Store(s.log + [Hashed(sha, row, s.open_[w].head, row.createdAt)], s.open_ - {w})
      else s.(open_ := s.open_ - {w})
  }

  function WriterRun(sha: Hash, s: Store, run: seq<WriterEvent>): Store {
    if run == [] then s else WriterStep(sha, WriterRun(sha, s, run[..|run| - 1]), run[|run| - 1])
  }

  ghost predicate WritersInv(sha: Hash, s: Store) {
    && Chained(sha, s.log)
    && forall w :: w in s.open_ ==>
        s.open_[w].seen <= |s.log| && (s.open_[w].seen == |s.log| ==> s.open_[w].head == Head(s.log))
  }

  /** However its writers interleave, a chained log stays chained and only grows. */
  lemma {:induction false} InterleavedAppendsStayChained(sha: Hash, log: seq<Row>, run: seq<WriterEvent>)
    requires Chained(sha, log)
    ensures var t := WriterRun(sha, Store(log, map[]), run);
      Chained(sha, t.log) && log <= t.log && WritersInv(sha, t)
    decreases |run|
  {
    if run != [] {
      InterleavedAppendsStayChained(sha, log, run[..|run| - 1]);
      var s := WriterRun(sha, Store(log, map[]), run[..|run| - 1]);
      ChainedHead(sha, s.log);
      var e := run[|run| - 1];
      if e.Commit? && e.writer in s.open_ && s.open_[e.writer].seen == |s.log| {
        AppendLinksIff(sha, s.log, e.row, s.open_[e.writer].head);
      }
    }
  }

  // ---------- backfill ----------

  type Normalizer = string -> string

  /** RFC 3339 stamps are rewritten; `parse` gives the canonical form of those it can read. */
  function Normalize(parse: string -> Option<string>, stamp: string): string {
    if 'T' in stamp then parse(stamp).GetOr(stamp) else stamp
  }

  /** One round of the loop: hash row k over the newest hash, unless it has one already. */
  function BackfillRow(sha: Hash, norm: Normalizer, rows: seq<Row>, k: nat): seq<Row>
    requires k < |rows|
  {
    if rows[k].entryHash.Some? then rows
    else rows[k := Hashed(sha, rows[k], CurrentHead(rows), norm(rows[k].createdAt))]
  }

  function BackfillUpTo(sha: Hash, norm: Normalizer, rows: seq<Row>, k: nat): (out: seq<Row>)
    requires k <= |rows|
    ensures |out| == |rows|
  {
    if k == 0 then rows else BackfillRow(sha, norm, BackfillUpTo(sha, norm, rows, k - 1), k - 1)
  }

  function Backfill(sha: Hash, norm: Normalizer, rows: seq<Row>): seq<Row> {
    BackfillUpTo(sha, norm, rows, |rows|)
  }

  /** Rows that had a hash are untouched; rows not yet reached keep what they had; the rest are hashed. */
  lemma {:induction false} BackfillTouches(sha: Hash, norm: Normalizer, rows: seq<Row>, k: nat)
    requires k <= |rows|
    ensures var out := BackfillUpTo(sha, norm, rows, k);
      && (forall j :: 0 <= j < |rows| && (rows[j].entryHash.Some? || j >= k) ==> out[j] == rows[j])
      && (forall j :: 0 <= j < k ==> out[j].entryHash.Some?)
      && (forall j :: 0 <= j < |rows| ==>
          out[j] == rows[j].(prevHash := out[j].prevHash, entryHash := out[j].entryHash))
  {
    if k > 0 {
      BackfillTouches(sha, norm, rows, k - 1);
    }
  }

  lemma {:induction false} BackfillSettles(sha: Hash, norm: Normalizer, rows: seq<Row>, j: nat, k: nat)
    requires j <= k <= |rows|
    ensures BackfillUpTo(sha, norm, rows, k)[..j] == BackfillUpTo(sha, norm, rows, j)[..j]
  {
    if j < k {
      BackfillSettles(sha, norm, rows, j, k - 1);
      var before, after := BackfillUpTo(sha, norm, rows, k - 1), BackfillUpTo(sha, norm, rows, k);
      assert after[..j] == before[..j];
    }
  }

  /** A second backfill finds nothing to do. */
  lemma BackfillIsIdempotent(sha: Hash, norm: Normalizer, rows: seq<Row>)
    ensures forall j :: 0 <= j < |rows| ==> Backfill(sha, norm, rows)[j].entryHash.Some?
    ensures Backfill(sha, norm, Backfill(sha, norm, rows)) == Backfill(sha, norm, rows)
  {
    BackfillTouches(sha, norm, rows, |rows|);
    var once := Backfill(sha, norm, rows);
    BackfillTouches(sha, norm, once, |once|);
  }

  lemma {:induction false} HeadOfLastHashed(rows: seq<Row>, k: nat)
    requires k < |rows| && rows[k].entryHash.Some?
    requires forall j :: k < j < |rows| ==> rows[j].entryHash.None?
    ensures CurrentHead(rows) == rows[k].entryHash.value
    decreases |rows|
  {
    if k < |rows| - 1 {
      HeadOfLastHashed(rows[..|rows| - 1], k);
    }
  }

  lemma {:induction false} HeadOfPrefix(rows: seq<Row>, k: nat)
    requires k <= |rows| && forall j :: k <= j < |rows| ==> rows[j].entryHash.None?
    ensures CurrentHead(rows) == CurrentHead(rows[..k])
    decreases |rows|
  {
    if k < |rows| {
      HeadOfPrefix(rows[..|rows| - 1], k);
      assert rows[..|rows| - 1][..k] == rows[..k];
    } else {
      assert rows[..k] == rows;
    }
  }

  /** The first n rows are a valid chain; all later ones are legacy rows with canonical stamps. */
  ghost predicate Backfillable(sha: Hash, norm: Normalizer, rows: seq<Row>, n: nat) {
    && n <= |rows| && Chained(sha, rows[..n])
    && forall j :: n <= j < |rows| ==> rows[j].entryHash.None? && norm(rows[j].createdAt) == rows[j].createdAt
  }

  function AppendAll(sha: Hash, log: seq<Row>, rows: seq<Row>): seq<Row> {
    if rows == [] then log else Append(sha, AppendAll(sha, log, rows[..|rows| - 1]), rows[|rows| - 1])
  }

  lemma BackfillRound(sha: Hash, norm: Normalizer, rows: seq<Row>, n: nat, k: nat)
    requires Backfillable(sha, norm, rows, n) && n <= k < |rows|
    requires Chained(sha, BackfillUpTo(sha, norm, rows, k)[..k])
    ensures var log := BackfillUpTo(sha, norm, rows, k)[..k];
      BackfillUpTo(sha, norm, rows, k + 1)[..k + 1] == Append(sha, log, rows[k])
          && Chained(sha, Append(sha, log, rows[k]))
  {
    BackfillTouches(sha, norm, rows, k);
    var before := BackfillUpTo(sha, norm, rows, k);
    HeadOfPrefix(before, k);
    ChainedHead(sha, before[..k]);
    AppendLinksIff(sha, before[..k], rows[k], CurrentHead(before[..k]));
  }

  lemma {:induction false} BackfillAppends(sha: Hash, norm: Normalizer, rows: seq<Row>, n: nat, k: nat)
    requires Backfillable(sha, norm, rows, n) && n <= k <= |rows|
    ensures BackfillUpTo(sha, norm, rows, k)[..k] == AppendAll(sha, rows[..n], rows[n..k])
    ensures Chained(sha, BackfillUpTo(sha, norm, rows, k)[..k])
    decreases k
  {
    if k == n {
      BackfillTouches(sha, norm, rows, n);
      var out := BackfillUpTo(sha, norm, rows, n);
      forall j | 0 <= j < n ensures out[j] == rows[j] {
        assert rows[..n][j] == rows[j] && Linked(sha, rows[..n], j);
      }
      assert out[..n] == rows[..n];
      assert rows[n..n] == [];
    } else {
      BackfillAppends(sha, norm, rows, n, k - 1);
      BackfillRound(sha, norm, rows, n, k - 1);
      assert rows[n..k][..k - n - 1] == rows[n..k - 1] && rows[n..k][k - n - 1] == rows[k - 1];
    }
  }

  /** On such a table backfill is the log that chained appends would have built. */
  lemma BackfillBuildsTheChain(sha: Hash, norm: Normalizer, rows: seq<Row>, n: nat)
    requires Backfillable(sha, norm, rows, n)
    ensures Backfill(sha, norm, rows) == AppendAll(sha, rows[..n], rows[n..])
    ensures Chained(sha, Backfill(sha, norm, rows))
  {
    BackfillAppends(sha, norm, rows, n, |rows|);
    assert rows[n..|rows|] == rows[n..];
    var out := Backfill(sha, norm, rows);
    assert out[..|rows|] == out;
  }

  lemma {:induction false} FirstUnhashed(rows: seq<Row>) returns (n: nat)
    ensures n <= |rows| && (forall j :: 0 <= j < n ==> rows[j].entryHash.Some?)
    ensures n < |rows| ==> rows[n].entryHash.None?
  {
    if rows == [] || rows[0].entryHash.None? {
      n := 0;
    } else {
      var m := FirstUnhashed(rows[1..]);
      n := m + 1;
      forall j | 0 <= j < n ensures rows[j].entryHash.Some? {
        if j > 0 { assert rows[j] == rows[1..][j - 1]; }
      }
    }
  }

  lemma {:induction false} LastHashed(rows: seq<Row>, from: nat) returns (k: nat)
    requires from < |rows| && rows[from].entryHash.Some?
    ensures from <= k < |rows| && rows[k].entryHash.Some? && forall j :: k < j < |rows| ==> rows[j].entryHash.None?
    decreases |rows| - from
  {
    k := from;
    if next :| from < next < |rows| && rows[next].entryHash.Some? {
      k := LastHashed(rows, next);
    }
  }

  /** The row a round hashed is the row of the result. */
  lemma RoundIsFinal(sha: Hash, norm: Normalizer, rows: seq<Row>, j: nat)
    requires j < |rows| && rows[j].entryHash.None?
    ensures Backfill(sha, norm, rows)[j] ==
            Hashed(sha, rows[j], CurrentHead(BackfillUpTo(sha, norm, rows, j)), norm(rows[j].createdAt))
  {
    BackfillTouches(sha, norm, rows, j);
    BackfillSettles(sha, norm, rows, j + 1, |rows|);
    var out := Backfill(sha, norm, rows);
    assert out[..j + 1][j] == BackfillUpTo(sha, norm, rows, j + 1)[..j + 1][j];
  }

  /** If a later row has a hash, the round links back to that row, past its own place in the log. */
  lemma RoundLooksAhead(sha: Hash, norm: Normalizer, rows: seq<Row>, n: nat, k: nat)
    requires n < k < |rows| && rows[n].entryHash.None? && rows[k].entryHash.Some?
    requires forall j :: k < j < |rows| ==> rows[j].entryHash.None?
    ensures Backfill(sha, norm, rows)[n].prevHash == Some(Prev(Backfill(sha, norm, rows), k + 1))
  {
    RoundIsFinal(sha, norm, rows, n);
    BackfillTouches(sha, norm, rows, n);
    BackfillTouches(sha, norm, rows, |rows|);
    HeadOfLastHashed(BackfillUpTo(sha, norm, rows, n), k);
  }

  /** If the result verifies, no hashed row followed a legacy one. */
  lemma NoHashedRowAfterLegacy(sha: Hash, norm: Normalizer, rows: seq<Row>, n: nat, j: nat)
    requires Ideal(sha) && Chained(sha, Backfill(sha, norm, rows))
    requires n < |rows| && rows[n].entryHash.None? && n <= j < |rows|
    ensures rows[j].entryHash.None?
  {
    if rows[j].entryHash.Some? {
      var k := LastHashed(rows, j);
      var out := Backfill(sha, norm, rows);
      RoundLooksAhead(sha, norm, rows, n, k);
      assert Linked(sha, out, n);
      HashesAreDistinct(sha, out, n, k + 1);
    }
  }

  /** If the result verifies, the stamp that was hashed is the stamp that is stored. */
  lemma StampsWereCanonical(sha: Hash, norm: Normalizer, rows: seq<Row>, j: nat)
    requires Ideal(sha) && Chained(sha, Backfill(sha, norm, rows))
    requires j < |rows| && rows[j].entryHash.None?
    ensures norm(rows[j].createdAt) == rows[j].createdAt
  {
    var out := Backfill(sha, norm, rows);
    RoundIsFinal(sha, norm, rows, j);
    assert Linked(sha, out, j);
    TextEndsWithStamp(Prev(out, j), rows[j], norm(rows[j].createdAt), rows[j].createdAt);
  }

  /**
   After backfill the chain verifies exactly when the hashed rows were a valid prefix and every
   legacy stamp was already canonical: the stored stamp is never rewritten.
   */
  lemma BackfillVerifiesIff(sha: Hash, norm: Normalizer, rows: seq<Row>)
    requires Ideal(sha)
    ensures Chained(sha, Backfill(sha, norm, rows)) <==> exists n :: Backfillable(sha, norm, rows, n)
  {
    if n :| Backfillable(sha, norm, rows, n) {
      BackfillBuildsTheChain(sha, norm, rows, n);
    }
    if Chained(sha, Backfill(sha, norm, rows)) {
      var out := Backfill(sha, norm, rows);
      var n := FirstUnhashed(rows);
      BackfillTouches(sha, norm, rows, |rows|);
      ChainedPrefix(sha, out, n);
      assert rows[..n] == out[..n];
      forall j | n <= j < |rows|
        ensures rows[j].entryHash.None? && norm(rows[j].createdAt) == rows[j].createdAt
      {
        NoHashedRowAfterLegacy(sha, norm, rows, n, j);
        StampsWereCanonical(sha, norm, rows, j);
      }
      assert Backfillable(sha, norm, rows, n);
    }
  }

  // ---------- the code's own normalisation ----------

  function Normalizing(parse: string -> Option<string>): Normalizer {
    stamp => Normalize(parse, stamp)
  }

  /** An RFC 3339 stamp that can be read; what it is rewritten to has no 'T' in it. */
  predicate Rewritten(parse: string -> Option<string>, stamp: string) {
    'T' in stamp && parse(stamp).Some?
  }

  ghost predicate WritesSpaced(parse: string -> Option<string>) {
    forall s :: parse(s).Some? ==> 'T' !in parse(s).value
  }

  lemma CanonicalIffNotRewritten(parse: string -> Option<string>, stamp: string)
    requires WritesSpaced(parse)
    ensures Normalizing(parse)(stamp) == stamp <==> !Rewritten(parse, stamp)
  {
  }

  /** One readable RFC 3339 stamp on a legacy row, and the backfilled table cannot verify. */
  lemma RewrittenStampBreaksChain(sha: Hash, parse: string -> Option<string>, rows: seq<Row>, j: nat)
    requires Ideal(sha) && WritesSpaced(parse)
    requires j < |rows| && rows[j].entryHash.None? && Rewritten(parse, rows[j].createdAt)
    ensures !Chained(sha, Backfill(sha, Normalizing(parse), rows))
  {
    CanonicalIffNotRewritten(parse, rows[j].createdAt);
    if Chained(sha, Backfill(sha, Normalizing(parse), rows)) {
      StampsWereCanonical(sha, Normalizing(parse), rows, j);
    }
  }

  /** The first n rows are a valid chain; all later ones are legacy rows, none of which is rewritten. */
  ghost predicate Upgradable(sha: Hash, parse: string -> Option<string>, rows: seq<Row>, n: nat) {
    && n <= |rows| && Chained(sha, rows[..n])
    && forall j :: n <= j < |rows| ==> rows[j].entryHash.None? && !Rewritten(parse, rows[j].createdAt)
  }

  /** Exactly which tables the code's backfill leaves verifying. */
  lemma UpgradeVerifiesIff(sha: Hash, parse: string -> Option<string>, rows: seq<Row>)
    requires Ideal(sha) && WritesSpaced(parse)
    ensures Chained(sha, Backfill(sha, Normalizing(parse), rows)) <==> exists n :: Upgradable(sha, parse, rows, n)
  {
    BackfillVerifiesIff(sha, Normalizing(parse), rows);
    forall n ensures Upgradable(sha, parse, rows, n) <==> Backfillable(sha, Normalizing(parse), rows, n) {
      forall j | 0 <= j < |rows|
        ensures Normalizing(parse)(rows[j].createdAt) == rows[j].createdAt <==> !Rewritten(parse, rows[j].createdAt)
      {
        CanonicalIffNotRewritten(parse, rows[j].createdAt);
      }
    }
  }
}
