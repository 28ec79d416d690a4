/** The stored audit table with its triggers, and what the server does with it at startup. */
module AuditTable {
  import opened Common
  import opened AuditChain
  import opened Strings

  /** The rows below n that have no hash yet, oldest first. */
  function Unhashed(rows: seq<Row>, n: nat): seq<nat>
    requires n <= |rows|
  {
    if n == 0 then []
    else Unhashed(rows, n - 1) + if rows[n - 1].entryHash.None? then [n - 1] else []
  }

  lemma {:induction false} UnhashedMembers(rows: seq<Row>, n: nat)
    requires n <= |rows|
    ensures var u := Unhashed(rows, n);
      && (forall i, j :: 0 <= i < j < |u| ==> u[i] < u[j])
      && (forall k: nat :: k in u <==> k < n && rows[k].entryHash.None?)
  {
    if n > 0 {
      UnhashedMembers(rows, n - 1);
      var front, u := Unhashed(rows, n - 1), Unhashed(rows, n);
      forall i, j | 0 <= i < j < |u| ensures u[i] < u[j] {
        assert u[i] == front[i] && front[i] in front;
      }
    }
  }

  /** Rounds over rows that already have a hash change nothing. */
  lemma {:induction false} BackfillSkips(sha: Hash, norm: Normalizer, rows: seq<Row>, j: nat, k: nat)
    requires j <= k <= |rows| && forall i :: j <= i < k ==> rows[i].entryHash.Some?
    ensures BackfillUpTo(sha, norm, rows, k) == BackfillUpTo(sha, norm, rows, j)
  {
    if j < k {
      BackfillSkips(sha, norm, rows, j, k - 1);
      BackfillTouches(sha, norm, rows, k - 1);
    }
  }

  /** A statement against the audit table, from whatever source. */
  datatype Statement = Insert(row: Row) | Update(k: nat, row: Row) | Delete(k: nat)

  /** The update trigger aborts on a row that has a hash; the delete trigger aborts always. */
  function Executed(rows: seq<Row>, st: Statement): seq<Row> {
    match st
    case Insert(row) => rows + [row]
    case Update(k, row) => if k < |rows| && rows[k].entryHash.None? then rows[k := row] else rows
    case Delete(_) => rows
  }

  function AllExecuted(rows: seq<Row>, sts: seq<Statement>): seq<Row> {
    if sts == [] then rows else Executed(AllExecuted(rows, sts[..|sts| - 1]), sts[|sts| - 1])
  }

  /** Every row that has a hash is still there, in its place and unchanged. */
  predicate FrozenIn(rows: seq<Row>, later: seq<Row>) {
    |rows| <= |later| && forall k :: 0 <= k < |rows| && rows[k].entryHash.Some? ==> later[k] == rows[k]
  }

  lemma FrozenByStatement(rows: seq<Row>, st: Statement)
    ensures FrozenIn(rows, Executed(rows, st))
  {
  }

  /** While the triggers stand, no sequence of statements touches a hashed row, or any prefix of a chain. */
  lemma {:induction false} HashedRowsAreFrozen(rows: seq<Row>, sts: seq<Statement>)
    ensures FrozenIn(rows, AllExecuted(rows, sts))
    decreases |sts|
  {
    if sts != [] {
      HashedRowsAreFrozen(rows, sts[..|sts| - 1]);
    }
  }

  /** So a chain stays a valid prefix under any statements, and can be extended but never rewritten. */
  lemma ChainSurvivesStatements(sha: Hash, rows: seq<Row>, sts: seq<Statement>)
    requires Chained(sha, rows)
    ensures var later := AllExecuted(rows, sts);
      rows <= later && Chained(sha, later[..|rows|])
  {
    HashedRowsAreFrozen(rows, sts);
    var later := AllExecuted(rows, sts);
    forall k | 0 <= k < |rows| ensures later[k] == rows[k] {
      assert Linked(sha, rows, k);
    }
    assert later[..|rows|] == rows;
  }

  class Table {
    var rows: seq<Row>

    constructor (rows: seq<Row>)
      ensures this.rows == rows
    {
      this.rows := rows;
    }

    /** The update trigger: a row that has a hash is frozen. */
    method UpdateHashes(k: nat, prev: string, hash: string) returns (ok: bool)
      requires k < |rows|
      modifies this
      ensures ok <==> old(rows[k].entryHash.None?)
      ensures rows == if ok then old(rows)[k := old(rows[k]).(prevHash := Some(prev), entryHash := Some(hash))]
                else old(rows)
    {
      ok := rows[k].entryHash.None?;
      if ok {
        rows := rows[k := rows[k].(prevHash := Some(prev), entryHash := Some(hash))];
      }
    }

    /** Any statement at all against the table, as its triggers let it through. */
    method Execute(st: Statement) returns (ok: bool)
      modifies this
      ensures rows == Executed(old(rows), st)
      ensures ok <==> st.Insert? || (st.Update? && st.k < |old(rows)| && old(rows)[st.k].entryHash.None?)
      ensures ok && st.Insert? ==> rows == old(rows) + [st.row]
      ensures ok && st.Update? ==> rows == old(rows)[st.k := st.row]
      ensures !ok ==> rows == old(rows)
      ensures forall k :: 0 <= k < |old(rows)| && old(rows)[k].entryHash.Some? ==> k < |rows| && rows[k] == old(rows)[k]
    {
      FrozenByStatement(rows, st);
      match st
      case Insert(row) =>
        rows := rows + [row];
        ok := true;
      case Update(k, row) =>
        ok := k < |rows| && rows[k].entryHash.None?;
        if ok { rows := rows[k := row]; }
      case Delete(k) =>
        ok := false;
    }

    /** One audited write in its own transaction. */
    method Record(sha: Hash, id: string, actionId: Option<string>, eventType: string, details: string, now: string)
      modifies this
      ensures rows == Append(sha, old(rows), Row(id, actionId, eventType, details, now, None, None))
      ensures Chained(sha, old(rows)) ==> Chained(sha, rows)
    {
      var prev := CurrentHead(rows);
      var row := Row(id, actionId, eventType, details, now, None, None);
      ChainedAppend(sha, rows, row);
      rows := rows + [Row(id, actionId, eventType, details, now, Some(prev), Some(sha(Text(prev, row, now))))];
    }

    /** Hashes legacy rows in row order. The update trigger never refuses one of them. */
    method BackfillUnchained(sha: Hash, norm: Normalizer) returns (count: nat, refused: bool)
      modifies this
      ensures rows == Backfill(sha, norm, old(rows)) && !refused
      ensures count == |Unhashed(old(rows), |old(rows)|)|
    {
      var pending := Unhashed(rows, |rows|);
      count, refused := 0, false;
      ghost var was := rows;
      UnhashedMembers(was, |was|);
      NextRound(sha, norm, was, pending, 0, 0);
      while count < |pending|
        invariant 0 <= count <= |pending| && |rows| == |was| && !refused
        invariant rows == BackfillUpTo(sha, norm, was, NextAt(was, pending, count))
      {
        var k := pending[count];
        RoundFindsLegacyRow(sha, norm, was, pending, count);
        var prev := CurrentHead(rows);
        var hash := sha(Text(prev, rows[k], norm(rows[k].createdAt)));
        var ok := UpdateHashes(k, prev, hash);
        refused := refused || !ok;
        count := count + 1;
        NextRound(sha, norm, was, pending, k + 1, count);
      }
    }
  }

  lemma ChainedAppend(sha: Hash, log: seq<Row>, row: Row)
    ensures Chained(sha, log) ==> Chained(sha, Append(sha, log, row))
  {
    if Chained(sha, log) {
      ChainedHead(sha, log);
      AppendLinksIff(sha, log, row, CurrentHead(log));
    }
  }

  /** The row the next round works on, or the end of the table. */
  ghost function NextAt(rows: seq<Row>, pending: seq<nat>, c: nat): nat
    requires c <= |pending| && pending == Unhashed(rows, |rows|)
    ensures NextAt(rows, pending, c) <= |rows|
  {
    UnhashedMembers(rows, |rows|);
    if c < |pending| then assert pending[c] in pending; pending[c] else |rows|
  }

  lemma RoundFindsLegacyRow(sha: Hash, norm: Normalizer, was: seq<Row>, pending: seq<nat>, c: nat)
    requires pending == Unhashed(was, |was|) && c < |pending|
    ensures pending[c] < |was| && NextAt(was, pending, c) == pending[c]
    ensures var rows, k := BackfillUpTo(sha, norm, was, pending[c]), pending[c];
      && rows[k] == was[k] && rows[k].entryHash.None?
      && BackfillUpTo(sha, norm, was, k + 1) ==
          rows[k := Hashed(sha, rows[k], CurrentHead(rows), norm(rows[k].createdAt))]
  {
    UnhashedMembers(was, |was|);
    assert pending[c] in pending;
    BackfillTouches(sha, norm, was, pending[c]);
  }

  lemma NextRound(sha: Hash, norm: Normalizer, rows: seq<Row>, pending: seq<nat>, from: nat, c: nat)
    requires pending == Unhashed(rows, |rows|) && c <= |pending|
    requires from == if c == 0 then 0 else pending[c - 1] + 1
    ensures from <= NextAt(rows, pending, c)
    ensures BackfillUpTo(sha, norm, rows, NextAt(rows, pending, c)) == BackfillUpTo(sha, norm, rows, from)
  {
    UnhashedMembers(rows, |rows|);
    if c > 0 { assert pending[c - 1] in pending; }
    var to := NextAt(rows, pending, c);
    forall i | from <= i < to ensures rows[i].entryHash.Some? {
      forall j | 0 <= j < |pending| ensures pending[j] != i {
        assert j < c || j >= c;
      }
      assert i !in pending;
    }
    BackfillSkips(sha, norm, rows, from, to);
  }

  // ---------- the external checkpoint ----------

  /** The recorded head, if the file exists and holds more than blanks. */
  function ReadCheckpoint(file: Option<string>): Option<string> {
    if file.Some? && Trim(file.value) != "" then Some(Trim(file.value)) else None
  }

  /** There is a checkpoint iff the file is there and not blank, and then it is the text between the blanks. */
  lemma ReadCheckpointMeans(file: Option<string>)
    ensures ReadCheckpoint(file).Some? <==> file.Some? && !Blank(file.value)
    ensures ReadCheckpoint(file).Some? ==>
              exists front, back :: TrimmedBy(file.value, ReadCheckpoint(file).value, front, back)
  {
    if file.Some? {
      TrimIsEmptyIff(file.value);
      var front, back := TrimMeans(file.value);
    }
  }

  lemma CheckpointRoundTrip(sha: Hash, log: seq<Row>)
    requires Ideal(sha) && Chained(sha, log)
    ensures ReadCheckpoint(Some(Head(log))) == Some(Head(log))
  {
    PrevIsPipeFree(sha, log, |log|);
    assert Head(log)[0] in Head(log) && Head(log)[|Head(log)| - 1] in Head(log);
  }

  // ---------- startup ----------

  datatype Boot = Started | BrokenChain(at: Option<string>) | HeadMoved(from: string, to: string)

  /** When the server agrees to run, given the table after backfill. */
  ghost predicate Starts(sha: Hash, rows: seq<Row>, file: Option<string>, strict: bool) {
    Chained(sha, rows) && (strict && ReadCheckpoint(file).Some? ==> ReadCheckpoint(file).value == Head(rows))
  }

  method StartServer(t: Table, sha: Hash, parse: string -> Option<string>, file: Option<string>, strict: bool,
                     writable: bool)
    returns (r: Boot, newFile: Option<string>)
    modifies t
    ensures t.rows == Backfill(sha, Normalizing(parse), old(t.rows))
    ensures r.Started? <==> Starts(sha, t.rows, file, strict)
    ensures r.BrokenChain? <==> !Chained(sha, t.rows)
    ensures r.BrokenChain? ==> exists i: nat :: BreaksAt(sha, t.rows, i) && r.at == Some(t.rows[i].id)
    ensures r.HeadMoved? ==> ReadCheckpoint(file) == Some(r.from) && r.to == Head(t.rows) && r.from != r.to
    ensures newFile == if r.Started? && writable then Some(Head(t.rows)) else file
  {
    newFile := file;
    var n, refused := t.BackfillUnchained(sha, Normalizing(parse));
    var report := VerifyChain(sha, t.rows);
    if !report.valid {
      return BrokenChain(report.firstBroken), newFile;
    }
    var previous := ReadCheckpoint(file);
    if previous.Some? && previous.value != report.head.value && strict {
      return HeadMoved(previous.value, report.head.value), newFile;
    }
    if writable {
      newFile := report.head;
    }
    r := Started;
  }

  /** A single legacy row with a readable RFC 3339 stamp keeps the server from ever starting. */
  lemma RewrittenStampStopsServer(sha: Hash, parse: string -> Option<string>, rows: seq<Row>, j: nat,
                                  file: Option<string>, strict: bool)
    requires Ideal(sha) && WritesSpaced(parse)
    requires j < |rows| && rows[j].entryHash.None? && Rewritten(parse, rows[j].createdAt)
    ensures !Starts(sha, Backfill(sha, Normalizing(parse), rows), file, strict)
    ensures !Starts(sha, Backfill(sha, Normalizing(parse), Backfill(sha, Normalizing(parse), rows)), file, strict)
  {
    RewrittenStampBreaksChain(sha, parse, rows, j);
    BackfillIsIdempotent(sha, Normalizing(parse), rows);
  }

  /** A strict start over a checkpoint succeeds exactly on the valid chains with the checkpointed texts. */
  lemma StrictStartMeansSameTexts(sha: Hash, saved: seq<Row>, rows: seq<Row>)
    requires Ideal(sha) && Chained(sha, saved)
    ensures Starts(sha, rows, Some(Head(saved)), true) <==> Chained(sha, rows) && SameTexts(saved, rows)
  {
    CheckpointRoundTrip(sha, saved);
    if Chained(sha, rows) {
      SameHeadIffSameTexts(sha, saved, rows);
    }
  }

  /** Between logs without separators outside the details, that is equal content. */
  lemma StrictStartMeansSameHistory(sha: Hash, saved: seq<Row>, rows: seq<Row>)
    requires Ideal(sha) && Chained(sha, saved) && AllPlain(saved) && AllPlain(rows)
    ensures Starts(sha, rows, Some(Head(saved)), true) <==> Chained(sha, rows) && SameHistory(saved, rows)
  {
    CheckpointRoundTrip(sha, saved);
    if Chained(sha, rows) {
      SameHeadIffSameHistory(sha, saved, rows);
    }
  }

  /** Whatever table it is given, a strict start over this checkpoint accepts the checkpointed history only. */
  ghost predicate PinsHistory(sha: Hash, saved: seq<Row>) {
    forall rows :: Starts(sha, rows, Some(Head(saved)), true) ==> SameHistory(saved, rows)
  }

  ghost predicate NoPipesAnywhere(log: seq<Row>) {
    forall k :: 0 <= k < |log| ==> NoPipes(log[k])
  }

  lemma CleanLogIsPinned(sha: Hash, saved: seq<Row>, rows: seq<Row>)
    requires Ideal(sha) && Chained(sha, saved) && NoPipesAnywhere(saved)
    requires Starts(sha, rows, Some(Head(saved)), true)
    ensures SameHistory(saved, rows)
  {
    CheckpointRoundTrip(sha, saved);
    HeadCommits(sha, saved, rows);
    forall k | 0 <= k < |saved| ensures SameContent(saved[k], rows[k]) {
      PrevIsPipeFree(sha, saved, k);
      NoPipesIsUnique(Prev(saved, k), saved[k], rows[k]);
    }
  }

  /** A strict start pins the history exactly when no hashed field of the checkpointed log holds a separator. */
  lemma StrictStartPinsHistoryIff(sha: Hash, saved: seq<Row>)
    requires Ideal(sha) && Chained(sha, saved)
    ensures PinsHistory(sha, saved) <==> NoPipesAnywhere(saved)
  {
    if NoPipesAnywhere(saved) {
      forall rows | Starts(sha, rows, Some(Head(saved)), true) ensures SameHistory(saved, rows) {
        CleanLogIsPinned(sha, saved, rows);
      }
    } else {
      var i :| 0 <= i < |saved| && !NoPipes(saved[i]);
      ShiftedLogStarts(sha, saved, i);
    }
  }

  lemma ShiftedLogStarts(sha: Hash, saved: seq<Row>, i: nat)
    requires Ideal(sha) && Chained(sha, saved) && i < |saved| && !NoPipes(saved[i])
    ensures var forged := saved[i := Shifted(saved[i])];
      Starts(sha, forged, Some(Head(saved)), true) && !SameHistory(saved, forged)
  {
    ShiftIsUnreported(sha, saved, i);
    CheckpointRoundTrip(sha, saved);
    var forged := saved[i := Shifted(saved[i])];
    assert !SameContent(saved[i], forged[i]);
  }

  /**
   An agent's intent goes into the details of a row as it is. If it holds a separator, what follows
   it can be moved in front of the stamp: the server, backfill included, starts on the forged table
   with the old checkpoint in strict mode.
   */
  method StartOverForgery(t: Table, sha: Hash, parse: string -> Option<string>, checkpoint: string,
                          ghost saved: seq<Row>, ghost i: nat)
    returns (r: Boot, newFile: Option<string>)
    requires checkpoint == Head(saved)
    requires Ideal(sha) && Chained(sha, saved) && i < |saved|
    requires PlainFields(saved[i]) && !PipeFree(saved[i].details)
    requires t.rows == saved[i := saved[i].(details := FirstPart(saved[i].details),
                                            createdAt := OtherPart(saved[i].details) + ("|" + saved[i].createdAt))]
    modifies t
    ensures r == Started && t.rows == old(t.rows) && !SameHistory(saved, t.rows)
  {
    ShiftedLogStarts(sha, saved, i);
    assert t.rows == saved[i := Shifted(saved[i])];
    HashedIsUntouched(sha, Normalizing(parse), t.rows);
    r, newFile := StartServer(t, sha, parse, Some(checkpoint), true, true);
  }

  /** Backfill leaves a chain as it is. */
  lemma HashedIsUntouched(sha: Hash, norm: Normalizer, rows: seq<Row>)
    requires Chained(sha, rows)
    ensures Backfill(sha, norm, rows) == rows
  {
    BackfillTouches(sha, norm, rows, |rows|);
    forall j | 0 <= j < |rows| ensures Backfill(sha, norm, rows)[j] == rows[j] {
      assert Linked(sha, rows, j);
    }
  }

  lemma {:induction false} AppendAllGrows(sha: Hash, log: seq<Row>, extra: seq<Row>)
    requires Chained(sha, log)
    ensures Chained(sha, AppendAll(sha, log, extra)) && |AppendAll(sha, log, extra)| == |log| + |extra|
    ensures log <= AppendAll(sha, log, extra)
  {
    if extra != [] {
      AppendAllGrows(sha, log, extra[..|extra| - 1]);
      ChainedAppend(sha, AppendAll(sha, log, extra[..|extra| - 1]), extra[|extra| - 1]);
    }
  }

  /**
   The checkpoint is written at startup only, so honest appends move the head as well: after any
   audited event since the last start, a strict start is refused.
   */
  lemma StrictStartRefusesHonestGrowth(sha: Hash, log: seq<Row>, extra: seq<Row>)
    requires Ideal(sha) && Chained(sha, log) && extra != []
    ensures Chained(sha, AppendAll(sha, log, extra))
    ensures !Starts(sha, AppendAll(sha, log, extra), Some(Head(log)), true)
  {
    AppendAllGrows(sha, log, extra);
    var longer := AppendAll(sha, log, extra);
    CheckpointRoundTrip(sha, log);
    assert longer[..|log|] == log;
    TruncationChangesHead(sha, longer, |log|);
  }

  /** A lenient start on a truncated log records the shorter head, so later strict starts accept it. */
  lemma LenientStartForgetsTruncation(sha: Hash, log: seq<Row>, k: nat)
    requires Ideal(sha) && Chained(sha, log) && k < |log|
    ensures !Starts(sha, log[..k], Some(Head(log)), true)
    ensures Starts(sha, log[..k], Some(Head(log)), false)
    ensures Starts(sha, log[..k], Some(Head(log[..k])), true)
  {
    TruncationChangesHead(sha, log, k);
    CheckpointRoundTrip(sha, log);
    CheckpointRoundTrip(sha, log[..k]);
  }
}
