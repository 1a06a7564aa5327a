/**
 * The boot-time backfill of `receipt.ingested_at` (src/db.rs), run alone on the table: batches of
 * unstamped rows are read and stamped one by one, up to a cap on the number of batches.
 */
module Backfill {
  import opened Prelude
  import opened Timestamps

  type Id = nat

  /** A stored timestamp as RFC 3339 reads it, moved to UTC, or text that it cannot read. */
  datatype Text = Reads(instant: Instant) | Unreadable

  /** `rest`: every other column. */
  datatype Row = Row(createdAt: Text, receivedAt: Option<Text>, ingestedAt: Option<string>, rest: nat)

  const BATCH_SIZE := 500
  const MAX_BATCHES := 200

  function Min(a: nat, b: nat): nat { if a <= b then a else b }

  function Unstamped(rows: map<Id, Row>): set<Id> {
    set r | r in rows && rows[r].ingestedAt.None?
  }

  predicate IsStampOf(stamp: string, instant: Instant) {
    instant.Valid() && stamp == Render(instant)
  }

  /**
   * The stamp prefers the server's own `created_at`, then the sender's `received_at`, and takes the
   * time of the boot only when neither can be read.
   */
  ghost predicate RightStamp(row: Row, stamp: string) {
    if row.createdAt.Reads? then stamp == Render(row.createdAt.instant)
    else if row.receivedAt.Some? && row.receivedAt.value.Reads? then stamp == Render(row.receivedAt.value.instant)
    else exists now :: IsStampOf(stamp, now)
  }

  ghost predicate Stamped(before: Row, after: Row) {
    && before.ingestedAt.None? && after.ingestedAt.Some?
    && RightStamp(before, after.ingestedAt.value)
    && after == before.(ingestedAt := after.ingestedAt)
  }

  /** Exactly the rows of `done` got their stamp; no other row and no other column changed. */
  ghost predicate Progress(before: map<Id, Row>, after: map<Id, Row>, done: set<Id>) {
    && after.Keys == before.Keys && done <= Unstamped(before)
    && (forall r :: r in done ==> Stamped(before[r], after[r]))
    && (forall r :: r in before && r !in done ==> after[r] == before[r])
  }

  lemma LeftUnstamped(before: map<Id, Row>, after: map<Id, Row>, done: set<Id>)
    requires Progress(before, after, done)
    ensures Unstamped(after) == Unstamped(before) - done
    ensures |Unstamped(after)| == |Unstamped(before)| - |done|
  {
    Apart(Unstamped(before), done);
  }

  lemma Apart(s: set<Id>, t: set<Id>)
    requires t <= s
    ensures |s - t| == |s| - |t|
  {
    assert s == t + (s - t);
  }

  lemma OneMore(before: map<Id, Row>, after: map<Id, Row>, done: set<Id>, r: Id, stamp: string)
    requires Progress(before, after, done) && r in Unstamped(before) && r !in done && RightStamp(before[r], stamp)
    ensures Progress(before, after[r := after[r].(ingestedAt := Some(stamp))], done + {r})
  {
    hide RightStamp;
  }

  /** The clock of the server, somewhere in the years the stamp has room for. */
  method ReadClock() returns (now: Instant)
    ensures now.Valid()
  {
    now := *;
    if !now.Valid() {
      now := Instant(1970, 1, 1, 0, 0, 0, 0);
      assert MonthLength(1970, 1) == 31;
    }
  }

  method ServerNow() returns (stamp: string)
    ensures exists now :: IsStampOf(stamp, now)
  {
    var now := ReadClock();
    stamp := Render(now);
    assert IsStampOf(stamp, now);
  }

  method StampFor(row: Row) returns (stamp: string)
    ensures RightStamp(row, stamp)
  {
    if row.createdAt.Reads? {
      stamp := Render(row.createdAt.instant);
    } else if row.receivedAt.Some? && row.receivedAt.value.Reads? {
      stamp := Render(row.receivedAt.value.instant);
    } else {
      stamp := ServerNow();
    }
  }

  class Table {
    var rows: map<Id, Row>

    /** SELECT ... WHERE ingested_at IS NONE LIMIT $limit: some of the unstamped rows, in any order. */
    method SelectUnstamped(limit: nat) returns (batch: seq<Id>)
      ensures |batch| == Min(limit, |Unstamped(rows)|)
      ensures forall i, j :: 0 <= i < j < |batch| ==> batch[i] != batch[j]
      ensures forall i :: 0 <= i < |batch| ==> batch[i] in Unstamped(rows)
    {
      batch := [];
      var rest := Unstamped(rows);
      while rest != {} && |batch| < limit
        invariant rest <= Unstamped(rows) && |batch| + |rest| == |Unstamped(rows)| && |batch| <= limit
        invariant forall i, j :: 0 <= i < j < |batch| ==> batch[i] != batch[j]
        invariant forall i :: 0 <= i < |batch| ==> batch[i] in Unstamped(rows) && batch[i] !in rest
        decreases rest
      {
        var r :| r in rest;
        batch := batch + [r];
        rest := rest - {r};
      }
    }

    /** Stamps the rows of a batch; stops at the first statement that fails. */
    method StampBatch(batch: seq<Id>, ghost before: map<Id, Row>, ghost done: set<Id>)
      returns (ok: bool, ghost done': set<Id>)
      requires Progress(before, rows, done)
      requires forall i, j :: 0 <= i < j < |batch| ==> batch[i] != batch[j]
      requires forall i :: 0 <= i < |batch| ==> batch[i] in Unstamped(rows)
      modifies this
      ensures Progress(before, rows, done') && done <= done'
      ensures |done'| <= |done| + |batch| && (ok ==> |done'| == |done| + |batch|)
    {
      hide RightStamp, Stamped;
      done' := done;
      LeftUnstamped(before, rows, done);
      for n := 0 to |batch|
        invariant Progress(before, rows, done') && done <= done' && |done'| == |done| + n
        invariant forall i :: n <= i < |batch| ==> batch[i] in Unstamped(before) - done'
      {
        var r := batch[n];
        var io := AskDatabase();
        var stamp := StampFor(rows[r]);
        if io.Took() {
          OneMore(before, rows, done', r, stamp);
          rows := rows[r := rows[r].(ingestedAt := Some(stamp))];
          done' := done' + {r};
        }
        if io.Failed() { return false, done'; }
      }
      ok := true;
    }

    /**
     * Stamps exactly min(n, 100000) of n unstamped rows, with one update each, and changes nothing
     * else; if a statement fails it stops, having stamped no more than that.
     */
    method BackfillReceiptIngestedAt() returns (ok: bool, total: nat, ghost done: set<Id>)
      modifies this
      ensures Progress(old(rows), rows, done)
      ensures |done| <= Min(|Unstamped(old(rows))|, 100_000)
      ensures ok ==> total == |done| == Min(|Unstamped(old(rows))|, 100_000)
      ensures ok ==> |Unstamped(rows)| == |Unstamped(old(rows))| - total
    {
      hide Stamped, RightStamp;
      ghost var before := rows;
      ghost var n := |Unstamped(before)|;
      var batchesRun := 0;
      total, done := 0, {};
      while true
        invariant batchesRun <= MAX_BATCHES && Progress(before, rows, done)
        invariant total == |done| == Min(n, BATCH_SIZE * batchesRun)
        decreases MAX_BATCHES - batchesRun
      {
        LeftUnstamped(before, rows, done);
        if batchesRun >= MAX_BATCHES { break; }
        var io := AskDatabase();
        if io.Failed() { return false, total, done; }
        var batch := SelectUnstamped(BATCH_SIZE);
        if |batch| == 0 { break; }
        ok, done := StampBatch(batch, before, done);
        if !ok { return false, total, done; }
        total := total + |batch|;
        batchesRun := batchesRun + 1;
      }
      LeftUnstamped(before, rows, done);
      ok := true;
    }
  }

  /** Rows whose `created_at` can be read queue up, as strings, in the order in which they arrived. */
  lemma BackfilledRowsQueueByArrival(before: map<Id, Row>, after: map<Id, Row>, done: set<Id>, r: Id, q: Id)
    requires Progress(before, after, done) && r in done && q in done
    requires before[r].createdAt.Reads? && before[r].createdAt.instant.Valid()
    requires before[q].createdAt.Reads? && before[q].createdAt.instant.Valid()
    ensures after[r].ingestedAt.Some? && after[q].ingestedAt.Some?
    ensures Less(after[r].ingestedAt.value, after[q].ingestedAt.value)
            <==> before[r].createdAt.instant.Millis() < before[q].createdAt.instant.Millis()
  {
    StampsSortInTime(before[r].createdAt.instant, before[q].createdAt.instant);
    hide Render, Less;
    assert Stamped(before[r], after[r]) && Stamped(before[q], after[q]);
  }
}
