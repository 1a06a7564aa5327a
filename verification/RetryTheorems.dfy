/** What the retry tracker guarantees over any sequence of calls and any clock. */
module RetryTheorems {
  import opened AttemptTracker

  datatype Op = Fail(id: ReceiptId, at: Instant) | Clear(id: ReceiptId, at: Instant)

  ghost predicate StepAt(b: Bounds, ms: seq<Table>, ops: seq<Op>, i: nat)
    requires i < |ops| && |ms| == |ops| + 1
  {
    match ops[i]
    case Fail(id, at) => Fails(b, ms[i], id, at, ms[i + 1])
    case Clear(id, at) => ms[i + 1] == Unstale(ms[i], b.ttl, at) - {id}
  }

  /** Tables before and after each call on a new tracker. */
  ghost predicate Run(b: Bounds, ms: seq<Table>, ops: seq<Op>) {
    && b.Valid() && |ms| == |ops| + 1 && ms[0] == map[]
    && forall i :: 0 <= i < |ops| ==> StepAt(b, ms, ops, i)
  }

  /** What `record_failure_at` answers to the `i`-th call. */
  function DecisionAt(b: Bounds, ms: seq<Table>, ops: seq<Op>, i: nat): Decision
    requires i < |ops| && |ms| == |ops| + 1
  {
    Decide(b, Attempts(Unstale(ms[i], b.ttl, ops[i].at), ops[i].id))
  }

  // ---- One step --------------------------------------------------------------------------------

  lemma FailStep(b: Bounds, m: Table, id: ReceiptId, now: Instant, m': Table)
    requires Fails(b, m, id, now, m')
    ensures id in m' && m'[id] == Entry(Counted(b, Attempts(Unstale(m, b.ttl, now), id)), now)
    ensures forall x :: x in m' && x != id ==> x in m && m'[x] == m[x]
  {}

  lemma FailKeepsCapacity(b: Bounds, m: Table, id: ReceiptId, now: Instant, m': Table)
    requires b.Valid() && |m| <= b.capacity && Fails(b, m, id, now, m')
    ensures |m'| <= b.capacity
  {
    var kept := Unstale(m, b.ttl, now);
    UnstaleIsPart(m, b.ttl, now);
    hide Unstale;
    var room :| MadeRoom(b, kept, id, room) && m' == room[id := Entry(Counted(b, Attempts(room, id)), now)];
    assert m'.Keys == room.Keys + {id};
    if id !in kept && |kept| >= b.capacity {
      var victim :| LeastRecent(kept, victim) && room == kept - {victim};
      assert room.Keys == kept.Keys - {victim};
    }
  }

  lemma FailKeepsBounds(b: Bounds, m: Table, id: ReceiptId, now: Instant, m': Table)
    requires b.Valid() && b.Holds(m) && Fails(b, m, id, now, m')
    ensures b.Holds(m')
  {
    FailStep(b, m, id, now, m');
    FailKeepsCapacity(b, m, id, now, m');
    hide Fails;
  }

  // ---- Bounds and budget -----------------------------------------------------------------------

  /** The table never exceeds its capacity and every counter stays in 1..max_attempts. */
  lemma {:induction false} TableStaysBounded(b: Bounds, ms: seq<Table>, ops: seq<Op>, i: nat)
    requires Run(b, ms, ops) && i < |ms|
    ensures b.Holds(ms[i])
  {
    hide Fails, Unstale, Bounds.Holds;
    if i == 0 {
      NothingHeld(b);
    } else {
      TableStaysBounded(b, ms, ops, i - 1);
      assert StepAt(b, ms, ops, i - 1);
      match ops[i - 1]
      case Fail(id, at) => FailKeepsBounds(b, ms[i - 1], id, at, ms[i]);
      case Clear(id, at) => ClearKeepsBounds(b, ms[i - 1], id, at);
    }
  }

  lemma NothingHeld(b: Bounds)
    ensures b.Holds(map[])
  {}

  lemma ClearKeepsBounds(b: Bounds, m: Table, id: ReceiptId, now: Instant)
    requires b.Holds(m)
    ensures b.Holds(Unstale(m, b.ttl, now) - {id})
  {
    SubsetSize((Unstale(m, b.ttl, now) - {id}).Keys, m.Keys);
  }

  function FailuresSinceClear(ops: seq<Op>, n: nat, id: ReceiptId): nat
    requires n <= |ops|
  {
    if n == 0 then 0
    else if ops[n - 1].id != id then FailuresSinceClear(ops, n - 1, id)
    else if ops[n - 1].Clear? then 0
    else FailuresSinceClear(ops, n - 1, id) + 1
  }

  lemma {:induction false} CountersAreRealFailures(b: Bounds, ms: seq<Table>, ops: seq<Op>, i: nat, id: ReceiptId)
    requires Run(b, ms, ops) && i < |ms|
    ensures Attempts(ms[i], id) <= FailuresSinceClear(ops, i, id)
  {
    if i > 0 {
      CountersAreRealFailures(b, ms, ops, i - 1, id);
      assert StepAt(b, ms, ops, i - 1);
      if ops[i - 1].Fail? { FailStep(b, ms[i - 1], ops[i - 1].id, ops[i - 1].at, ms[i]); }
    }
  }

  /** AckGiveUp for a receipt means that it really failed max_attempts times since it was last cleared. */
  lemma GiveUpMeansBudgetIsSpent(b: Bounds, ms: seq<Table>, ops: seq<Op>, i: nat)
    requires Run(b, ms, ops) && i < |ops| && ops[i].Fail?
    requires DecisionAt(b, ms, ops, i).AckGiveUp?
    ensures FailuresSinceClear(ops, i + 1, ops[i].id) >= b.maxAttempts
  {
    CountersAreRealFailures(b, ms, ops, i, ops[i].id);
  }

  // ---- The decision sequence of a receipt that is not evicted ------------------------------------

  function Failures(ops: seq<Op>, i: nat, j: nat, id: ReceiptId): nat
    requires i <= j <= |ops|
  {
    if i == j then 0
    else Failures(ops, i, j - 1, id) + if ops[j - 1].Fail? && ops[j - 1].id == id then 1 else 0
  }

  /** `id` is still tracked when call `k` looks at the table, and the call does not clear it. */
  ghost predicate StillTracked(b: Bounds, ms: seq<Table>, ops: seq<Op>, k: nat, id: ReceiptId)
    requires k < |ops| && |ms| == |ops| + 1
  {
    id in Unstale(ms[k], b.ttl, ops[k].at) && ops[k] != Clear(id, ops[k].at)
  }

  lemma {:induction false} UnevictedCounterIsExact(b: Bounds, ms: seq<Table>, ops: seq<Op>, i: nat, j: nat,
                                                   id: ReceiptId)
    requires Run(b, ms, ops) && i < j <= |ops| && ops[i].Fail? && ops[i].id == id
    requires id !in Unstale(ms[i], b.ttl, ops[i].at)
    requires forall k :: i < k < j ==> StillTracked(b, ms, ops, k, id)
    requires id in ms[j]
    ensures var n := Failures(ops, i, j, id);
      n >= 1 && Attempts(ms[j], id) == if n < b.maxAttempts then n else b.maxAttempts
  {
    assert StepAt(b, ms, ops, j - 1);
    if ops[j - 1].Fail? { FailStep(b, ms[j - 1], ops[j - 1].id, ops[j - 1].at, ms[j]); }
    if j == i + 1 {
      assert Failures(ops, i, j, id) == Failures(ops, i, i, id) + 1;
    } else {
      assert StillTracked(b, ms, ops, j - 1, id);
      UnevictedCounterIsExact(b, ms, ops, i, j - 1, id);
    }
  }

  /** A receipt that starts afresh at call `i` and is neither evicted nor cleared is answered
      Skip 1, Skip 2, ... and from the max_attempts-th failure on always AckGiveUp. */
  lemma UnevictedDecisions(b: Bounds, ms: seq<Table>, ops: seq<Op>, i: nat, j: nat, id: ReceiptId)
    requires Run(b, ms, ops) && i <= j < |ops|
    requires ops[i].Fail? && ops[i].id == id && ops[j].Fail? && ops[j].id == id
    requires id !in Unstale(ms[i], b.ttl, ops[i].at)
    requires forall k :: i < k <= j ==> StillTracked(b, ms, ops, k, id)
    ensures var n := Failures(ops, i, j + 1, id);
      DecisionAt(b, ms, ops, j) == if n < b.maxAttempts then Skip(n) else AckGiveUp
  {
    if i < j {
      assert StillTracked(b, ms, ops, j, id);
      UnevictedCounterIsExact(b, ms, ops, i, j, id);
    } else {
      assert Failures(ops, i, i + 1, id) == Failures(ops, i, i, id) + 1;
    }
  }

  // ---- The working-set theorem -------------------------------------------------------------------

  ghost predicate ClockRuns(ops: seq<Op>) {
    forall i, j :: 0 <= i < j < |ops| ==> ops[i].at < ops[j].at
  }

  /** Receipts other than `r` that failed strictly between calls `i` and `j`. */
  function Others(ops: seq<Op>, i: nat, j: nat, r: ReceiptId): set<ReceiptId>
    requires i < j <= |ops|
  {
    set k | i < k < j && ops[k].Fail? && ops[k].id != r :: ops[k].id
  }

  /** Every `last_seen` is the instant of an earlier failure of that receipt. */
  ghost predicate SeenAt(ops: seq<Op>, i: nat, id: ReceiptId, at: Instant) {
    exists q :: 0 <= q < i && q < |ops| && ops[q] == Fail(id, at)
  }

  lemma {:induction false} LastSeenIsAFailure(b: Bounds, ms: seq<Table>, ops: seq<Op>, i: nat, id: ReceiptId)
    requires Run(b, ms, ops) && i < |ms| && id in ms[i]
    ensures SeenAt(ops, i, id, ms[i][id].lastSeen)
  {
    assert i > 0;
    assert StepAt(b, ms, ops, i - 1);
    if ops[i - 1].Fail? {
      FailStep(b, ms[i - 1], ops[i - 1].id, ops[i - 1].at, ms[i]);
      if ops[i - 1].id == id {
        assert ops[i - 1] == Fail(id, ms[i][id].lastSeen);
      } else {
        LastSeenIsAFailure(b, ms, ops, i - 1, id);
      }
    } else {
      LastSeenIsAFailure(b, ms, ops, i - 1, id);
    }
  }

  /** When `r`, last seen at call `i`, is the oldest of a full table, all the others failed since. */
  lemma OldestMeansAllFailedSince(b: Bounds, ms: seq<Table>, ops: seq<Op>, i: nat, k: nat, r: ReceiptId, kept: Table)
    requires Run(b, ms, ops) && ClockRuns(ops) && i < k < |ops| && ops[i] == Fail(r, ops[i].at)
    requires r in ms[k] && ms[k][r].lastSeen == ops[i].at
    requires kept == Unstale(ms[k], b.ttl, ops[k].at) && LeastRecent(kept, r)
    ensures kept.Keys - {r} <= Others(ops, i, k, r)
  {
    forall x | x in kept && x != r ensures x in Others(ops, i, k, r) {
      LastSeenIsAFailure(b, ms, ops, k, x);
      var q :| 0 <= q < k && ops[q] == Fail(x, ms[k][x].lastSeen);
      assert ops[q].at >= ops[i].at;
      assert q > i;
    }
  }

  lemma {:induction false} EntryWaits(b: Bounds, ms: seq<Table>, ops: seq<Op>, i: nat, j: nat, k: nat, r: ReceiptId)
    requires Run(b, ms, ops) && ClockRuns(ops) && i < k <= j < |ops|
    requires ops[i].Fail? && ops[i].id == r && ops[j].at - ops[i].at < b.ttl
    requires forall q :: i < q < j ==> ops[q].id != r
    requires |Others(ops, i, j, r)| < b.capacity
    ensures r in ms[i + 1] && r in ms[k] && ms[k][r] == ms[i + 1][r] && ms[k][r].lastSeen == ops[i].at
  {
    assert StepAt(b, ms, ops, i);
    FailStep(b, ms[i], r, ops[i].at, ms[i + 1]);
    if k > i + 1 {
      EntryWaits(b, ms, ops, i, j, k - 1, r);
      assert StepAt(b, ms, ops, k - 1);
      var kept := Unstale(ms[k - 1], b.ttl, ops[k - 1].at);
      assert r in kept;
      if ops[k - 1].Fail? { EntrySurvivesFailure(b, ms, ops, i, j, k - 1, r); }
    }
  }

  lemma EntrySurvivesFailure(b: Bounds, ms: seq<Table>, ops: seq<Op>, i: nat, j: nat, k: nat, r: ReceiptId)
    requires Run(b, ms, ops) && ClockRuns(ops) && i < k < j < |ops|
    requires ops[i] == Fail(r, ops[i].at) && ops[k].Fail? && ops[k].id != r
    requires r in Unstale(ms[k], b.ttl, ops[k].at) && ms[k][r].lastSeen == ops[i].at
    requires |Others(ops, i, j, r)| < b.capacity
    ensures r in ms[k + 1] && ms[k + 1][r] == ms[k][r]
  {
    assert StepAt(b, ms, ops, k);
    var kept := Unstale(ms[k], b.ttl, ops[k].at);
    var x := ops[k].id;
    var room :| MadeRoom(b, kept, x, room) && ms[k + 1] == room[x := Entry(Counted(b, Attempts(room, x)), ops[k].at)];
    if x !in kept && |kept| >= b.capacity && LeastRecent(kept, r) {
      OldestMeansAllFailedSince(b, ms, ops, i, k, r, kept);
      hide Run, ClockRuns, StepAt, LeastRecent;
      var others := kept.Keys - {r} + {x};
      assert |others| == |kept|;
      assert x in Others(ops, i, j, r);
      assert Others(ops, i, k, r) <= Others(ops, i, j, r);
      SubsetSize(others, Others(ops, i, j, r));
    }
  }

  /** If two consecutive failures of a receipt are less than `ttl` apart, nothing cleared it in
      between, and fewer than `capacity` distinct other receipts failed in between, then the
      second failure finds the counter exactly where the first left it. */
  lemma WorkingSet(b: Bounds, ms: seq<Table>, ops: seq<Op>, i: nat, j: nat, r: ReceiptId)
    requires Run(b, ms, ops) && ClockRuns(ops) && i < j < |ops|
    requires ops[i].Fail? && ops[i].id == r && ops[j].Fail? && ops[j].id == r
    requires ops[j].at - ops[i].at < b.ttl
    requires forall q :: i < q < j ==> ops[q].id != r
    requires |Others(ops, i, j, r)| < b.capacity
    ensures r in Unstale(ms[j], b.ttl, ops[j].at)
    ensures Attempts(Unstale(ms[j], b.ttl, ops[j].at), r) == Attempts(ms[i + 1], r)
  {
    EntryWaits(b, ms, ops, i, j, j, r);
  }

  // ---- Decisions from the calls alone --------------------------------------------------------------

  lemma {:induction false} EntryIsFrom(b: Bounds, ms: seq<Table>, ops: seq<Op>, i: nat, k: nat, r: ReceiptId)
    requires Run(b, ms, ops) && i < k <= |ops| && ops[i].Fail? && ops[i].id == r
    requires forall q :: i < q < k ==> ops[q].id != r
    ensures r in ms[k] ==> r in ms[i + 1] && ms[k][r] == ms[i + 1][r] && ms[k][r].lastSeen == ops[i].at
  {
    assert StepAt(b, ms, ops, i);
    FailStep(b, ms[i], r, ops[i].at, ms[i + 1]);
    if k > i + 1 {
      EntryIsFrom(b, ms, ops, i, k - 1, r);
      assert StepAt(b, ms, ops, k - 1);
      if ops[k - 1].Fail? { FailStep(b, ms[k - 1], ops[k - 1].id, ops[k - 1].at, ms[k]); }
    }
  }

  /** The converse of the working-set theorem: after `ttl` without a failure a receipt starts afresh. */
  lemma StaleStartsAfresh(b: Bounds, ms: seq<Table>, ops: seq<Op>, i: nat, j: nat, r: ReceiptId)
    requires Run(b, ms, ops) && i < j < |ops|
    requires ops[i].Fail? && ops[i].id == r && ops[j].Fail? && ops[j].id == r
    requires forall q :: i < q < j ==> ops[q].id != r
    requires ops[j].at >= ops[i].at + b.ttl
    ensures DecisionAt(b, ms, ops, j) == Skip(1) && Attempts(ms[j + 1], r) == 1
  {
    EntryIsFrom(b, ms, ops, i, j, r);
    assert StepAt(b, ms, ops, j);
    FailStep(b, ms[j], r, ops[j].at, ms[j + 1]);
  }

  lemma {:induction false} NeverFailed(b: Bounds, ms: seq<Table>, ops: seq<Op>, j: nat, r: ReceiptId)
    requires Run(b, ms, ops) && j < |ms|
    requires forall q :: 0 <= q < j ==> ops[q] != Fail(r, ops[q].at)
    ensures r !in ms[j]
  {
    if j > 0 {
      NeverFailed(b, ms, ops, j - 1, r);
      assert StepAt(b, ms, ops, j - 1);
      if ops[j - 1].Fail? { FailStep(b, ms[j - 1], ops[j - 1].id, ops[j - 1].at, ms[j]); }
    }
  }

  /** The first failure of a receipt is never the end of it. */
  lemma FirstFailureIsSkipped(b: Bounds, ms: seq<Table>, ops: seq<Op>, j: nat, r: ReceiptId)
    requires Run(b, ms, ops) && j < |ops| && ops[j].Fail? && ops[j].id == r
    requires forall q :: 0 <= q < j ==> ops[q] != Fail(r, ops[q].at)
    ensures DecisionAt(b, ms, ops, j) == Skip(1)
  {
    NeverFailed(b, ms, ops, j, r);
  }

  /** In the working set the answers count up: Skip(n) is followed by Skip(n + 1) while the budget
      lasts, and AckGiveUp by AckGiveUp. */
  lemma WorkingSetDecisions(b: Bounds, ms: seq<Table>, ops: seq<Op>, i: nat, j: nat, r: ReceiptId)
    requires Run(b, ms, ops) && ClockRuns(ops) && i < j < |ops|
    requires ops[i].Fail? && ops[i].id == r && ops[j].Fail? && ops[j].id == r
    requires ops[j].at - ops[i].at < b.ttl
    requires forall q :: i < q < j ==> ops[q].id != r
    requires |Others(ops, i, j, r)| < b.capacity
    ensures match DecisionAt(b, ms, ops, i)
      case Skip(n) => DecisionAt(b, ms, ops, j) == if n + 1 < b.maxAttempts then Skip(n + 1) else AckGiveUp
      case AckGiveUp => DecisionAt(b, ms, ops, j) == AckGiveUp
  {
    WorkingSet(b, ms, ops, i, j, r);
    assert StepAt(b, ms, ops, i);
    FailStep(b, ms[i], r, ops[i].at, ms[i + 1]);
    hide ClockRuns, Others, Unstale, Fails;
  }
}
