/**
 * The acknowledgement logic of the poll loop (src/main.rs).  Downloading, OCR and ingestion
 * together are one answer, `processed`; `acked` says whether `deleteNotification` succeeded
 * if it was sent.
 */
module PollLoop {
  import opened AttemptTracker
  import opened RetryTheorems

  datatype Poll = Poll(id: ReceiptId, processed: bool, acked: bool, failAt: Instant, ackAt: Instant)

  predicate ShouldAck(b: Bounds, m: Table, p: Poll) {
    p.processed || Decide(b, Attempts(Unstale(m, b.ttl, p.failAt), p.id)).AckGiveUp?
  }

  ghost predicate HandlesVia(b: Bounds, m: Table, p: Poll, mid: Table, m': Table) {
    && (if p.processed then mid == m else Fails(b, m, p.id, p.failAt, mid))
    && m' == if ShouldAck(b, m, p) && p.acked then Unstale(mid, b.ttl, p.ackAt) - {p.id} else mid
  }

  /** One handled notification, from tracker table `m` to `m'`. */
  ghost predicate Handles(b: Bounds, m: Table, p: Poll, m': Table) {
    exists mid :: HandlesVia(b, m, p, mid, m')
  }

  /** The body of the loop for one notification; `deleted`: Green API removed it from the queue. */
  method HandleNotification(tracker: Tracker, p: Poll) returns (deleted: bool)
    requires tracker.Valid()
    modifies tracker
    ensures tracker.Valid() && Handles(tracker.bounds, old(tracker.inner), p, tracker.inner)
    ensures deleted == (ShouldAck(tracker.bounds, old(tracker.inner), p) && p.acked)
    ensures p.processed ==> deleted == p.acked
    ensures !p.processed ==>
      var n := CountedAt(old(tracker.inner), tracker.bounds.ttl, p.id, p.failAt);
      deleted == (p.acked && n + 1 >= tracker.bounds.maxAttempts)
    ensures deleted ==> p.id !in tracker.inner
    ensures !deleted && p.processed ==> tracker.inner == old(tracker.inner)
    ensures !deleted && !p.processed ==> p.id in tracker.inner && tracker.inner[p.id].lastSeen == p.failAt
    ensures forall x :: x in tracker.inner && x != p.id ==>
      x in old(tracker.inner) && tracker.inner[x] == old(tracker.inner)[x]
  {
    var shouldAck := true;
    if !p.processed {
      var d := tracker.RecordFailureAt(p.id, p.failAt);
      match d
      case Skip(_) => shouldAck := false;
      case AckGiveUp => shouldAck := true;
    }
    ghost var mid := tracker.inner;
    deleted := shouldAck && p.acked;
    if deleted {
      if p.processed {
        tracker.RecordSuccess(p.id, p.ackAt);
      } else {
        tracker.RecordAcked(p.id, p.ackAt);
      }
    }
    assert HandlesVia(tracker.bounds, old(tracker.inner), p, mid, tracker.inner);
  }

  // ---- No notification is thrown away early ------------------------------------------------------

  ghost predicate PollAt(b: Bounds, ms: seq<Table>, ps: seq<Poll>, i: nat)
    requires i < |ps| && |ms| == |ps| + 1
  {
    Handles(b, ms[i], ps[i], ms[i + 1])
  }

  /** Any sequence of polls, with any queue behind it and any clock. */
  ghost predicate PollRun(b: Bounds, ms: seq<Table>, ps: seq<Poll>) {
    && b.Valid() && |ms| == |ps| + 1 && ms[0] == map[]
    && forall i :: 0 <= i < |ps| ==> PollAt(b, ms, ps, i)
  }

  predicate Deletes(b: Bounds, ms: seq<Table>, ps: seq<Poll>, i: nat)
    requires i < |ps| && |ms| == |ps| + 1
  {
    ShouldAck(b, ms[i], ps[i]) && ps[i].acked
  }

  /** Polls `0..n` of `id` that failed since `id` was last deleted. */
  function FailedPolls(b: Bounds, ms: seq<Table>, ps: seq<Poll>, n: nat, id: ReceiptId): nat
    requires n <= |ps| && |ms| == |ps| + 1
  {
    if n == 0 then 0
    else if ps[n - 1].id != id then FailedPolls(b, ms, ps, n - 1, id)
    else if Deletes(b, ms, ps, n - 1) then 0
    else FailedPolls(b, ms, ps, n - 1, id) + if ps[n - 1].processed then 0 else 1
  }

  lemma {:induction false} CounterIsFailedPolls(b: Bounds, ms: seq<Table>, ps: seq<Poll>, n: nat, id: ReceiptId)
    requires PollRun(b, ms, ps) && n < |ms|
    ensures Attempts(ms[n], id) <= FailedPolls(b, ms, ps, n, id)
  {
    if n > 0 {
      CounterIsFailedPolls(b, ms, ps, n - 1, id);
      assert PollAt(b, ms, ps, n - 1);
      var p := ps[n - 1];
      if !p.processed {
        var mid :| HandlesVia(b, ms[n - 1], p, mid, ms[n]);
        FailStep(b, ms[n - 1], p.id, p.failAt, mid);
      }
    }
  }

  /** A notification that was never processed is deleted only at its max_attempts-th failure
      since it was last deleted, whatever acknowledgements failed in between. */
  lemma UnprocessedIsDeletedOnlyAfterBudget(b: Bounds, ms: seq<Table>, ps: seq<Poll>, n: nat)
    requires PollRun(b, ms, ps) && n < |ps| && !ps[n].processed && Deletes(b, ms, ps, n)
    ensures FailedPolls(b, ms, ps, n, ps[n].id) + 1 >= b.maxAttempts
  {
    CounterIsFailedPolls(b, ms, ps, n, ps[n].id);
  }

  // ---- The queue drains --------------------------------------------------------------------------

  /** Failures spent on `id`, of those that may still be followed by another try. */
  function Spent(b: Bounds, m: Table, id: ReceiptId, now: Instant): nat
    requires b.maxAttempts >= 1
  {
    var a := Attempts(Unstale(m, b.ttl, now), id);
    if a < b.maxAttempts then a else b.maxAttempts - 1
  }

  /** A poll that leaves its notification in the queue: if processing failed it spends one unit of the
      budget, as far as there is one; if only the acknowledgement failed nothing changes. */
  lemma SpendOne(b: Bounds, m: Table, p: Poll, m': Table, next: Instant)
    requires b.Valid() && b.Holds(m) && Handles(b, m, p, m') && !(ShouldAck(b, m, p) && p.acked)
    requires p.failAt <= next && next - p.failAt < b.ttl
    ensures p.processed ==> m' == m
    ensures !p.processed ==>
      var spent := Spent(b, m, p.id, p.failAt) + 1;
      Spent(b, m', p.id, next) == if spent < b.maxAttempts then spent else b.maxAttempts - 1
    ensures !ShouldAck(b, m, p) ==> Spent(b, m, p.id, p.failAt) + 1 < b.maxAttempts
  {
    if !p.processed { FailStep(b, m, p.id, p.failAt, m'); }
  }

  /** Polls `k` and `k + 1` are less than `ttl` apart. */
  predicate Ticks(clock: nat -> Instant, ttl: nat, k: nat) {
    clock(k) <= clock(k + 1) && clock(k + 1) - clock(k) < ttl
  }

  /**
   * Drives the loop against a queue that redelivers its head until it is deleted, with
   * acknowledgements that succeed.  `processed`, `clock` and `ackClock` say how each poll goes
   * and when; `arrivals` are the notifications that join the queue meanwhile.
   */
  method Drain(tracker: Tracker, queue: seq<ReceiptId>, processed: nat -> bool, clock: nat -> Instant,
               ackClock: nat -> Instant, arrivals: nat -> seq<ReceiptId>)
    returns (polls: nat, deleted: seq<ReceiptId>)
    requires tracker.Valid()
    requires forall k: nat :: Ticks(clock, tracker.bounds.ttl, k)
    modifies tracker
    ensures tracker.Valid() && deleted == queue
    ensures polls <= |queue| * tracker.bounds.maxAttempts
  {
    var pending := queue;
    ghost var late := [];
    polls, deleted := 0, [];
    assert InBudget(tracker.bounds, tracker.inner, |queue|, 0, 0, pending, clock);
    hide InBudget, Handles, ShouldAck, Spent;
    while |deleted| < |queue|
      invariant tracker.Valid()
      invariant |deleted| <= |queue| && deleted == queue[..|deleted|] && pending == queue[|deleted|..] + late
      invariant polls <= |queue| * tracker.bounds.maxAttempts
      invariant InBudget(tracker.bounds, tracker.inner, |queue|, |deleted|, polls, pending, clock)
      decreases |queue| * tracker.bounds.maxAttempts - polls
    {
      assert Ticks(clock, tracker.bounds.ttl, polls);
      HeadOfQueue(queue, |deleted|, pending, late, arrivals(polls));
      var head := pending[0];
      ghost var m := tracker.inner;
      var p := Poll(head, processed(polls), true, clock(polls), ackClock(polls));
      var gone := HandleNotification(tracker, p);
      PollInBudget(tracker.bounds, m, p, tracker.inner, |queue|, |deleted|, polls, pending, arrivals(polls), clock);
      pending := pending + arrivals(polls);
      late := late + arrivals(polls);
      polls := polls + 1;
      if gone {
        deleted, pending := deleted + [head], pending[1..];
      }
    }
  }

  lemma HeadOfQueue<T>(queue: seq<T>, k: nat, pending: seq<T>, late: seq<T>, more: seq<T>)
    requires k < |queue| && pending == queue[k..] + late
    ensures pending != [] && queue[..k] + [pending[0]] == queue[..k + 1]
    ensures pending + more == queue[k..] + (late + more)
    ensures (pending + more)[1..] == queue[k + 1..] + (late + more)
  {}

  /** `polls` is at most what the `done` deleted notifications and the present head account for. */
  ghost predicate InBudget(b: Bounds, m: Table, n: nat, done: nat, polls: nat,
                           pending: seq<ReceiptId>, clock: nat -> Instant)
    requires b.maxAttempts >= 1
  {
    done < n && pending != [] ==> polls <= done * b.maxAttempts + Spent(b, m, pending[0], clock(polls))
  }

  lemma PollInBudget(b: Bounds, m: Table, p: Poll, m': Table, n: nat, done: nat, polls: nat,
                     pending: seq<ReceiptId>, more: seq<ReceiptId>, clock: nat -> Instant)
    requires b.Valid() && b.Holds(m) && Handles(b, m, p, m') && p.acked
    requires done < n && pending != [] && p.id == pending[0] && p.failAt == clock(polls)
    requires Ticks(clock, b.ttl, polls)
    requires InBudget(b, m, n, done, polls, pending, clock)
    ensures polls < n * b.maxAttempts
    ensures
      if ShouldAck(b, m, p) then InBudget(b, m', n, done + 1, polls + 1, (pending + more)[1..], clock)
      else InBudget(b, m', n, done, polls + 1, pending + more, clock)
  {
    BudgetLeft(done, n, b.maxAttempts);
    if !ShouldAck(b, m, p) { SpendOne(b, m, p, m', clock(polls + 1)); }
  }

  lemma BudgetLeft(done: nat, n: nat, max: nat)
    requires done < n
    ensures done * max + max <= n * max
    ensures (done + 1) * max == done * max + max
  {
    assert (done + 1) * max <= n * max;
  }
}
