/**
 * The bounded retry tracker of the poll loop (src/poll_retry.rs).  Instants and durations are
 * whole nanoseconds.
 */
module AttemptTracker {
  type ReceiptId = nat
  type Instant = nat

  const SECOND: nat := 1_000_000_000
  const DEFAULT_MAX_ATTEMPTS: nat := 3
  const DEFAULT_TTL: nat := 600 * SECOND
  const DEFAULT_CAPACITY: nat := 1024

  datatype Decision = Skip(attempt: nat) | AckGiveUp

  datatype Entry = Entry(attempts: nat, lastSeen: Instant)

  type Table = map<ReceiptId, Entry>

  /** The bounds a tracker was built with, after clamping. */
  datatype Bounds = Bounds(maxAttempts: nat, ttl: nat, capacity: nat) {
    predicate Valid() { maxAttempts >= 2 && ttl >= SECOND && capacity >= 1 }

    ghost predicate Holds(m: Table) {
      && |m| <= capacity
      && forall id :: id in m ==> 1 <= m[id].attempts <= maxAttempts
    }
  }

  /** `saturating_duration_since`: zero when the clock ran backwards. */
  function Elapsed(now: Instant, seen: Instant): nat {
    if now < seen then 0 else now - seen
  }

  /** What the inactivity window leaves in the table at `now`. */
  function Unstale(m: Table, ttl: nat, now: Instant): Table {
    map id | id in m && Elapsed(now, m[id].lastSeen) < ttl :: m[id]
  }

  ghost predicate LeastRecent(m: Table, id: ReceiptId) {
    id in m && forall x :: x in m ==> m[id].lastSeen <= m[x].lastSeen
  }

  /** `room` is `kept` with space for `id`: when `id` is new and the table is full, a least
      recently failed entry is dropped.  Which one of several is not determined. */
  ghost predicate MadeRoom(b: Bounds, kept: Table, id: ReceiptId, room: Table) {
    if id in kept || |kept| < b.capacity then room == kept
    else exists victim :: LeastRecent(kept, victim) && room == kept - {victim}
  }

  function Attempts(m: Table, id: ReceiptId): nat {
    if id in m then m[id].attempts else 0
  }

  function Counted(b: Bounds, attempts: nat): nat {
    if attempts >= b.maxAttempts then attempts else attempts + 1
  }

  function Decide(b: Bounds, attempts: nat): Decision {
    if attempts + 1 < b.maxAttempts then Skip(attempts + 1) else AckGiveUp
  }

  /** Failures of `id` that count at `now`: none if the last one is `ttl` or more ago. */
  function CountedAt(m: Table, ttl: nat, id: ReceiptId, now: Instant): (n: nat)
    requires ttl > 0
    ensures id in m && (now < m[id].lastSeen || now - m[id].lastSeen < ttl) ==> n == m[id].attempts
    ensures id !in m || now >= m[id].lastSeen + ttl ==> n == 0
  {
    Attempts(Unstale(m, ttl, now), id)
  }

  /** One recorded failure, from table `m` to table `m'`. */
  ghost predicate Fails(b: Bounds, m: Table, id: ReceiptId, now: Instant, m': Table) {
    exists room ::
      && MadeRoom(b, Unstale(m, b.ttl, now), id, room)
      && m' == room[id := Entry(Counted(b, Attempts(room, id)), now)]
  }

  lemma RoomIsPart(b: Bounds, kept: Table, id: ReceiptId, room: Table)
    requires MadeRoom(b, kept, id, room)
    ensures forall x :: x in room ==> x in kept && room[x] == kept[x]
    ensures Attempts(room, id) == Attempts(kept, id)
  {}

  lemma FailureFits(b: Bounds, room: Table, id: ReceiptId, now: Instant)
    requires b.Valid() && b.Holds(room) && (id in room || |room| < b.capacity)
    ensures b.Holds(room[id := Entry(Counted(b, Attempts(room, id)), now)])
  {
    assert room[id := Entry(Counted(b, Attempts(room, id)), now)].Keys == room.Keys + {id};
  }

  class Tracker {
    var inner: Table
    const bounds: Bounds

    ghost predicate Valid()
      reads this
    {
      bounds.Valid() && bounds.Holds(inner)
    }

    constructor (maxAttempts: nat, ttl: nat, capacity: nat)
      ensures Valid() && inner == map[]
      ensures bounds.maxAttempts == if maxAttempts < 2 then 2 else maxAttempts
      ensures bounds.ttl == if ttl < SECOND then SECOND else ttl
      ensures bounds.capacity == if capacity < 1 then 1 else capacity
    {
      inner := map[];
      bounds := Bounds(
        if maxAttempts < 2 then 2 else maxAttempts,
        if ttl < SECOND then SECOND else ttl,
        if capacity < 1 then 1 else capacity);
    }

    /** The tracker of the poll loop: three attempts, ten minutes, 1024 receipts. */
    constructor WithDefaults()
      ensures Valid() && inner == map[]
      ensures bounds == Bounds(3, 600_000_000_000, 1024) && bounds.Valid()
    {
      inner := map[];
      bounds := Bounds(DEFAULT_MAX_ATTEMPTS, DEFAULT_TTL, DEFAULT_CAPACITY);
    }

    method RecordFailureAt(id: ReceiptId, now: Instant) returns (d: Decision)
      requires Valid()
      modifies this
      ensures Valid() && Fails(bounds, old(inner), id, now, inner)
      ensures d == Decide(bounds, Attempts(Unstale(old(inner), bounds.ttl, now), id))
      ensures var n := CountedAt(old(inner), bounds.ttl, id, now);
        && d == (if n + 1 < bounds.maxAttempts then Skip(n + 1) else AckGiveUp)
        && id in inner && inner[id].lastSeen == now
        && inner[id].attempts == if n < bounds.maxAttempts then n + 1 else bounds.maxAttempts
      ensures forall x :: x in inner && x != id ==>
        && x in old(inner) && inner[x] == old(inner)[x]
        && (now < inner[x].lastSeen || now - inner[x].lastSeen < bounds.ttl)
    {
      hide LeastRecent, MadeRoom, Unstale;
      ghost var kept := Unstale(inner, bounds.ttl, now);
      EvictStaleAt(now);
      MakeRoom(id);
      ghost var room := inner;
      assert MadeRoom(bounds, kept, id, room);
      FailureFits(bounds, room, id, now);
      hide Bounds.Holds;
      var entry := if id in inner then inner[id] else Entry(0, now);
      entry := entry.(lastSeen := now);
      if entry.attempts >= bounds.maxAttempts {
        d := AckGiveUp;
      } else {
        entry := entry.(attempts := entry.attempts + 1);
        d := if entry.attempts < bounds.maxAttempts then Skip(entry.attempts) else AckGiveUp;
      }
      inner := inner[id := entry];
      assert inner == room[id := Entry(Counted(bounds, Attempts(room, id)), now)];
      RoomIsPart(bounds, kept, id, room);
    }

    method MakeRoom(id: ReceiptId)
      requires Valid()
      modifies this
      ensures Valid() && MadeRoom(bounds, old(inner), id, inner)
      ensures id in inner || |inner| < bounds.capacity
      ensures Attempts(inner, id) == Attempts(old(inner), id)
    {
      if id !in inner && |inner| >= bounds.capacity {
        assert |inner| > 0;
        EvictOldest();
      }
    }

    /** After `deleteNotification` succeeded, for the give-up branch. */
    method RecordAcked(id: ReceiptId, now: Instant)
      requires Valid()
      modifies this
      ensures Valid() && inner == Unstale(old(inner), bounds.ttl, now) - {id}
    {
      EvictStaleAt(now);
      Remove(id);
    }

    /** After `deleteNotification` succeeded, for a receipt that was processed. */
    method RecordSuccess(id: ReceiptId, now: Instant)
      requires Valid()
      modifies this
      ensures Valid() && inner == Unstale(old(inner), bounds.ttl, now) - {id}
    {
      EvictStaleAt(now);
      Remove(id);
    }

    method Remove(id: ReceiptId)
      requires Valid()
      modifies this
      ensures Valid() && inner == old(inner) - {id}
      ensures id in old(inner) ==> |inner| == |old(inner)| - 1
    {
      assert (inner - {id}).Keys == inner.Keys - {id};
      inner := inner - {id};
    }

    method EvictStaleAt(now: Instant)
      requires Valid()
      modifies this
      ensures Valid() && inner == Unstale(old(inner), bounds.ttl, now)
      ensures forall id :: id in inner <==>
        id in old(inner) && (now < old(inner)[id].lastSeen || now - old(inner)[id].lastSeen < bounds.ttl)
      ensures forall id :: id in inner ==> inner[id] == old(inner)[id]
    {
      UnstaleIsPart(inner, bounds.ttl, now);
      inner := map id | id in inner && Elapsed(now, inner[id].lastSeen) < bounds.ttl :: inner[id];
    }

    method EvictOldest()
      requires Valid() && inner != map[]
      modifies this
      ensures Valid() && |inner| == |old(inner)| - 1
      ensures exists victim :: LeastRecent(old(inner), victim) && inner == old(inner) - {victim}
    {
      var oldest :| oldest in inner;
      var rest := inner.Keys - {oldest};
      while rest != {}
        invariant rest <= inner.Keys && oldest in inner
        invariant forall x :: x in inner && x !in rest ==> inner[oldest].lastSeen <= inner[x].lastSeen
        decreases rest
      {
        var id :| id in rest;
        rest := rest - {id};
        if inner[id].lastSeen < inner[oldest].lastSeen { oldest := id; }
      }
      assert LeastRecent(inner, oldest);
      Remove(oldest);
    }
  }

  lemma UnstaleIsPart(m: Table, ttl: nat, now: Instant)
    ensures Unstale(m, ttl, now).Keys <= m.Keys && |Unstale(m, ttl, now)| <= |m|
  {
    SubsetSize(Unstale(m, ttl, now).Keys, m.Keys);
  }

  lemma {:induction false} SubsetSize<T>(a: set<T>, b: set<T>)
    requires a <= b
    ensures |a| <= |b|
  {
    if a != {} {
      var x :| x in a;
      SubsetSize(a - {x}, b - {x});
    }
  }
}
