/**
 * The migration runner under concurrent boots (src/migrations.rs).  A boot loads a snapshot of
 * the recorded migrations and then runs one transaction for each pending migration: the claim
 * row first, the migration body second, both or neither.  Any number of boots interleave.
 */
module MigrationProtocol {
  import opened Prelude

  type BootId = nat

  datatype Migration = Migration(name: string, body: string)

  /** SHA-256 taken as injective. */
  datatype Digest = Sha256(body: string)

  function Checksum(m: Migration): Digest { Sha256(m.body) }

  function Names(ms: seq<Migration>): (names: seq<string>)
    ensures |names| == |ms| && forall i :: 0 <= i < |ms| ==> names[i] == ms[i].name
  {
    seq(|ms|, i requires 0 <= i < |ms| => ms[i].name)
  }

  predicate SortedAt(names: seq<string>, i: nat)
    requires i + 1 < |names|
  {
    Less(names[i], names[i + 1])
  }

  /** `windows(2).all(|w| w[0] < w[1])` */
  predicate Sorted(names: seq<string>) {
    forall i :: 0 <= i < |names| - 1 ==> SortedAt(names, i)
  }

  predicate Terminated(body: string) {
    var t := TrimEnd(body);
    t != [] && t[|t| - 1] == ';'
  }

  predicate WellFormed(ms: seq<Migration>) {
    Sorted(Names(ms)) && forall i :: 0 <= i < |ms| ==> Terminated(ms[i].body)
  }

  type Table = map<string, Digest>

  /** The applied names are exactly those of the first `k` migrations. */
  ghost predicate IsPrefix(ms: seq<Migration>, applied: set<string>, k: nat) {
    k <= |ms| && forall name :: name in applied <==> name in Names(ms)[..k]
  }

  ghost predicate Contiguous(ms: seq<Migration>, applied: set<string>) {
    exists k :: IsPrefix(ms, applied, k)
  }

  datatype Outcome = Succeeded | Malformed | NotContiguous | Drift | BodyFailed | Vanished | DbError

  datatype Pc =
    | Loading
    | Applying(i: nat)
    | Verifying(i: nat)
    | Finished(outcome: Outcome)

  /** `applied`: the snapshot, once loaded.  `ran`: how many bodies this boot has committed. */
  datatype Boot = Boot(ms: seq<Migration>, pc: Pc, applied: Table, ran: nat)

  /** How the body of a migration ended: a failure may carry a message that reads like a claim collision. */
  datatype Body = Ran | Broke | BrokeLikeCollision

  /** `table`: the schema_migration rows.  `ran`: every body ever committed, in order. */
  datatype System = System(table: Table, ran: seq<Migration>, boots: map<BootId, Boot>)

  datatype Event =
    | Begin(b: BootId, ms: seq<Migration>)
    | Load(b: BootId, contiguous: bool, io: Io)
    | Pass(b: BootId)
    | Claim(b: BootId, body: Body, io: Io)
    | Verify(b: BootId, io: Io)

  ghost predicate Init(s: System) {
    s == System(map[], [], map[])
  }

  predicate AtMigration(boot: Boot) {
    boot.pc.Applying? && boot.pc.i < |boot.ms|
  }

  ghost predicate Enabled(s: System, e: Event) {
    match e
    case Begin(b, _) => b !in s.boots
    case Load(b, contiguous, _) =>
      b in s.boots && s.boots[b].pc.Loading? && contiguous == Contiguous(s.boots[b].ms, s.table.Keys)
    case Pass(b) =>
      b in s.boots && s.boots[b].pc.Applying?
      && (AtMigration(s.boots[b]) ==> s.boots[b].ms[s.boots[b].pc.i].name in s.boots[b].applied)
    case Claim(b, _, _) =>
      b in s.boots && AtMigration(s.boots[b]) && s.boots[b].ms[s.boots[b].pc.i].name !in s.boots[b].applied
    case Verify(b, _) => b in s.boots && s.boots[b].pc.Verifying? && s.boots[b].pc.i < |s.boots[b].ms|
  }

  /** The end of the list, or a migration that the snapshot says is applied. */
  function AfterPass(boot: Boot): Pc
    requires boot.pc.Applying? && (AtMigration(boot) ==> boot.ms[boot.pc.i].name in boot.applied)
  {
    var i := boot.pc.i;
    if i >= |boot.ms| then Finished(Succeeded)
    else if boot.applied[boot.ms[i].name] != Checksum(boot.ms[i]) then Finished(Drift)
    else Applying(i + 1)
  }

  function AfterVerify(table: Table, boot: Boot): Pc
    requires boot.pc.Verifying? && boot.pc.i < |boot.ms|
  {
    var m := boot.ms[boot.pc.i];
    if m.name !in table then Finished(Vanished)
    else if table[m.name] != Checksum(m) then Finished(Drift)
    else Applying(boot.pc.i + 1)
  }

  function Goto(s: System, b: BootId, boot: Boot): System {
    s.(boots := s.boots[b := boot])
  }

  function ApplyClaim(s: System, b: BootId, body: Body, io: Io): System
    requires b in s.boots && AtMigration(s.boots[b])
  {
    var boot := s.boots[b];
    var m := boot.ms[boot.pc.i];
    var wins := m.name !in s.table && body.Ran? && io.Took();
    var pc :=
      if io.Failed() then Finished(DbError)
      else if m.name in s.table || body.BrokeLikeCollision? then Verifying(boot.pc.i)
      else if body.Broke? then Finished(BodyFailed)
      else Applying(boot.pc.i + 1);
    System(
      if wins then s.table[m.name := Checksum(m)] else s.table,
      if wins then s.ran + [m] else s.ran,
      s.boots[b := boot.(pc := pc, ran := if wins then boot.ran + 1 else boot.ran)])
  }

  function Apply(s: System, e: Event): System
    requires Enabled(s, e)
  {
    match e
    case Begin(b, ms) => Goto(s, b, Boot(ms, if WellFormed(ms) then Loading else Finished(Malformed), map[], 0))
    case Load(b, contiguous, io) =>
      Goto(s, b, s.boots[b].(
        pc := if io.Failed() then Finished(DbError) else if contiguous then Applying(0) else Finished(NotContiguous),
        applied := s.table))
    case Pass(b) => Goto(s, b, s.boots[b].(pc := AfterPass(s.boots[b])))
    case Claim(b, body, io) => ApplyClaim(s, b, body, io)
    case Verify(b, io) =>
      Goto(s, b, s.boots[b].(pc := if io.Failed() then Finished(DbError) else AfterVerify(s.table, s.boots[b])))
  }

  ghost predicate NextAt(tr: seq<System>, i: nat)
    requires i + 1 < |tr|
  {
    exists e :: Enabled(tr[i], e) && tr[i + 1] == Apply(tr[i], e)
  }

  /** Every binary that booted so far ships a prefix of one append-only list of names. */
  ghost predicate AppendOnly(history: seq<string>, s: System) {
    forall b :: b in s.boots ==> |s.boots[b].ms| <= |history| && Names(s.boots[b].ms) == history[..|s.boots[b].ms|]
  }

  /** Any interleaving of any boots; what the binaries ship is left open. */
  ghost predicate Run(tr: seq<System>) {
    |tr| > 0 && Init(tr[0]) && forall i :: 0 <= i < |tr| - 1 ==> NextAt(tr, i)
  }
}
