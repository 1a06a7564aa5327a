/**
 * The migration runner as it boots, statement after statement, with other boots running in
 * between.  `Valid` says that what happened so far is a run of the protocol.
 */
module MigrationRunner {
  import opened Prelude
  import opened MigrationProtocol
  import MigrationTheorems

  datatype Applied = Applied(name: string, checksum: Digest)

  datatype Verdict = Accepted | Unknown(name: string) | Skipped(unapplied: string, later: string)

  function AppliedNames(applied: seq<Applied>): set<string> {
    set row | row in applied :: row.name
  }

  lemma AddName(applied: seq<Applied>, row: Applied)
    ensures AppliedNames(applied + [row]) == AppliedNames(applied) + {row.name}
  {
    assert row in applied + [row];
    forall r | r in applied ensures r.name in AppliedNames(applied + [row]) { assert r in applied + [row]; }
  }

  method Knows(ms: seq<Migration>, name: string) returns (found: bool)
    ensures found == (name in Names(ms))
  {
    for i := 0 to |ms|
      invariant name !in Names(ms)[..i]
    {
      if ms[i].name == name {
        assert Names(ms)[i] == name;
        return true;
      }
    }
    return false;
  }

  method FindApplied(applied: seq<Applied>, name: string) returns (row: Option<Applied>)
    ensures row.Some? <==> name in AppliedNames(applied)
    ensures row.Some? ==> row.value in applied && row.value.name == name
  {
    for i := 0 to |applied|
      invariant forall r :: r in applied[..i] ==> r.name != name
    {
      if applied[i].name == name { return Some(applied[i]); }
    }
    return None;
  }

  /** `enforce_no_skipped`: accepts exactly the applied sets that are prefixes of the list. */
  method EnforceNoSkipped(ms: seq<Migration>, applied: seq<Applied>) returns (v: Verdict)
    requires Sorted(Names(ms))
    ensures v.Accepted? <==> Contiguous(ms, AppliedNames(applied))
    ensures v.Unknown? ==> v.name in AppliedNames(applied) && v.name !in Names(ms)
    ensures v.Skipped? ==>
      exists i, j :: 0 <= i < j < |ms| && ms[i].name == v.unapplied && ms[j].name == v.later
                     && v.unapplied !in AppliedNames(applied) && v.later in AppliedNames(applied)
  {
    ghost var names := AppliedNames(applied);
    for i := 0 to |applied|
      invariant forall row :: row in applied[..i] ==> row.name in Names(ms)
    {
      var known := Knows(ms, applied[i].name);
      if !known {
        assert applied[i].name in names;
        return Unknown(applied[i].name);
      }
    }
    var firstUnapplied: Option<nat> := None;
    for i := 0 to |ms|
      invariant firstUnapplied.Some? ==> firstUnapplied.value < i
      invariant var k := if firstUnapplied.Some? then firstUnapplied.value else i;
        forall j :: 0 <= j < i ==> (ms[j].name in names <==> j < k)
    {
      var row := FindApplied(applied, ms[i].name);
      if row.Some? {
        if firstUnapplied.Some? {
          NotAPrefix(ms, names, firstUnapplied.value, i);
          return Skipped(ms[firstUnapplied.value].name, ms[i].name);
        }
      } else if firstUnapplied.None? {
        firstUnapplied := Some(i);
      }
    }
    ghost var k := if firstUnapplied.Some? then firstUnapplied.value else |ms|;
    APrefix(ms, names, k);
    v := Accepted;
  }

  lemma NotAPrefix(ms: seq<Migration>, applied: set<string>, i: nat, j: nat)
    requires Sorted(Names(ms)) && i < j < |ms| && ms[i].name !in applied && ms[j].name in applied
    ensures !Contiguous(ms, applied)
  {
    if Contiguous(ms, applied) {
      var k :| IsPrefix(ms, applied, k);
      MigrationTheorems.PrefixIndex(ms, applied, k, i);
      MigrationTheorems.PrefixIndex(ms, applied, k, j);
      assert false;
    }
  }

  lemma APrefix(ms: seq<Migration>, applied: set<string>, k: nat)
    requires k <= |ms| && forall j :: 0 <= j < |ms| ==> (ms[j].name in applied <==> j < k)
    requires forall name :: name in applied ==> name in Names(ms)
    ensures Contiguous(ms, applied)
  {
    forall name ensures name in applied <==> name in Names(ms)[..k] {
      if name in applied {
        var j :| 0 <= j < |ms| && Names(ms)[j] == name;
        assert Names(ms)[..k][j] == name;
      }
    }
    assert IsPrefix(ms, applied, k);
  }

  lemma Extend(log: seq<System>, e: Event, s: System)
    requires Run(log) && Enabled(log[|log| - 1], e) && s == Apply(log[|log| - 1], e)
    ensures Run(log + [s])
  {
    hide Enabled, Apply, Init;
    var tr := log + [s];
    forall i | 0 <= i < |tr| - 1 ensures NextAt(tr, i) {
      if i < |log| - 1 {
        assert NextAt(log, i);
        assert tr[i] == log[i] && tr[i + 1] == log[i + 1];
        var d :| Enabled(log[i], d) && log[i + 1] == Apply(log[i], d);
        assert Enabled(tr[i], d);
      } else {
        assert Enabled(tr[i], e);
      }
    }
  }

  /** Runs the statements of a migration body inside the open transaction. */
  method RunBody() returns (body: Body)
  {
    body := *;
  }

  class Database {
    var table: Table
    ghost var ran: seq<Migration>
    ghost var boots: map<BootId, Boot>
    ghost var log: seq<System>

    ghost function State(): System
      reads this
    {
      System(table, ran, boots)
    }

    ghost predicate Valid()
      reads this
    {
      Run(log) && log[|log| - 1] == State()
    }

    constructor ()
      ensures Valid() && table == map[]
    {
      table, ran, boots := map[], [], map[];
      log := [System(map[], [], map[])];
    }

    /** Other boots run.  Callers know only that the log went on and that their own boot stood still. */
    method Interfere(ghost b: BootId)
      requires Valid() && b in boots
      modifies this
      ensures Valid() && old(log) <= log && b in boots && boots[b] == old(boots[b])
    {}

    ghost method Record(e: Event, before: System)
      requires Run(log) && log[|log| - 1] == before
      requires Enabled(before, e) && State() == Apply(before, e)
      modifies this`log
      ensures Valid() && log == old(log) + [State()]
    {
      Extend(log, e, State());
      log := log + [State()];
    }

    ghost method SetBoot(b: BootId, boot: Boot)
      modifies this`boots
      ensures boots == old(boots)[b := boot]
    {
      boots := boots[b := boot];
    }

    method LoadApplied() returns (applied: seq<Applied>)
      ensures AppliedNames(applied) == table.Keys
      ensures forall row :: row in applied ==> row.name in table && row.checksum == table[row.name]
    {
      applied := [];
      var rest := table.Keys;
      while rest != {}
        invariant rest <= table.Keys && AppliedNames(applied) == table.Keys - rest
        invariant forall row :: row in applied ==> row.name in table && row.checksum == table[row.name]
        decreases rest
      {
        var name :| name in rest;
        rest := rest - {name};
        AddName(applied, Applied(name, table[name]));
        applied := applied + [Applied(name, table[name])];
      }
    }

    /** `apply_pending` for the binary that ships `ms`. */
    method ApplyPending(ghost b: BootId, ms: seq<Migration>) returns (outcome: Outcome)
      requires Valid() && b !in boots
      modifies this
      ensures Valid() && old(log) <= log
      ensures b in boots && boots[b].pc == Finished(outcome) && boots[b].ms == ms
      ensures outcome.Succeeded? ==> forall j :: 0 <= j < |ms| ==> MigrationTheorems.RecordedAsOwn(table, ms, j)
      ensures outcome.Drift? ==> exists j :: 0 <= j < |ms| && RecordedOtherwise(table, ms[j])
    {
      var wellFormed := CheckList(ms);
      ghost var before := State();
      SetBoot(b, Boot(ms, if wellFormed then Loading else Finished(Malformed), map[], 0));
      Record(Begin(b, ms), before);
      if !wellFormed { return Malformed; }
      Interfere(b);

      var applied, io := LoadSnapshot(b, ms);
      if io.Failed() { return DbError; }
      var verdict := EnforceNoSkipped(ms, applied);
      if !verdict.Accepted? { return NotContiguous; }

      outcome := ApplyList(b, ms, applied);
      if outcome.Succeeded? {
        forall j | 0 <= j < |ms| ensures MigrationTheorems.RecordedAsOwn(table, ms, j) {
          MigrationTheorems.OkMeansAllRecorded(log, |log| - 1, b, j);
        }
      }
    }

    method ApplyList(ghost b: BootId, ms: seq<Migration>, applied: seq<Applied>) returns (outcome: Outcome)
      requires Valid() && b in boots && boots[b].pc == Applying(0) && boots[b].ms == ms
      requires SnapshotOf(boots[b].applied, applied)
      modifies this
      ensures Valid() && old(log) <= log
      ensures b in boots && boots[b].pc == Finished(outcome) && boots[b].ms == ms
      ensures outcome.Drift? ==> exists j :: 0 <= j < |ms| && RecordedOtherwise(table, ms[j])
    {
      var i := 0;
      while i < |ms|
        invariant Valid() && old(log) <= log && i <= |ms|
        invariant b in boots && boots[b].pc == Applying(i) && boots[b].ms == ms
        invariant SnapshotOf(boots[b].applied, applied)
      {
        var row := FindApplied(applied, ms[i].name);
        if row.Some? {
          SnapshotStands(b, ms[i].name);
          PassOne(b, ms, i);
          if row.value.checksum != Checksum(ms[i]) { return Drift; }
        } else {
          Interfere(b);
          var error := ApplyOne(b, ms, i);
          if error.Some? { return error.value; }
        }
        i := i + 1;
      }
      PassOne(b, ms, i);
      outcome := Succeeded;
    }

    /** Another body is recorded under the name. */
    static ghost predicate RecordedOtherwise(table: Table, m: Migration) {
      m.name in table && table[m.name] != Sha256(m.body)
    }

    /** What the snapshot holds is still recorded. */
    ghost method SnapshotStands(b: BootId, name: string)
      requires Valid() && b in boots && boots[b].pc.Applying? && name in boots[b].applied
      ensures name in table && table[name] == boots[b].applied[name]
    {
      MigrationTheorems.RunInv(log, |log| - 1);
      hide Run;
      assert MigrationTheorems.BootOk(table, boots[b]);
    }

    ghost method PassOne(b: BootId, ms: seq<Migration>, i: nat)
      requires Valid() && b in boots && boots[b].pc == Applying(i) && boots[b].ms == ms
      requires i < |ms| ==> ms[i].name in boots[b].applied
      modifies this`boots, this`log
      ensures Valid() && old(log) <= log && boots == old(boots)[b := old(boots[b]).(pc := AfterPass(old(boots[b])))]
    {
      var before := State();
      SetBoot(b, boots[b].(pc := AfterPass(boots[b])));
      Record(Pass(b), before);
    }

    static ghost predicate SnapshotOf(snapshot: Table, applied: seq<Applied>) {
      && AppliedNames(applied) == snapshot.Keys
      && forall row :: row in applied ==> row.name in snapshot && row.checksum == snapshot[row.name]
    }

    /** The start-up guards: strictly sorted names, every body terminated. */
    static method CheckList(ms: seq<Migration>) returns (ok: bool)
      ensures ok == WellFormed(ms)
    {
      var i := 1;
      while i < |ms|
        invariant 1 <= i && forall j :: 0 <= j < i - 1 && j < |ms| - 1 ==> SortedAt(Names(ms), j)
      {
        if !Less(ms[i - 1].name, ms[i].name) {
          assert !SortedAt(Names(ms), i - 1);
          return false;
        }
        i := i + 1;
      }
      for j := 0 to |ms|
        invariant forall k :: 0 <= k < j ==> Terminated(ms[k].body)
      {
        if !Terminated(ms[j].body) { return false; }
      }
      return true;
    }

    method LoadSnapshot(ghost b: BootId, ms: seq<Migration>) returns (applied: seq<Applied>, io: Io)
      requires Valid() && b in boots && boots[b].pc == Loading && boots[b].ms == ms
      modifies this`boots, this`log
      ensures Valid() && old(log) <= log && b in boots && boots[b].ms == ms && SnapshotOf(boots[b].applied, applied)
      ensures boots[b].pc == if io.Failed() then Finished(DbError)
                             else if Contiguous(ms, AppliedNames(applied)) then Applying(0) else Finished(NotContiguous)
    {
      ghost var before := State();
      applied := LoadApplied();
      io := AskDatabase();
      ghost var contiguous := Contiguous(ms, table.Keys);
      SetBoot(b, boots[b].(
        pc := if io.Failed() then Finished(DbError) else if contiguous then Applying(0) else Finished(NotContiguous),
        applied := table));
      Record(Load(b, contiguous, io), before);
    }

    /** One transaction: claim row, then body.  A collision on the claim is settled by the winner's checksum. */
    method ApplyOne(ghost b: BootId, ms: seq<Migration>, i: nat) returns (error: Option<Outcome>)
      requires Valid() && b in boots && boots[b].pc == Applying(i) && boots[b].ms == ms && i < |ms|
      requires ms[i].name !in boots[b].applied
      modifies this
      ensures Valid() && old(log) <= log && b in boots && boots[b].ms == ms && boots[b].applied == old(boots[b].applied)
      ensures boots[b].pc == if error.None? then Applying(i + 1) else Finished(error.value)
      ensures error.None? ==> ms[i].name in table && table[ms[i].name] == Sha256(ms[i].body)
      ensures error == Some(Drift) ==> RecordedOtherwise(table, ms[i])
    {
      var collided;
      collided, error := ClaimAndRun(b, ms, i);
      if collided {
        Interfere(b);
        var io;
        error, io := VerifyRacePartner(b, ms, i);
      }
    }

    method ClaimAndRun(ghost b: BootId, ms: seq<Migration>, i: nat) returns (collided: bool, error: Option<Outcome>)
      requires Valid() && b in boots && boots[b].pc == Applying(i) && boots[b].ms == ms && i < |ms|
      requires ms[i].name !in boots[b].applied
      modifies this
      ensures Valid() && old(log) <= log && b in boots && boots[b].ms == ms && boots[b].applied == old(boots[b].applied)
      ensures boots[b].pc == if collided then Verifying(i)
                             else if error.None? then Applying(i + 1) else Finished(error.value)
      ensures table == old(table) || (ms[i].name !in old(table) && table == old(table)[ms[i].name := Checksum(ms[i])])
      ensures collided ==> table == old(table)
      ensures !collided && error.None? ==>
        ms[i].name !in old(table) && ms[i].name in table && table[ms[i].name] == Sha256(ms[i].body)
      ensures error.Some? ==> error == Some(DbError) || (error == Some(BodyFailed) && table == old(table))
    {
      ghost var before := State();
      var body := RunBody();
      var io := AskDatabase();
      var m := ms[i];
      var taken := m.name in table;
      ghost var wins := !taken && body.Ran? && io.Took();
      if !taken && body.Ran? && io.Took() {
        table := table[m.name := Checksum(m)];
        ran := ran + [m];
      }
      collided := io.Answered? && (taken || body.BrokeLikeCollision?);
      error := if io.Failed() then Some(DbError)
               else if !collided && body.Broke? then Some(BodyFailed) else None;
      SetBoot(b, boots[b].(
        pc := if collided then Verifying(i) else if error.None? then Applying(i + 1) else Finished(error.value),
        ran := if wins then boots[b].ran + 1 else boots[b].ran));
      Record(Claim(b, body, io), before);
    }

    method VerifyRacePartner(ghost b: BootId, ms: seq<Migration>, i: nat) returns (error: Option<Outcome>, io: Io)
      requires Valid() && b in boots && boots[b].pc == Verifying(i) && boots[b].ms == ms && i < |ms|
      modifies this`boots, this`log
      ensures Valid() && old(log) <= log && b in boots && boots[b].ms == ms && boots[b].applied == old(boots[b].applied)
      ensures boots[b].pc == if error.None? then Applying(i + 1) else Finished(error.value)
      ensures io == Answered ==>
        && (error.None? <==> ms[i].name in table && table[ms[i].name] == Sha256(ms[i].body))
        && (error == Some(Drift) <==> ms[i].name in table && table[ms[i].name] != Sha256(ms[i].body))
      ensures io != Answered ==> error == Some(DbError)
    {
      ghost var before := State();
      io := AskDatabase();
      var m := ms[i];
      error := if io.Failed() then Some(DbError)
               else if m.name !in table then Some(Vanished)
               else if table[m.name] != Checksum(m) then Some(Drift) else None;
      SetBoot(b, boots[b].(pc := if error.None? then Applying(i + 1) else Finished(error.value)));
      Record(Verify(b, io), before);
    }
  }
}
