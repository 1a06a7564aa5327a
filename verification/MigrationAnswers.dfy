/**
 * What each step of a boot answers and records, and that nothing but a failure keeps a boot from
 * succeeding: servers that ship the same migrations can boot at once.
 */
module MigrationAnswers {
  import opened Prelude
  import opened MigrationProtocol
  import opened MigrationTheorems

  // ---- One step --------------------------------------------------------------------------------------

  /** `n` is where the white space at the end of the body begins. */
  predicate EndsAt(body: string, n: nat) {
    && n <= |body| && (forall k :: n <= k < |body| ==> IsWhitespace(body[k]))
    && (n > 0 ==> !IsWhitespace(body[n - 1]))
  }

  /** What is left of the body without white space at its end does not end in a semicolon. */
  ghost predicate Unfinished(body: string) {
    exists n :: EndsAt(body, n) && (n == 0 || body[n - 1] != ';')
  }

  lemma EndIsUnique(body: string, n: nat, k: nat)
    requires EndsAt(body, n) && EndsAt(body, k)
    ensures n == k
  {}

  lemma UnfinishedIff(body: string)
    ensures Terminated(body) <==> !Unfinished(body)
  {
    var t := TrimEnd(body);
    var n := |t|;
    assert body[..n] == t;
    if n > 0 { assert body[n - 1] == t[n - 1]; }
    assert EndsAt(body, n);
    forall k | EndsAt(body, k) ensures k == n { EndIsUnique(body, n, k); }
  }

  /** A list is refused exactly when two neighbours are out of order or a body lacks its semicolon. */
  lemma BeginAnswers(s: System, b: BootId, ms: seq<Migration>)
    requires Enabled(s, Begin(b, ms))
    ensures var s' := Apply(s, Begin(b, ms));
      var bad := (exists i :: 0 < i < |ms| && !Less(ms[i - 1].name, ms[i].name))
                 || (exists i :: 0 <= i < |ms| && Unfinished(ms[i].body));
      && s'.table == s.table && s'.ran == s.ran
      && s'.boots[b] == Boot(ms, if bad then Finished(Malformed) else Loading, map[], 0)
  {
    forall i | 0 <= i < |ms| ensures Terminated(ms[i].body) <==> !Unfinished(ms[i].body) { UnfinishedIff(ms[i].body); }
    hide Less, Terminated, Unfinished;
    forall i | 0 <= i < |ms| - 1 ensures SortedAt(Names(ms), i) <==> Less(ms[i].name, ms[i + 1].name) {}
    if exists i :: 0 < i < |ms| && !Less(ms[i - 1].name, ms[i].name) {
      var i :| 0 < i < |ms| && !Less(ms[i - 1].name, ms[i].name);
      assert !SortedAt(Names(ms), i - 1);
    }
    if !Sorted(Names(ms)) {
      var i :| 0 <= i < |ms| - 1 && !SortedAt(Names(ms), i);
      assert 0 < i + 1 < |ms| && !Less(ms[i + 1 - 1].name, ms[i + 1].name);
    }
  }

  /** The table holds the names of the first `k` migrations and no other. */
  ghost predicate HoldsFirst(ms: seq<Migration>, table: Table, k: nat) {
    && k <= |ms| && (forall i :: 0 <= i < k ==> ms[i].name in table)
    && (forall name :: name in table ==> exists i :: 0 <= i < k && ms[i].name == name)
  }

  /** The snapshot is the table, and the boot goes on exactly when it holds the first names of the list. */
  lemma LoadAnswers(s: System, b: BootId, contiguous: bool, io: Io)
    requires Enabled(s, Load(b, contiguous, io))
    ensures var s', boot := Apply(s, Load(b, contiguous, io)), s.boots[b];
      var prefix := exists k: nat :: HoldsFirst(boot.ms, s.table, k);
      && s'.table == s.table && s'.ran == s.ran
      && s'.boots[b] == boot.(applied := s.table, pc :=
           if io != Answered then Finished(DbError) else if prefix then Applying(0) else Finished(NotContiguous))
  {
    forall k: nat { HoldsFirstIff(s.boots[b].ms, s.table, k); }
    hide IsPrefix, HoldsFirst;
  }

  lemma HoldsFirstIff(ms: seq<Migration>, table: Table, k: nat)
    ensures HoldsFirst(ms, table, k) <==> IsPrefix(ms, table.Keys, k)
  {
    if k <= |ms| {
      var first := Names(ms)[..k];
      assert forall i :: 0 <= i < k ==> first[i] == ms[i].name;
      forall name ensures name in first <==> exists i :: 0 <= i < k && ms[i].name == name {
        if name in first { var i :| 0 <= i < k && first[i] == name; }
        if i :| 0 <= i < k && ms[i].name == name { assert first[i] == name; }
      }
    }
  }

  /** A migration of the snapshot is passed over exactly when its body is the one recorded. */
  lemma PassAnswers(s: System, b: BootId)
    requires Enabled(s, Pass(b))
    ensures var s', boot := Apply(s, Pass(b)), s.boots[b]; var i := boot.pc.i;
      && s'.table == s.table && s'.ran == s.ran
      && s'.boots[b] == boot.(pc :=
           if i >= |boot.ms| then Finished(Succeeded)
           else if boot.applied[boot.ms[i].name] == Sha256(boot.ms[i].body) then Applying(i + 1) else Finished(Drift))
  {}

  /** Claim and body are one transaction: the record and the body are there together or not at all. */
  lemma ClaimAnswers(s: System, b: BootId, body: Body, io: Io)
    requires Enabled(s, Claim(b, body, io))
    ensures var s', boot := Apply(s, Claim(b, body, io)), s.boots[b]; var i := boot.pc.i;
      var m := boot.ms[i];
      var wins := m.name !in s.table && body == Ran && io.Took();
      && (wins ==> s'.ran == s.ran + [m] && s'.table == s.table[m.name := Sha256(m.body)])
      && (!wins ==> s'.ran == s.ran && s'.table == s.table)
      && s'.boots[b].pc == (
           if io != Answered then Finished(DbError)
           else if m.name in s.table then Verifying(i)
           else match body case Ran => Applying(i + 1) case Broke => Finished(BodyFailed)
                           case BrokeLikeCollision => Verifying(i))
  {}

  /** The loser of a race goes on exactly when the winner recorded the same body. */
  lemma VerifyAnswers(s: System, b: BootId)
    requires Enabled(s, Verify(b, Answered))
    ensures var s', boot := Apply(s, Verify(b, Answered)), s.boots[b]; var i := boot.pc.i;
      var m := boot.ms[i];
      && s'.table == s.table && s'.ran == s.ran
      && (s'.boots[b].pc == Applying(i + 1) <==> m.name in s.table && s.table[m.name] == Sha256(m.body))
      && (s'.boots[b].pc == Finished(Drift) <==> m.name in s.table && s.table[m.name] != Sha256(m.body))
      && (s'.boots[b].pc == Finished(Vanished) <==> m.name !in s.table)
  {}

  // ---- Boots without failures ------------------------------------------------------------------------

  predicate ShipsPart(all: seq<Migration>, ms: seq<Migration>) {
    |ms| <= |all| && ms == all[..|ms|]
  }

  /** No statement fails, no body breaks, and every binary ships the first migrations of `all`. */
  predicate Clean(all: seq<Migration>, e: Event) {
    match e
    case Begin(_, ms) => ShipsPart(all, ms)
    case Load(_, _, io) => io.Answered?
    case Pass(_) => true
    case Claim(_, body, io) => body.Ran? && io.Answered?
    case Verify(_, io) => io.Answered?
  }

  ghost predicate CleanAt(all: seq<Migration>, tr: seq<System>, i: nat)
    requires i + 1 < |tr|
  {
    exists e :: Clean(all, e) && Enabled(tr[i], e) && tr[i + 1] == Apply(tr[i], e)
  }

  ghost predicate CleanRun(all: seq<Migration>, tr: seq<System>) {
    |tr| > 0 && Init(tr[0]) && forall i :: 0 <= i < |tr| - 1 ==> CleanAt(all, tr, i)
  }

  /** The snapshot holds nothing that the binary does not know. */
  ghost predicate Knows(boot: Boot) {
    forall name :: name in boot.applied ==> name in Names(boot.ms)
  }

  ghost predicate GoesWell(all: seq<Migration>, table: Table, boot: Boot) {
    && ShipsPart(all, boot.ms)
    && match boot.pc
       case Loading => true
       case Applying(_) => Knows(boot)
       case Verifying(i) => Knows(boot) && i < |boot.ms| && boot.ms[i].name in table
       case Finished(outcome) => outcome == if Knows(boot) then Succeeded else NotContiguous
  }

  /** Whatever of `all` is recorded has the checksum it has in `all`. */
  ghost predicate Agrees(all: seq<Migration>, table: Table) {
    forall j :: 0 <= j < |all| ==> all[j].name in table ==> table[all[j].name] == Checksum(all[j])
  }

  ghost predicate AllGoWell(all: seq<Migration>, s: System) {
    Agrees(all, s.table) && forall b :: b in s.boots ==> GoesWell(all, s.table, s.boots[b])
  }

  lemma PartIsAppendOnly(all: seq<Migration>, s: System)
    requires AllGoWell(all, s)
    ensures AppendOnly(Names(all), s)
  {}

  lemma PartIsWellFormed(all: seq<Migration>, ms: seq<Migration>)
    requires WellFormed(all) && ShipsPart(all, ms)
    ensures WellFormed(ms)
  {
    SortedPrefix(Names(all), |ms|);
    assert Names(ms) == Names(all)[..|ms|];
  }

  /** With the records a prefix of `all`, the snapshot is accepted exactly when the binary knows it all. */
  lemma AcceptedIffKnown(all: seq<Migration>, ms: seq<Migration>, table: Table, ran: seq<Migration>)
    requires WellFormed(all) && ShipsPart(all, ms) && Recorded(Names(all), table, ran)
    ensures Contiguous(ms, table.Keys) <==> forall name :: name in table ==> name in Names(ms)
  {
    var k := |ran|;
    assert Names(ms) == Names(all)[..|ms|];
    KeysAre(Names(all), table, ran);
    if k <= |ms| {
      assert Names(ms)[..k] == Names(all)[..k];
      assert IsPrefix(ms, table.Keys, k);
    } else {
      assert Names(all)[..k][|ms|] == Names(all)[|ms|];
      NotKnown(Names(all), |ms|);
    }
    if Contiguous(ms, table.Keys) { var n :| IsPrefix(ms, table.Keys, n); }
  }

  lemma KeysAre(history: seq<string>, table: Table, ran: seq<Migration>)
    requires Recorded(history, table, ran)
    ensures forall name :: name in table <==> name in history[..|ran|]
  {
    forall name | name in history[..|ran|] ensures name in table {
      var k :| 0 <= k < |ran| && history[..|ran|][k] == name;
      assert Names(ran)[k] == ran[k].name;
    }
  }

  lemma NotKnown(names: seq<string>, n: nat)
    requires Sorted(names) && n < |names|
    ensures names[n] !in names[..n]
  {
    SortedIsDistinct(names);
  }

  lemma ClaimAgrees(all: seq<Migration>, table: Table, ms: seq<Migration>, i: nat)
    requires WellFormed(all) && Agrees(all, table) && ShipsPart(all, ms) && i < |ms|
    ensures Agrees(all, table[ms[i].name := Checksum(ms[i])])
  {
    SortedIsDistinct(Names(all));
    forall j | 0 <= j < |all| && all[j].name == ms[i].name ensures j == i {
      assert Names(all)[j] == Names(all)[i];
    }
  }

  /** One step, for the boot that takes it. */
  lemma OwnStep(all: seq<Migration>, s: System, e: Event)
    requires WellFormed(all) && Inv(s) && AllGoWell(all, s) && Recorded(Names(all), s.table, s.ran)
    requires Clean(all, e) && Enabled(s, e)
    ensures GoesWell(all, Apply(s, e).table, Apply(s, e).boots[e.b])
  {
    hide WellFormed, Contiguous, Recorded;
    match e {
      case Begin(b, ms) => PartIsWellFormed(all, ms);
      case Load(b, _, _) => AcceptedIffKnown(all, s.boots[b].ms, s.table, s.ran);
      case Pass(b) => PassedIsOwn(all, s, b);
      case Claim(b, _, _) =>
      case Verify(b, _) =>
        var boot := s.boots[b];
        assert boot.ms[boot.pc.i] == all[boot.pc.i];
    }
  }

  lemma PassedIsOwn(all: seq<Migration>, s: System, b: BootId)
    requires Inv(s) && AllGoWell(all, s) && Enabled(s, Pass(b))
    ensures var boot := s.boots[b];
      AtMigration(boot) ==> boot.applied[boot.ms[boot.pc.i].name] == Checksum(boot.ms[boot.pc.i])
  {
    hide WellFormed, Contiguous;
    var boot := s.boots[b];
    assert BootOk(s.table, boot) && GoesWell(all, s.table, boot);
    if AtMigration(boot) { assert boot.ms[boot.pc.i] == all[boot.pc.i]; }
  }

  /** A step moves one boot, and records nothing but the migration that this boot claims. */
  lemma StepMovesOne(s: System, e: Event)
    requires Enabled(s, e)
    ensures var s' := Apply(s, e);
      && e.b in s'.boots && s'.boots == s.boots[e.b := s'.boots[e.b]]
      && (s'.table != s.table ==>
            && e.b in s.boots && AtMigration(s.boots[e.b])
            && var m := s.boots[e.b].ms[s.boots[e.b].pc.i]; s'.table == s.table[m.name := Checksum(m)])
  {}

  lemma StepGoesWell(all: seq<Migration>, s: System, e: Event)
    requires WellFormed(all) && Inv(s) && AllGoWell(all, s) && Recorded(Names(all), s.table, s.ran)
    requires Clean(all, e) && Enabled(s, e)
    ensures AllGoWell(all, Apply(s, e))
  {
    OwnStep(all, s, e);
    StepMovesOne(s, e);
    hide Inv, WellFormed, Recorded, Names, Apply, Enabled, Clean, Knows;
    var s' := Apply(s, e);
    if s'.table != s.table { ClaimAgrees(all, s.table, s.boots[e.b].ms, s.boots[e.b].pc.i); }
    forall b | b in s'.boots && b != e.b ensures GoesWell(all, s'.table, s'.boots[b]) {
      assert GoesWell(all, s.table, s.boots[b]);
    }
  }

  lemma CleanIsRun(all: seq<Migration>, tr: seq<System>)
    requires CleanRun(all, tr)
    ensures Run(tr)
  {
    hide Clean, Enabled, Apply;
    forall i | 0 <= i < |tr| - 1 ensures NextAt(tr, i) { assert CleanAt(all, tr, i); }
  }

  lemma NothingToGoWrong(all: seq<Migration>, tr: seq<System>)
    requires CleanRun(all, tr)
    ensures AllGoWell(all, tr[0])
  {}

  lemma {:induction false} RunGoesWell(all: seq<Migration>, tr: seq<System>, i: nat)
    requires WellFormed(all) && CleanRun(all, tr) && i < |tr|
    ensures AllGoWell(all, tr[i])
  {
    hide *;
    if i == 0 {
      NothingToGoWrong(all, tr);
    } else {
      RunGoesWell(all, tr, i - 1);
      CleanIsRun(all, tr);
      RunInv(tr, i - 1);
      PartIsAppendOnly(all, tr[i - 1]);
      RunRecorded(Names(all), tr, i - 1);
      var e := CleanEvent(all, tr, i - 1);
      StepGoesWell(all, tr[i - 1], e);
    }
  }

  lemma CleanEvent(all: seq<Migration>, tr: seq<System>, i: nat) returns (e: Event)
    requires CleanRun(all, tr) && i + 1 < |tr|
    ensures Clean(all, e) && Enabled(tr[i], e) && tr[i + 1] == Apply(tr[i], e)
  {
    assert CleanAt(all, tr, i);
    hide Clean, Enabled, Apply;
    e :| Clean(all, e) && Enabled(tr[i], e) && tr[i + 1] == Apply(tr[i], e);
  }

  /**
   * Any number of servers boot at once, with any interleaving, each with the first migrations of one
   * list.  If nothing fails, every boot that has ended succeeded, unless a newer binary had already
   * recorded a migration that it does not know.
   */
  lemma CleanBootsSucceed(all: seq<Migration>, tr: seq<System>, i: nat, b: BootId)
    requires WellFormed(all) && CleanRun(all, tr) && i < |tr| && b in tr[i].boots && tr[i].boots[b].pc.Finished?
    ensures var boot := tr[i].boots[b];
      boot.pc.outcome ==
        if forall name :: name in boot.applied ==> name in Names(boot.ms) then Succeeded else NotContiguous
  {
    hide WellFormed, CleanRun, Names;
    RunGoesWell(all, tr, i);
  }

  /** In particular, servers of one release all succeed. */
  lemma EqualBinariesAllSucceed(all: seq<Migration>, tr: seq<System>, i: nat, b: BootId)
    requires WellFormed(all) && CleanRun(all, tr) && i < |tr| && b in tr[i].boots && tr[i].boots[b].pc.Finished?
    requires forall k, c :: 0 <= k < |tr| && c in tr[k].boots ==> tr[k].boots[c].ms == all
    ensures tr[i].boots[b].pc == Finished(Succeeded)
  {
    RunGoesWell(all, tr, i);
    CleanIsRun(all, tr);
    SnapshotIsKnown(all, tr, i, b);
    hide WellFormed, CleanRun, Names;
  }

  lemma {:induction false} SnapshotIsKnown(all: seq<Migration>, tr: seq<System>, i: nat, b: BootId)
    requires WellFormed(all) && CleanRun(all, tr) && i < |tr| && b in tr[i].boots && tr[i].boots[b].ms == all
    ensures Knows(tr[i].boots[b])
  {
    hide WellFormed, CleanRun, Recorded, Names, Inv, AllGoWell;
    if i == 0 {
      NoBoots(all, tr);
    } else {
      var e := CleanEvent(all, tr, i - 1);
      hide Clean;
      CleanIsRun(all, tr);
      RunGoesWell(all, tr, i - 1);
      PartIsAppendOnly(all, tr[i - 1]);
      RunRecorded(Names(all), tr, i - 1);
      if e.Load? && e.b == b {
        AllRecordsKnown(Names(all), tr[i - 1]);
      } else if b in tr[i - 1].boots {
        SnapshotIsKnown(all, tr, i - 1, b);
      }
    }
  }

  lemma NoBoots(all: seq<Migration>, tr: seq<System>)
    requires CleanRun(all, tr)
    ensures tr[0].boots == map[]
  {}

  lemma AllRecordsKnown(history: seq<string>, s: System)
    requires Recorded(history, s.table, s.ran)
    ensures forall name :: name in s.table ==> name in history
  {}

  // ---- Every boot ends -------------------------------------------------------------------------------

  /** Steps that a boot may still take. */
  function StepsLeft(boot: Boot): nat {
    match boot.pc
    case Loading => 2 * |boot.ms| + 2
    case Applying(i) => if i <= |boot.ms| then 2 * (|boot.ms| - i) + 1 else 1
    case Verifying(i) => if i < |boot.ms| then 2 * (|boot.ms| - i) else 1
    case Finished(_) => 0
  }

  /** A boot that has not ended can take a step, and every step brings it closer to its end. */
  lemma BootsEnd(s: System, b: BootId)
    requires Inv(s) && b in s.boots && !s.boots[b].pc.Finished?
    ensures exists e: Event :: !e.Begin? && e.b == b && Enabled(s, e)
    ensures forall e: Event | !e.Begin? && e.b == b && Enabled(s, e) ::
      StepsLeft(Apply(s, e).boots[b]) < StepsLeft(s.boots[b])
  {
    hide WellFormed, Contiguous;
    var boot := s.boots[b];
    assert BootOk(s.table, boot);
    hide Inv;
    match boot.pc {
      case Loading => assert Enabled(s, Load(b, Contiguous(boot.ms, s.table.Keys), Answered));
      case Applying(i) =>
        if i < |boot.ms| && boot.ms[i].name !in boot.applied {
          assert Enabled(s, Claim(b, Ran, Answered));
        } else {
          assert Enabled(s, Pass(b));
        }
      case Verifying(i) => assert Enabled(s, Verify(b, Answered));
    }
  }
}
