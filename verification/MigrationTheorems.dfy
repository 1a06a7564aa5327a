/** What concurrent boots guarantee about the schema history. */
module MigrationTheorems {
  import opened Prelude
  import opened MigrationProtocol

  lemma {:induction false} SortedIsOrdered(names: seq<string>, i: nat, j: nat)
    requires Sorted(names) && i < j < |names|
    ensures Less(names[i], names[j])
  {
    assert SortedAt(names, j - 1);
    if i < j - 1 {
      SortedIsOrdered(names, i, j - 1);
      LessIsTransitive(names[i], names[j - 1], names[j]);
    }
  }

  lemma SortedIsDistinct(names: seq<string>)
    requires Sorted(names)
    ensures forall i, j :: 0 <= i < |names| && 0 <= j < |names| && names[i] == names[j] ==> i == j
  {
    forall i, j | 0 <= i < j < |names| ensures names[i] != names[j] {
      SortedIsOrdered(names, i, j);
      LessIsIrreflexive(names[i]);
    }
  }

  /** The records are those of `ran`, which are the first names of the history, each once, in order. */
  ghost predicate Recorded(history: seq<string>, table: Table, ran: seq<Migration>) {
    && |ran| <= |history| && Names(ran) == history[..|ran|] && Sorted(history[..|ran|])
    && (forall i :: 0 <= i < |ran| ==> ran[i].name in table && table[ran[i].name] == Checksum(ran[i]))
    && (forall name :: name in table ==> name in history[..|ran|])
  }

  ghost predicate RecordedAsOwn(table: Table, ms: seq<Migration>, j: nat)
    requires j < |ms|
  {
    ms[j].name in table && table[ms[j].name] == Checksum(ms[j])
  }

  /** Some migration of `ms` that the snapshot records has another checksum there. */
  ghost predicate Drifted(boot: Boot) {
    exists d :: 0 <= d < |boot.ms| && boot.ms[d].name in boot.applied
                && boot.applied[boot.ms[d].name] != Checksum(boot.ms[d])
  }

  ghost predicate Progress(table: Table, boot: Boot, i: nat) {
    && i <= |boot.ms| && WellFormed(boot.ms) && Contiguous(boot.ms, boot.applied.Keys)
    && (forall name :: name in boot.applied ==> name in table && table[name] == boot.applied[name])
    && (forall j :: 0 <= j < i ==> RecordedAsOwn(table, boot.ms, j))
  }

  ghost predicate BootOk(table: Table, boot: Boot) {
    && (match boot.pc
        case Loading => WellFormed(boot.ms) && boot.applied == map[] && boot.ran == 0
        case Applying(i) => Progress(table, boot, i)
        case Verifying(i) => Progress(table, boot, i) && i < |boot.ms|
        case Finished(Succeeded) => Progress(table, boot, |boot.ms|)
        case Finished(_) => true)
    && (Drifted(boot) ==> boot.ran == 0)
  }

  ghost predicate Inv(s: System) {
    forall b :: b in s.boots ==> BootOk(s.table, s.boots[b])
  }

  lemma RecordedIndex(history: seq<string>, table: Table, ran: seq<Migration>, ms: seq<Migration>, j: nat)
    requires Recorded(history, table, ran) && j < |ms| <= |history|
    requires Names(ms) == history[..|ms|] && Sorted(Names(ms))
    ensures ms[j].name in table <==> j < |ran|
  {
    SortedIsDistinct(Names(ms));
    assert ms[j].name == Names(ms)[j] == history[j];
    if ms[j].name in table {
      var e :| 0 <= e < |ran| && history[..|ran|][e] == ms[j].name;
      if e < |ms| { assert Names(ms)[e] == history[e]; }
    }
    if j < |ran| { assert ran[j].name == Names(ran)[j] == history[j]; }
  }

  /** A boot past a prefix it found recorded stands exactly at the first unrecorded migration. */
  lemma NextUnrecorded(history: seq<string>, s: System, b: BootId)
    requires Inv(s) && AppendOnly(history, s) && Recorded(history, s.table, s.ran)
    requires b in s.boots && AtMigration(s.boots[b]) && s.boots[b].ms[s.boots[b].pc.i].name !in s.table
    ensures s.boots[b].pc.i == |s.ran|
  {
    var boot := s.boots[b];
    assert BootOk(s.table, boot);
    var i, k := boot.pc.i, |s.ran|;
    hide Recorded, Contiguous, Inv, AppendOnly;
    RecordedIndex(history, s.table, s.ran, boot.ms, i);
    assert k < i ==> RecordedAsOwn(s.table, boot.ms, k);
    if k < |boot.ms| { RecordedIndex(history, s.table, s.ran, boot.ms, k); }
  }

  /** In a prefix of a sorted list, a name is recorded exactly when its index is below the length of the prefix. */
  lemma PrefixIndex(ms: seq<Migration>, applied: set<string>, k: nat, i: nat)
    requires Sorted(Names(ms)) && IsPrefix(ms, applied, k) && i < |ms|
    ensures ms[i].name in applied <==> i < k
  {
    SortedIsDistinct(Names(ms));
    if i < k { assert Names(ms)[..k][i] == ms[i].name; }
    if ms[i].name in applied {
      var e :| 0 <= e < k && Names(ms)[..k][e] == ms[i].name;
      assert Names(ms)[e] == Names(ms)[i];
    }
  }

  /** A boot whose snapshot shows drift never reaches a migration that it would run. */
  lemma DriftStopsFirst(table: Table, boot: Boot)
    requires BootOk(table, boot) && AtMigration(boot) && Drifted(boot)
    ensures boot.ms[boot.pc.i].name in boot.applied
  {
    hide IsPrefix;
    var i := boot.pc.i;
    var d :| 0 <= d < |boot.ms| && boot.ms[d].name in boot.applied
             && boot.applied[boot.ms[d].name] != Checksum(boot.ms[d]);
    assert d < i ==> RecordedAsOwn(table, boot.ms, d);
    var k :| IsPrefix(boot.ms, boot.applied.Keys, k);
    PrefixIndex(boot.ms, boot.applied.Keys, k, d);
    PrefixIndex(boot.ms, boot.applied.Keys, k, i);
  }

  ghost predicate Grows(before: Table, after: Table) {
    forall name :: name in before ==> name in after && after[name] == before[name]
  }

  lemma BootStays(table: Table, table': Table, boot: Boot)
    requires BootOk(table, boot) && Grows(table, table')
    ensures BootOk(table', boot)
  {
    hide Contiguous, WellFormed, Drifted;
    forall j | 0 <= j < |boot.ms| && RecordedAsOwn(table, boot.ms, j) ensures RecordedAsOwn(table', boot.ms, j) {}
  }

  lemma SortedPrefix(names: seq<string>, k: nat)
    requires Sorted(names) && k <= |names|
    ensures Sorted(names[..k])
  {
    var p := names[..k];
    forall i | 0 <= i < |p| - 1 ensures SortedAt(p, i) { assert SortedAt(names, i); }
  }

  lemma ClaimGrows(s: System, b: BootId, body: Body, io: Io)
    requires b in s.boots && AtMigration(s.boots[b])
    ensures Grows(s.table, ApplyClaim(s, b, body, io).table)
  {}

  lemma PassSteps(table: Table, boot: Boot)
    requires BootOk(table, boot) && boot.pc.Applying?
    requires AtMigration(boot) ==> boot.ms[boot.pc.i].name in boot.applied
    ensures BootOk(table, boot.(pc := AfterPass(boot)))
  {
    hide Contiguous, WellFormed;
    if AtMigration(boot) && boot.applied[boot.ms[boot.pc.i].name] == Checksum(boot.ms[boot.pc.i]) {
      assert RecordedAsOwn(table, boot.ms, boot.pc.i);
    }
  }

  lemma ReadSteps(s: System, e: Event)
    requires Inv(s) && Enabled(s, e) && !e.Claim?
    ensures var s' := Apply(s, e); s'.boots == s.boots[e.b := s'.boots[e.b]] && s'.table == s.table && s'.ran == s.ran
    ensures BootOk(s.table, Apply(s, e).boots[e.b])
  {
    hide WellFormed;
    if e.b in s.boots {
      var boot := s.boots[e.b];
      assert BootOk(s.table, boot);
      if e.Pass? { PassSteps(s.table, boot); }
      if e.Verify? { hide Contiguous; }
    }
  }

  lemma ClaimSteps(s: System, b: BootId, body: Body, io: Io)
    requires Inv(s) && Enabled(s, Claim(b, body, io))
    ensures var s' := ApplyClaim(s, b, body, io); BootOk(s'.table, s'.boots[b])
  {
    hide Contiguous, WellFormed, Drifted;
    var s' := ApplyClaim(s, b, body, io);
    var boot := s.boots[b];
    assert BootOk(s.table, boot);
    ClaimGrows(s, b, body, io);
    BootStays(s.table, s'.table, boot);
    if Drifted(boot) { DriftStopsFirst(s.table, boot); }
    SameDrift(boot, s'.boots[b]);
  }

  lemma SameDrift(boot: Boot, boot': Boot)
    requires boot'.ms == boot.ms && boot'.applied == boot.applied
    ensures Drifted(boot') == Drifted(boot)
  {}

  lemma Step(s: System, e: Event)
    requires Inv(s) && Enabled(s, e)
    ensures Inv(Apply(s, e)) && Grows(s.table, Apply(s, e).table)
  {
    hide BootOk;
    var s' := Apply(s, e);
    if e.Claim? {
      ClaimGrows(s, e.b, e.body, e.io);
      ClaimSteps(s, e.b, e.body, e.io);
    } else {
      ReadSteps(s, e);
    }
    forall b | b in s'.boots ensures BootOk(s'.table, s'.boots[b]) {
      if b != e.b { BootStays(s.table, s'.table, s.boots[b]); }
    }
  }

  lemma RunStart(tr: seq<System>)
    requires Run(tr)
    ensures Inv(tr[0]) && forall history :: Recorded(history, tr[0].table, tr[0].ran)
  {}

  lemma EventAt(tr: seq<System>, i: nat) returns (e: Event)
    requires Run(tr) && i + 1 < |tr|
    ensures Enabled(tr[i], e) && tr[i + 1] == Apply(tr[i], e)
  {
    hide Enabled, Apply;
    assert NextAt(tr, i);
    e :| Enabled(tr[i], e) && tr[i + 1] == Apply(tr[i], e);
  }

  lemma {:induction false} RunInv(tr: seq<System>, i: nat)
    requires Run(tr) && i < |tr|
    ensures Inv(tr[i])
  {
    hide *;
    if i == 0 {
      RunStart(tr);
    } else {
      RunInv(tr, i - 1);
      var e := EventAt(tr, i - 1);
      Step(tr[i - 1], e);
    }
  }

  // ---- One append-only history -----------------------------------------------------------------

  lemma Appended(history: seq<string>, ran: seq<Migration>, m: Migration)
    requires |ran| < |history| && Names(ran) == history[..|ran|] && m.name == history[|ran|]
    ensures Names(ran + [m]) == history[..|ran| + 1]
  {}

  lemma ClaimKeepsRecords(history: seq<string>, s: System, b: BootId, body: Body, io: Io)
    requires Inv(s) && AppendOnly(history, s) && Recorded(history, s.table, s.ran) && Enabled(s, Claim(b, body, io))
    ensures var s' := ApplyClaim(s, b, body, io); Recorded(history, s'.table, s'.ran)
  {
    var boot := s.boots[b];
    var m := boot.ms[boot.pc.i];
    if m.name !in s.table && body.Ran? && io.Took() {
      NextUnrecorded(history, s, b);
      assert BootOk(s.table, boot);
      WinnerAppends(history, s.table, s.ran, boot.ms, boot.pc.i);
    }
  }

  lemma WinnerAppends(history: seq<string>, table: Table, ran: seq<Migration>, ms: seq<Migration>, i: nat)
    requires Recorded(history, table, ran) && i == |ran| < |ms| <= |history| && ms[i].name !in table
    requires WellFormed(ms) && Names(ms) == history[..|ms|]
    ensures Recorded(history, table[ms[i].name := Checksum(ms[i])], ran + [ms[i]])
  {
    var m := ms[i];
    assert Names(ms)[i] == m.name;
    assert history[..i + 1] == history[..i] + [m.name];
    Appended(history, ran, m);
    SortedPrefix(Names(ms), i + 1);
    assert history[..i + 1] == Names(ms)[..i + 1];
    hide Sorted, WellFormed, Names;
    forall j | 0 <= j < i ensures ran[j].name != m.name {
      assert ran[j].name in table;
    }
  }

  /** Boots never disappear and never ship something else, so the hypothesis holds at every earlier moment. */
  lemma {:induction false} AppendOnlyBefore(history: seq<string>, tr: seq<System>, i: nat, j: nat)
    requires Run(tr) && i <= j < |tr| && AppendOnly(history, tr[j])
    ensures AppendOnly(history, tr[i])
    decreases j
  {
    hide Run, AppendOnly;
    if i < j {
      var e := EventAt(tr, j - 1);
      BootsStay(history, tr[j - 1], e);
      AppendOnlyBefore(history, tr, i, j - 1);
    }
  }

  lemma BootsStay(history: seq<string>, s: System, e: Event)
    requires Enabled(s, e) && AppendOnly(history, Apply(s, e))
    ensures AppendOnly(history, s)
  {
    forall b | b in s.boots
      ensures |s.boots[b].ms| <= |history| && Names(s.boots[b].ms) == history[..|s.boots[b].ms|]
    {
      assert b in Apply(s, e).boots && Apply(s, e).boots[b].ms == s.boots[b].ms;
    }
  }

  lemma {:induction false} RunRecorded(history: seq<string>, tr: seq<System>, i: nat)
    requires Run(tr) && i < |tr| && AppendOnly(history, tr[i])
    ensures Recorded(history, tr[i].table, tr[i].ran)
  {
    hide *;
    if i == 0 {
      RunStart(tr);
    } else {
      AppendOnlyBefore(history, tr, i - 1, i);
      RunRecorded(history, tr, i - 1);
      RunInv(tr, i - 1);
      var e := EventAt(tr, i - 1);
      StepRecords(history, tr[i - 1], e);
    }
  }

  lemma StepRecords(history: seq<string>, s: System, e: Event)
    requires Inv(s) && Enabled(s, e) && AppendOnly(history, s) && Recorded(history, s.table, s.ran)
    ensures Recorded(history, Apply(s, e).table, Apply(s, e).ran)
  {
    hide Recorded, Inv, AppendOnly;
    if e.Claim? { ClaimKeepsRecords(history, s, e.b, e.body, e.io); } else { ReadSteps(s, e); }
  }

  // ---- Theorems --------------------------------------------------------------------------------

  /** If the binaries ship prefixes of one append-only list, then at every moment of every
      interleaving the recorded migrations are a prefix of that list, each body of the prefix was
      committed exactly once and in order, and each record carries its checksum. */
  lemma RecordedIsAPrefix(history: seq<string>, tr: seq<System>, i: nat)
    requires Run(tr) && i < |tr| && AppendOnly(history, tr[i])
    ensures var s := tr[i];
      && |s.ran| <= |history| && Names(s.ran) == history[..|s.ran|]
      && (forall name :: name in s.table <==> name in history[..|s.ran|])
      && (forall k :: 0 <= k < |s.ran| ==> s.ran[k].name in s.table && s.table[s.ran[k].name] == Checksum(s.ran[k]))
      && (forall j, k :: 0 <= j < k < |s.ran| ==> s.ran[j].name != s.ran[k].name)
  {
    RunRecorded(history, tr, i);
    var s := tr[i];
    hide Run, AppendOnly;
    SortedIsDistinct(history[..|s.ran|]);
    forall name | name in history[..|s.ran|] ensures name in s.table {
      var k :| 0 <= k < |s.ran| && history[..|s.ran|][k] == name;
      assert Names(s.ran)[k] == s.ran[k].name;
    }
    forall j, k | 0 <= j < k < |s.ran| ensures s.ran[j].name != s.ran[k].name {
      assert Names(s.ran)[j] != Names(s.ran)[k];
    }
  }

  /** A boot that returned Ok has, then and ever after, all its migrations recorded with its own
      checksums, whatever other binaries ship. */
  lemma OkMeansAllRecorded(tr: seq<System>, i: nat, b: BootId, j: nat)
    requires Run(tr) && i < |tr| && b in tr[i].boots && tr[i].boots[b].pc == Finished(Succeeded)
    requires j < |tr[i].boots[b].ms|
    ensures RecordedAsOwn(tr[i].table, tr[i].boots[b].ms, j)
  {
    RunInv(tr, i);
    assert BootOk(tr[i].table, tr[i].boots[b]);
    hide Run, Inv;
  }

  /** Two binaries that ship different bodies under one name cannot both boot successfully. */
  lemma DivergentBinariesCannotBothSucceed(tr: seq<System>, i: nat, b: BootId, c: BootId, j: nat, k: nat)
    requires Run(tr) && i < |tr| && b in tr[i].boots && c in tr[i].boots
    requires tr[i].boots[b].pc == Finished(Succeeded) && tr[i].boots[c].pc == Finished(Succeeded)
    requires j < |tr[i].boots[b].ms| && k < |tr[i].boots[c].ms|
    requires tr[i].boots[b].ms[j].name == tr[i].boots[c].ms[k].name
    ensures tr[i].boots[b].ms[j] == tr[i].boots[c].ms[k]
  {
    OkMeansAllRecorded(tr, i, b, j);
    OkMeansAllRecorded(tr, i, c, k);
    hide Run;
  }

  /** A boot whose snapshot shows a changed checksum runs no migration and does not succeed. */
  lemma DriftRunsNothing(tr: seq<System>, i: nat, b: BootId)
    requires Run(tr) && i < |tr| && b in tr[i].boots && Drifted(tr[i].boots[b])
    ensures tr[i].boots[b].ran == 0 && tr[i].boots[b].pc != Finished(Succeeded)
  {
    RunInv(tr, i);
    var boot := tr[i].boots[b];
    assert BootOk(tr[i].table, boot);
    hide Run, Inv, Contiguous, WellFormed;
    var d :| 0 <= d < |boot.ms| && boot.ms[d].name in boot.applied
             && boot.applied[boot.ms[d].name] != Checksum(boot.ms[d]);
    assert boot.pc == Finished(Succeeded) ==> RecordedAsOwn(tr[i].table, boot.ms, d);
  }
}
