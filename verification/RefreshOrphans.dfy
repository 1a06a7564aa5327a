/**
 * Rows off the path of their family: replacements in flight, and orphans of calls that failed.
 * A family can hold several live rows, and this says exactly where the others come from.
 */
module RefreshOrphans {
  import opened Prelude
  import opened RefreshProtocol
  import opened RefreshSafety
  import opened RefreshTheorems

  /** The call inserted the row and has not finished with it, or one of its statements failed. */
  predicate AnswersFor(call: Call, id: RowId) {
    call.made == Some(id) && (call.pc.Swapping? || call.pc.Dropping? || !call.clean)
  }

  /** The call presents a token of the family. */
  predicate Concerns(s: System, call: Call, f: Family) {
    && call.presented in s.hist.handed && s.hist.handed[call.presented] in s.db.rows
    && s.db.rows[s.hist.handed[call.presented]].family == f
  }

  ghost predicate MadeOk(s: System, call: Call) {
    && (call.pc.Loading? || call.pc.Creating? ==> call.made.None?)
    && (call.pc.Swapping? || call.pc.Dropping? ==> call.made == Some(call.pc.id))
    && (call.made.Some? ==>
          && call.made.value in s.hist.ids && call.presented in s.hist.handed
          && (call.made.value in s.db.rows ==> Concerns(s, call, s.db.rows[call.made.value].family)))
  }

  ghost predicate MakersDiffer(calls: map<CallId, Call>) {
    forall c, d | c in calls && d in calls && calls[c].made.Some? :: calls[c].made == calls[d].made ==> c == d
  }

  ghost predicate HasMaker(s: System, id: RowId) {
    exists c :: c in s.calls && AnswersFor(s.calls[c], id)
  }

  ghost predicate Accounted(s: System) {
    && (forall c :: c in s.calls ==> MadeOk(s, s.calls[c]))
    && MakersDiffer(s.calls)
    && (forall id :: id in s.db.rows && !OnPath(s, id) ==> HasMaker(s, id))
  }

  // ---- Every step keeps the account ----------------------------------------------------------------

  /** The other calls stand still. */
  lemma OthersStandStill(s: System, e: Event)
    requires Enabled(s, e)
    ensures var s' := Apply(s, e);
      if CallOf(e).None? then s'.calls == s.calls
      else CallOf(e).value in s'.calls && s'.calls == s.calls[CallOf(e).value := s'.calls[CallOf(e).value]]
  {}

  lemma ConcernsStays(s: System, s': System, call: Call, f: Family)
    requires TableInv(s) && Advance(s, s') && Concerns(s, call, f)
    ensures Concerns(s', call, f)
  {
    var id := s.hist.handed[call.presented];
    assert HandedOk(s, call.presented);
    hide RotationPath, RowOk, Dead;
    assert OnPath(s', id);
    assert RowKept(s.db.rows[id], s'.db.rows[id]);
  }

  /** A row that a call made some time ago is not made again. */
  ghost predicate OldRowsAreOld(s: System, s': System) {
    s.hist.ids <= s'.hist.ids && forall id :: id in s.hist.ids && id in s'.db.rows ==> id in s.db.rows
  }

  lemma IdsAreFresh(s: System, e: Event)
    requires Enabled(s, e)
    ensures OldRowsAreOld(s, Apply(s, e))
  {}

  lemma MadeStays(s: System, s': System, call: Call)
    requires TableInv(s) && Advance(s, s') && OldRowsAreOld(s, s') && MadeOk(s, call)
    ensures MadeOk(s', call)
  {
    hide RotationPath, RowOk, HandedOk, OnPath, Concerns, TableInv;
    if call.made.Some? && call.made.value in s'.db.rows {
      var id := call.made.value;
      assert RowKept(s.db.rows[id], s'.db.rows[id]);
      hide Advance;
      ConcernsStays(s, s', call, s.db.rows[id].family);
    }
  }

  /** What a statement other than the insert does to its own call. */
  ghost predicate GoesOn(call: Call, call': Call) {
    && call'.presented == call.presented && call'.made == call.made
    && (call'.pc.Loading? || call'.pc.Creating? ==> call.pc.Loading?)
    && (call'.pc.Swapping? || call'.pc.Dropping? ==> call.pc.Swapping? && call'.pc.id == call.pc.id)
  }

  lemma CallerMoves(s: System, e: Event, c: CallId)
    requires Enabled(s, e) && CallOf(e) == Some(c)
    ensures c in Apply(s, e).calls
    ensures var call' := Apply(s, e).calls[c];
      if c !in s.calls then call'.made.None? && !call'.pc.Swapping? && !call'.pc.Dropping?
      else if e.CreateNew? && e.io.Took() then
        && call'.presented == s.calls[c].presented && call'.made == Some(e.id)
        && e.id in Apply(s, e).hist.ids && e.id in Apply(s, e).db.rows
        && Apply(s, e).db.rows[e.id].family == s.calls[c].pc.prior.row.family
        && (call'.pc == Finished(DbError) || (call'.pc.Swapping? && call'.pc.id == e.id))
      else GoesOn(s.calls[c], call')
  {}

  lemma GoesOnMade(s: System, call: Call, call': Call)
    requires MadeOk(s, call) && GoesOn(call, call')
    ensures MadeOk(s, call')
  {}

  lemma NewMade(s: System, call: Call)
    requires call.made.Some? && call.made.value in s.hist.ids && call.made.value in s.db.rows
    requires call.pc == Finished(DbError) || (call.pc.Swapping? && call.pc.id == call.made.value)
    requires Concerns(s, call, s.db.rows[call.made.value].family)
    ensures MadeOk(s, call)
  {}

  lemma CallerMade(s: System, e: Event, c: CallId)
    requires Inv(s) && Accounted(s) && Enabled(s, e) && CallOf(e) == Some(c) && Advance(s, Apply(s, e))
    ensures c in Apply(s, e).calls && MadeOk(Apply(s, e), Apply(s, e).calls[c])
  {
    var s' := Apply(s, e);
    CallerMoves(s, e, c);
    if c in s.calls {
      assert MadeOk(s, s.calls[c]);
      IdsAreFresh(s, e);
      TablesOf(s);
      hide *;
      MadeStays(s, s', s.calls[c]);
      if e.CreateNew? && e.io.Took() {
        MakerConcerns(s, e);
        SameConcern(s', s.calls[c], s'.calls[c], s'.db.rows[e.id].family);
        NewMade(s', s'.calls[c]);
      } else {
        GoesOnMade(s', s.calls[c], s'.calls[c]);
      }
    }
  }

  lemma SameConcern(s: System, call: Call, call': Call, f: Family)
    requires Concerns(s, call, f) && call'.presented == call.presented
    ensures Concerns(s, call', f)
  {}

  lemma MakerConcerns(s: System, e: Event)
    requires Inv(s) && Enabled(s, e) && e.CreateNew? && e.io.Took() && Advance(s, Apply(s, e))
    ensures Concerns(Apply(s, e), s.calls[e.c], s.calls[e.c].pc.prior.row.family)
  {
    hide RotationPath, RowOk, HandedOk, Advance, Dead;
    assert CallOk(s, s.calls[e.c]);
    assert Concerns(s, s.calls[e.c], s.calls[e.c].pc.prior.row.family);
    ConcernsStays(s, Apply(s, e), s.calls[e.c], s.calls[e.c].pc.prior.row.family);
  }

  lemma MakersStayDifferent(s: System, e: Event)
    requires Accounted(s) && Enabled(s, e)
    ensures MakersDiffer(Apply(s, e).calls)
  {
    var s' := Apply(s, e);
    OthersStandStill(s, e);
    if CallOf(e).Some? {
      var c := CallOf(e).value;
      assert s'.calls[c].made == (if c in s.calls then s.calls[c].made else None)
             || (s'.calls[c].made.Some? && s'.calls[c].made.value !in s.hist.ids);
      hide Apply, Enabled;
      forall d | d in s.calls && s.calls[d].made.Some? ensures s.calls[d].made.value in s.hist.ids {
        assert MadeOk(s, s.calls[d]);
      }
    }
  }

  /** A call keeps answering for its row as long as the row is there and off the path. */
  lemma AnswerStays(s: System, e: Event, c: CallId, id: RowId)
    requires Inv(s) && Enabled(s, e) && c in s.calls && MadeOk(s, s.calls[c]) && AnswersFor(s.calls[c], id)
    requires id in Apply(s, e).db.rows && !OnPath(Apply(s, e), id) && id in s.db.rows
    ensures c in Apply(s, e).calls && AnswersFor(Apply(s, e).calls[c], id)
  {
    hide Inv, TableInv, OnPath, Concerns;
    OthersStandStill(s, e);
    if CallOf(e) == Some(c) && SwapsLive(s, e) { WinnersRowIsOnPath(s, e); }
  }

  lemma WinnersRowIsOnPath(s: System, e: Event)
    requires Inv(s) && SwapsLive(s, e)
    ensures OnPath(Apply(s, e), s.calls[e.c].pc.id)
  {
    hide RotationPath, Dead, RowOk, HandedOk;
    assert CallOk(s, s.calls[e.c]);
  }

  /** A row that just came is on the path or made by the call that inserted it. */
  lemma NewRowHasMaker(s: System, e: Event, id: RowId)
    requires Enabled(s, e) && id in Apply(s, e).db.rows && id !in s.db.rows && !OnPath(Apply(s, e), id)
    ensures HasMaker(Apply(s, e), id)
  {
    assert e.CreateNew? && e.io.Took() && e.id == id;
    assert AnswersFor(Apply(s, e).calls[e.c], id);
  }

  lemma PathsKept(s: System, s': System)
    requires Advance(s, s')
    ensures forall id :: OnPath(s, id) ==> OnPath(s', id)
  {
    hide OnPath;
  }

  lemma StepKeepsMade(s: System, e: Event)
    requires Inv(s) && Accounted(s) && Enabled(s, e) && Advance(s, Apply(s, e))
    ensures forall c :: c in Apply(s, e).calls ==> MadeOk(Apply(s, e), Apply(s, e).calls[c])
  {
    var s' := Apply(s, e);
    IdsAreFresh(s, e);
    OthersStandStill(s, e);
    TablesOf(s);
    hide Inv, Apply, Enabled, TableInv, OldRowsAreOld, MadeOk, MakersDiffer, HasMaker, OnPath, Advance;
    forall c | c in s'.calls ensures MadeOk(s', s'.calls[c]) {
      if CallOf(e) == Some(c) { CallerMade(s, e, c); } else { MadeStays(s, s', s.calls[c]); }
    }
  }

  lemma RowHasMaker(s: System, e: Event, id: RowId)
    requires Inv(s) && Accounted(s) && Enabled(s, e) && Advance(s, Apply(s, e))
    requires id in Apply(s, e).db.rows && !OnPath(Apply(s, e), id)
    ensures HasMaker(Apply(s, e), id)
  {
    hide Inv, Apply, Enabled, MadeOk, MakersDiffer, OnPath, Advance, AnswersFor;
    PathsKept(s, Apply(s, e));
    if id in s.db.rows {
      assert HasMaker(s, id);
      var c :| c in s.calls && AnswersFor(s.calls[c], id);
      AnswerStays(s, e, c, id);
    } else {
      NewRowHasMaker(s, e, id);
    }
  }

  lemma StepKeepsAccount(s: System, e: Event)
    requires Inv(s) && Accounted(s) && Enabled(s, e)
    ensures Accounted(Apply(s, e))
  {
    hide Inv, Apply, Enabled, MadeOk, MakersDiffer, OnPath, Advance, HasMaker;
    var s' := Apply(s, e);
    Step(s, e);
    MakersStayDifferent(s, e);
    StepKeepsMade(s, e);
    forall id | id in s'.db.rows && !OnPath(s', id) ensures HasMaker(s', id) { RowHasMaker(s, e, id); }
  }

  lemma {:induction false} RunIsAccounted(tr: seq<System>, i: nat)
    requires Run(tr) && i < |tr|
    ensures Accounted(tr[i])
  {
    hide Inv, Accounted, Apply, Enabled;
    if i == 0 {
      assert Accounted(tr[0]) by { StartIsAccounted(tr[0]); }
    } else {
      RunIsAccounted(tr, i - 1);
      RunInv(tr, i - 1);
      assert NextAt(tr, i - 1);
      var e :| Enabled(tr[i - 1], e) && tr[i] == Apply(tr[i - 1], e);
      StepKeepsAccount(tr[i - 1], e);
    }
  }

  lemma StartIsAccounted(s: System)
    requires Init(s)
    ensures Accounted(s)
  {}

  // ---- What follows --------------------------------------------------------------------------------

  /** Every row off its path was made by one call on that family, which is still at work on it or
      one of whose statements failed. */
  lemma OrphansHaveMakers(tr: seq<System>, i: nat, id: RowId) returns (c: CallId)
    requires Run(tr) && i < |tr| && id in tr[i].db.rows && !OnPath(tr[i], id)
    ensures c in tr[i].calls && AnswersFor(tr[i].calls[c], id)
    ensures Concerns(tr[i], tr[i].calls[c], tr[i].db.rows[id].family)
  {
    RunIsAccounted(tr, i);
    hide Run;
    c :| c in tr[i].calls && AnswersFor(tr[i].calls[c], id);
    assert MadeOk(tr[i], tr[i].calls[c]);
  }

  function OrphansOf(s: System, f: Family): set<RowId> {
    set id | id in s.db.rows && s.db.rows[id].family == f && !(f in s.hist.chain && id in s.hist.chain[f])
  }

  /** The calls on the family that are at work on a row of theirs, or failed somewhere after making one. */
  function Makers(s: System, f: Family): set<CallId> {
    set c | c in s.calls && s.calls[c].made.Some? && AnswersFor(s.calls[c], s.calls[c].made.value)
            && Concerns(s, s.calls[c], f)
  }

  /** So rows do not pile up: a family has no more rows off its path than such calls. */
  lemma OrphansAreFew(tr: seq<System>, i: nat, f: Family)
    requires Run(tr) && i < |tr|
    ensures |OrphansOf(tr[i], f)| <= |Makers(tr[i], f)|
  {
    var s := tr[i];
    var made := map c | c in Makers(s, f) :: s.calls[c].made.value;
    forall id | id in OrphansOf(s, f) ensures id in made.Values {
      var c := OrphansHaveMakers(tr, i, id);
      assert c in made && made[c] == id;
    }
    ValuesAreFew(made);
    FewerElements(OrphansOf(s, f), made.Values);
    assert made.Keys == Makers(s, f);
  }

  lemma {:induction false} ValuesAreFew(m: map<nat, nat>)
    ensures |m.Values| <= |m.Keys|
    decreases |m.Keys|
  {
    if m.Keys != {} {
      var k :| k in m.Keys;
      var rest := m - {k};
      assert rest.Keys == m.Keys - {k};
      ValuesAreFew(rest);
      forall v | v in m.Values ensures v in rest.Values + {m[k]} {
        var x :| x in m && m[x] == v;
        if x != k { assert x in rest && rest[x] == v; }
      }
      FewerElements(m.Values, rest.Values + {m[k]});
    }
  }

  lemma {:induction false} FewerElements(a: set<nat>, b: set<nat>)
    requires a <= b
    ensures |a| <= |b|
    decreases a
  {
    if a != {} {
      var x :| x in a;
      FewerElements(a - {x}, b - {x});
    }
  }

  /** No call on the family is still at work, and none of them met a failure. */
  ghost predicate Quiet(s: System, f: Family) {
    forall c :: c in s.calls && Concerns(s, s.calls[c], f) ==> s.calls[c].pc.Finished? && s.calls[c].clean
  }

  /** Then the family has at most one live row: all the others were replaced or cleaned up. */
  lemma OneLiveRowWhenQuiet(tr: seq<System>, i: nat, f: Family, a: RowId, b: RowId)
    requires Run(tr) && i < |tr| && Quiet(tr[i], f)
    requires tr[i].db.Unrevoked(a) && tr[i].db.rows[a].family == f
    requires tr[i].db.Unrevoked(b) && tr[i].db.rows[b].family == f
    ensures a == b
  {
    hide Inv, TableInv, RotationPath, Concerns, Run;
    if !OnPath(tr[i], a) { var c := OrphansHaveMakers(tr, i, a); }
    if !OnPath(tr[i], b) { var c := OrphansHaveMakers(tr, i, b); }
    RunInv(tr, i);
    OneLiveOnPath(tr[i], a, b);
  }

  lemma OneLiveOnPath(s: System, a: RowId, b: RowId)
    requires Inv(s) && OnPath(s, a) && OnPath(s, b) && s.db.rows[a].family == s.db.rows[b].family
    requires s.db.rows[a].Live() && s.db.rows[b].Live()
    ensures a == b
  {
    var f := s.db.rows[a].family;
    assert RotationPath(s.db, f, s.hist.chain[f]);
    OnlyLastLive(s.db, f, s.hist.chain[f], a);
    OnlyLastLive(s.db, f, s.hist.chain[f], b);
  }

  /** Without that, two live rows: a rotation between its insert and its compare-and-set leaves both. */
  lemma RotationInFlightHasTwoLiveRows(tr: seq<System>, i: nat, c: CallId)
    requires Run(tr) && i < |tr| && c in tr[i].calls && tr[i].calls[c].pc.Swapping?
    requires tr[i].db.Unrevoked(tr[i].calls[c].pc.prior.id)
    ensures var pc, db := tr[i].calls[c].pc, tr[i].db;
      pc.id != pc.prior.id && db.Unrevoked(pc.id) && db.rows[pc.id].family == db.rows[pc.prior.id].family
  {
    CallAt(tr, i, c);
    hide RotationPath, TableInv;
  }

  lemma Grow(tr: seq<System>, e: Event) returns (tr': seq<System>)
    requires Run(tr) && Enabled(tr[|tr| - 1], e)
    ensures tr' == tr + [Apply(tr[|tr| - 1], e)] && Run(tr')
  {
    hide Enabled, Apply, Init;
    tr' := tr + [Apply(tr[|tr| - 1], e)];
    forall i | 0 <= i < |tr'| - 1 ensures NextAt(tr', i) {
      if i < |tr| - 1 {
        assert NextAt(tr, i);
        assert Next(tr'[i], tr'[i + 1]);
      } else {
        assert Next(tr'[i], tr'[i + 1]);
      }
    }
  }

  /** One session, one rotation that inserted its replacement: a run without failures and with two
      live rows in one family. */
  lemma TwoLiveRowsAreReachable() returns (tr: seq<System>)
    ensures Run(tr)
    ensures var s := tr[|tr| - 1];
      && s.db.Unrevoked(0) && s.db.Unrevoked(1) && s.db.rows[0].family == s.db.rows[1].family
      && forall c :: c in s.calls ==> s.calls[c].clean
  {
    hide Run;
    tr := [System(Db(map[], map[]), map[], History({}, {}, map[], map[], map[]))];
    assert Run(tr) by { OneState(tr); }
    tr := Grow(tr, Issue(0, 0, 0, 0, 0, 10, Answered));
    tr := Grow(tr, BeginRotate(0, 0));
    tr := Grow(tr, Load(0, Some(0), 0, Answered));
    tr := Grow(tr, CreateNew(0, 1, 1, 0, 10, Answered));
  }

  lemma OneState(tr: seq<System>)
    requires |tr| == 1 && Init(tr[0])
    ensures Run(tr)
  {}
}
