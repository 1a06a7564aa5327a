/** The promises of refresh-token rotation, for every run of the protocol. */
module RefreshTheorems {
  import opened Prelude
  import opened RefreshProtocol
  import opened RefreshSafety

  lemma InitInv(s: System)
    requires Init(s)
    ensures Inv(s)
  {}

  lemma {:induction false} RunInv(tr: seq<System>, i: nat)
    requires Run(tr) && i < |tr|
    ensures Inv(tr[i])
  {
    hide Inv, Init;
    if i == 0 {
      InitInv(tr[0]);
    } else {
      RunInv(tr, i - 1);
      assert NextAt(tr, i - 1);
      var e :| Enabled(tr[i - 1], e) && tr[i] == Apply(tr[i - 1], e);
      Step(tr[i - 1], e);
    }
  }

  lemma OneStep(tr: seq<System>, i: nat)
    requires Run(tr) && i + 1 < |tr|
    ensures Advance(tr[i], tr[i + 1])
  {
    hide Inv, Init, Advance;
    RunInv(tr, i);
    assert NextAt(tr, i);
    var e :| Enabled(tr[i], e) && tr[i + 1] == Apply(tr[i], e);
    Step(tr[i], e);
  }

  lemma EventAt(tr: seq<System>, i: nat) returns (e: Event)
    requires Run(tr) && i + 1 < |tr|
    ensures Inv(tr[i]) && Enabled(tr[i], e) && tr[i + 1] == Apply(tr[i], e)
  {
    hide Inv, Init, Enabled, Apply;
    RunInv(tr, i);
    assert NextAt(tr, i);
    e :| Enabled(tr[i], e) && tr[i + 1] == Apply(tr[i], e);
  }

  lemma CallAt(tr: seq<System>, i: nat, c: CallId)
    requires Run(tr) && i < |tr| && c in tr[i].calls
    ensures CallOk(tr[i], tr[i].calls[c])
  {
    hide RotationPath, CallOk, TableInv;
    RunInv(tr, i);
  }

  /** Of two plaintexts of one family in clients' hands, at most one has a live row. */
  lemma AtMostOneLiveHandedOut(tr: seq<System>, i: nat, t: Token, u: Token)
    requires Run(tr) && i < |tr|
    requires t in tr[i].hist.handed && u in tr[i].hist.handed
    requires var db, h := tr[i].db, tr[i].hist.handed;
      db.Unrevoked(h[t]) && db.Unrevoked(h[u]) && db.rows[h[t]].family == db.rows[h[u]].family
    ensures t == u
  {
    RunInv(tr, i);
    var s := tr[i];
    assert HandedOk(s, t) && HandedOk(s, u);
    var f := s.db.rows[s.hist.handed[t]].family;
    OnlyLastLive(s.db, f, s.hist.chain[f], s.hist.handed[t]);
    OnlyLastLive(s.db, f, s.hist.chain[f], s.hist.handed[u]);
  }

  /** A family that has a row and no live handed-out row never gets a live handed-out row again. */
  lemma DeadFamilyStaysDead(tr: seq<System>, i: nat, j: nat, f: Family, id: RowId)
    requires Run(tr) && i <= j < |tr|
    requires id in tr[i].db.rows && tr[i].db.rows[id].family == f && Dead(tr[i], f)
    ensures Dead(tr[j], f)
  {
    RunInv(tr, i);
    assert RowOk(tr[i], id);
    DeadFrom(tr, i, j, f);
  }

  lemma {:induction false} DeadFrom(tr: seq<System>, i: nat, j: nat, f: Family)
    requires Run(tr) && i <= j < |tr| && f in tr[i].hist.chain && Dead(tr[i], f)
    ensures Dead(tr[j], f)
    decreases j - i
  {
    if i < j {
      OneStep(tr, i);
      DeadFrom(tr, i + 1, j, f);
    }
  }

  lemma NoSharedRow(tr: seq<System>, i: nat, c: CallId, d: CallId)
    requires Run(tr) && i < |tr| && c in tr[i].calls && d in tr[i].calls && c != d
    ensures Created(tr[i].calls[c].pc).None? || Created(tr[i].calls[c].pc) != Created(tr[i].calls[d].pc)
  {
    hide CallOk, TableInv, Run;
    RunInv(tr, i);
  }

  /** However many rotates present one token, at most one of them returns Ok. */
  lemma OneWinnerPerToken(tr: seq<System>, i: nat, c: CallId, d: CallId)
    requires Run(tr) && i < |tr| && c in tr[i].calls && d in tr[i].calls
    requires tr[i].calls[c].presented == tr[i].calls[d].presented
    requires var pc, pd := tr[i].calls[c].pc, tr[i].calls[d].pc;
      pc.Finished? && pc.outcome.Rotated? && pd.Finished? && pd.outcome.Rotated?
    ensures c == d
  {
    CallAt(tr, i, c);
    CallAt(tr, i, d);
    if c != d { NoSharedRow(tr, i, c, d); }
  }

  /** A rotate none of whose statements failed answers ReuseDetected only for a revoked token, and
      from then on the whole family is dead, the winner's new token included, and the user's
      token_version is above what it was when the call began. */
  lemma ReuseKillsFamily(tr: seq<System>, i: nat, c: CallId)
    requires Run(tr) && i < |tr| && c in tr[i].calls && tr[i].calls[c].clean
    requires tr[i].calls[c].pc.Finished? && tr[i].calls[c].pc.outcome.ReuseDetected?
    ensures var prior := tr[i].calls[c].pc.outcome.prior;
      && Revoked(tr[i], prior.id)
      && Dead(tr[i], prior.row.family)
      && Raised(tr[i].calls[c].start, tr[i].db, prior.row.user)
  {
    CallAt(tr, i, c);
  }

  /** A token whose row had been replaced when the call began is answered with ReuseDetected,
      or with an error when a statement failed: never rotated, never called unknown or expired. */
  lemma ReplayIsDetected(tr: seq<System>, i: nat, c: CallId)
    requires Run(tr) && i < |tr| && c in tr[i].calls && tr[i].calls[c].pc.Finished?
    requires Consumed(tr[i].calls[c].start, tr[i].calls[c].presented)
    ensures var outcome := tr[i].calls[c].pc.outcome;
      outcome.ReuseDetected? || outcome.DbError? || outcome.LoggedOut?
  {
    CallAt(tr, i, c);
  }

  /** A text that no client was ever given gets nothing, and no statement of the call that presents
      it changes the tables. */
  lemma UnknownTokenIsNotFound(tr: seq<System>, i: nat, c: CallId)
    requires Run(tr) && i < |tr| && c in tr[i].calls && tr[i].calls[c].presented !in tr[i].hist.handed
    ensures UnknownPc(tr[i].calls[c].pc)
    ensures forall e | Enabled(tr[i], e) && CallOf(e) == Some(c) :: Apply(tr[i], e).db == tr[i].db
  {
    CallAt(tr, i, c);
    hide CallOk, Run;
  }

  /** A logout that reports success has killed the family, whatever ran beside it. */
  lemma LogoutKillsFamily(tr: seq<System>, i: nat, c: CallId)
    requires Run(tr) && i < |tr| && c in tr[i].calls
    requires tr[i].calls[c].pc.Finished? && tr[i].calls[c].pc.outcome.LoggedOut?
    ensures Dead(tr[i], tr[i].calls[c].pc.outcome.prior.row.family)
  {
    CallAt(tr, i, c);
  }

  lemma RevokeUserKills(s: System, s': System, e: Event, id: RowId)
    requires Inv(s) && e.RevokeAll? && e.io.Took() && s' == Apply(s, e)
    requires id in s.db.rows && s.db.rows[id].user == e.user
    ensures s.db.rows[id].family in s'.hist.chain && Dead(s', s.db.rows[id].family)
  {
    hide RotationPath, CallOk;
    assert RowOk(s, id);
    forall t | t in s.hist.handed && s.hist.handed[t] in s.db.rows
               && s.db.rows[s.hist.handed[t]].family == s.db.rows[id].family
      ensures s.db.rows[s.hist.handed[t]].user == e.user
    {
      assert RowOk(s, s.hist.handed[t]);
    }
  }

  /** The tables a call began with are not older than any moment at which it was not there. */
  lemma {:induction false} StartIsLater(tr: seq<System>, i: nat, j: nat, c: CallId)
    requires Run(tr) && i <= j < |tr| && c !in tr[i].calls && c in tr[j].calls
    ensures NotLowered(tr[i].db, tr[j].calls[c].start)
    decreases j
  {
    hide *;
    var e := EventAt(tr, j - 1);
    CallComesOrStays(tr[j - 1], e, c);
    if c in tr[j - 1].calls {
      StartIsLater(tr, i, j - 1, c);
    } else {
      NeverLowered(tr, i, j - 1);
    }
  }

  lemma CallComesOrStays(s: System, e: Event, c: CallId)
    requires Enabled(s, e) && c in Apply(s, e).calls
    ensures Apply(s, e).calls[c].start == if c in s.calls then s.calls[c].start else s.db
  {}

  lemma {:induction false} NeverLowered(tr: seq<System>, i: nat, j: nat)
    requires Run(tr) && i <= j < |tr|
    ensures NotLowered(tr[i].db, tr[j].db)
    decreases j
  {
    hide *;
    if i < j {
      NeverLowered(tr, i, j - 1);
      OneStep(tr, j - 1);
      LoweredTwice(tr[i].db, tr[j - 1], tr[j]);
    } else {
      NotLoweredAtOnce(tr[i].db);
    }
  }

  lemma NotLoweredAtOnce(db: Db)
    ensures NotLowered(db, db)
  {}

  lemma LoweredTwice(db: Db, s: System, s': System)
    requires NotLowered(db, s.db) && Advance(s, s')
    ensures NotLowered(db, s'.db)
  {
    hide OnPath, Dead;
  }

  /** A token handed out keeps its row, and the row keeps its family and its user. */
  lemma {:induction false} HandedStays(tr: seq<System>, i: nat, j: nat, t: Token)
    requires Run(tr) && i <= j < |tr| && t in tr[i].hist.handed
    ensures var id := tr[i].hist.handed[t];
      && id in tr[i].db.rows && id in tr[j].db.rows && t in tr[j].hist.handed && tr[j].hist.handed[t] == id
      && tr[j].db.rows[id].family == tr[i].db.rows[id].family && tr[j].db.rows[id].user == tr[i].db.rows[id].user
    decreases j
  {
    hide *;
    if i < j {
      HandedStays(tr, i, j - 1, t);
      OneStep(tr, j - 1);
      RunInv(tr, j - 1);
      HandedKept(tr[j - 1], tr[j], t);
    } else {
      RunInv(tr, i);
      HandedHasRow(tr[i], t);
    }
  }

  lemma HandedHasRow(s: System, t: Token)
    requires Inv(s) && t in s.hist.handed
    ensures OnPath(s, s.hist.handed[t])
  {
    assert HandedOk(s, t);
  }

  lemma HandedKept(s: System, s': System, t: Token)
    requires Inv(s) && Advance(s, s') && t in s.hist.handed
    ensures var id := s.hist.handed[t];
      && id in s.db.rows && id in s'.db.rows && t in s'.hist.handed && s'.hist.handed[t] == id
      && s'.db.rows[id].family == s.db.rows[id].family && s'.db.rows[id].user == s.db.rows[id].user
  {
    HandedHasRow(s, t);
    hide Inv, Dead;
    assert OnPath(s', s.hist.handed[t]);
    assert RowKept(s.db.rows[s.hist.handed[t]], s'.db.rows[s.hist.handed[t]]);
  }

  /** No rotation that is unfinished when a family is dead, and none begun later, returns Ok for it. */
  lemma {:induction false} DeadFamilyRotatesNoMore(tr: seq<System>, i: nat, j: nat, c: CallId)
    requires Run(tr) && i <= j < |tr| && c in tr[j].calls
    requires tr[j].calls[c].pc.Finished? && tr[j].calls[c].pc.outcome.Rotated?
    requires var f := tr[j].calls[c].pc.outcome.prior.row.family; f in tr[i].hist.chain && Dead(tr[i], f)
    ensures c in tr[i].calls && tr[i].calls[c] == tr[j].calls[c]
    decreases j
  {
    hide *;
    if i < j {
      var f := tr[j].calls[c].pc.outcome.prior.row.family;
      DeadFrom(tr, i, j - 1, f);
      var e := EventAt(tr, j - 1);
      RotatesOnlyAlive(tr[j - 1], e, c);
      DeadFamilyRotatesNoMore(tr, i, j - 1, c);
    }
  }

  /** A step that finishes a rotation with Ok finds the family alive. */
  lemma RotatesOnlyAlive(s: System, e: Event, c: CallId)
    requires Inv(s) && Enabled(s, e) && c in Apply(s, e).calls
    requires Apply(s, e).calls[c].pc.Finished? && Apply(s, e).calls[c].pc.outcome.Rotated?
    requires Dead(s, Apply(s, e).calls[c].pc.outcome.prior.row.family)
    ensures c in s.calls && s.calls[c] == Apply(s, e).calls[c]
  {
    hide Inv, Dead;
    if e.Swap? && e.c == c { SwapperFindsItRevoked(s, c); }
  }

  lemma SwapperFindsItRevoked(s: System, c: CallId)
    requires Inv(s) && c in s.calls && s.calls[c].pc.Swapping? && Dead(s, s.calls[c].pc.prior.row.family)
    ensures !s.db.Unrevoked(s.calls[c].pc.prior.id)
  {
    hide RotationPath, RowOk, TableInv;
    assert CallOk(s, s.calls[c]);
  }

  /** A user-wide revoke kills, for the rest of the run, every family of that user that had a row. */
  lemma UserWideRevokeIsFinal(tr: seq<System>, i: nat, j: nat, e: Event, id: RowId)
    requires Run(tr) && i < j < |tr| && e.RevokeAll? && e.io.Took() && tr[i + 1] == Apply(tr[i], e)
    requires id in tr[i].db.rows && tr[i].db.rows[id].user == e.user
    ensures Dead(tr[j], tr[i].db.rows[id].family)
  {
    hide Inv, Dead, Enabled;
    RunInv(tr, i);
    var f := tr[i].db.rows[id].family;
    RevokeUserKills(tr[i], tr[i + 1], e, id);
    DeadFrom(tr, i + 1, j, f);
  }

  /** The rows of a family form one simple path of replacements, and what lies off it was never
      replaced and is in no client's hands: orphans of lost races, and rows still in flight. */
  lemma FamilyIsOnePath(tr: seq<System>, i: nat, id: RowId)
    requires Run(tr) && i < |tr| && id in tr[i].db.rows
    ensures var s := tr[i];
      var row := s.db.rows[id];
      && row.family in s.hist.chain && RotationPath(s.db, row.family, s.hist.chain[row.family])
      && (id !in s.hist.chain[row.family] ==> row.replacedBy.None? && row.hash.token !in s.hist.handed)
  {
    RunInv(tr, i);
    assert RowOk(tr[i], id);
    var f := tr[i].db.rows[id].family;
    assert RotationPath(tr[i].db, f, tr[i].hist.chain[f]);
  }

  predicate SwapHits(s: System, e: Event, f: Family)
    requires Enabled(s, e)
  {
    e.Swap? && e.io.Took() && s.calls[e.c].pc.prior.row.family == f && s.db.Unrevoked(s.calls[e.c].pc.prior.id)
  }

  lemma ChainStep(s: System, e: Event, f: Family)
    requires Enabled(s, e) && f in s.hist.chain
    ensures f in Apply(s, e).hist.chain
    ensures Apply(s, e).hist.chain[f] == s.hist.chain[f] + if SwapHits(s, e, f) then [s.calls[e.c].pc.id] else []
  {
  }

  lemma WinnerReplacesTheLast(s: System, e: Event, f: Family)
    requires Inv(s) && Enabled(s, e) && SwapHits(s, e, f)
    ensures f in s.hist.chain && |s.hist.chain[f]| > 0
    ensures s.calls[e.c].pc.prior.id == s.hist.chain[f][|s.hist.chain[f]| - 1]
  {
    hide HandedOk, RowOk, Dead, PendingOk;
    var prior := s.calls[e.c].pc.prior;
    assert PcOk(s, s.calls[e.c]);
    assert LoadedRow(s, prior);
    assert RotationPath(s.db, f, s.hist.chain[f]);
    OnlyLastLive(s.db, f, s.hist.chain[f], prior.id);
  }

  /** A row joins the path of a family only by winning the compare-and-set against its last row. */
  lemma OnlyWinnersJoinThePath(s: System, e: Event, f: Family)
    requires Inv(s) && Enabled(s, e) && f in s.hist.chain
    ensures f in Apply(s, e).hist.chain
    ensures var p, p' := s.hist.chain[f], Apply(s, e).hist.chain[f];
      || p' == p
      || (SwapHits(s, e, f) && |p| > 0 && s.calls[e.c].pc.prior.id == p[|p| - 1] && p' == p + [s.calls[e.c].pc.id])
  {
    hide *;
    ChainStep(s, e, f);
    if SwapHits(s, e, f) { WinnerReplacesTheLast(s, e, f); }
  }

  /** The path of a family starts at the issued row for ever, and links are never undone. */
  lemma {:induction false} PathOnlyGrows(tr: seq<System>, i: nat, j: nat, f: Family)
    requires Run(tr) && i <= j < |tr| && f in tr[i].hist.chain
    ensures f in tr[j].hist.chain && tr[i].hist.chain[f] <= tr[j].hist.chain[f]
    decreases j
  {
    hide *;
    if i < j {
      PathOnlyGrows(tr, i, j - 1, f);
      var e := EventAt(tr, j - 1);
      OnlyWinnersJoinThePath(tr[j - 1], e, f);
    }
  }

  /** ... so a link never dangles, never leaves the family, and no two rows link to the same row. */
  lemma LinksNeverForkOrDangle(tr: seq<System>, i: nat, a: RowId, b: RowId)
    requires Run(tr) && i < |tr| && a in tr[i].db.rows && b in tr[i].db.rows
    requires tr[i].db.rows[a].replacedBy.Some?
    ensures var next := tr[i].db.rows[a].replacedBy.value;
      next in tr[i].db.rows && next != a && tr[i].db.rows[next].family == tr[i].db.rows[a].family
    ensures tr[i].db.rows[a].replacedBy == tr[i].db.rows[b].replacedBy ==> a == b
  {
    RunInv(tr, i);
    var j := LinkIsStep(tr[i], a);
    if tr[i].db.rows[b].replacedBy == tr[i].db.rows[a].replacedBy {
      var k := LinkIsStep(tr[i], b);
    }
  }

  lemma LinkIsStep(s: System, a: RowId) returns (k: nat)
    requires Inv(s) && a in s.db.rows && s.db.rows[a].replacedBy.Some?
    ensures s.db.rows[a].family in s.hist.chain
    ensures var p := s.hist.chain[s.db.rows[a].family];
      k < |p| - 1 && p[k] == a && s.db.rows[a].replacedBy == Some(p[k + 1])
  {
    TablesOf(s);
    ReplacedIsRevoked(s, a);
    var f := s.db.rows[a].family;
    var p := s.hist.chain[f];
    assert RotationPath(s.db, f, p);
    hide Inv, TableInv, RowOk, HandedOk;
    k :| 0 <= k < |p| && p[k] == a;
    assert k < |p| - 1 ==> Linked(s.db, p, k);
  }
}
