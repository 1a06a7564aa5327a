/** What every run of the rotation protocol keeps, and the theorems that follow. */
module RefreshSafety {
  import opened Prelude
  import opened RefreshProtocol

  // ---- Invariant -------------------------------------------------------------------

  ghost predicate Linked(db: Db, p: seq<RowId>, i: nat)
    requires i < |p| - 1
  {
    p[i] in db.rows && !db.rows[p[i]].Live() && db.rows[p[i]].replacedBy == Some(p[i + 1])
  }

  /** `p` is the rotation history of family `f`: it starts at the issued row, follows
      `replaced_by` without repeating a row, and nothing in `f` was replaced off it. */
  ghost predicate RotationPath(db: Db, f: Family, p: seq<RowId>) {
    && |p| > 0
    && (forall i :: 0 <= i < |p| ==> p[i] in db.rows && db.rows[p[i]].family == f)
    && (forall i, j :: 0 <= i < j < |p| ==> p[i] != p[j])
    && (forall i :: 0 <= i < |p| - 1 ==> Linked(db, p, i))
    && db.rows[p[|p| - 1]].replacedBy.None?
    && (forall id :: id in db.rows && db.rows[id].family == f && id !in p ==> db.rows[id].replacedBy.None?)
  }

  ghost predicate OnPath(s: System, id: RowId)
  {
    id in s.db.rows && s.db.rows[id].family in s.hist.chain && id in s.hist.chain[s.db.rows[id].family]
  }

  ghost predicate RowOk(s: System, id: RowId)
    requires id in s.db.rows
  {
    var row := s.db.rows[id];
    && id in s.hist.ids && row.hash.token in s.hist.tokens && row.family in s.hist.chain
    && row.family in s.hist.owner && row.user == s.hist.owner[row.family]
    && (row.hash.token in s.hist.handed ==> id in s.hist.chain[row.family])
  }

  ghost predicate HandedOk(s: System, t: Token)
    requires t in s.hist.handed
  {
    var id := s.hist.handed[t];
    t in s.hist.tokens && OnPath(s, id) && s.db.rows[id].hash == Sha256(t)
  }

  ghost predicate TableInv(s: System) {
    && (forall id :: id in s.db.rows ==> RowOk(s, id))
    && (forall a, b :: a in s.db.rows && b in s.db.rows && s.db.rows[a].hash == s.db.rows[b].hash ==> a == b)
    && s.hist.owner.Keys == s.hist.chain.Keys
    && (forall f :: f in s.hist.chain ==> RotationPath(s.db, f, s.hist.chain[f]))
    && (forall t :: t in s.hist.handed ==> HandedOk(s, t))
  }

  /** No row of `f` whose plaintext a client holds is live. */
  ghost predicate Dead(s: System, f: Family) {
    forall t :: t in s.hist.handed && s.hist.handed[t] in s.db.rows && s.db.rows[s.hist.handed[t]].family == f
      ==> !s.db.rows[s.hist.handed[t]].Live()
  }

  ghost predicate LoadedRow(s: System, prior: Loaded) {
    OnPath(s, prior.id) && s.db.rows[prior.id].family == prior.row.family && s.db.rows[prior.id].user == prior.row.user
  }

  /** The row a call loaded is the row of the token it presents, and a client holds it. */
  ghost predicate LoadedOk(s: System, t: Token, prior: Loaded) {
    t in s.hist.handed && s.hist.handed[t] == prior.id && LoadedRow(s, prior)
  }

  ghost predicate Revoked(s: System, id: RowId) {
    id in s.db.rows && !s.db.rows[id].Live()
  }

  /** The new row of a call that has not committed it: on no path, in no client's hands. */
  ghost predicate PendingOk(s: System, prior: Loaded, id: RowId) {
    && id in s.db.rows && !OnPath(s, id)
    && s.db.rows[id].family == prior.row.family && s.db.rows[id].user == prior.row.user
  }

  ghost predicate Consumed(db: Db, t: Token) {
    exists id :: id in db.rows && db.rows[id].hash == Sha256(t) && db.rows[id].replacedBy.Some?
  }

  ghost predicate PcOk(s: System, call: Call) {
    var t := call.presented;
    match call.pc
    case Loading => true
    case Creating(prior) => LoadedOk(s, t, prior)
    case Swapping(prior, _, id, token) =>
      && LoadedOk(s, t, prior) && PendingOk(s, prior, id) && s.db.rows[id].hash == Sha256(token)
      && (Revoked(s, id) ==> Revoked(s, prior.id))
    case Dropping(prior, id) => LoadedOk(s, t, prior) && PendingOk(s, prior, id) && Revoked(s, prior.id)
    case Killing(prior) => LoadedOk(s, t, prior) && Revoked(s, prior.id)
    case Bumping(prior) =>
      LoadedOk(s, t, prior) && Revoked(s, prior.id) && (call.clean ==> Dead(s, prior.row.family))
    case LogoutLoading => true
    case LogoutRevoking(prior) => LoadedOk(s, t, prior)
    case Finished(Rotated(prior, id, token)) =>
      && LoadedOk(s, t, prior) && s.db.rows[prior.id].replacedBy == Some(id)
      && token in s.hist.handed && s.hist.handed[token] == id
    case Finished(ReuseDetected(prior)) =>
      && LoadedOk(s, t, prior) && Revoked(s, prior.id)
      && (call.clean ==> Dead(s, prior.row.family) && Raised(call.start, s.db, prior.row.user))
    case Finished(LoggedOut(prior)) => LoadedOk(s, t, prior) && Dead(s, prior.row.family)
    case Finished(_) => true
  }

  ghost predicate Raised(before: Db, after: Db, u: UserId) {
    u in before.tokenVersion ==>
      u in after.tokenVersion && after.tokenVersion[u] > before.tokenVersion[u]
  }

  ghost predicate NotLowered(before: Db, after: Db) {
    forall u :: u in before.tokenVersion ==>
      u in after.tokenVersion && before.tokenVersion[u] <= after.tokenVersion[u]
  }

  predicate ReplayPc(pc: Pc) {
    match pc
    case Loading | Killing(_) | Bumping(_) | Finished(ReuseDetected(_)) | Finished(DbError) => true
    case LogoutLoading | LogoutRevoking(_) | Finished(LoggedOut(_)) => true
    case _ => false
  }

  predicate UnknownPc(pc: Pc) {
    pc in {Loading, LogoutLoading, Finished(NotFound), Finished(DbError)}
  }

  ghost predicate CallOk(s: System, call: Call) {
    && call.presented in s.hist.tokens
    && NotLowered(call.start, s.db)
    && PcOk(s, call)
    && (forall id :: id in s.db.rows && s.db.rows[id].hash == Sha256(call.presented) ==>
          call.presented in s.hist.handed)
    && (Consumed(call.start, call.presented) ==> Consumed(s.db, call.presented) && ReplayPc(call.pc))
    && (call.presented !in s.hist.handed ==> UnknownPc(call.pc))
  }

  /** The row a call created, for as long as the call may still act on it or has returned it. */
  function Created(pc: Pc): Option<RowId> {
    match pc
    case Swapping(_, _, id, _) => Some(id)
    case Dropping(_, id) => Some(id)
    case Finished(Rotated(_, id, _)) => Some(id)
    case _ => None
  }

  ghost predicate Inv(s: System) {
    && TableInv(s)
    && (forall c :: c in s.calls ==> CallOk(s, s.calls[c]))
    && (forall c, d :: c in s.calls && d in s.calls && c != d ==>
          Created(s.calls[c].pc).None? || Created(s.calls[c].pc) != Created(s.calls[d].pc))
  }

  // ---- What one step may do to everybody else -------------------------------------------

  ghost predicate RowKept(r: Row, r': Row) {
    && r'.user == r.user && r'.hash == r.hash && r'.family == r.family
    && (!r.Live() ==> r'.revokedAt == r.revokedAt)
    && (r.replacedBy.Some? ==> r'.replacedBy == r.replacedBy)
  }

  /** Effect of a step on the shared tables, as any other call may rely on it. */
  ghost predicate Advance(s: System, s': System) {
    && (forall id :: id in s.db.rows && id in s'.db.rows ==> RowKept(s.db.rows[id], s'.db.rows[id]))
    && (forall id :: id in s'.db.rows && id !in s.db.rows ==> s'.db.rows[id].hash.token !in s.hist.tokens)
    && (forall id :: OnPath(s, id) ==> OnPath(s', id))
    && (forall t :: t in s.hist.handed ==> t in s'.hist.handed && s'.hist.handed[t] == s.hist.handed[t])
    && s.hist.tokens <= s'.hist.tokens
    && (forall f :: f in s.hist.chain ==> f in s'.hist.chain && s.hist.chain[f] <= s'.hist.chain[f])
    && NotLowered(s.db, s'.db)
    && (forall f :: f in s.hist.chain && Dead(s, f) ==> Dead(s', f))
  }

  /** The pending row of another call survives, stays off every path, and is revoked only
      together with the row it is meant to replace. */
  ghost predicate PendingKept(s: System, s': System, prior: RowId, id: RowId) {
    id in s.db.rows && !OnPath(s, id) ==>
      && id in s'.db.rows && !OnPath(s', id)
      && ((Revoked(s, id) ==> Revoked(s, prior)) ==> (Revoked(s', id) ==> Revoked(s', prior)))
  }

  ghost predicate CreatedKept(s: System, s': System, pc: Pc) {
    match pc
    case Swapping(prior, _, id, _) => LoadedRow(s, prior) ==> PendingKept(s, s', prior.id, id)
    case Dropping(prior, id) => LoadedRow(s, prior) ==> PendingKept(s, s', prior.id, id)
    case _ => true
  }

  lemma LoadedStays(s: System, s': System, t: Token, prior: Loaded)
    requires Advance(s, s') && LoadedOk(s, t, prior)
    ensures LoadedOk(s', t, prior)
    ensures Revoked(s, prior.id) ==> Revoked(s', prior.id)
    ensures Dead(s, prior.row.family) ==> Dead(s', prior.row.family)
    ensures s.db.rows[prior.id].replacedBy.Some? ==> s'.db.rows[prior.id].replacedBy == s.db.rows[prior.id].replacedBy
  {
    assert OnPath(s', prior.id);
    assert RowKept(s.db.rows[prior.id], s'.db.rows[prior.id]);
  }

  lemma PcStays(s: System, s': System, call: Call)
    requires TableInv(s) && Advance(s, s') && PcOk(s, call) && CreatedKept(s, s', call.pc)
    ensures PcOk(s', call)
  {
    var t := call.presented;
    match call.pc
    case Creating(prior) => LoadedStays(s, s', t, prior);
    case Swapping(prior, _, id, token) => LoadedStays(s, s', t, prior);
    case Dropping(prior, id) => LoadedStays(s, s', t, prior);
    case Killing(prior) => LoadedStays(s, s', t, prior);
    case Bumping(prior) => LoadedStays(s, s', t, prior);
    case LogoutRevoking(prior) => LoadedStays(s, s', t, prior);
    case Finished(Rotated(prior, id, token)) => LoadedStays(s, s', t, prior);
    case Finished(ReuseDetected(prior)) => LoadedStays(s, s', t, prior);
    case Finished(LoggedOut(prior)) => LoadedStays(s, s', t, prior);
    case _ =>
  }

  lemma ConsumedStays(s: System, s': System, t: Token)
    requires TableInv(s) && Advance(s, s') && Consumed(s.db, t)
    ensures Consumed(s'.db, t)
  {
    var id :| id in s.db.rows && s.db.rows[id].hash == Sha256(t) && s.db.rows[id].replacedBy.Some?;
    assert RowOk(s, id);
    assert RotationPath(s.db, s.db.rows[id].family, s.hist.chain[s.db.rows[id].family]);
    assert OnPath(s, id);
    assert OnPath(s', id);
    assert RowKept(s.db.rows[id], s'.db.rows[id]);
  }

  /** A call that takes no step stays all right. */
  lemma CallStays(s: System, s': System, call: Call)
    requires TableInv(s) && Advance(s, s') && CallOk(s, call) && CreatedKept(s, s', call.pc)
    ensures CallOk(s', call)
  {
    PcStays(s, s', call);
    if Consumed(call.start, call.presented) { ConsumedStays(s, s', call.presented); }
    forall id | id in s'.db.rows && s'.db.rows[id].hash == Sha256(call.presented)
      ensures call.presented in s'.hist.handed
    {
      if id in s.db.rows { assert RowKept(s.db.rows[id], s'.db.rows[id]); }
    }
  }

  // ---- Table changes ---------------------------------------------------------------------

  ghost predicate Partners(s: System, prior: RowId, id: RowId) {
    && OnPath(s, prior) && id in s.db.rows
    && s.db.rows[id].family == s.db.rows[prior].family && s.db.rows[id].user == s.db.rows[prior].user
  }

  /** The common shape of every change: rows are kept but for one deleted pending row `gone`
      and one inserted row `added`; paths only grow at their end; nothing is un-handed. */
  ghost predicate Shape(s: System, s': System, added: Option<RowId>, gone: Option<RowId>) {
    && (forall id :: id in s'.db.rows && id in s.db.rows ==> RowKept(s.db.rows[id], s'.db.rows[id]))
    && (forall id :: id in s'.db.rows && id !in s.db.rows ==>
          added == Some(id) && s'.db.rows[id].hash.token !in s.hist.tokens)
    && (forall id :: id in s.db.rows && id !in s'.db.rows ==> gone == Some(id) && !OnPath(s, id))
    && s.hist.ids <= s'.hist.ids && s.hist.tokens <= s'.hist.tokens
    && (forall t :: t in s.hist.handed ==> t in s'.hist.handed && s'.hist.handed[t] == s.hist.handed[t])
    && (forall f :: f in s.hist.chain ==> f in s'.hist.chain && s.hist.chain[f] <= s'.hist.chain[f])
    && (forall f :: f in s.hist.owner ==> f in s'.hist.owner && s'.hist.owner[f] == s.hist.owner[f])
    && NotLowered(s.db, s'.db)
  }

  /** What is new in `s'` is in order. */
  ghost predicate NewOk(s: System, s': System) {
    && s'.hist.owner.Keys == s'.hist.chain.Keys
    && (forall id :: id in s'.db.rows && id !in s.db.rows ==> RowOk(s', id))
    && (forall t :: t in s'.hist.handed && t !in s.hist.handed ==> HandedOk(s', t))
    && (forall f :: f in s'.hist.chain ==> RotationPath(s'.db, f, s'.hist.chain[f]))
  }

  lemma HashesStayUnique(s: System, s': System, added: Option<RowId>, gone: Option<RowId>)
    requires TableInv(s) && Shape(s, s', added, gone)
    ensures forall a, b :: a in s'.db.rows && b in s'.db.rows && s'.db.rows[a].hash == s'.db.rows[b].hash ==> a == b
  {
    forall a, b | a in s'.db.rows && b in s'.db.rows && s'.db.rows[a].hash == s'.db.rows[b].hash ensures a == b {
      if a in s.db.rows { assert RowOk(s, a); }
      if b in s.db.rows { assert RowOk(s, b); }
    }
  }

  lemma PathStays(s: System, s': System, added: Option<RowId>, gone: Option<RowId>, id: RowId)
    requires Shape(s, s', added, gone) && OnPath(s, id)
    ensures OnPath(s', id)
  {
    assert RowKept(s.db.rows[id], s'.db.rows[id]);
    var f := s.db.rows[id].family;
    assert s.hist.chain[f] <= s'.hist.chain[f];
  }

  lemma RowStays(s: System, s': System, added: Option<RowId>, gone: Option<RowId>, id: RowId)
    requires TableInv(s) && Shape(s, s', added, gone) && NewOk(s, s')
    requires id in s.db.rows && id in s'.db.rows
    ensures RowOk(s', id)
  {
    assert RowOk(s, id);
    assert RowKept(s.db.rows[id], s'.db.rows[id]);
    var t := s.db.rows[id].hash.token;
    if t in s'.hist.handed && t !in s.hist.handed {
      HashesStayUnique(s, s', added, gone);
      assert HandedOk(s', t);
    }
  }

  lemma TableStays(s: System, s': System, added: Option<RowId>, gone: Option<RowId>)
    requires TableInv(s) && Shape(s, s', added, gone) && NewOk(s, s')
    ensures TableInv(s')
  {
    HashesStayUnique(s, s', added, gone);
    forall id | id in s'.db.rows ensures RowOk(s', id) {
      if id in s.db.rows { RowStays(s, s', added, gone, id); }
    }
    forall t | t in s'.hist.handed ensures HandedOk(s', t) {
      if t in s.hist.handed {
        assert HandedOk(s, t);
        PathStays(s, s', added, gone, s.hist.handed[t]);
      }
    }
  }

  /** A plaintext is handed out in a family that is new or has a live handed-out row. */
  ghost predicate HandsOutAlive(s: System, s': System) {
    forall t :: t in s'.hist.handed && t !in s.hist.handed && s'.hist.handed[t] in s'.db.rows ==>
      var f := s'.db.rows[s'.hist.handed[t]].family;
      f !in s.hist.chain || !Dead(s, f)
  }

  lemma DeadStays(s: System, s': System, added: Option<RowId>, gone: Option<RowId>, f: Family)
    requires TableInv(s) && Shape(s, s', added, gone) && HandsOutAlive(s, s')
    requires f in s.hist.chain && Dead(s, f)
    ensures Dead(s', f)
  {
    forall t | t in s'.hist.handed && s'.hist.handed[t] in s'.db.rows && s'.db.rows[s'.hist.handed[t]].family == f
      ensures !s'.db.rows[s'.hist.handed[t]].Live()
    {
      if t in s.hist.handed { assert HandedOk(s, t); }
    }
  }

  /** A change of the tables that keeps their invariant and every pending row but `gone`. */
  ghost predicate GoodChange(s: System, s': System, gone: Option<RowId>) {
    && TableInv(s') && Advance(s, s')
    && (forall prior: RowId, id: RowId :: Partners(s, prior, id) && gone != Some(id) ==> PendingKept(s, s', prior, id))
  }

  /** Partners are revoked together and nothing but `gone` is put on a path. */
  ghost predicate Together(s: System, s': System, gone: Option<RowId>) {
    && (forall id :: id in s.db.rows && !OnPath(s, id) && gone != Some(id) ==> !OnPath(s', id))
    && (forall prior: RowId, id: RowId ::
          Partners(s, prior, id) && !OnPath(s, id) && !Revoked(s, id) && Revoked(s', id) ==> Revoked(s', prior))
  }

  lemma PendingStays(s: System, s': System, added: Option<RowId>, gone: Option<RowId>, prior: RowId, id: RowId)
    requires Shape(s, s', added, gone) && Together(s, s', gone)
    requires Partners(s, prior, id) && gone != Some(id)
    ensures PendingKept(s, s', prior, id)
  {
    if Revoked(s, prior) { assert RowKept(s.db.rows[prior], s'.db.rows[prior]); }
  }

  lemma Good(s: System, s': System, added: Option<RowId>, gone: Option<RowId>)
    requires TableInv(s) && Shape(s, s', added, gone) && NewOk(s, s')
    requires HandsOutAlive(s, s') && Together(s, s', gone)
    ensures GoodChange(s, s', gone)
  {
    TableStays(s, s', added, gone);
    forall f | f in s.hist.chain && Dead(s, f) ensures Dead(s', f) { DeadStays(s, s', added, gone, f); }
    forall id | OnPath(s, id) ensures OnPath(s', id) { PathStays(s, s', added, gone, id); }
    forall prior: RowId, id: RowId | Partners(s, prior, id) && gone != Some(id) ensures PendingKept(s, s', prior, id) {
      PendingStays(s, s', added, gone, prior, id);
    }
  }

  /** No link is set and no new row is a replacement. */
  ghost predicate NoNewLink(db: Db, db': Db) {
    && (forall id :: id in db.rows && id in db'.rows ==> db'.rows[id].replacedBy == db.rows[id].replacedBy)
    && (forall id :: id in db'.rows && id !in db.rows ==> db'.rows[id].replacedBy.None?)
  }

  lemma PathFramed(db: Db, db': Db, f: Family, p: seq<RowId>)
    requires RotationPath(db, f, p) && NoNewLink(db, db')
    requires forall id :: id in db.rows && id in db'.rows ==> RowKept(db.rows[id], db'.rows[id])
    requires forall id :: id in p ==> id in db'.rows
    ensures RotationPath(db', f, p)
  {
    forall i | 0 <= i < |p| ensures p[i] in db'.rows && db'.rows[p[i]].family == f {
      assert RowKept(db.rows[p[i]], db'.rows[p[i]]);
    }
    forall i | 0 <= i < |p| - 1 ensures Linked(db', p, i) {
      assert Linked(db, p, i);
      assert RowKept(db.rows[p[i]], db'.rows[p[i]]);
    }
  }

  lemma QuietPaths(s: System, s': System, added: Option<RowId>, gone: Option<RowId>)
    requires TableInv(s) && Shape(s, s', added, gone) && NoNewLink(s.db, s'.db)
    ensures forall f :: f in s.hist.chain ==> RotationPath(s'.db, f, s.hist.chain[f])
  {
    forall f | f in s.hist.chain ensures RotationPath(s'.db, f, s.hist.chain[f]) {
      assert RotationPath(s.db, f, s.hist.chain[f]);
      forall id | id in s.hist.chain[f] ensures id in s'.db.rows { assert OnPath(s, id); }
      PathFramed(s.db, s'.db, f, s.hist.chain[f]);
    }
  }

  // Each change below: its relation, its shape, what is new in it, what it keeps together.

  /** Only names are drawn and counters raised. */
  ghost predicate DrawsNames(s: System, s': System) {
    && s'.db.rows == s.db.rows && NotLowered(s.db, s'.db)
    && s'.hist == s.hist.(ids := s'.hist.ids, tokens := s'.hist.tokens)
    && s.hist.ids <= s'.hist.ids && s.hist.tokens <= s'.hist.tokens
  }

  lemma DrawNamesNew(s: System, s': System)
    requires TableInv(s) && DrawsNames(s, s') && Shape(s, s', None, None)
    ensures NewOk(s, s')
  {
    hide RotationPath;
    QuietPaths(s, s', None, None);
  }

  lemma DrawNames(s: System, s': System)
    requires TableInv(s) && DrawsNames(s, s')
    ensures GoodChange(s, s', None)
  {
    assert Shape(s, s', None, None);
    DrawNamesNew(s, s');
    assert Together(s, s', None);
    assert HandsOutAlive(s, s');
    hide *;
    Good(s, s', None, None);
  }

  /** A rotate inserts the row that is to replace the one it loaded. */
  ghost predicate InsertsPending(s: System, s': System, id: RowId, row: Row) {
    && Fresh(s, id, row.hash.token) && s'.db == s.db.Insert(id, row)
    && row.Live() && row.replacedBy.None? && row.family in s.hist.chain
    && row.family in s.hist.owner && s.hist.owner[row.family] == row.user
    && s'.hist == s.hist.(ids := s.hist.ids + {id}, tokens := s.hist.tokens + {row.hash.token})
  }

  lemma FreshIsNew(s: System, id: RowId, token: Token)
    requires TableInv(s) && Fresh(s, id, token)
    ensures id !in s.db.rows && token !in s.hist.handed
    ensures forall f :: f in s.hist.chain ==> id !in s.hist.chain[f]
  {
    assert id in s.db.rows ==> RowOk(s, id);
    assert token in s.hist.handed ==> HandedOk(s, token);
    forall f | f in s.hist.chain ensures id !in s.hist.chain[f] {
      assert RotationPath(s.db, f, s.hist.chain[f]);
    }
  }

  lemma InsertPendingShape(s: System, s': System, id: RowId, row: Row)
    requires TableInv(s) && InsertsPending(s, s', id, row)
    ensures Shape(s, s', Some(id), None)
  {}

  lemma InsertPendingNew(s: System, s': System, id: RowId, row: Row)
    requires TableInv(s) && InsertsPending(s, s', id, row) && Shape(s, s', Some(id), None)
    ensures NewOk(s, s')
  {
    hide RotationPath;
    QuietPaths(s, s', Some(id), None);
    FreshIsNew(s, id, row.hash.token);
  }

  lemma InsertPendingTogether(s: System, s': System, id: RowId, row: Row)
    requires TableInv(s) && InsertsPending(s, s', id, row)
    ensures Together(s, s', None) && HandsOutAlive(s, s')
    ensures id in s'.db.rows && !OnPath(s', id)
  {
    hide RotationPath;
    FreshIsNew(s, id, row.hash.token);
  }

  lemma InsertPending(s: System, s': System, id: RowId, row: Row)
    requires TableInv(s) && InsertsPending(s, s', id, row)
    ensures GoodChange(s, s', None)
    ensures id in s'.db.rows && !OnPath(s', id)
  {
    InsertPendingShape(s, s', id, row);
    InsertPendingNew(s, s', id, row);
    InsertPendingTogether(s, s', id, row);
    hide *;
    Good(s, s', Some(id), None);
  }

  /** `issue` inserts the first row of a new family; `given`: the plaintext reached the client. */
  ghost predicate InsertsRoot(s: System, s': System, id: RowId, row: Row, given: bool) {
    && Fresh(s, id, row.hash.token) && s'.db == s.db.Insert(id, row)
    && row.Live() && row.replacedBy.None? && row.family !in s.hist.chain && row.family !in s.hist.owner
    && s'.hist == History(
      s.hist.ids + {id}, s.hist.tokens + {row.hash.token},
      if given then s.hist.handed[row.hash.token := id] else s.hist.handed,
      s.hist.owner[row.family := row.user], s.hist.chain[row.family := [id]])
  }

  lemma InsertRootShape(s: System, s': System, id: RowId, row: Row, given: bool)
    requires TableInv(s) && InsertsRoot(s, s', id, row, given)
    ensures Shape(s, s', Some(id), None)
  {
    FreshIsNew(s, id, row.hash.token);
  }

  lemma RootPath(db: Db, f: Family, id: RowId)
    requires id in db.rows && db.rows[id].replacedBy.None?
    requires forall x :: x in db.rows ==> (db.rows[x].family == f <==> x == id)
    ensures RotationPath(db, f, [id])
  {}

  lemma InsertRootPaths(s: System, s': System, id: RowId, row: Row, given: bool)
    requires TableInv(s) && InsertsRoot(s, s', id, row, given) && Shape(s, s', Some(id), None)
    ensures forall f :: f in s'.hist.chain ==> RotationPath(s'.db, f, s'.hist.chain[f])
  {
    hide RotationPath, HandedOk, Shape;
    QuietPaths(s, s', Some(id), None);
    FreshIsNew(s, id, row.hash.token);
    forall x | x in s.db.rows ensures s.db.rows[x].family != row.family { assert RowOk(s, x); }
    RootPath(s'.db, row.family, id);
  }

  lemma InsertRootNew(s: System, s': System, id: RowId, row: Row, given: bool)
    requires TableInv(s) && InsertsRoot(s, s', id, row, given) && Shape(s, s', Some(id), None)
    ensures NewOk(s, s')
  {
    hide RotationPath, Shape;
    InsertRootPaths(s, s', id, row, given);
    FreshIsNew(s, id, row.hash.token);
    hide TableInv;
  }

  lemma InsertRootTogether(s: System, s': System, id: RowId, row: Row, given: bool)
    requires TableInv(s) && InsertsRoot(s, s', id, row, given)
    ensures Together(s, s', None) && HandsOutAlive(s, s')
  {
    FreshIsNew(s, id, row.hash.token);
    forall x | x in s.db.rows ensures s.db.rows[x].family != row.family { assert RowOk(s, x); }
  }

  lemma InsertRoot(s: System, s': System, id: RowId, row: Row, given: bool)
    requires TableInv(s) && InsertsRoot(s, s', id, row, given)
    ensures GoodChange(s, s', None)
  {
    InsertRootShape(s, s', id, row, given);
    InsertRootNew(s, s', id, row, given);
    InsertRootTogether(s, s', id, row, given);
    hide *;
    Good(s, s', Some(id), None);
  }

  /** Rows are only ever revoked in whole families or whole users, which keeps partners together. */
  ghost predicate RevokesMany(s: System, s': System, hit: set<RowId>, at: Time) {
    && s'.hist == s.hist && s'.db.tokenVersion == s.db.tokenVersion && s'.db.rows.Keys == s.db.rows.Keys
    && (forall id :: id in s.db.rows ==>
          s'.db.rows[id] == if id in hit then s.db.rows[id].Revoke(at) else s.db.rows[id])
    && (forall a, b :: Partners(s, a, b) && b in hit ==> a in hit)
  }

  lemma RevokeManyNew(s: System, s': System, hit: set<RowId>, at: Time)
    requires TableInv(s) && RevokesMany(s, s', hit, at) && Shape(s, s', None, None)
    ensures NewOk(s, s')
  {
    hide RotationPath;
    QuietPaths(s, s', None, None);
  }

  lemma RevokeManyTogether(s: System, s': System, hit: set<RowId>, at: Time)
    requires RevokesMany(s, s', hit, at)
    ensures Together(s, s', None) && HandsOutAlive(s, s') && Shape(s, s', None, None)
  {}

  lemma RevokeMany(s: System, s': System, hit: set<RowId>, at: Time)
    requires TableInv(s) && RevokesMany(s, s', hit, at)
    ensures GoodChange(s, s', None)
  {
    RevokeManyTogether(s, s', hit, at);
    RevokeManyNew(s, s', hit, at);
    hide *;
    Good(s, s', None, None);
  }

  ghost predicate DeletesPending(s: System, s': System, id: RowId) {
    s'.hist == s.hist && s'.db == s.db.Delete(id) && id in s.db.rows && !OnPath(s, id)
  }

  lemma DeletePendingNew(s: System, s': System, id: RowId)
    requires TableInv(s) && DeletesPending(s, s', id) && Shape(s, s', None, Some(id))
    ensures NewOk(s, s')
  {
    hide RotationPath;
    QuietPaths(s, s', None, Some(id));
  }

  lemma DeletePendingTogether(s: System, s': System, id: RowId)
    requires DeletesPending(s, s', id)
    ensures Together(s, s', Some(id)) && HandsOutAlive(s, s') && Shape(s, s', None, Some(id))
  {}

  lemma DeletePending(s: System, s': System, id: RowId)
    requires TableInv(s) && DeletesPending(s, s', id)
    ensures GoodChange(s, s', Some(id))
  {
    DeletePendingTogether(s, s', id);
    DeletePendingNew(s, s', id);
    hide *;
    Good(s, s', None, Some(id));
  }

  /** The winning compare-and-set.  Only the last row of a path can be live, so the path grows at its end. */
  ghost predicate Commits(s: System, s': System, prior: RowId, id: RowId, at: Time, given: bool) {
    && OnPath(s, prior) && s.db.Unrevoked(prior) && s.db.rows[prior].hash.token in s.hist.handed
    && Partners(s, prior, id) && !OnPath(s, id)
    && s'.db == s.db.TrySwap(prior, at, id)
    && var f := s.db.rows[prior].family;
      s'.hist == s.hist.(
        handed := if given then s.hist.handed[s.db.rows[id].hash.token := id] else s.hist.handed,
        chain := s.hist.chain[f := s.hist.chain[f] + [id]])
  }

  lemma PathGrows(db: Db, db': Db, f: Family, p: seq<RowId>, prior: RowId, id: RowId, at: Time)
    requires RotationPath(db, f, p) && prior in p && db.Unrevoked(prior) && db' == db.TrySwap(prior, at, id)
    requires id in db.rows && db.rows[id].family == f && id !in p
    ensures RotationPath(db', f, p + [id])
  {
    var i :| 0 <= i < |p| && p[i] == prior;
    assert i < |p| - 1 ==> Linked(db, p, i);
    var q := p + [id];
    forall i | 0 <= i < |q| - 1 ensures Linked(db', q, i) {
      if i < |p| - 1 { assert Linked(db, p, i); assert p[i] != p[|p| - 1]; }
    }
  }

  lemma OtherPathKept(db: Db, db': Db, g: Family, p: seq<RowId>, prior: RowId, id: RowId, at: Time)
    requires RotationPath(db, g, p) && db' == db.TrySwap(prior, at, id)
    requires prior in db.rows && db.rows[prior].family != g
    ensures RotationPath(db', g, p)
  {
    forall i | 0 <= i < |p| - 1 ensures Linked(db', p, i) { assert Linked(db, p, i); }
  }

  lemma CommitPaths(s: System, s': System, prior: RowId, id: RowId, at: Time, given: bool)
    requires TableInv(s) && Commits(s, s', prior, id, at, given)
    ensures forall g :: g in s'.hist.chain ==> RotationPath(s'.db, g, s'.hist.chain[g])
  {
    hide RotationPath;
    var f := s.db.rows[prior].family;
    forall g | g in s'.hist.chain ensures RotationPath(s'.db, g, s'.hist.chain[g]) {
      if g == f {
        PathGrows(s.db, s'.db, f, s.hist.chain[f], prior, id, at);
      } else {
        OtherPathKept(s.db, s'.db, g, s.hist.chain[g], prior, id, at);
      }
    }
  }

  lemma CommitShape(s: System, s': System, prior: RowId, id: RowId, at: Time, given: bool)
    requires TableInv(s) && Commits(s, s', prior, id, at, given)
    ensures Shape(s, s', None, Some(id))
  {
    hide TableInv, RotationPath, RowOk, HandedOk, OnPath;
    CommitFacts(s, prior, id);
  }

  lemma CommitFacts(s: System, prior: RowId, id: RowId)
    requires TableInv(s) && OnPath(s, prior) && s.db.rows[prior].Live() && id in s.db.rows
    ensures s.db.rows[prior].family in s.hist.chain && s.db.rows[prior].replacedBy.None?
    ensures s.db.rows[id].hash.token in s.hist.handed ==> s.hist.handed[s.db.rows[id].hash.token] == id
  {
    var f := s.db.rows[prior].family;
    OnlyLastLive(s.db, f, s.hist.chain[f], prior);
    hide RotationPath, RowOk;
    if s.db.rows[id].hash.token in s.hist.handed { assert HandedOk(s, s.db.rows[id].hash.token); }
  }

  lemma OnlyLastLive(db: Db, f: Family, p: seq<RowId>, id: RowId)
    requires RotationPath(db, f, p) && id in p && db.rows[id].Live()
    ensures id == p[|p| - 1] && db.rows[id].replacedBy.None?
  {
    var i :| 0 <= i < |p| && p[i] == id;
    assert i < |p| - 1 ==> Linked(db, p, i);
  }

  lemma CommitNew(s: System, s': System, prior: RowId, id: RowId, at: Time, given: bool)
    requires TableInv(s) && Commits(s, s', prior, id, at, given) && Shape(s, s', None, Some(id))
    ensures NewOk(s, s')
  {
    hide RotationPath;
    CommitPaths(s, s', prior, id, at, given);
    assert RowOk(s, id);
    assert OnPath(s', id);
  }

  lemma CommitTogether(s: System, s': System, prior: RowId, id: RowId, at: Time, given: bool)
    requires TableInv(s) && Commits(s, s', prior, id, at, given)
    ensures Together(s, s', Some(id)) && HandsOutAlive(s, s')
  {
    hide RotationPath;
    HandedOfRow(s, prior);
  }

  lemma HandedOfRow(s: System, id: RowId)
    requires TableInv(s) && id in s.db.rows && s.db.rows[id].hash.token in s.hist.handed
    ensures s.hist.handed[s.db.rows[id].hash.token] == id
    ensures s.db.rows[id].Live() ==> !Dead(s, s.db.rows[id].family)
  {
    assert HandedOk(s, s.db.rows[id].hash.token);
  }

  lemma Commit(s: System, s': System, prior: RowId, id: RowId, at: Time, given: bool)
    requires TableInv(s) && Commits(s, s', prior, id, at, given)
    ensures GoodChange(s, s', Some(id))
  {
    CommitShape(s, s', prior, id, at, given);
    CommitNew(s, s', prior, id, at, given);
    CommitTogether(s, s', prior, id, at, given);
    hide *;
    Good(s, s', None, Some(id));
  }

  // ---- Steps -------------------------------------------------------------------------------

  lemma PendingRowKept(s: System, s': System, call: Call, gone: Option<RowId>)
    requires PcOk(s, call)
    requires forall prior: RowId, id: RowId ::
               Partners(s, prior, id) && gone != Some(id) ==> PendingKept(s, s', prior, id)
    requires gone.Some? ==> Created(call.pc) != gone
    ensures CreatedKept(s, s', call.pc)
  {
    match call.pc
    case Swapping(prior, _, id, _) => assert Partners(s, prior.id, id);
    case Dropping(prior, id) => assert Partners(s, prior.id, id);
    case _ =>
  }

  lemma OthersStay(s: System, s': System, d: CallId, gone: Option<RowId>)
    requires Inv(s) && GoodChange(s, s', gone) && d in s.calls
    requires gone.Some? ==> Created(s.calls[d].pc) != gone
    ensures CallOk(s', s.calls[d])
  {
    hide RotationPath, RowOk, HandedOk, PcOk, Dead, PendingKept;
    assert CallOk(s, s.calls[d]);
    PendingRowKept(s, s', s.calls[d], gone);
    hide *;
    CallStays(s, s', s.calls[d]);
  }

  lemma CreatedWasDrawn(s: System, d: CallId)
    requires Inv(s) && d in s.calls && Created(s.calls[d].pc).Some?
    ensures Created(s.calls[d].pc).value in s.hist.ids
  {
    hide RotationPath;
    assert CallOk(s, s.calls[d]);
    match s.calls[d].pc
    case Swapping(_, _, id, _) => assert RowOk(s, id);
    case Dropping(_, id) => assert RowOk(s, id);
    case Finished(Rotated(_, id, token)) => assert HandedOk(s, token); assert RowOk(s, id);
    case _ =>
  }

  /** A step of call `c` (or the start of one) that changes the tables well leaves everything well. */
  lemma StepOfCall(s: System, s': System, c: CallId, gone: Option<RowId>)
    requires Inv(s) && GoodChange(s, s', gone)
    requires c in s'.calls && s'.calls == s.calls[c := s'.calls[c]] && CallOk(s', s'.calls[c])
    requires gone.Some? ==> c in s.calls && Created(s.calls[c].pc) == gone
    requires var id := Created(s'.calls[c].pc);
      id.None? || (c in s.calls && id == Created(s.calls[c].pc)) || id.value !in s.hist.ids
    ensures Inv(s')
  {
    forall d | d in s'.calls ensures CallOk(s', s'.calls[d]) {
      if d != c { OthersStay(s, s', d, gone); }
    }
    forall d, e | d in s'.calls && e in s'.calls && d != e
      ensures Created(s'.calls[d].pc).None? || Created(s'.calls[d].pc) != Created(s'.calls[e].pc)
    {
      if d != c && Created(s.calls[d].pc).Some? { CreatedWasDrawn(s, d); }
      if e != c && Created(s.calls[e].pc).Some? { CreatedWasDrawn(s, e); }
    }
  }

  lemma StepOfTables(s: System, s': System)
    requires Inv(s) && GoodChange(s, s', None) && s'.calls == s.calls
    ensures Inv(s')
  {
    forall d | d in s'.calls ensures CallOk(s', s'.calls[d]) { OthersStay(s, s', d, None); }
  }

  /** What remains to be shown about the call that takes a step is its new program counter. */
  lemma Moves(s: System, s': System, call: Call, call': Call)
    requires TableInv(s) && Advance(s, s') && CallOk(s, call) && PcOk(s', call')
    requires call'.presented == call.presented && call'.start == call.start
    requires ReplayPc(call.pc) && Consumed(call.start, call.presented) ==> ReplayPc(call'.pc)
    requires UnknownPc(call.pc) && call.presented !in s.hist.handed ==> UnknownPc(call'.pc)
    ensures CallOk(s', call')
  {
    hide RotationPath;
    if Consumed(call.start, call.presented) { ConsumedStays(s, s', call.presented); }
    forall id | id in s'.db.rows && s'.db.rows[id].hash == Sha256(call.presented)
      ensures call.presented in s'.hist.handed
    {
      if id in s.db.rows { assert RowKept(s.db.rows[id], s'.db.rows[id]); }
    }
  }

  lemma ReplacedIsRevoked(s: System, id: RowId)
    requires TableInv(s) && id in s.db.rows && s.db.rows[id].replacedBy.Some?
    ensures OnPath(s, id) && !s.db.rows[id].Live()
  {
    assert RowOk(s, id);
    var f := s.db.rows[id].family;
    assert RotationPath(s.db, f, s.hist.chain[f]);
    if s.db.rows[id].Live() { OnlyLastLive(s.db, f, s.hist.chain[f], id); }
  }

  lemma BeginStep(s: System, c: CallId, t: Token, pc: Pc)
    requires Inv(s) && c !in s.calls && MayPresent(s, t) && (pc.Loading? || pc.LogoutLoading?)
    ensures Inv(Begin(s, c, t, pc)) && Advance(s, Begin(s, c, t, pc))
  {
    var s' := Begin(s, c, t, pc);
    DrawNames(s, s');
    forall id | id in s'.db.rows && s'.db.rows[id].hash == Sha256(t) ensures t in s'.hist.handed {
      assert RowOk(s, id);
      if PresentedBefore(s, t) {
        var d :| d in s.calls && s.calls[d].presented == t;
        assert CallOk(s, s.calls[d]);
      }
    }
    hide RotationPath, TableInv, Advance;
    StepOfCall(s, s', c, None);
  }

  /** The row found for a presented token is the one the client was given. */
  lemma FoundRow(s: System, call: Call, id: RowId)
    requires TableInv(s) && CallOk(s, call) && s.db.Finds(Sha256(call.presented), Some(id))
    ensures LoadedOk(s, call.presented, Loaded(id, s.db.rows[id]))
  {
    HandedOfRow(s, id);
    assert RowOk(s, id);
  }

  lemma AfterLoad(s: System, call: Call, found: Option<RowId>, now: Time)
    requires TableInv(s) && CallOk(s, call) && call.pc.Loading? && s.db.Finds(Sha256(call.presented), found)
    ensures PcOk(s, call.(pc := PreCheck(s.db, found, now)))
    ensures Consumed(call.start, call.presented) ==> ReplayPc(PreCheck(s.db, found, now))
    ensures call.presented !in s.hist.handed ==> UnknownPc(PreCheck(s.db, found, now))
  {
    hide RotationPath;
    if found.Some? { FoundRow(s, call, found.value); }
    if Consumed(call.start, call.presented) {
      var id :| id in s.db.rows && s.db.rows[id].hash == Sha256(call.presented) && s.db.rows[id].replacedBy.Some?;
      ReplacedIsRevoked(s, id);
    }
  }

  /** A read of the tables followed by a new program counter. */
  lemma ReadStep(s: System, s': System, c: CallId)
    requires Inv(s) && c in s.calls && s'.db == s.db && s'.hist == s.hist
    requires c in s'.calls && s'.calls == s.calls[c := s'.calls[c]] && PcOk(s', s'.calls[c])
    requires s'.calls[c].presented == s.calls[c].presented && s'.calls[c].start == s.calls[c].start
    requires Consumed(s.calls[c].start, s.calls[c].presented) ==> ReplayPc(s'.calls[c].pc)
    requires s.calls[c].presented !in s.hist.handed ==> UnknownPc(s'.calls[c].pc)
    requires Created(s'.calls[c].pc).None?
    ensures Inv(s') && Advance(s, s')
  {
    hide RotationPath, RowOk, HandedOk, PcOk, Dead, PendingKept;
    assert CallOk(s, s.calls[c]);
    assert DrawsNames(s, s');
    DrawNames(s, s');
    assert Advance(s, s');
    hide TableInv, Advance, GoodChange, CallOk;
    Moves(s, s', s.calls[c], s'.calls[c]);
    StepOfCall(s, s', c, None);
  }

  lemma LoadCaller(s: System, c: CallId, found: Option<RowId>, now: Time, io: Io)
    requires Enabled(s, Load(c, found, now, io))
    ensures var s' := Apply(s, Load(c, found, now, io));
      && s'.db == s.db && s'.hist == s.hist && c in s'.calls && s'.calls == s.calls[c := s'.calls[c]]
      && s'.calls[c].presented == s.calls[c].presented && s'.calls[c].start == s.calls[c].start
      && s'.calls[c].clean == (s.calls[c].clean && io == Answered)
      && s'.calls[c].pc == if io == Answered then PreCheck(s.db, found, now) else Finished(DbError)
  {}

  lemma LoadStep(s: System, c: CallId, found: Option<RowId>, now: Time, io: Io)
    requires Inv(s) && Enabled(s, Load(c, found, now, io))
    ensures Inv(Apply(s, Load(c, found, now, io))) && Advance(s, Apply(s, Load(c, found, now, io)))
  {
    hide RotationPath, RowOk, HandedOk, Advance, PcOk;
    var s', call := Apply(s, Load(c, found, now, io)), s.calls[c];
    assert CallOk(s, call) && TableInv(s);
    LoadCaller(s, c, found, now, io);
    AfterLoad(s, call, found, now);
    hide Apply, Enabled, TableInv, CallOk, Inv;
    SamePc(s, s', call.(pc := PreCheck(s.db, found, now)), s'.calls[c]);
    assert Created(s'.calls[c].pc).None?;
    ReadStep(s, s', c);
  }

  /** An early program counter speaks of the tables alone. */
  lemma SamePc(s: System, s': System, call: Call, call': Call)
    requires s'.db == s.db && s'.hist == s.hist && call'.presented == call.presented
    requires (call'.pc == call.pc && PcOk(s, call)) || call'.pc == Finished(DbError)
    requires call'.pc.Creating? || call'.pc.Killing?
      || call'.pc in {Finished(NotFound), Finished(Expired), Finished(DbError)}
    ensures PcOk(s', call')
  {}

  lemma LogoutLoadStep(s: System, c: CallId, found: Option<RowId>, io: Io)
    requires Inv(s) && Enabled(s, LogoutLoad(c, found, io))
    ensures Inv(Apply(s, LogoutLoad(c, found, io))) && Advance(s, Apply(s, LogoutLoad(c, found, io)))
  {
    hide RotationPath, RowOk, HandedOk, Advance;
    assert CallOk(s, s.calls[c]);
    if found.Some? { FoundRow(s, s.calls[c], found.value); }
    ReadStep(s, Apply(s, LogoutLoad(c, found, io)), c);
  }

  /** A statement of call `c` that changes the tables well. */
  lemma WriteStep(s: System, s': System, c: CallId, gone: Option<RowId>)
    requires Inv(s) && GoodChange(s, s', gone) && c in s.calls
    requires c in s'.calls && s'.calls == s.calls[c := s'.calls[c]] && PcOk(s', s'.calls[c])
    requires s'.calls[c].presented == s.calls[c].presented && s'.calls[c].start == s.calls[c].start
    requires ReplayPc(s.calls[c].pc) ==> ReplayPc(s'.calls[c].pc)
    requires !UnknownPc(s.calls[c].pc)
    requires gone.Some? ==> Created(s.calls[c].pc) == gone
    requires var id := Created(s'.calls[c].pc);
      id.None? || id == Created(s.calls[c].pc) || id.value !in s.hist.ids
    ensures Inv(s') && Advance(s, s')
  {
    hide RotationPath, RowOk, HandedOk, PcOk, Dead, PendingKept;
    assert CallOk(s, s.calls[c]);
    assert Advance(s, s');
    hide TableInv, Advance, GoodChange, CallOk;
    Moves(s, s', s.calls[c], s'.calls[c]);
    StepOfCall(s, s', c, gone);
  }

  lemma CreateChange(s: System, e: Event)
    requires Inv(s) && e.CreateNew? && Enabled(s, e)
    ensures GoodChange(s, Apply(s, e), None)
    ensures e.io.Took() ==> e.id in Apply(s, e).db.rows && !OnPath(Apply(s, e), e.id)
  {
    hide RotationPath, HandedOk, Advance, GoodChange;
    var s' := Apply(s, e);
    assert CallOk(s, s.calls[e.c]);
    var prior := s.calls[e.c].pc.prior;
    if e.io.Refused? {
      assert DrawsNames(s, s');
      DrawNames(s, s');
    } else {
      var row := NewRow(prior.row.user, e.token, prior.row.family, e.at, e.expiresAt);
      assert RowOk(s, prior.id);
      assert InsertsPending(s, s', e.id, row);
      InsertPending(s, s', e.id, row);
    }
  }

  lemma CreateMoves(s: System, e: Event)
    requires Inv(s) && e.CreateNew? && Enabled(s, e) && Advance(s, Apply(s, e))
    requires e.io.Took() ==> !OnPath(Apply(s, e), e.id)
    ensures PcOk(Apply(s, e), Apply(s, e).calls[e.c])
  {
    hide RotationPath, RowOk, HandedOk, Advance;
    assert CallOk(s, s.calls[e.c]);
    LoadedAfter(s, Apply(s, e), s.calls[e.c].presented, s.calls[e.c].pc.prior);
  }

  lemma CreateCaller(s: System, e: Event)
    requires e.CreateNew? && Enabled(s, e)
    ensures var s', c := Apply(s, e), e.c;
      && c in s.calls && c in s'.calls && s'.calls == s.calls[c := s'.calls[c]]
      && s'.calls[c].presented == s.calls[c].presented && s'.calls[c].start == s.calls[c].start
      && !ReplayPc(s.calls[c].pc) && !UnknownPc(s.calls[c].pc)
      && (Created(s'.calls[c].pc).Some? ==> Created(s'.calls[c].pc).value !in s.hist.ids)
  {}

  lemma CreateStep(s: System, e: Event)
    requires Inv(s) && e.CreateNew? && Enabled(s, e)
    ensures Inv(Apply(s, e)) && Advance(s, Apply(s, e))
  {
    hide *;
    CreateChange(s, e);
    AdvanceOf(s, Apply(s, e), None);
    CreateMoves(s, e);
    CreateCaller(s, e);
    WriteStep(s, Apply(s, e), e.c, None);
  }

  lemma AdvanceOf(s: System, s': System, gone: Option<RowId>)
    requires GoodChange(s, s', gone)
    ensures TableInv(s') && Advance(s, s')
  {}

  lemma LoadedAfter(s: System, s': System, t: Token, prior: Loaded)
    requires Advance(s, s') && LoadedOk(s, t, prior)
    ensures LoadedOk(s', t, prior)
    ensures Revoked(s, prior.id) ==> Revoked(s', prior.id)
  {
    LoadedStays(s, s', t, prior);
  }

  lemma SwapMiss(s: System, e: Event)
    requires Inv(s) && e.Swap? && Enabled(s, e)
    requires e.io.Refused? || !s.db.Unrevoked(s.calls[e.c].pc.prior.id)
    ensures Inv(Apply(s, e)) && Advance(s, Apply(s, e))
  {
    hide RotationPath, RowOk, HandedOk, Advance;
    var s' := Apply(s, e);
    assert CallOk(s, s.calls[e.c]);
    assert DrawsNames(s, s');
    DrawNames(s, s');
    hide TableInv, GoodChange, CallOk, Inv;
    WriteStep(s, s', e.c, None);
  }

  ghost predicate SwapsLive(s: System, e: Event) {
    e.Swap? && Enabled(s, e) && e.io.Took() && s.db.Unrevoked(s.calls[e.c].pc.prior.id)
  }

  lemma SwapCommits(s: System, e: Event)
    requires Inv(s) && SwapsLive(s, e)
    ensures var pc := s.calls[e.c].pc; Commits(s, Apply(s, e), pc.prior.id, pc.id, pc.at, e.io.Answered?)
  {
    hide RotationPath, Dead;
    var call := s.calls[e.c];
    assert CallOk(s, call);
    assert HandedOk(s, call.presented);
    assert RowOk(s, call.pc.id);
  }

  /** A rotate that wins the compare-and-set leaves with a live row. */
  lemma WinnerIsLive(s: System, e: Event)
    requires Inv(s) && SwapsLive(s, e)
    ensures Apply(s, e).db.Unrevoked(s.calls[e.c].pc.id)
  {
    hide RotationPath, Dead, RowOk, HandedOk;
    assert CallOk(s, s.calls[e.c]);
  }

  lemma SwapHitMoves(s: System, e: Event)
    requires Inv(s) && SwapsLive(s, e) && Advance(s, Apply(s, e))
    ensures PcOk(Apply(s, e), Apply(s, e).calls[e.c])
  {
    hide RotationPath, RowOk, HandedOk, Dead, Advance;
    assert CallOk(s, s.calls[e.c]);
    LoadedAfter(s, Apply(s, e), s.calls[e.c].presented, s.calls[e.c].pc.prior);
  }

  lemma SwapHit(s: System, e: Event)
    requires Inv(s) && SwapsLive(s, e)
    ensures Inv(Apply(s, e)) && Advance(s, Apply(s, e))
  {
    hide Inv, GoodChange, Advance, PcOk, Commits, TableInv, OnPath;
    var s' := Apply(s, e);
    var Swapping(prior, at, id, token) := s.calls[e.c].pc;
    SwapCommits(s, e);
    TablesOf(s);
    Commit(s, s', prior.id, id, at, e.io.Answered?);
    AdvanceOf(s, s', Some(id));
    SwapHitMoves(s, e);
    WriteStep(s, s', e.c, Some(id));
  }

  lemma TablesOf(s: System)
    requires Inv(s)
    ensures TableInv(s)
  {}

  lemma DropStep(s: System, e: Event)
    requires Inv(s) && e.DropOrphan? && Enabled(s, e)
    ensures Inv(Apply(s, e)) && Advance(s, Apply(s, e))
  {
    hide RotationPath, RowOk, HandedOk, Advance;
    var s' := Apply(s, e);
    var call := s.calls[e.c];
    assert CallOk(s, call);
    if e.io.Refused? {
      assert DrawsNames(s, s');
      DrawNames(s, s');
    } else {
      DeletePending(s, s', call.pc.id);
    }
    assert Advance(s, s');
    LoadedAfter(s, s', call.presented, call.pc.prior);
    var gone := if e.io.Refused? then None else Some(call.pc.id);
    hide TableInv, GoodChange, CallOk, Inv;
    WriteStep(s, s', e.c, gone);
  }

  /** `UPDATE ... WHERE family_id = f` leaves the family dead. */
  lemma RevokeFamilyChange(s: System, s': System, f: Family, at: Time, io: Io)
    requires TableInv(s) && s'.db == After(s.db, io, s.db.RevokeFamily(f, at)) && s'.hist == s.hist
    ensures GoodChange(s, s', None)
    ensures io.Took() ==> Dead(s', f)
  {
    hide RotationPath, RowOk, HandedOk, GoodChange;
    if io.Refused? {
      assert DrawsNames(s, s');
      DrawNames(s, s');
    } else {
      var hit := set id | id in s.db.rows && s.db.rows[id].family == f;
      assert RevokesMany(s, s', hit, at);
      RevokeMany(s, s', hit, at);
    }
  }

  lemma KillMoves(s: System, e: Event)
    requires Inv(s) && (e.Kill? || e.LogoutRevoke?) && Enabled(s, e) && Advance(s, Apply(s, e))
    requires e.io.Took() ==> Dead(Apply(s, e), s.calls[e.c].pc.prior.row.family)
    ensures PcOk(Apply(s, e), Apply(s, e).calls[e.c])
  {
    hide RotationPath, RowOk, HandedOk, Advance, Dead;
    assert CallOk(s, s.calls[e.c]);
    LoadedAfter(s, Apply(s, e), s.calls[e.c].presented, s.calls[e.c].pc.prior);
  }

  lemma KillStep(s: System, e: Event)
    requires Inv(s) && (e.Kill? || e.LogoutRevoke?) && Enabled(s, e)
    ensures Inv(Apply(s, e)) && Advance(s, Apply(s, e))
  {
    hide Inv, GoodChange, Advance, PcOk, Dead, TableInv;
    var s' := Apply(s, e);
    TablesOf(s);
    RevokeFamilyChange(s, s', s.calls[e.c].pc.prior.row.family, e.at, e.io);
    AdvanceOf(s, s', None);
    KillMoves(s, e);
    WriteStep(s, s', e.c, None);
  }

  lemma BumpStep(s: System, e: Event)
    requires Inv(s) && e.Bump? && Enabled(s, e)
    ensures Inv(Apply(s, e)) && Advance(s, Apply(s, e))
  {
    hide RotationPath, RowOk, HandedOk, Advance;
    var s' := Apply(s, e);
    var call := s.calls[e.c];
    assert CallOk(s, call);
    assert DrawsNames(s, s');
    DrawNames(s, s');
    assert Advance(s, s');
    LoadedAfter(s, s', call.presented, call.pc.prior);
    hide TableInv, GoodChange, CallOk, Inv;
    WriteStep(s, s', e.c, None);
  }

  lemma IssueStep(s: System, e: Event)
    requires Inv(s) && e.Issue? && Enabled(s, e)
    ensures Inv(Apply(s, e)) && Advance(s, Apply(s, e))
  {
    hide RotationPath, RowOk, HandedOk, PcOk, Dead;
    var s' := Apply(s, e);
    if e.io.Refused? {
      assert DrawsNames(s, s');
      DrawNames(s, s');
    } else {
      var row := NewRow(e.user, e.token, e.family, e.at, e.expiresAt);
      assert InsertsRoot(s, s', e.id, row, e.io.Answered?);
      InsertRoot(s, s', e.id, row, e.io.Answered?);
    }
    assert Advance(s, s');
    hide TableInv, GoodChange, Advance;
    StepOfTables(s, s');
  }

  lemma TableStep(s: System, e: Event)
    requires Inv(s) && (e.AddUser? || e.RevokeAll? || e.BumpElsewhere?) && Enabled(s, e)
    ensures Inv(Apply(s, e)) && Advance(s, Apply(s, e))
  {
    hide RotationPath, RowOk, HandedOk, PcOk, Dead;
    var s' := Apply(s, e);
    if e.RevokeAll? && e.io.Took() {
      var hit := set id | id in s.db.rows && s.db.rows[id].user == e.user;
      assert RevokesMany(s, s', hit, e.at);
      RevokeMany(s, s', hit, e.at);
    } else {
      assert DrawsNames(s, s');
      DrawNames(s, s');
    }
    assert Advance(s, s');
    hide TableInv, GoodChange, Advance;
    StepOfTables(s, s');
  }

  /** Every event keeps the invariant, and no event takes anything from the other calls. */
  lemma Step(s: System, e: Event)
    requires Inv(s) && Enabled(s, e)
    ensures Inv(Apply(s, e)) && Advance(s, Apply(s, e))
  {
    hide Inv, Advance;
    match e
    case AddUser(_) => TableStep(s, e);
    case Issue(_, _, _, _, _, _, _) => IssueStep(s, e);
    case BeginRotate(c, t) => BeginStep(s, c, t, Loading);
    case Load(c, found, now, io) => LoadStep(s, c, found, now, io);
    case CreateNew(_, _, _, _, _, _) => CreateStep(s, e);
    case Swap(c, io) =>
      if io.Refused? || !s.db.Unrevoked(s.calls[c].pc.prior.id) { SwapMiss(s, e); } else { SwapHit(s, e); }
    case DropOrphan(_, _) => DropStep(s, e);
    case Kill(_, _, _) => KillStep(s, e);
    case Bump(_, _) => BumpStep(s, e);
    case BeginLogout(c, t) => BeginStep(s, c, t, LogoutLoading);
    case LogoutLoad(c, found, io) => LogoutLoadStep(s, c, found, io);
    case LogoutRevoke(_, _, _) => KillStep(s, e);
    case RevokeAll(_, _, _) => TableStep(s, e);
    case BumpElsewhere(_, _) => TableStep(s, e);
  }
}
