/**
 * Refresh-token rotation as a concurrent protocol (src/auth/refresh.rs).
 *
 * Every database statement is one atomic step.  A call in progress is a program counter
 * together with the row it loaded; any number of calls interleave, each may stop for ever
 * at any point, and every statement may fail, with or without having taken effect.
 */
module RefreshProtocol {
  import opened Prelude

  type UserId = nat
  type RowId = nat
  type Family = nat
  type Token = nat
  type CallId = nat
  type Time = int

  /** SHA-256 taken as injective. */
  datatype Hash = Sha256(token: Token)

  datatype Row = Row(
    user: UserId, hash: Hash, family: Family, issuedAt: Time, expiresAt: Time,
    revokedAt: Option<Time>, replacedBy: Option<RowId>)
  {
    predicate Live() { revokedAt.None? }

    function Revoke(at: Time): Row {
      if Live() then this.(revokedAt := Some(at)) else this
    }
  }

  function NewRow(user: UserId, token: Token, family: Family, at: Time, expiresAt: Time): Row {
    Row(user, Sha256(token), family, at, expiresAt, None, None)
  }

  /** The two tables the protocol touches, with one function for each SQL statement. */
  datatype Db = Db(rows: map<RowId, Row>, tokenVersion: map<UserId, int>) {

    ghost predicate Finds(h: Hash, found: Option<RowId>) {
      match found
      case None => forall id :: id in rows ==> rows[id].hash != h
      case Some(id) => id in rows && rows[id].hash == h
    }

    function Insert(id: RowId, row: Row): Db {
      this.(rows := rows[id := row])
    }

    predicate Unrevoked(id: RowId) {
      id in rows && rows[id].Live()
    }

    /** UPDATE $id SET revoked_at, replaced_by WHERE revoked_at IS NONE */
    function TrySwap(id: RowId, at: Time, successor: RowId): Db {
      if Unrevoked(id)
      then this.(rows := rows[id := rows[id].(revokedAt := Some(at), replacedBy := Some(successor))])
      else this
    }

    function Delete(id: RowId): Db {
      this.(rows := rows - {id})
    }

    function RevokeFamily(f: Family, at: Time): Db {
      this.(rows := map id | id in rows :: if rows[id].family == f then rows[id].Revoke(at) else rows[id])
    }

    function RevokeUser(u: UserId, at: Time): Db {
      this.(rows := map id | id in rows :: if rows[id].user == u then rows[id].Revoke(at) else rows[id])
    }

    /** UPDATE $id SET token_version = token_version + 1; no row, no effect. */
    function Bump(u: UserId): Db {
      if u in tokenVersion then this.(tokenVersion := tokenVersion[u := tokenVersion[u] + 1]) else this
    }
  }

  datatype Loaded = Loaded(id: RowId, row: Row)

  datatype Outcome =
    | Rotated(prior: Loaded, id: RowId, token: Token)
    | ReuseDetected(prior: Loaded)
    | NotFound
    | Expired
    | DbError
    | LoggedOut(prior: Loaded)

  /** What a call does next. */
  datatype Pc =
    | Loading
    | Creating(prior: Loaded)
    | Swapping(prior: Loaded, at: Time, id: RowId, token: Token)
    | Dropping(prior: Loaded, id: RowId)
    | Killing(prior: Loaded)
    | Bumping(prior: Loaded)
    | LogoutLoading
    | LogoutRevoking(prior: Loaded)
    | Finished(outcome: Outcome)

  /** `clean`: no statement of this call has failed yet.  `start`: the tables when it began.
      `made`: the row it inserted, if it did.  `loadedAt`: when a rotation had loaded its row. */
  datatype Call = Call(
    presented: Token, pc: Pc, clean: bool, start: Db, made: Option<RowId>, loadedAt: Option<Time>)

  /**
   * History that no statement reads: every row id and token ever drawn or guessed, the
   * plaintexts that were handed to a client with the row each belongs to, and for every
   * family its user and its rows in the order in which rotation committed them.
   */
  datatype History = History(
    ids: set<RowId>, tokens: set<Token>, handed: map<Token, RowId>,
    owner: map<Family, UserId>, chain: map<Family, seq<RowId>>)

  datatype System = System(db: Db, calls: map<CallId, Call>, hist: History)

  datatype Event =
    | AddUser(user: UserId)
    | Issue(user: UserId, id: RowId, token: Token, family: Family, at: Time, expiresAt: Time, io: Io)
    | BeginRotate(c: CallId, presented: Token)
    | Load(c: CallId, found: Option<RowId>, now: Time, io: Io)
    | CreateNew(c: CallId, id: RowId, token: Token, at: Time, expiresAt: Time, io: Io)
    | Swap(c: CallId, io: Io)
    | DropOrphan(c: CallId, io: Io)
    | Kill(c: CallId, at: Time, io: Io)
    | Bump(c: CallId, io: Io)
    | BeginLogout(c: CallId, presented: Token)
    | LogoutLoad(c: CallId, found: Option<RowId>, io: Io)
    | LogoutRevoke(c: CallId, at: Time, io: Io)
    | RevokeAll(user: UserId, at: Time, io: Io)
    | BumpElsewhere(user: UserId, io: Io)

  ghost predicate Init(s: System) {
    s.db.rows == map[] && s.calls == map[] && s.hist == History({}, {}, map[], map[], map[])
  }

  predicate PresentedBefore(s: System, t: Token) {
    exists c :: c in s.calls && s.calls[c].presented == t
  }

  /** A client presents a token it was given, a guess that is nobody's token, or either again. */
  predicate MayPresent(s: System, t: Token) {
    t in s.hist.handed || t !in s.hist.tokens || PresentedBefore(s, t)
  }

  predicate Fresh(s: System, id: RowId, token: Token) {
    id !in s.hist.ids && token !in s.hist.tokens
  }

  ghost predicate Enabled(s: System, e: Event) {
    match e
    case AddUser(u) => u !in s.db.tokenVersion
    case Issue(_, id, token, family, _, _, _) => Fresh(s, id, token) && family !in s.hist.chain
    case BeginRotate(c, t) => c !in s.calls && MayPresent(s, t)
    case Load(c, found, _, _) =>
      c in s.calls && s.calls[c].pc.Loading? && s.db.Finds(Sha256(s.calls[c].presented), found)
    case CreateNew(c, id, token, _, _, _) => c in s.calls && s.calls[c].pc.Creating? && Fresh(s, id, token)
    case Swap(c, _) => c in s.calls && s.calls[c].pc.Swapping?
    case DropOrphan(c, _) => c in s.calls && s.calls[c].pc.Dropping?
    case Kill(c, _, _) => c in s.calls && s.calls[c].pc.Killing?
    case Bump(c, _) => c in s.calls && s.calls[c].pc.Bumping?
    case BeginLogout(c, t) => c !in s.calls && MayPresent(s, t)
    case LogoutLoad(c, found, _) =>
      c in s.calls && s.calls[c].pc.LogoutLoading? && s.db.Finds(Sha256(s.calls[c].presented), found)
    case LogoutRevoke(c, _, _) => c in s.calls && s.calls[c].pc.LogoutRevoking?
    case RevokeAll(_, _, _) => true
    case BumpElsewhere(_, _) => true
  }

  function After(db: Db, io: Io, changed: Db): Db {
    if io.Took() then changed else db
  }

  /** Call `c` moves to `pc` and remembers whether its statement failed. */
  function Goto(s: System, c: CallId, pc: Pc, io: Io): map<CallId, Call>
    requires c in s.calls
  {
    s.calls[c := s.calls[c].(pc := pc, clean := s.calls[c].clean && !io.Failed())]
  }

  /** The pre-checks of `rotate` on the row that was loaded. */
  function PreCheck(db: Db, found: Option<RowId>, now: Time): Pc
    requires found.Some? ==> found.value in db.rows
  {
    if found.None? then Finished(NotFound) else
    var row := db.rows[found.value];
    var prior := Loaded(found.value, row);
    if !row.Live() then (if row.replacedBy.Some? then Killing(prior) else Finished(NotFound))
    else if now > row.expiresAt then Finished(Expired)
    else Creating(prior)
  }

  function WithLoaded(s: System, c: CallId, found: Option<RowId>, now: Time, io: Io): map<CallId, Call>
    requires c in s.calls && (found.Some? ==> found.value in s.db.rows)
  {
    var calls := Goto(s, c, if io.Failed() then Finished(DbError) else PreCheck(s.db, found, now), io);
    if io.Failed() then calls else calls[c := calls[c].(loadedAt := Some(now))]
  }

  function Begin(s: System, c: CallId, t: Token, pc: Pc): System {
    s.(calls := s.calls[c := Call(t, pc, true, s.db, None, None)],
       hist := s.hist.(tokens := s.hist.tokens + {t}))
  }

  function ApplyIssue(s: System, user: UserId, id: RowId, token: Token, family: Family,
                      at: Time, expiresAt: Time, io: Io): System {
    System(
      After(s.db, io, s.db.Insert(id, NewRow(user, token, family, at, expiresAt))),
      s.calls,
      History(s.hist.ids + {id}, s.hist.tokens + {token},
              if io.Answered? then s.hist.handed[token := id] else s.hist.handed,
              if io.Took() then s.hist.owner[family := user] else s.hist.owner,
              if io.Took() then s.hist.chain[family := [id]] else s.hist.chain))
  }

  function ApplyCreate(s: System, c: CallId, id: RowId, token: Token, at: Time, expiresAt: Time, io: Io): System
    requires c in s.calls && s.calls[c].pc.Creating?
  {
    var prior := s.calls[c].pc.prior;
    var calls := Goto(s, c, if io.Failed() then Finished(DbError) else Swapping(prior, at, id, token), io);
    System(
      After(s.db, io, s.db.Insert(id, NewRow(prior.row.user, token, prior.row.family, at, expiresAt))),
      if io.Took() then calls[c := calls[c].(made := Some(id))] else calls,
      s.hist.(ids := s.hist.ids + {id}, tokens := s.hist.tokens + {token}))
  }

  function ApplySwap(s: System, c: CallId, io: Io): System
    requires c in s.calls && s.calls[c].pc.Swapping?
  {
    var Swapping(prior, at, id, token) := s.calls[c].pc;
    var hit := s.db.Unrevoked(prior.id);
    var f := prior.row.family;
    System(
      After(s.db, io, s.db.TrySwap(prior.id, at, id)),
      Goto(s, c, if io.Failed() then Finished(DbError)
                 else if hit then Finished(Rotated(prior, id, token))
                 else Dropping(prior, id), io),
      s.hist.(
        handed := if hit && io.Answered? then s.hist.handed[token := id] else s.hist.handed,
        chain := if hit && io.Took() && f in s.hist.chain
                 then s.hist.chain[f := s.hist.chain[f] + [id]] else s.hist.chain))
  }

  function Apply(s: System, e: Event): System
    requires Enabled(s, e)
  {
    match e
    case AddUser(u) => s.(db := s.db.(tokenVersion := s.db.tokenVersion[u := 0]))
    case Issue(user, id, token, family, at, expiresAt, io) =>
      ApplyIssue(s, user, id, token, family, at, expiresAt, io)
    case BeginRotate(c, t) => Begin(s, c, t, Loading)
    case Load(c, found, now, io) => s.(calls := WithLoaded(s, c, found, now, io))
    case CreateNew(c, id, token, at, expiresAt, io) => ApplyCreate(s, c, id, token, at, expiresAt, io)
    case Swap(c, io) => ApplySwap(s, c, io)
    case DropOrphan(c, io) =>
      s.(db := After(s.db, io, s.db.Delete(s.calls[c].pc.id)),
         calls := Goto(s, c, Killing(s.calls[c].pc.prior), io))
    case Kill(c, at, io) =>
      s.(db := After(s.db, io, s.db.RevokeFamily(s.calls[c].pc.prior.row.family, at)),
         calls := Goto(s, c, Bumping(s.calls[c].pc.prior), io))
    case Bump(c, io) =>
      s.(db := After(s.db, io, s.db.Bump(s.calls[c].pc.prior.row.user)),
         calls := Goto(s, c, Finished(ReuseDetected(s.calls[c].pc.prior)), io))
    case BeginLogout(c, t) => Begin(s, c, t, LogoutLoading)
    case LogoutLoad(c, found, io) =>
      s.(calls := Goto(s, c,
           if io.Failed() then Finished(DbError)
           else if found.None? then Finished(NotFound)
           else LogoutRevoking(Loaded(found.value, s.db.rows[found.value])), io))
    case LogoutRevoke(c, at, io) =>
      s.(db := After(s.db, io, s.db.RevokeFamily(s.calls[c].pc.prior.row.family, at)),
         calls := Goto(s, c, if io.Failed() then Finished(DbError) else Finished(LoggedOut(s.calls[c].pc.prior)), io))
    case RevokeAll(u, at, io) => s.(db := After(s.db, io, s.db.RevokeUser(u, at)))
    case BumpElsewhere(u, io) => s.(db := After(s.db, io, s.db.Bump(u)))
  }

  /** The call whose statement the event is. */
  function CallOf(e: Event): Option<CallId> {
    match e
    case BeginRotate(c, _) => Some(c)
    case Load(c, _, _, _) => Some(c)
    case CreateNew(c, _, _, _, _, _) => Some(c)
    case Swap(c, _) => Some(c)
    case DropOrphan(c, _) => Some(c)
    case Kill(c, _, _) => Some(c)
    case Bump(c, _) => Some(c)
    case BeginLogout(c, _) => Some(c)
    case LogoutLoad(c, _, _) => Some(c)
    case LogoutRevoke(c, _, _) => Some(c)
    case AddUser(_) | Issue(_, _, _, _, _, _, _) | RevokeAll(_, _, _) | BumpElsewhere(_, _) => None
  }

  ghost predicate Next(s: System, s': System) {
    exists e: Event :: Enabled(s, e) && s' == Apply(s, e)
  }

  ghost predicate NextAt(tr: seq<System>, i: nat)
    requires i < |tr| - 1
  {
    Next(tr[i], tr[i + 1])
  }

  /** A run: any finite interleaving of events from an empty table. */
  ghost predicate Run(tr: seq<System>) {
    |tr| > 0 && Init(tr[0]) && forall i :: 0 <= i < |tr| - 1 ==> NextAt(tr, i)
  }
}
