/**
 * The refresh-token calls as the server runs them: statement after statement, with any
 * amount of other work between two statements.  Every method records each of its atomic
 * steps in `log`, and `Valid` says that the log is a run of the protocol, so whatever the
 * theorems say of runs holds of the tables at every moment of every call.
 */
module RefreshServer {
  import opened Prelude
  import opened RefreshProtocol
  import RefreshSafety
  import RefreshTheorems
  import RefreshAnswers

  /** 14 days, used when JWT_REFRESH_TTL_SECS is not set. */
  const DEFAULT_REFRESH_TTL_SECS: int := 14 * 24 * 60 * 60

  lemma Extend(log: seq<System>, e: Event, s: System)
    requires Run(log) && Enabled(log[|log| - 1], e) && s == Apply(log[|log| - 1], e)
    ensures Run(log + [s])
  {
    hide Enabled, Init;
    var tr := log + [s];
    forall i | 0 <= i < |tr| - 1 ensures NextAt(tr, i) {
      if i < |log| - 1 {
        assert NextAt(log, i);
        assert Next(tr[i], tr[i + 1]);
      } else {
        assert Next(tr[i], tr[i + 1]);
      }
    }
  }

  class Server {
    var rows: map<RowId, Row>
    var tokenVersion: map<UserId, int>
    const ttl: int
    // Names already drawn, so that drawing random bytes can be modelled as drawing new names.
    var hist: History
    ghost var calls: map<CallId, Call>
    ghost var log: seq<System>

    ghost function State(): System
      reads this
    {
      System(Db(rows, tokenVersion), calls, hist)
    }

    ghost predicate Valid()
      reads this
    {
      Run(log) && log[|log| - 1] == State()
    }

    /** `configured`: JWT_REFRESH_TTL_SECS, if it is set and a number. */
    constructor (configured: Option<int>)
      ensures Valid() && rows == map[] && fresh(this)
      ensures ttl == if configured.Some? && configured.value > 0 then configured.value else 14 * 24 * 60 * 60
    {
      rows, tokenVersion, calls := map[], map[], map[];
      hist := History({}, {}, map[], map[], map[]);
      ttl := if configured.Some? && configured.value > 0 then configured.value else DEFAULT_REFRESH_TTL_SECS;
      log := [System(Db(map[], map[]), map[], History({}, {}, map[], map[], map[]))];
    }

    /** Other calls run.  Callers know only that the log went on and that their own call stood still. */
    method Interfere(ghost c: CallId)
      requires Valid() && c in calls
      modifies this
      ensures Valid() && old(log) <= log && c in calls && calls[c] == old(calls[c])
    {}

    ghost method Record(e: Event, before: System)
      requires Run(log) && log[|log| - 1] == before
      requires Enabled(before, e) && State() == Apply(before, e)
      modifies this`log
      ensures Valid() && log == old(log) + [State()]
    {
      Extend(log, e, State());
      log := log + [State()];
    }

    /** SELECT * FROM refresh_token WHERE hashed_token = $h LIMIT 1 */
    method LoadByHash(h: Hash) returns (found: Option<RowId>)
      ensures Db(rows, tokenVersion).Finds(h, found)
    {
      var rest := rows.Keys;
      while rest != {}
        invariant rest <= rows.Keys
        invariant forall id :: id in rows && id !in rest ==> rows[id].hash != h
        decreases rest
      {
        var id :| id in rest;
        if rows[id].hash == h { return Some(id); }
        rest := rest - {id};
      }
      return None;
    }

    method Issue(user: UserId) returns (r: Option<(Token, Family, Time)>)
      requires Valid()
      modifies this
      ensures Valid() && old(log) <= log
      ensures r.Some? ==> r.value.0 in hist.handed && hist.handed[r.value.0] in rows
      ensures r.Some? ==> r.value.0 !in old(hist.tokens) && r.value.1 !in old(hist.chain)
      ensures r.Some? ==>
        var (token, family, expiresAt) := r.value;
        rows[hist.handed[token]] == Row(user, Sha256(token), family, expiresAt - ttl, expiresAt, None, None)
      ensures r.None? ==> hist.handed == old(hist.handed)
    {
      ghost var before := State();
      var token := DrawFresh(hist.tokens);
      var family := DrawFresh(hist.chain.Keys);
      var id := DrawFresh(hist.ids);
      var now: Time := *;
      var io := AskDatabase();
      if io.Took() {
        rows := rows[id := NewRow(user, token, family, now, now + ttl)];
        hist := hist.(owner := hist.owner[family := user], chain := hist.chain[family := [id]]);
      }
      hist := hist.(ids := hist.ids + {id}, tokens := hist.tokens + {token});
      if io.Answered? { hist := hist.(handed := hist.handed[token := id]); }
      Record(RefreshProtocol.Issue(user, id, token, family, now, now + ttl, io), before);
      r := if io.Answered? then Some((token, family, now + ttl)) else None;
    }

    /** Call `c` goes on to `pc`. */
    ghost method Proceed(c: CallId, pc: Pc, io: Io)
      requires c in calls
      modifies this`calls
      ensures calls == Goto(old(State()), c, pc, io)
    {
      calls := Goto(State(), c, pc, io);
    }

    /** What the outcome of a finished rotation promises. */
    ghost predicate Kept(c: CallId, outcome: Outcome)
      reads this
    {
      && c in calls && calls[c].pc == Finished(outcome)
      && (outcome.Rotated? ==>
            && outcome.token in hist.handed && hist.handed[outcome.token] == outcome.id
            && outcome.prior.id in rows && rows[outcome.prior.id].replacedBy == Some(outcome.id)
            && outcome.prior.row.revokedAt.None?
            && calls[c].loadedAt.Some? && calls[c].loadedAt.value <= rows[outcome.prior.id].expiresAt)
      && (outcome.Expired? ==>
            && calls[c].presented in hist.handed && hist.handed[calls[c].presented] in rows
            && calls[c].loadedAt.Some?
            && calls[c].loadedAt.value > rows[hist.handed[calls[c].presented]].expiresAt)
      && (outcome.ReuseDetected? && calls[c].clean ==>
            && RefreshSafety.Dead(State(), outcome.prior.row.family)
            && RefreshSafety.Raised(calls[c].start, State().db, outcome.prior.row.user))
      && (outcome.LoggedOut? ==> RefreshSafety.Dead(State(), outcome.prior.row.family))
    }

    ghost method Conclude(c: CallId, outcome: Outcome)
      requires Valid() && c in calls && calls[c].pc == Finished(outcome)
      ensures Kept(c, outcome)
    {
      RefreshTheorems.CallAt(log, |log| - 1, c);
      RefreshAnswers.AnswerAt(log, |log| - 1, c);
      hide Run, RefreshSafety.Dead, RefreshSafety.RotationPath;
    }

    method Rotate(ghost c: CallId, presented: Token) returns (outcome: Outcome)
      requires Valid() && c !in calls && MayPresent(State(), presented)
      modifies this
      ensures Valid() && old(log) <= log
      ensures Kept(c, outcome) && calls[c].presented == presented
    {
      hide Run, Kept, Enabled, Apply;
      BeginCall(c, presented, Loading);
      Interfere(c);
      var prior;
      prior, outcome := Check(c, presented);
      if prior.Some? {
        Interfere(c);
        outcome := Replace(c, prior.value);
      }
      Conclude(c, outcome);
    }

    /** Load the row and run the cheap pre-checks; a replayed token is answered here. */
    method Check(ghost c: CallId, presented: Token) returns (prior: Option<Loaded>, outcome: Outcome)
      requires Valid() && c in calls && calls[c].pc.Loading? && calls[c].presented == presented
      modifies this
      ensures Valid() && old(log) <= log && c in calls && calls[c].presented == presented
      ensures calls[c].pc == if prior.Some? then Creating(prior.value) else Finished(outcome)
      ensures prior.Some? ==>
        && prior.value.id in rows && prior.value.row == rows[prior.value.id]
        && prior.value.row.hash.token == presented && prior.value.row.revokedAt.None?
        && calls[c].loadedAt.Some? && calls[c].loadedAt.value <= prior.value.row.expiresAt
      ensures prior.None? && outcome == Expired ==>
        && calls[c].loadedAt.Some?
        && (exists id :: id in rows && rows[id].hash.token == presented && rows[id].revokedAt.None?
                         && calls[c].loadedAt.value > rows[id].expiresAt)
    {
      hide Run;
      var found, now, io := LoadRow(c, presented);
      if io.Failed() { return None, DbError; }
      if found.None? { return None, NotFound; }
      var row := Loaded(found.value, rows[found.value]);
      if row.row.revokedAt.Some? {
        if row.row.replacedBy.Some? {
          HandleReuse(c, row);
          return None, ReuseDetected(row);
        }
        return None, NotFound;
      }
      if now > row.row.expiresAt { return None, Expired; }
      return Some(row), NotFound;
    }

    /** Create the replacement row, then revoke the presented one if it is still unrevoked. */
    method Replace(ghost c: CallId, prior: Loaded) returns (outcome: Outcome)
      requires Valid() && c in calls && calls[c].pc == Creating(prior)
      modifies this
      ensures Valid() && old(log) <= log
      ensures c in calls && calls[c].pc == Finished(outcome) && calls[c].presented == old(calls[c].presented)
    {
      hide Run;
      var id, token, now, io := CreateReplacement(c, prior);
      if io.Failed() { return DbError; }
      Interfere(c);
      var hit;
      hit, io := TryRevokeUnrevoked(c, prior, now, id, token);
      if io.Failed() { return DbError; }
      if hit { return Rotated(prior, id, token); }
      Interfere(c);
      // Someone else rotated it: remove the orphan and treat this as theft.
      DeleteOrphan(c, prior, id);
      HandleReuse(c, prior);
      return ReuseDetected(prior);
    }

    method BeginCall(ghost c: CallId, presented: Token, ghost pc: Pc)
      requires Valid() && c !in calls && MayPresent(State(), presented) && (pc.Loading? || pc.LogoutLoading?)
      modifies this
      ensures Valid() && old(log) <= log && rows == old(rows) && tokenVersion == old(tokenVersion)
      ensures State() == Begin(old(State()), c, presented, pc)
    {
      ghost var before := State();
      calls := Begin(before, c, presented, pc).calls;
      hist := hist.(tokens := hist.tokens + {presented});
      Record(if pc.Loading? then BeginRotate(c, presented) else BeginLogout(c, presented), before);
    }

    /** The call is the one it was but for its program counter and its failures. */
    ghost predicate Moved(before: System, c: CallId, pc: Pc)
      requires c in before.calls
      reads this
    {
      c in calls && calls[c].pc == pc && calls[c].presented == before.calls[c].presented
    }

    method LoadRow(ghost c: CallId, presented: Token) returns (found: Option<RowId>, now: Time, io: Io)
      requires Valid() && c in calls && calls[c].pc.Loading? && calls[c].presented == presented
      modifies this`calls, this`log
      ensures Valid() && old(log) <= log && Db(rows, tokenVersion).Finds(Sha256(presented), found)
      ensures State() == Apply(old(State()), Load(c, found, now, io))
      ensures Moved(old(State()), c, if io.Failed() then Finished(DbError) else PreCheck(State().db, found, now))
    {
      hide Run;
      ghost var before := State();
      found := LoadByHash(Sha256(presented));
      now := *;
      io := AskDatabase();
      Proceed(c, if io.Failed() then Finished(DbError) else PreCheck(before.db, found, now), io);
      if io.Answered? { calls := calls[c := calls[c].(loadedAt := Some(now))]; }
      Record(Load(c, found, now, io), before);
    }

    method CreateReplacement(ghost c: CallId, prior: Loaded) returns (id: RowId, token: Token, now: Time, io: Io)
      requires Valid() && c in calls && calls[c].pc == Creating(prior)
      modifies this
      ensures Valid() && old(log) <= log && Fresh(old(State()), id, token)
      ensures State() == Apply(old(State()), CreateNew(c, id, token, now, now + ttl, io))
      ensures Moved(old(State()), c, if io.Failed() then Finished(DbError) else Swapping(prior, now, id, token))
      ensures io.Took() ==>
        rows == old(rows)[id := Row(prior.row.user, Sha256(token), prior.row.family, now, now + ttl, None, None)]
    {
      hide Run;
      ghost var before := State();
      token := DrawFresh(hist.tokens);
      id := DrawFresh(hist.ids);
      now := *;
      io := AskDatabase();
      if io.Took() {
        rows := rows[id := NewRow(prior.row.user, token, prior.row.family, now, now + ttl)];
      }
      hist := hist.(ids := hist.ids + {id}, tokens := hist.tokens + {token});
      Proceed(c, if io.Failed() then Finished(DbError) else Swapping(prior, now, id, token), io);
      if io.Took() { calls := calls[c := calls[c].(made := Some(id))]; }
      Record(CreateNew(c, id, token, now, now + ttl, io), before);
    }

    /** UPDATE $id SET revoked_at, replaced_by WHERE revoked_at IS NONE RETURN AFTER */
    method TryRevokeUnrevoked(ghost c: CallId, prior: Loaded, at: Time, id: RowId, token: Token)
      returns (hit: bool, io: Io)
      requires Valid() && c in calls && calls[c].pc == Swapping(prior, at, id, token)
      modifies this
      ensures Valid() && old(log) <= log && hit == old(Db(rows, tokenVersion).Unrevoked(prior.id))
      ensures State() == Apply(old(State()), Swap(c, io))
      ensures Moved(old(State()), c, if io.Failed() then Finished(DbError)
                                     else if hit then Finished(Rotated(prior, id, token)) else Dropping(prior, id))
    {
      hide Run;
      ghost var before := State();
      io := AskDatabase();
      hit := prior.id in rows && rows[prior.id].revokedAt.None?;
      var f := prior.row.family;
      if hit && io.Took() {
        rows := rows[prior.id := rows[prior.id].(revokedAt := Some(at), replacedBy := Some(id))];
        if f in hist.chain { hist := hist.(chain := hist.chain[f := hist.chain[f] + [id]]); }
      }
      if hit && io.Answered? { hist := hist.(handed := hist.handed[token := id]); }
      Proceed(c, if io.Failed() then Finished(DbError)
                 else if hit then Finished(Rotated(prior, id, token)) else Dropping(prior, id), io);
      Record(Swap(c, io), before);
    }

    method DeleteOrphan(ghost c: CallId, prior: Loaded, id: RowId)
      requires Valid() && c in calls && calls[c].pc == Dropping(prior, id)
      modifies this
      ensures Valid() && old(log) <= log
      ensures rows == old(rows) || rows == old(rows) - {id}
      ensures c in calls && calls[c].pc == Killing(prior) && calls[c].presented == old(calls[c].presented)
    {
      hide Run;
      ghost var before := State();
      var io := AskDatabase();
      if io.Took() { rows := rows - {id}; }
      Proceed(c, Killing(prior), io);
      Record(DropOrphan(c, io), before);
    }

    /** Kill the family and bump token_version; a failure of either is swallowed. */
    method HandleReuse(ghost c: CallId, prior: Loaded)
      requires Valid() && c in calls && calls[c].pc == Killing(prior)
      modifies this
      ensures Valid() && old(log) <= log
      ensures Kept(c, ReuseDetected(prior)) && calls[c].presented == old(calls[c].presented)
    {
      hide Run, Kept;
      Interfere(c);
      KillFamily(c, prior);
      Interfere(c);
      BumpStolen(c, prior);
      Conclude(c, ReuseDetected(prior));
    }

    method KillFamily(ghost c: CallId, prior: Loaded)
      requires Valid() && c in calls && calls[c].pc == Killing(prior)
      modifies this
      ensures Valid() && old(log) <= log && Moved(old(State()), c, Bumping(prior))
      ensures exists now: Time, io :: State() == Apply(old(State()), Kill(c, now, io))
    {
      hide Run;
      ghost var before := State();
      var now: Time := *;
      var io := RevokeFamily(prior.row.family, now);
      Proceed(c, Bumping(prior), io);
      Record(Kill(c, now, io), before);
      assert State() == Apply(before, Kill(c, now, io));
    }

    method BumpStolen(ghost c: CallId, prior: Loaded)
      requires Valid() && c in calls && calls[c].pc == Bumping(prior)
      modifies this
      ensures Valid() && old(log) <= log && Moved(old(State()), c, Finished(ReuseDetected(prior)))
      ensures exists io :: State() == Apply(old(State()), Bump(c, io))
    {
      hide Run;
      ghost var before := State();
      var io := AskDatabase();
      if io.Took() && prior.row.user in tokenVersion {
        tokenVersion := tokenVersion[prior.row.user := tokenVersion[prior.row.user] + 1];
      }
      Proceed(c, Finished(ReuseDetected(prior)), io);
      Record(Bump(c, io), before);
      assert State() == Apply(before, Bump(c, io));
    }

    /** UPDATE refresh_token SET revoked_at = $now WHERE family_id = $fid AND revoked_at IS NONE */
    method RevokeFamily(f: Family, now: Time) returns (io: Io)
      modifies this`rows
      ensures var before := Db(old(rows), tokenVersion);
        Db(rows, tokenVersion) == After(before, io, before.RevokeFamily(f, now))
      ensures io.Took() ==>
        RefreshAnswers.Stamps(old(rows), rows, now, set x | x in old(rows) && old(rows)[x].family == f)
    {
      io := AskDatabase();
      if io.Took() {
        rows := map id | id in rows ::
          if rows[id].family == f && rows[id].revokedAt.None? then rows[id].(revokedAt := Some(now)) else rows[id];
      }
    }

    /** Logout: revoke the family of the presented token. */
    method RevokeByPresented(ghost c: CallId, presented: Token) returns (outcome: Outcome)
      requires Valid() && c !in calls && MayPresent(State(), presented)
      modifies this
      ensures Valid() && old(log) <= log
      ensures Kept(c, outcome) && calls[c].presented == presented
    {
      hide Run, Kept;
      BeginCall(c, presented, LogoutLoading);
      Interfere(c);
      var found, io := LogoutLoadRow(c, presented);
      outcome := if io.Failed() then DbError else NotFound;
      if io.Answered? && found.Some? {
        var prior := Loaded(found.value, rows[found.value]);
        Interfere(c);
        outcome := RevokeLoaded(c, prior);
      }
      Conclude(c, outcome);
    }

    method RevokeLoaded(ghost c: CallId, prior: Loaded) returns (outcome: Outcome)
      requires Valid() && c in calls && calls[c].pc == LogoutRevoking(prior)
      modifies this
      ensures Valid() && old(log) <= log && Moved(old(State()), c, Finished(outcome))
      ensures outcome == DbError || outcome == LoggedOut(prior)
    {
      hide Run;
      ghost var before := State();
      var now: Time := *;
      var io := RevokeFamily(prior.row.family, now);
      outcome := if io.Failed() then DbError else LoggedOut(prior);
      Proceed(c, Finished(outcome), io);
      Record(LogoutRevoke(c, now, io), before);
    }

    method LogoutLoadRow(ghost c: CallId, presented: Token) returns (found: Option<RowId>, io: Io)
      requires Valid() && c in calls && calls[c].pc.LogoutLoading? && calls[c].presented == presented
      modifies this`calls, this`log
      ensures Valid() && old(log) <= log && Db(rows, tokenVersion).Finds(Sha256(presented), found)
      ensures State() == Apply(old(State()), LogoutLoad(c, found, io))
    {
      hide Run;
      ghost var before := State();
      found := LoadByHash(Sha256(presented));
      io := AskDatabase();
      Proceed(c, if io.Failed() then Finished(DbError)
                 else if found.None? then Finished(NotFound)
                 else LogoutRevoking(Loaded(found.value, rows[found.value])), io);
      Record(LogoutLoad(c, found, io), before);
    }

    /** UPDATE refresh_token SET revoked_at = $now WHERE user_id = $uid AND revoked_at IS NONE */
    method RevokeAllForUser(user: UserId) returns (ok: bool)
      requires Valid()
      modifies this
      ensures Valid() && old(log) <= log
      ensures exists now :: Db(rows, tokenVersion) == Db(old(rows), tokenVersion).RevokeUser(user, now)
                            || (!ok && rows == old(rows))
      ensures ok ==> forall id :: id in rows && rows[id].user == user ==> rows[id].revokedAt.Some?
    {
      hide Run;
      ghost var before := State();
      var now: Time := *;
      var io := AskDatabase();
      if io.Took() {
        rows := map id | id in rows ::
          if rows[id].user == user && rows[id].revokedAt.None? then rows[id].(revokedAt := Some(now)) else rows[id];
      }
      Record(RevokeAll(user, now, io), before);
      ok := io.Answered?;
      assert io.Took() ==> Db(rows, tokenVersion) == before.db.RevokeUser(user, now);
    }
  }
}
