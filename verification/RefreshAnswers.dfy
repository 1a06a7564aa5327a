/**
 * What each statement of a refresh-token call answers and writes, column by column, and what that
 * means for whole calls: when a token is rotated, expired, or not found.
 */
module RefreshAnswers {
  import opened Prelude
  import opened RefreshProtocol
  import opened RefreshSafety
  import opened RefreshTheorems

  // ---- One statement ---------------------------------------------------------------------------------

  lemma RowsAreDrawn(s: System)
    requires Inv(s)
    ensures s.db.rows.Keys <= s.hist.ids
  {
    forall id | id in s.db.rows ensures id in s.hist.ids { assert RowOk(s, id); }
  }

  /** What the load of a rotation answers, for the row as it is at that moment. */
  lemma LoadAnswers(s: System, c: CallId, found: Option<RowId>, now: Time)
    requires Enabled(s, Load(c, found, now, Answered))
    ensures var s' := Apply(s, Load(c, found, now, Answered));
      && s'.db == s.db && s'.hist == s.hist && s'.calls[c].loadedAt == Some(now)
      && (found.None? ==>
            && s'.calls[c].pc == Finished(NotFound)
            && forall id :: id in s.db.rows ==> s.db.rows[id].hash.token != s.calls[c].presented)
      && (found.Some? ==>
            var id := found.value;
            var row := s.db.rows[id];
            && row.hash.token == s.calls[c].presented
            && (row.revokedAt.Some? && row.replacedBy.Some? ==> s'.calls[c].pc == Killing(Loaded(id, row)))
            && (row.revokedAt.Some? && row.replacedBy.None? ==> s'.calls[c].pc == Finished(NotFound))
            && (row.revokedAt.None? && now > row.expiresAt ==> s'.calls[c].pc == Finished(Expired))
            && (row.revokedAt.None? && now <= row.expiresAt ==> s'.calls[c].pc == Creating(Loaded(id, row))))
  {}

  /** A new session: one row with these columns, and its plaintext handed out if the server knows of it. */
  lemma IssueWrites(s: System, user: UserId, id: RowId, token: Token, f: Family, at: Time, expiresAt: Time, io: Io)
    requires Inv(s) && Enabled(s, Issue(user, id, token, f, at, expiresAt, io))
    ensures var s' := Apply(s, Issue(user, id, token, f, at, expiresAt, io));
      && (io.Took() ==> id in s'.db.rows && id !in s.db.rows
                        && s'.db.rows[id] == Row(user, Sha256(token), f, at, expiresAt, None, None))
      && (forall x :: x in s'.db.rows && (io.Refused? || x != id) <==> x in s.db.rows)
      && (forall x :: x in s.db.rows ==> s'.db.rows[x] == s.db.rows[x])
      && s'.db.tokenVersion == s.db.tokenVersion && s'.calls == s.calls
      && s'.hist.handed == if io == Answered then s.hist.handed[token := id] else s.hist.handed
  {
    RowsAreDrawn(s);
    hide Inv;
  }

  /** The replacement: one live row for the user and the family of the presented one. */
  lemma CreateWrites(s: System, c: CallId, id: RowId, token: Token, at: Time, expiresAt: Time, io: Io)
    requires Inv(s) && Enabled(s, CreateNew(c, id, token, at, expiresAt, io))
    ensures var s' := Apply(s, CreateNew(c, id, token, at, expiresAt, io));
      var prior := s.calls[c].pc.prior;
      && (io.Took() ==> id in s'.db.rows && id !in s.db.rows
                        && s'.db.rows[id] ==
                             Row(prior.row.user, Sha256(token), prior.row.family, at, expiresAt, None, None))
      && (forall x :: x in s'.db.rows && (io.Refused? || x != id) <==> x in s.db.rows)
      && (forall x :: x in s.db.rows ==> s'.db.rows[x] == s.db.rows[x])
      && s'.db.tokenVersion == s.db.tokenVersion && s'.hist.handed == s.hist.handed
      && s'.calls[c].pc == if io == Answered then Swapping(prior, at, id, token) else Finished(DbError)
  {
    RowsAreDrawn(s);
    hide Inv;
  }

  /** The compare-and-set wins exactly on an unrevoked row, and then the new token is handed out. */
  lemma SwapWrites(s: System, c: CallId, io: Io)
    requires Enabled(s, Swap(c, io))
    ensures var s' := Apply(s, Swap(c, io));
      var Swapping(prior, at, id, token) := s.calls[c].pc;
      var wins := prior.id in s.db.rows && s.db.rows[prior.id].revokedAt.None?;
      && s'.db.rows.Keys == s.db.rows.Keys && s'.db.tokenVersion == s.db.tokenVersion
      && (forall x :: x in s.db.rows && x != prior.id ==> s'.db.rows[x] == s.db.rows[x])
      && (wins && io.Took() ==>
            s'.db.rows[prior.id] == s.db.rows[prior.id].(revokedAt := Some(at), replacedBy := Some(id)))
      && (!(wins && io.Took()) ==> s'.db == s.db)
      && (s'.hist.handed == if wins && io == Answered then s.hist.handed[token := id] else s.hist.handed)
      && (s'.calls[c].pc == if io != Answered then Finished(DbError)
                            else if wins then Finished(Rotated(prior, id, token)) else Dropping(prior, id))
  {}

  /** `rows'` is `rows` but for the stamp on the live rows of which `hit` holds. */
  ghost predicate Stamps(rows: map<RowId, Row>, rows': map<RowId, Row>, at: Time, hit: set<RowId>) {
    && rows'.Keys == rows.Keys
    && forall x :: x in rows ==>
         rows'[x] == if x in hit && rows[x].revokedAt.None? then rows[x].(revokedAt := Some(at)) else rows[x]
  }

  /** The loser removes its own row, kills the family of the presented one and no other, and raises
      token_version of that user by one. */
  lemma ReuseWrites(s: System, e: Event)
    requires Enabled(s, e) && (e.DropOrphan? || e.Kill? || e.Bump?)
    ensures var s' := Apply(s, e);
      var prior := s.calls[e.c].pc.prior;
      && (e.io.Refused? ==> s'.db == s.db)
      && (e.io.Took() && e.DropOrphan? ==>
            s'.db.rows == s.db.rows - {s.calls[e.c].pc.id} && s'.db.tokenVersion == s.db.tokenVersion)
      && (e.io.Took() && e.Kill? ==>
            && Stamps(s.db.rows, s'.db.rows, e.at, set x | x in s.db.rows && s.db.rows[x].family == prior.row.family)
            && s'.db.tokenVersion == s.db.tokenVersion)
      && (e.io.Took() && e.Bump? ==>
            && s'.db.rows == s.db.rows && s'.db.tokenVersion.Keys == s.db.tokenVersion.Keys
            && forall u :: u in s.db.tokenVersion ==>
                 s'.db.tokenVersion[u] == s.db.tokenVersion[u] + if u == prior.row.user then 1 else 0)
      && s'.hist == s.hist
      && s'.calls[e.c].pc ==
           match e case DropOrphan(_, _) => Killing(prior) case Kill(_, _, _) => Bumping(prior)
                   case _ => Finished(ReuseDetected(prior))
  {}

  /** A logout finds the row of its token if there is one and stamps the live rows of its family. */
  lemma LogoutAnswers(s: System, e: Event)
    requires Enabled(s, e) && (e.LogoutLoad? || e.LogoutRevoke?)
    ensures var s' := Apply(s, e); var pc := s'.calls[e.c].pc;
      && s'.hist == s.hist && s'.db.tokenVersion == s.db.tokenVersion
      && (e.io != Answered ==> pc == Finished(DbError))
      && (e.LogoutLoad? ==> s'.db == s.db)
      && (e.LogoutLoad? && e.io == Answered ==>
            if exists id :: id in s.db.rows && s.db.rows[id].hash.token == s.calls[e.c].presented
            then pc.LogoutRevoking? && pc.prior.id in s.db.rows && pc.prior.row == s.db.rows[pc.prior.id]
                 && pc.prior.row.hash.token == s.calls[e.c].presented
            else pc == Finished(NotFound))
      && (e.LogoutRevoke? && e.io.Refused? ==> s'.db == s.db)
      && (e.LogoutRevoke? && e.io.Took() ==>
            Stamps(s.db.rows, s'.db.rows, e.at,
                   set x | x in s.db.rows && s.db.rows[x].family == s.calls[e.c].pc.prior.row.family))
      && (e.LogoutRevoke? && e.io == Answered ==> pc == Finished(LoggedOut(s.calls[e.c].pc.prior)))
  {}

  /** A user-wide revoke stamps the live rows of the user and of nobody else. */
  lemma RevokeAllWrites(s: System, user: UserId, at: Time, io: Io)
    ensures var s' := Apply(s, RevokeAll(user, at, io));
      && (io.Refused? ==> s' == s)
      && (io.Took() ==>
            && Stamps(s.db.rows, s'.db.rows, at, set x | x in s.db.rows && s.db.rows[x].user == user)
            && s' == s.(db := s.db.(rows := s'.db.rows)))
  {}

  // ---- Columns that never change ---------------------------------------------------------------------

  /** The two dates of a row never change, and a revoked row never changes at all. */
  ghost predicate Settled(s: System, s': System) {
    forall id :: id in s.db.rows && id in s'.db.rows ==>
      && s'.db.rows[id].issuedAt == s.db.rows[id].issuedAt && s'.db.rows[id].expiresAt == s.db.rows[id].expiresAt
      && (s.db.rows[id].revokedAt.Some? ==> s'.db.rows[id] == s.db.rows[id])
  }

  lemma OtherStatementsKeepRows(s: System, e: Event)
    requires Enabled(s, e) && (e.AddUser? || e.BeginRotate? || e.Load? || e.BeginLogout? || e.BumpElsewhere?)
    ensures Apply(s, e).db.rows == s.db.rows
  {}

  lemma StepSettles(s: System, e: Event)
    requires Inv(s) && Enabled(s, e)
    ensures Settled(s, Apply(s, e))
  {
    hide *;
    match e {
      case Issue(user, id, token, f, at, expiresAt, io) => IssueWrites(s, user, id, token, f, at, expiresAt, io);
      case CreateNew(c, id, token, at, expiresAt, io) => CreateWrites(s, c, id, token, at, expiresAt, io);
      case Swap(c, io) => SwapSettles(s, c, io);
      case DropOrphan(_, _) | Kill(_, _, _) | Bump(_, _) => ReuseSettles(s, e);
      case LogoutLoad(_, _, _) | LogoutRevoke(_, _, _) => LogoutSettles(s, e);
      case RevokeAll(user, at, io) => RevokeAllSettles(s, user, at, io);
      case _ => OtherStatementsKeepRows(s, e);
    }
    SameOrNew(s, Apply(s, e));
  }

  lemma SameOrNew(s: System, s': System)
    ensures (forall x :: x in s.db.rows ==> x in s'.db.rows ==> s'.db.rows[x] == s.db.rows[x]) ==> Settled(s, s')
  {}

  lemma SwapSettles(s: System, c: CallId, io: Io)
    requires Enabled(s, Swap(c, io))
    ensures Settled(s, Apply(s, Swap(c, io)))
  {
    SwapWrites(s, c, io);
    hide Apply;
  }

  lemma ReuseSettles(s: System, e: Event)
    requires Enabled(s, e) && (e.DropOrphan? || e.Kill? || e.Bump?)
    ensures Settled(s, Apply(s, e))
  {
    ReuseWrites(s, e);
    hide Apply;
  }

  lemma LogoutSettles(s: System, e: Event)
    requires Enabled(s, e) && (e.LogoutLoad? || e.LogoutRevoke?)
    ensures Settled(s, Apply(s, e))
  {
    LogoutAnswers(s, e);
    hide Apply;
  }

  lemma RevokeAllSettles(s: System, user: UserId, at: Time, io: Io)
    ensures Settled(s, Apply(s, RevokeAll(user, at, io)))
  {
    RevokeAllWrites(s, user, at, io);
    hide Apply;
  }

  // ---- Whole calls -----------------------------------------------------------------------------------

  /** The presented row could be rotated when it was loaded. */
  ghost predicate Timely(s: System, call: Call, prior: Loaded) {
    && call.loadedAt.Some? && call.loadedAt.value <= prior.row.expiresAt && prior.row.revokedAt.None?
    && prior.id in s.db.rows && s.db.rows[prior.id].expiresAt == prior.row.expiresAt
  }

  ghost predicate TooLate(s: System, call: Call) {
    && call.loadedAt.Some? && call.presented in s.hist.handed && s.hist.handed[call.presented] in s.db.rows
    && call.loadedAt.value > s.db.rows[s.hist.handed[call.presented]].expiresAt
  }

  /** The row of the text was revoked without a successor, as a logout does it. */
  ghost predicate LoggedOutBefore(db: Db, t: Token) {
    exists id :: id in db.rows && db.rows[id].hash == Sha256(t)
                 && db.rows[id].revokedAt.Some? && db.rows[id].replacedBy.None?
  }

  predicate LoggedOutPc(pc: Pc) {
    match pc
    case Loading | LogoutLoading | LogoutRevoking(_) => true
    case Finished(NotFound) | Finished(DbError) | Finished(LoggedOut(_)) => true
    case _ => false
  }

  ghost predicate AnswerOk(s: System, call: Call) {
    && (match call.pc
        case Creating(prior) => Timely(s, call, prior)
        case Swapping(prior, _, _, _) => Timely(s, call, prior)
        case Finished(Rotated(prior, _, _)) => Timely(s, call, prior)
        case Finished(Expired) => TooLate(s, call)
        case _ => true)
    && (LoggedOutBefore(call.start, call.presented) ==>
          LoggedOutBefore(s.db, call.presented) && LoggedOutPc(call.pc))
  }

  ghost predicate AnswersOk(s: System) {
    forall c :: c in s.calls ==> AnswerOk(s, s.calls[c])
  }

  lemma PriorStays(s: System, s': System, t: Token, prior: Loaded)
    requires Advance(s, s') && LoadedOk(s, t, prior)
    ensures prior.id in s'.db.rows
  {
    assert OnPath(s', prior.id);
  }

  lemma TimelyStays(s: System, s': System, call: Call, prior: Loaded)
    requires Advance(s, s') && Settled(s, s') && LoadedOk(s, call.presented, prior) && Timely(s, call, prior)
    ensures Timely(s', call, prior)
  {
    PriorStays(s, s', call.presented, prior);
    hide Advance, LoadedOk;
  }

  lemma TooLateStays(s: System, s': System, call: Call)
    requires TableInv(s) && Advance(s, s') && Settled(s, s') && TooLate(s, call)
    ensures TooLate(s', call)
  {
    assert HandedOk(s, call.presented);
    assert OnPath(s', s.hist.handed[call.presented]);
  }

  lemma LoggedOutStays(s: System, s': System, t: Token)
    requires TableInv(s) && Advance(s, s') && Settled(s, s') && LoggedOutBefore(s.db, t) && t in s.hist.handed
    ensures LoggedOutBefore(s'.db, t)
  {
    assert HandedOk(s, t);
    var id := s.hist.handed[t];
    assert OnPath(s', id);
    assert id in s.db.rows && s.db.rows[id].hash == Sha256(t);
  }

  lemma AnswerStays(s: System, s': System, call: Call)
    requires TableInv(s) && CallOk(s, call) && AnswerOk(s, call) && Advance(s, s') && Settled(s, s')
    ensures AnswerOk(s', call)
  {
    hide TableInv, Advance, Settled, Timely, TooLate, LoadedOk, LoggedOutBefore;
    match call.pc {
      case Creating(prior) => TimelyStays(s, s', call, prior);
      case Swapping(prior, _, _, _) => TimelyStays(s, s', call, prior);
      case Finished(Rotated(prior, _, _)) => TimelyStays(s, s', call, prior);
      case Finished(Expired) => TooLateStays(s, s', call);
      case _ =>
    }
    if LoggedOutBefore(call.start, call.presented) {
      PresentedIsHanded(s, call);
      LoggedOutStays(s, s', call.presented);
    }
  }

  lemma PresentedIsHanded(s: System, call: Call)
    requires CallOk(s, call) && LoggedOutBefore(s.db, call.presented)
    ensures call.presented in s.hist.handed
  {}

  /** What a statement other than the load does to its own call. */
  ghost predicate GoesOn(call: Call, call': Call) {
    && call'.presented == call.presented && call'.start == call.start && call'.loadedAt == call.loadedAt
    && !call'.pc.Creating? && call'.pc != Finished(Expired)
    && (LoggedOutPc(call.pc) ==> LoggedOutPc(call'.pc))
    && (call'.pc.Swapping? ==> call.pc == Creating(call'.pc.prior))
    && (call'.pc.Finished? && call'.pc.outcome.Rotated? ==>
          call.pc.Swapping? && call.pc.prior == call'.pc.outcome.prior)
  }

  lemma CallerGoesOn(s: System, e: Event, c: CallId)
    requires Enabled(s, e) && CallOf(e) == Some(c) && c in s.calls && !e.Load?
    ensures c in Apply(s, e).calls && GoesOn(s.calls[c], Apply(s, e).calls[c])
  {}

  lemma GoesOnOk(s: System, call: Call, call': Call)
    requires AnswerOk(s, call) && GoesOn(call, call')
    ensures AnswerOk(s, call')
  {
    hide LoggedOutBefore;
  }

  lemma FoundIsHanded(s: System, call: Call, id: RowId)
    requires TableInv(s) && CallOk(s, call) && id in s.db.rows && s.db.rows[id].hash == Sha256(call.presented)
    ensures call.presented in s.hist.handed && s.hist.handed[call.presented] == id
  {
    hide RotationPath, RowOk, PcOk;
    assert HandedOk(s, call.presented);
  }

  lemma LoggedOutRow(s: System, t: Token, id: RowId)
    requires TableInv(s) && LoggedOutBefore(s.db, t) && id in s.db.rows && s.db.rows[id].hash == Sha256(t)
    ensures s.db.rows[id].revokedAt.Some? && s.db.rows[id].replacedBy.None?
  {
    hide RotationPath, RowOk, HandedOk;
  }

  /** The call after its load, when the statement was answered. */
  lemma LoadedAnswer(s: System, call: Call, call': Call, found: Option<RowId>, now: Time)
    requires found.Some? ==> found.value in s.db.rows
    requires call'.presented == call.presented && call'.start == call.start && call'.loadedAt == Some(now)
    requires call'.pc == PreCheck(s.db, found, now)
    requires found.Some? ==> call.presented in s.hist.handed && s.hist.handed[call.presented] == found.value
    requires LoggedOutBefore(call.start, call.presented) ==>
      LoggedOutBefore(s.db, call.presented)
      && (found.Some? ==> s.db.rows[found.value].revokedAt.Some? && s.db.rows[found.value].replacedBy.None?)
    ensures AnswerOk(s, call')
  {
    hide LoggedOutBefore;
  }

  lemma LoadedCall(s: System, e: Event)
    requires Enabled(s, e) && e.Load?
    ensures var s', call := Apply(s, e), s.calls[e.c];
      && s'.db == s.db && s'.hist == s.hist && e.c in s'.calls
      && s'.calls[e.c].presented == call.presented && s'.calls[e.c].start == call.start
      && (e.found.Some? ==>
            e.found.value in s.db.rows && s.db.rows[e.found.value].hash == Sha256(call.presented))
      && (if e.io == Answered then s'.calls[e.c].pc == PreCheck(s.db, e.found, e.now)
                                   && s'.calls[e.c].loadedAt == Some(e.now)
          else s'.calls[e.c].pc == Finished(DbError))
  {}

  lemma SameTables(s: System, s': System, call: Call)
    requires AnswerOk(s, call) && s'.db == s.db && s'.hist == s.hist
    ensures AnswerOk(s', call)
  {}

  lemma LoadMoves(s: System, e: Event)
    requires Inv(s) && AnswersOk(s) && Enabled(s, e) && e.Load?
    ensures e.c in Apply(s, e).calls && AnswerOk(Apply(s, e), Apply(s, e).calls[e.c])
  {
    LoadedCall(s, e);
    var call, call' := s.calls[e.c], Apply(s, e).calls[e.c];
    assert CallOk(s, call) && AnswerOk(s, call) && TableInv(s);
    hide Inv, TableInv, CallOk, AnswersOk, Apply, Enabled, LoggedOutBefore, PreCheck;
    if e.io == Answered {
      if e.found.Some? {
        FoundIsHanded(s, call, e.found.value);
        if LoggedOutBefore(s.db, call.presented) { LoggedOutRow(s, call.presented, e.found.value); }
      }
      LoadedAnswer(s, call, call', e.found, e.now);
      SameTables(s, Apply(s, e), call');
    }
  }

  lemma StepKeepsAnswers(s: System, e: Event)
    requires Inv(s) && AnswersOk(s) && Enabled(s, e)
    ensures AnswersOk(Apply(s, e))
  {
    hide Apply, Enabled, TableInv, Advance, Settled, CallOk, AnswerOk, GoesOn;
    var s' := Apply(s, e);
    Step(s, e);
    StepSettles(s, e);
    OthersStand(s, e);
    forall c | c in s'.calls ensures AnswerOk(s', s'.calls[c]) {
      if c in s.calls {
        AnswerStays(s, s', s.calls[c]);
        if e.Load? && e.c == c {
          LoadMoves(s, e);
        } else if CallOf(e) == Some(c) {
          CallerGoesOn(s, e, c);
          GoesOnOk(s', s.calls[c], s'.calls[c]);
        }
      } else {
        NewAnswer(s, e, c);
      }
    }
  }

  lemma OthersStand(s: System, e: Event)
    requires Enabled(s, e)
    ensures forall c :: c in s.calls && CallOf(e) != Some(c) ==>
      c in Apply(s, e).calls && Apply(s, e).calls[c] == s.calls[c]
  {}

  lemma NewAnswer(s: System, e: Event, c: CallId)
    requires Enabled(s, e) && c !in s.calls && c in Apply(s, e).calls
    ensures AnswerOk(Apply(s, e), Apply(s, e).calls[c])
  {}

  lemma NoAnswersYet(s: System)
    requires Init(s)
    ensures AnswersOk(s)
  {}

  lemma {:induction false} RunAnswers(tr: seq<System>, i: nat)
    requires Run(tr) && i < |tr|
    ensures AnswersOk(tr[i])
  {
    hide Inv, AnswersOk, Enabled, Apply;
    if i == 0 {
      NoAnswersYet(tr[0]);
    } else {
      RunAnswers(tr, i - 1);
      var e := EventAt(tr, i - 1);
      StepKeepsAnswers(tr[i - 1], e);
    }
  }

  lemma AnswerAt(tr: seq<System>, i: nat, c: CallId)
    requires Run(tr) && i < |tr| && c in tr[i].calls
    ensures AnswerOk(tr[i], tr[i].calls[c])
  {
    RunAnswers(tr, i);
    hide Run;
  }

  /** A rotation returns Ok only for a token that was neither expired nor revoked when it was loaded. */
  lemma RotatedInTime(tr: seq<System>, i: nat, c: CallId)
    requires Run(tr) && i < |tr| && c in tr[i].calls
    requires tr[i].calls[c].pc.Finished? && tr[i].calls[c].pc.outcome.Rotated?
    ensures var call := tr[i].calls[c]; var prior := call.pc.outcome.prior;
      && call.loadedAt.Some? && prior.id in tr[i].db.rows
      && call.loadedAt.value <= tr[i].db.rows[prior.id].expiresAt
      && prior.row.revokedAt.None?
  {
    AnswerAt(tr, i, c);
    hide Run;
  }

  /** Expired is answered only to a client that holds the token, after its time was over. */
  lemma ExpiredIsLate(tr: seq<System>, i: nat, c: CallId)
    requires Run(tr) && i < |tr| && c in tr[i].calls && tr[i].calls[c].pc == Finished(Expired)
    ensures TooLate(tr[i], tr[i].calls[c])
  {
    AnswerAt(tr, i, c);
    hide Run;
  }

  /** A token that was revoked without a successor before the call began is not found: its use after
      a logout is neither a rotation nor a theft. */
  lemma LoggedOutTokenIsNotFound(tr: seq<System>, i: nat, c: CallId)
    requires Run(tr) && i < |tr| && c in tr[i].calls && tr[i].calls[c].pc.Finished?
    requires LoggedOutBefore(tr[i].calls[c].start, tr[i].calls[c].presented)
    ensures var outcome := tr[i].calls[c].pc.outcome;
      outcome.NotFound? || outcome.DbError? || outcome.LoggedOut?
  {
    AnswerAt(tr, i, c);
    hide Run;
  }

  /** The life of a row: its dates are fixed, and once revoked it never changes. */
  lemma {:induction false} RowsSettle(tr: seq<System>, i: nat, j: nat, t: Token)
    requires Run(tr) && i <= j < |tr| && t in tr[i].hist.handed
    ensures var id := tr[i].hist.handed[t];
      && id in tr[i].db.rows && id in tr[j].db.rows
      && var row, row' := tr[i].db.rows[id], tr[j].db.rows[id];
         && row'.issuedAt == row.issuedAt && row'.expiresAt == row.expiresAt
         && (row.revokedAt.Some? ==> row' == row)
    decreases j
  {
    hide Inv, Enabled, Apply, Run;
    HandedStays(tr, i, j, t);
    if i < j {
      HandedStays(tr, i, j - 1, t);
      RowsSettle(tr, i, j - 1, t);
      var e := EventAt(tr, j - 1);
      StepSettles(tr[j - 1], e);
    }
  }

  // ---- The happy paths -------------------------------------------------------------------------------

  /** Nobody else at work, a live token in time: the rotation returns Ok with a new live token. */
  lemma UndisturbedRotationSucceeds(s: System, c: CallId, t: Token, prior: RowId, now: Time, id: RowId, token: Token,
                                    at: Time, expiresAt: Time) returns (s1: System, s2: System, s3: System, s4: System)
    requires c !in s.calls && t in s.hist.handed && Fresh(s, id, token)
    requires prior in s.db.rows && prior in s.hist.ids && t in s.hist.tokens && s.db.rows[prior].hash == Sha256(t)
    requires s.db.rows[prior].revokedAt.None? && now <= s.db.rows[prior].expiresAt
    ensures Next(s, s1) && Next(s1, s2) && Next(s2, s3) && Next(s3, s4)
    ensures c in s4.calls && s4.calls[c].pc == Finished(Rotated(Loaded(prior, s.db.rows[prior]), id, token))
    ensures s4.hist.handed == s.hist.handed[token := id]
    ensures var row := s.db.rows[prior];
      s4.db.rows == s.db.rows[id := Row(row.user, Sha256(token), row.family, at, expiresAt, None, None)]
                             [prior := row.(revokedAt := Some(at), replacedBy := Some(id))]
  {
    hide Next;
    var e1, e2 := BeginRotate(c, t), Load(c, Some(prior), now, Answered);
    s1 := Apply(s, e1);
    IsNext(s, e1);
    s2 := Apply(s1, e2);
    IsNext(s1, e2);
    var e3, e4 := CreateNew(c, id, token, at, expiresAt, Answered), Swap(c, Answered);
    s3 := Apply(s2, e3);
    IsNext(s2, e3);
    s4 := Apply(s3, e4);
    IsNext(s3, e4);
  }

  lemma IsNext(s: System, e: Event)
    requires Enabled(s, e)
    ensures Next(s, Apply(s, e))
  {}
}
