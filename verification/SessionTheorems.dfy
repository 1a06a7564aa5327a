/** What ends a session ends it in both tables: no old access token and no old refresh token is left. */
module SessionTheorems {
  import opened Prelude
  import opened SessionProtocol
  import U = UserProtocol
  import UserTheorems
  import UserServer
  import R = RefreshProtocol
  import RefreshSafety
  import RefreshTheorems
  import RefreshServer

  // ---- Either table alone goes through a run of its own part ---------------------------------------

  ghost function UsersOf(tr: seq<System>, es: seq<Event>, i: nat): (run: (seq<U.System>, seq<U.Event>))
    requires Run(tr, es) && i < |tr|
    ensures |run.0| == |run.1| + 1
  {
    if i == 0 then ([tr[0].users], [])
    else
      assert StepAt(tr, es, i - 1);
      var (ss, ee) := UsersOf(tr, es, i - 1);
      var e := UserPart(tr[i - 1], es[i - 1]);
      if e.None? then (ss, ee) else (ss + [tr[i].users], ee + [e.value])
  }

  ghost function TokensOf(tr: seq<System>, es: seq<Event>, i: nat): (ss: seq<R.System>)
    requires Run(tr, es) && i < |tr|
    ensures |ss| > 0
  {
    if i == 0 then [tr[0].tokens]
    else
      assert StepAt(tr, es, i - 1);
      var e := TokenPart(tr[i - 1], es[i - 1]);
      TokensOf(tr, es, i - 1) + if e.None? then [] else [tr[i].tokens]
  }

  lemma {:induction false} UsersRun(tr: seq<System>, es: seq<Event>, i: nat)
    requires Run(tr, es) && i < |tr|
    ensures var (ss, ee) := UsersOf(tr, es, i); U.Run(ss, ee) && ss[|ee|] == tr[i].users
  {
    hide Run, Enabled, Apply, U.Run, U.Apply, U.Enabled;
    if i == 0 {
      UsersStart(tr, es);
    } else {
      UsersRun(tr, es, i - 1);
      Length(tr, es);
      UsersStep(tr, es, i - 1);
      var (ss, ee) := UsersOf(tr, es, i - 1);
      var e := UserPart(tr[i - 1], es[i - 1]);
      if e.Some? { UserServer.Extend(ss, ee, e.value, tr[i].users); }
    }
  }

  lemma Length(tr: seq<System>, es: seq<Event>)
    requires Run(tr, es)
    ensures |tr| == |es| + 1
  {}

  lemma UsersStart(tr: seq<System>, es: seq<Event>)
    requires Run(tr, es)
    ensures U.Run([tr[0].users], [])
  {}

  lemma UsersStep(tr: seq<System>, es: seq<Event>, i: nat)
    requires Run(tr, es) && i < |es|
    ensures Enabled(tr[i], es[i])
    ensures var e := UserPart(tr[i], es[i]);
      if e.None? then tr[i + 1].users == tr[i].users
      else U.Enabled(tr[i].users, e.value) && tr[i + 1].users == U.Apply(tr[i].users, e.value)
  {
    assert StepAt(tr, es, i);
    PartsAreEnabled(tr[i], es[i]);
    hide U.Enabled, U.Apply, R.Enabled, R.Apply, Run;
  }

  lemma TokensStep(tr: seq<System>, es: seq<Event>, i: nat)
    requires Run(tr, es) && i < |es|
    ensures Enabled(tr[i], es[i])
    ensures var e := TokenPart(tr[i], es[i]);
      if e.None? then tr[i + 1].tokens == tr[i].tokens
      else R.Enabled(tr[i].tokens, e.value) && tr[i + 1].tokens == R.Apply(tr[i].tokens, e.value)
  {
    assert StepAt(tr, es, i);
    PartsAreEnabled(tr[i], es[i]);
    hide U.Enabled, U.Apply, R.Enabled, R.Apply, Run;
  }

  lemma {:induction false} TokensRun(tr: seq<System>, es: seq<Event>, i: nat)
    requires Run(tr, es) && i < |tr|
    ensures var ss := TokensOf(tr, es, i); R.Run(ss) && ss[|ss| - 1] == tr[i].tokens
  {
    hide Run, Enabled, Apply, R.Run, R.Apply, R.Enabled;
    if i == 0 {
      TokensStart(tr, es);
    } else {
      TokensRun(tr, es, i - 1);
      Length(tr, es);
      TokensStep(tr, es, i - 1);
      var ss := TokensOf(tr, es, i - 1);
      var e := TokenPart(tr[i - 1], es[i - 1]);
      if e.Some? {
        RefreshServer.Extend(ss, e.value, tr[i].tokens);
        assert TokensOf(tr, es, i) == ss + [tr[i].tokens];
      } else {
        assert TokensOf(tr, es, i) == ss + [] == ss;
      }
    }
  }

  lemma TokensStart(tr: seq<System>, es: seq<Event>)
    requires Run(tr, es)
    ensures R.Run([tr[0].tokens])
  {}

  lemma {:induction false} UsersGrow(tr: seq<System>, es: seq<Event>, i: nat, j: nat)
    requires Run(tr, es) && i <= j < |tr|
    ensures UsersOf(tr, es, i).0 <= UsersOf(tr, es, j).0 && UsersOf(tr, es, i).1 <= UsersOf(tr, es, j).1
    decreases j
  {
    hide Run, Enabled, Apply;
    if i < j { UsersGrow(tr, es, i, j - 1); }
  }

  lemma {:induction false} TokensGrow(tr: seq<System>, es: seq<Event>, i: nat, j: nat)
    requires Run(tr, es) && i <= j < |tr|
    ensures TokensOf(tr, es, i) <= TokensOf(tr, es, j)
    decreases j
  {
    hide Run, Enabled, Apply;
    if i < j { TokensGrow(tr, es, i, j - 1); }
  }

  /** Two moments of the joint run as two moments of a run of the user part. */
  lemma UsersBetween(tr: seq<System>, es: seq<Event>, i: nat, j: nat)
    returns (ss: seq<U.System>, ee: seq<U.Event>, k: nat)
    requires Run(tr, es) && i <= j < |tr|
    ensures U.Run(ss, ee) && |ss| == |ee| + 1 && k <= |ee| && ss[k] == tr[i].users && ss[|ee|] == tr[j].users
  {
    hide Run, U.Run, UsersOf;
    UsersRun(tr, es, i);
    UsersRun(tr, es, j);
    UsersGrow(tr, es, i, j);
    ss, ee := UsersOf(tr, es, j).0, UsersOf(tr, es, j).1;
    k := |UsersOf(tr, es, i).1|;
  }

  lemma TokensBetween(tr: seq<System>, es: seq<Event>, i: nat, j: nat) returns (ss: seq<R.System>, k: nat)
    requires Run(tr, es) && i <= j < |tr|
    ensures R.Run(ss) && k < |ss| && ss[k] == tr[i].tokens && ss[|ss| - 1] == tr[j].tokens
  {
    hide Run, R.Run, TokensOf;
    TokensRun(tr, es, i);
    TokensRun(tr, es, j);
    TokensGrow(tr, es, i, j);
    ss := TokensOf(tr, es, j);
    k := |TokensOf(tr, es, i)| - 1;
  }

  // ---- One column ----------------------------------------------------------------------------------

  /** The refresh part sees the token_version that the user row has. */
  ghost predicate Coupled(s: System) {
    forall u :: u in s.users.users ==>
      u in s.tokens.db.tokenVersion && s.tokens.db.tokenVersion[u] == s.users.users[u].tokenVersion
  }

  /** A statement on the user row raises token_version of the user it says, by one, and of nobody else. */
  lemma UsersRaise(s: U.System, e: U.Event, u: UserId)
    requires U.Enabled(s, e) && u in s.users && u in U.Apply(s, e).users && (e.CreateUser? ==> e.id != u)
    ensures U.Apply(s, e).users[u].tokenVersion ==
      s.users[u].tokenVersion + if RaisedBy(s, e) == Some(u) then 1 else 0
  {}

  /** A statement on the refresh table leaves token_version alone, unless it is one of the three that do not. */
  lemma TokensRaise(s: R.System, e: R.Event)
    requires R.Enabled(s, e) && !e.AddUser? && !e.Bump? && !e.BumpElsewhere?
    ensures R.Apply(s, e).db.tokenVersion == s.db.tokenVersion
  {}

  lemma UserStepStaysCoupled(s: System, e: U.Event)
    requires Coupled(s) && Enabled(s, OfUsers(e)) && s.users.users.Keys <= s.users.ids
    ensures Coupled(Apply(s, OfUsers(e)))
  {
    var s' := Apply(s, OfUsers(e));
    forall u | u in s'.users.users
      ensures u in s'.tokens.db.tokenVersion && s'.tokens.db.tokenVersion[u] == s'.users.users[u].tokenVersion
    {
      if u in s.users.users { UsersRaise(s.users, e, u); }
    }
  }

  lemma ReuseStaysCoupled(s: System, c: CallId, io: Io)
    requires Coupled(s) && Enabled(s, Reuse(c, io))
    ensures Coupled(Apply(s, Reuse(c, io)))
  {}

  lemma StepStaysCoupled(s: System, e: Event)
    requires Coupled(s) && Enabled(s, e) && s.users.users.Keys <= s.users.ids
    ensures Coupled(Apply(s, e))
  {
    match e
    case OfUsers(x) => UserStepStaysCoupled(s, x);
    case OfTokens(x) => TokensRaise(s.tokens, x); hide R.Apply;
    case Reuse(c, io) => ReuseStaysCoupled(s, c, io);
    case EndSessions(c, at, io) => TokensRaise(s.tokens, TokenPart(s, e).value); hide R.Apply;
  }

  lemma {:induction false} RunIsCoupled(tr: seq<System>, es: seq<Event>, i: nat)
    requires Run(tr, es) && i < |tr|
    ensures Coupled(tr[i])
  {
    if i > 0 {
      RunIsCoupled(tr, es, i - 1);
      var ss, ee, k := UsersBetween(tr, es, i - 1, i - 1);
      UserTheorems.RunInv(ss, ee, |ee|);
      assert StepAt(tr, es, i - 1);
      hide Coupled, Run, Enabled, Apply, UserTheorems.CallOk;
      StepStaysCoupled(tr[i - 1], es[i - 1]);
    }
  }

  // ---- Ended sessions ------------------------------------------------------------------------------

  /** A token handed out at moment `i` is still known, with its row, at every later moment. */
  lemma HandedStays(tr: seq<System>, es: seq<Event>, i: nat, j: nat, t: R.Token)
    requires Run(tr, es) && i <= j < |tr| && t in tr[i].tokens.hist.handed
    ensures var id := tr[i].tokens.hist.handed[t];
      && id in tr[i].tokens.db.rows && id in tr[j].tokens.db.rows
      && t in tr[j].tokens.hist.handed && tr[j].tokens.hist.handed[t] == id
      && tr[j].tokens.db.rows[id].family == tr[i].tokens.db.rows[id].family
      && tr[j].tokens.db.rows[id].user == tr[i].tokens.db.rows[id].user
  {
    hide Run;
    var ss, k := TokensBetween(tr, es, i, j);
    RefreshTheorems.HandedStays(ss, k, |ss| - 1, t);
  }

  /** The family of a token of the user that was handed out before a user-wide revoke is dead after it. */
  lemma RevokeEndsFamilies(tr: seq<System>, es: seq<Event>, i: nat, m: nat, j: nat, t: R.Token)
    requires Run(tr, es) && i <= m < j < |tr| && t in tr[i].tokens.hist.handed
    requires Enabled(tr[m], es[m]) && TokenPart(tr[m], es[m]).Some?
    requires TokenPart(tr[m], es[m]).value.RevokeAll? && TokenPart(tr[m], es[m]).value.io.Took()
    requires tr[i].tokens.hist.handed[t] in tr[i].tokens.db.rows
    requires tr[i].tokens.db.rows[tr[i].tokens.hist.handed[t]].user == TokenPart(tr[m], es[m]).value.user
    ensures var f := tr[i].tokens.db.rows[tr[i].tokens.hist.handed[t]].family;
      && f in tr[m + 1].tokens.hist.chain
      && RefreshSafety.Dead(tr[m + 1].tokens, f) && RefreshSafety.Dead(tr[j].tokens, f)
  {
    hide *;
    HandedStays(tr, es, i, m, t);
    Length(tr, es);
    TokensStep(tr, es, m);
    var e := TokenPart(tr[m], es[m]).value;
    var id := tr[i].tokens.hist.handed[t];
    var ss, k := TokensBetween(tr, es, m + 1, j);
    var qq, l := TokensBetween(tr, es, m, m);
    RefreshTheorems.RunInv(qq, l);
    RefreshTheorems.RevokeUserKills(tr[m].tokens, tr[m + 1].tokens, e, id);
    RefreshTheorems.DeadFrom(ss, k, |ss| - 1, tr[i].tokens.db.rows[id].family);
  }

  /**
   * Nothing that speaks for user `u` from moment `i` works at moment `j`: an access token minted
   * then is rejected, and a refresh token handed out then has a revoked row.
   */
  ghost predicate SessionsEnded(past: System, now: System, u: UserId) {
    && (u in past.users.users ==> !U.Accepts(now.users.users, U.Mint(past.users.users, u)))
    && forall t | t in past.tokens.hist.handed && past.tokens.hist.handed[t] in past.tokens.db.rows
         :: past.tokens.db.rows[past.tokens.hist.handed[t]].user == u ==>
              !now.tokens.db.Unrevoked(past.tokens.hist.handed[t])
  }

  lemma RefreshTokensEnded(tr: seq<System>, es: seq<Event>, i: nat, m: nat, j: nat, u: UserId)
    requires Run(tr, es) && i <= m < j < |tr|
    requires Enabled(tr[m], es[m]) && TokenPart(tr[m], es[m]).Some?
    requires var e := TokenPart(tr[m], es[m]).value; e.RevokeAll? && e.io.Took() && e.user == u
    ensures forall t | t in tr[i].tokens.hist.handed && tr[i].tokens.hist.handed[t] in tr[i].tokens.db.rows
         :: tr[i].tokens.db.rows[tr[i].tokens.hist.handed[t]].user == u ==>
              !tr[j].tokens.db.Unrevoked(tr[i].tokens.hist.handed[t])
  {
    hide Run, Enabled, TokenPart;
    forall t | t in tr[i].tokens.hist.handed && tr[i].tokens.hist.handed[t] in tr[i].tokens.db.rows
               && tr[i].tokens.db.rows[tr[i].tokens.hist.handed[t]].user == u
      ensures !tr[j].tokens.db.Unrevoked(tr[i].tokens.hist.handed[t])
    {
      HandedStays(tr, es, i, j, t);
      RevokeEndsFamilies(tr, es, i, m, j, t);
    }
  }

  /**
   * Disabling and deleting: a change of status or deletion at step `k`, followed by a user-wide
   * revoke of the refresh tokens at step `m`, ends every earlier session for ever.
   */
  lemma StandingChangeEndsSessions(tr: seq<System>, es: seq<Event>, i: nat, k: nat, m: nat, j: nat, u: UserId)
    requires Run(tr, es) && i <= k < m < j < |tr|
    requires u in tr[k].users.users && u in tr[k + 1].users.users
    requires tr[k].users.users[u].Standing() != tr[k + 1].users.users[u].Standing()
    requires Enabled(tr[m], es[m]) && TokenPart(tr[m], es[m]).Some?
    requires var e := TokenPart(tr[m], es[m]).value; e.RevokeAll? && e.io.Took() && e.user == u
    ensures SessionsEnded(tr[i], tr[j], u)
  {
    hide Run, Enabled, TokenPart;
    RefreshTokensEnded(tr, es, i, m, j, u);
    if u in tr[i].users.users && u in tr[j].users.users {
      MovedOnBetween(tr, es, i, k, u);
      MovedOnBetween(tr, es, k, k + 1, u);
      MovedOnBetween(tr, es, k + 1, j, u);
    }
  }

  lemma MovedOnBetween(tr: seq<System>, es: seq<Event>, i: nat, j: nat, u: UserId)
    requires Run(tr, es) && i <= j < |tr| && u in tr[i].users.users && u in tr[j].users.users
    ensures UserTheorems.MovedOn(tr[i].users.users[u], tr[j].users.users[u])
  {
    hide Run;
    var ss, ee, k := UsersBetween(tr, es, i, j);
    UserTheorems.RowsMoveOn(ss, ee, k, |ee|, u);
  }

  /**
   * A password change that reported success ends every session from before it began: the access
   * tokens through the bump, the refresh tokens through the revoke, whatever ran beside it.
   */
  lemma PasswordChangeEndsSessions(tr: seq<System>, es: seq<Event>, i: nat, j: nat, c: CallId)
    requires Run(tr, es) && i <= j < |tr| && c in tr[j].ended && c !in tr[i].users.calls
    ensures Rotated(tr[j].users, c)
    ensures SessionsEnded(tr[i], tr[j], tr[j].users.calls[c].pc.outcome.user)
  {
    hide Run, Enabled, TokenPart;
    var m := LastStatement(tr, es, i, j, c);
    var u := tr[j].users.calls[c].pc.outcome.user;
    RefreshTokensEnded(tr, es, i, m, j, u);
    if u in tr[i].users.users && u in tr[j].users.users {
      var ss, ee, k := UsersBetween(tr, es, i, j);
      UserTheorems.BumpIsSinceBefore(ss, ee, k, c, u);
    }
  }

  lemma FinishedStays(s: U.System, e: U.Event, c: CallId)
    requires U.Enabled(s, e) && Rotated(s, c)
    ensures c in U.Apply(s, e).calls && U.Apply(s, e).calls[c] == s.calls[c]
  {}

  lemma RotatedStays(tr: seq<System>, es: seq<Event>, i: nat, c: CallId)
    requires Run(tr, es) && i < |es| && Rotated(tr[i].users, c)
    ensures c in tr[i + 1].users.calls && tr[i + 1].users.calls[c] == tr[i].users.calls[c]
  {
    UsersStep(tr, es, i);
    var e := UserPart(tr[i], es[i]);
    hide Run, Enabled, Apply, UserPart, U.Enabled, U.Apply;
    if e.Some? { FinishedStays(tr[i].users, e.value, c); }
  }

  lemma {:induction false} EndedIsRotated(tr: seq<System>, es: seq<Event>, j: nat, c: CallId)
    requires Run(tr, es) && j < |tr| && c in tr[j].ended
    ensures Rotated(tr[j].users, c)
  {
    Length(tr, es);
    hide Run, Apply, Enabled, Rotated;
    if j == 0 {
      NobodyEnded(tr, es);
    } else {
      if c in tr[j - 1].ended { EndedIsRotated(tr, es, j - 1, c); } else { EndedStep(tr, es, j - 1, c); }
      RotatedStays(tr, es, j - 1, c);
      SameRotated(tr[j - 1].users, tr[j].users, c);
    }
  }

  lemma SameRotated(s: U.System, s': U.System, c: CallId)
    requires Rotated(s, c) && c in s'.calls && s'.calls[c] == s.calls[c]
    ensures Rotated(s', c)
  {}

  lemma NobodyEnded(tr: seq<System>, es: seq<Event>)
    requires Run(tr, es)
    ensures tr[0].ended == {}
  {}

  lemma EndedStep(tr: seq<System>, es: seq<Event>, j: nat, c: CallId)
    requires Run(tr, es) && j < |es| && c in tr[j + 1].ended && c !in tr[j].ended
    ensures Enabled(tr[j], es[j]) && es[j].EndSessions? && es[j].c == c && es[j].io.Answered? && Rotated(tr[j].users, c)
  {
    assert StepAt(tr, es, j);
    hide U.Enabled, U.Apply, R.Enabled, R.Apply, Run;
  }

  /** The statement at which a password change reported success. */
  lemma {:induction false} LastStatement(tr: seq<System>, es: seq<Event>, i: nat, j: nat, c: CallId) returns (m: nat)
    requires Run(tr, es) && i <= j < |tr| && c in tr[j].ended && c !in tr[i].users.calls
    ensures i <= m < j && Enabled(tr[m], es[m]) && TokenPart(tr[m], es[m]).Some? && Rotated(tr[j].users, c)
    ensures var e := TokenPart(tr[m], es[m]).value;
      e.RevokeAll? && e.io.Took() && e.user == tr[j].users.calls[c].pc.outcome.user
    decreases j
  {
    Length(tr, es);
    EndedIsRotated(tr, es, j, c);
    if c in tr[i].ended { EndedIsRotated(tr, es, i, c); }
    hide Run, Apply, Enabled;
    m := j - 1;
    if c in tr[m].ended {
      EndedIsRotated(tr, es, m, c);
      RotatedStays(tr, es, m, c);
      m := LastStatement(tr, es, i, m, c);
    } else {
      EndedStep(tr, es, m, c);
      RotatedStays(tr, es, m, c);
    }
  }

  /** After a user-wide revoke no rotation of a family of the user returns Ok that had not done so before. */
  lemma OldFamiliesRotateNoMore(tr: seq<System>, es: seq<Event>, i: nat, m: nat, j: nat, t: R.Token, d: R.CallId)
    requires Run(tr, es) && i <= m < j < |tr| && t in tr[i].tokens.hist.handed
    requires Enabled(tr[m], es[m]) && TokenPart(tr[m], es[m]).Some?
    requires TokenPart(tr[m], es[m]).value.RevokeAll? && TokenPart(tr[m], es[m]).value.io.Took()
    requires tr[i].tokens.hist.handed[t] in tr[i].tokens.db.rows
    requires tr[i].tokens.db.rows[tr[i].tokens.hist.handed[t]].user == TokenPart(tr[m], es[m]).value.user
    requires d in tr[j].tokens.calls && tr[j].tokens.calls[d].pc.Finished? && tr[j].tokens.calls[d].pc.outcome.Rotated?
    requires var f := tr[i].tokens.db.rows[tr[i].tokens.hist.handed[t]].family;
      tr[j].tokens.calls[d].pc.outcome.prior.row.family == f
    ensures d in tr[m + 1].tokens.calls && tr[m + 1].tokens.calls[d] == tr[j].tokens.calls[d]
  {
    hide Run, Enabled, TokenPart;
    RevokeEndsFamilies(tr, es, i, m, j, t);
    var ss, k := TokensBetween(tr, es, m + 1, j);
    RefreshTheorems.DeadFamilyRotatesNoMore(ss, k, |ss| - 1, d);
  }

  /**
   * A rotation without failed statements that answers ReuseDetected has ended every access token
   * that its user had before it began.
   */
  lemma ReuseEndsAccessTokens(tr: seq<System>, es: seq<Event>, i: nat, j: nat, d: R.CallId)
    requires Run(tr, es) && i <= j < |tr| && d !in tr[i].tokens.calls && d in tr[j].tokens.calls
    requires tr[j].tokens.calls[d].clean && tr[j].tokens.calls[d].pc.Finished?
    requires tr[j].tokens.calls[d].pc.outcome.ReuseDetected?
    ensures var u := tr[j].tokens.calls[d].pc.outcome.prior.row.user;
      u in tr[i].users.users ==> !U.Accepts(tr[j].users.users, U.Mint(tr[i].users.users, u))
  {
    hide Run;
    var ss, k := TokensBetween(tr, es, i, j);
    RefreshTheorems.ReuseKillsFamily(ss, |ss| - 1, d);
    RefreshTheorems.StartIsLater(ss, k, |ss| - 1, d);
    RunIsCoupled(tr, es, i);
    RunIsCoupled(tr, es, j);
    hide RefreshSafety.Dead, R.Run;
  }
}
