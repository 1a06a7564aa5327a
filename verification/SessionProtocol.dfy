/**
 * The user table and the refresh-token table together: the statements of both parts interleave,
 * and `token_version` is one column of the user row that both of them raise.
 */
module SessionProtocol {
  import opened Prelude
  import U = UserProtocol
  import UserTheorems
  import R = RefreshProtocol

  type UserId = nat
  type CallId = nat

  /** `ended`: the password changes that reported success, refresh tokens included. */
  datatype System = System(users: U.System, tokens: R.System, ended: set<CallId>)

  /**
   * `Reuse` is the bump of a detected reuse, which the two parts model each from its side.
   * `EndSessions` is the last statement of a password change: revoke all refresh tokens of the user.
   */
  datatype Event =
    | OfUsers(ofUsers: U.Event)
    | OfTokens(ofTokens: R.Event)
    | Reuse(c: CallId, io: Io)
    | EndSessions(c: CallId, at: int, io: Io)

  predicate Rotated(s: U.System, c: CallId) {
    c in s.calls && s.calls[c].pc.Finished? && s.calls[c].pc.outcome.PasswordChanged? && s.calls[c].pc.outcome.rotated
  }

  ghost predicate Enabled(s: System, e: Event) {
    match e
    case OfUsers(e) => U.Enabled(s.users, e) && !e.ReuseBump? && (e.CreateUser? ==> e.id !in s.tokens.db.tokenVersion)
    case OfTokens(e) => R.Enabled(s.tokens, e) && !e.Bump? && !e.BumpElsewhere? && !e.AddUser?
    case Reuse(c, io) => R.Enabled(s.tokens, R.Bump(c, io))
    case EndSessions(c, _, _) => Rotated(s.users, c)
  }

  /** The user whose token_version the statement raises, if there is one. */
  function RaisedBy(s: U.System, e: U.Event): Option<UserId>
    requires U.Enabled(s, e)
  {
    var target :=
      match e
      case PatchWrite(c, _) => Some(s.calls[c].pc.id)
      case Delete(id, _, _) => Some(id)
      case GrantBump(c, _) => Some(s.calls[c].pc.user)
      case PasswordBump(c, _) => Some(s.calls[c].pc.user)
      case ReuseBump(id, _) => Some(id)
      case ReconcileRole(id, _, _) => Some(id)
      case _ => None;
    if target.Some? && target.value in s.users && UserTheorems.Raises(s, e, target.value) then target else None
  }

  /** What a statement on the user row is for the part that knows only its token_version. */
  function Echo(s: U.System, e: U.Event): Option<R.Event>
    requires U.Enabled(s, e)
  {
    if e.CreateUser? then (if e.io.Took() then Some(R.AddUser(e.id)) else None)
    else if RaisedBy(s, e).Some? then Some(R.BumpElsewhere(RaisedBy(s, e).value, Answered))
    else None
  }

  function UserPart(s: System, e: Event): Option<U.Event>
    requires Enabled(s, e)
  {
    match e
    case OfUsers(e) => Some(e)
    case Reuse(c, io) => Some(U.ReuseBump(s.tokens.calls[c].pc.prior.row.user, io))
    case _ => None
  }

  function TokenPart(s: System, e: Event): Option<R.Event>
    requires Enabled(s, e)
  {
    match e
    case OfUsers(e) => Echo(s.users, e)
    case OfTokens(e) => Some(e)
    case Reuse(c, io) => Some(R.Bump(c, io))
    case EndSessions(c, at, io) => Some(R.RevokeAll(s.users.calls[c].pc.outcome.user, at, io))
  }

  lemma PartsAreEnabled(s: System, e: Event)
    requires Enabled(s, e)
    ensures UserPart(s, e).Some? ==> U.Enabled(s.users, UserPart(s, e).value)
    ensures TokenPart(s, e).Some? ==> R.Enabled(s.tokens, TokenPart(s, e).value)
  {}

  function Apply(s: System, e: Event): System
    requires Enabled(s, e)
  {
    PartsAreEnabled(s, e);
    System(
      if UserPart(s, e).Some? then U.Apply(s.users, UserPart(s, e).value) else s.users,
      if TokenPart(s, e).Some? then R.Apply(s.tokens, TokenPart(s, e).value) else s.tokens,
      if e.EndSessions? && e.io.Answered? then s.ended + {e.c} else s.ended)
  }

  ghost predicate Init(s: System) {
    U.Init(s.users) && R.Init(s.tokens) && s.tokens.db.tokenVersion == map[] && s.ended == {}
  }

  ghost predicate StepAt(tr: seq<System>, es: seq<Event>, i: nat)
    requires i < |es| && |tr| == |es| + 1
  {
    Enabled(tr[i], es[i]) && tr[i + 1] == Apply(tr[i], es[i])
  }

  ghost predicate Run(tr: seq<System>, es: seq<Event>) {
    |tr| == |es| + 1 && Init(tr[0]) && forall i :: 0 <= i < |es| ==> StepAt(tr, es, i)
  }
}
