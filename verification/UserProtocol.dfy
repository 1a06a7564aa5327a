/**
 * The user row and everybody who writes to it (src/api/admin_users.rs, src/auth/refresh.rs,
 * src/api/auth_endpoints.rs, src/auth/bootstrap.rs), one atomic step for each SQL statement.
 *
 * PATCH reads a snapshot, decides from it whether token_version must rise, and writes later
 * under `WHERE version = $expected`.  Other writers touch some of the same columns in between.
 */
module UserProtocol {
  import opened Prelude

  type UserId = nat
  type GroupId = nat
  type CallId = nat
  type Time = int

  datatype Role = SuperAdmin | Admin | Member
  datatype Status = Active | Disabled

  datatype User = User(
    role: Role, status: Status, version: int, tokenVersion: int, deletedAt: Option<Time>,
    passwordHash: Option<nat>)
  {
    /** What an access token speaks for: a change of any of these must end it. */
    function Standing(): (Role, Status, Option<Time>) { (role, status, deletedAt) }
  }

  /** The part of an access token that is compared with the row. */
  datatype Claim = Claim(sub: UserId, tokenVersion: int)

  datatype Patch = Patch(role: Option<Role>, status: Option<Status>, version: int)

  datatype Outcome =
    | Patched(id: UserId, expected: int)
    | GrantRevoked(user: UserId, group: GroupId)
    | PasswordChanged(user: UserId, rotated: bool)
    | Forbidden
    | NotFound
    | Conflict
    | BadRequest
    | BadCurrentPassword
    | Failed

  datatype Pc =
    | PatchReading(id: UserId, patch: Patch)
    | PatchWriting(id: UserId, patch: Patch, seen: User)
    | GrantDropping(user: UserId, group: GroupId)
    | GrantBumping(user: UserId, group: GroupId)
    | PasswordReading(user: UserId, current: Option<nat>, next: nat)
    | PasswordWriting(user: UserId, next: nat, rotated: bool)
    | PasswordBumping(user: UserId, rotated: bool)
    | Finished(outcome: Outcome)

  /** `start`: the user table when the call began. */
  datatype Call = Call(pc: Pc, start: map<UserId, User>)

  /** `ids`: every record id ever used; ids are random and never used again. */
  datatype System = System(
    users: map<UserId, User>, grants: set<(UserId, GroupId)>, ids: set<UserId>, calls: map<CallId, Call>)

  datatype Event =
    | CreateUser(id: UserId, role: Role, hash: Option<nat>, io: Io)
    | RollbackUser(id: UserId, io: Io)
    | AddGrant(user: UserId, group: GroupId, io: Io)
    | Begin(c: CallId, pc: Pc)
    | PatchRead(c: CallId, io: Io)
    | PatchWrite(c: CallId, io: Io)
    | Delete(id: UserId, at: Time, io: Io)
    | DropGrant(c: CallId, io: Io)
    | GrantBump(c: CallId, io: Io)
    | PasswordRead(c: CallId, io: Io)
    | PasswordWrite(c: CallId, io: Io)
    | PasswordBump(c: CallId, io: Io)
    | ReuseBump(id: UserId, io: Io)
    | ReconcileRole(id: UserId, role: Role, io: Io)

  ghost predicate Init(s: System) {
    s.users == map[] && s.grants == {} && s.ids == {} && s.calls == map[]
  }

  ghost predicate Enabled(s: System, e: Event) {
    match e
    case CreateUser(id, _, _, _) => id !in s.ids
    case Begin(c, pc) => c !in s.calls && (pc.PatchReading? || pc.GrantDropping? || pc.PasswordReading?)
    case PatchRead(c, _) => c in s.calls && s.calls[c].pc.PatchReading?
    case PatchWrite(c, _) => c in s.calls && s.calls[c].pc.PatchWriting?
    case DropGrant(c, _) => c in s.calls && s.calls[c].pc.GrantDropping?
    case GrantBump(c, _) => c in s.calls && s.calls[c].pc.GrantBumping?
    case PasswordRead(c, _) => c in s.calls && s.calls[c].pc.PasswordReading?
    case PasswordWrite(c, _) => c in s.calls && s.calls[c].pc.PasswordWriting?
    case PasswordBump(c, _) => c in s.calls && s.calls[c].pc.PasswordBumping?
    case _ => true
  }

  // ---- One function for each SQL statement ---------------------------------------------------

  function BumpIn(users: map<UserId, User>, id: UserId): map<UserId, User> {
    if id in users then users[id := users[id].(tokenVersion := users[id].tokenVersion + 1)] else users
  }

  function Chosen<T>(asked: Option<T>, seen: T): T {
    if asked.Some? then asked.value else seen
  }

  predicate PatchHits(users: map<UserId, User>, id: UserId, expected: int) {
    id in users && users[id].version == expected && users[id].deletedAt.None?
  }

  /** The flag computed from the snapshot. */
  predicate BumpFlag(patch: Patch, seen: User) {
    Chosen(patch.role, seen.role) != seen.role || Chosen(patch.status, seen.status) != seen.status
  }

  function PatchIn(users: map<UserId, User>, id: UserId, patch: Patch, seen: User): map<UserId, User> {
    if !PatchHits(users, id, seen.version) then users else
    var now := users[id];
    users[id := now.(
      role := Chosen(patch.role, seen.role),
      status := Chosen(patch.status, seen.status),
      version := now.version + 1,
      tokenVersion := if BumpFlag(patch, seen) then now.tokenVersion + 1 else now.tokenVersion)]
  }

  function DeleteIn(users: map<UserId, User>, id: UserId, at: Time): map<UserId, User> {
    if id in users && users[id].deletedAt.None?
    then users[id := users[id].(deletedAt := Some(at), version := users[id].version + 1,
                                tokenVersion := users[id].tokenVersion + 1)]
    else users
  }

  function ReconcileIn(users: map<UserId, User>, id: UserId, role: Role): map<UserId, User> {
    if id in users && users[id].deletedAt.None?
    then users[id := users[id].(role := role, version := users[id].version + 1,
                                tokenVersion := users[id].tokenVersion + 1)]
    else users
  }

  function HashIn(users: map<UserId, User>, id: UserId, hash: nat): map<UserId, User> {
    if id in users then users[id := users[id].(passwordHash := Some(hash))] else users
  }

  function After<T>(before: T, io: Io, changed: T): T {
    if io.Took() then changed else before
  }

  function Goto(s: System, c: CallId, pc: Pc): System
    requires c in s.calls
  {
    s.(calls := s.calls[c := s.calls[c].(pc := pc)])
  }

  function AfterPatchRead(users: map<UserId, User>, id: UserId, patch: Patch): Pc {
    if id !in users || users[id].deletedAt.Some? then Finished(NotFound)
    else if users[id].version != patch.version then Finished(Conflict)
    else PatchWriting(id, patch, users[id])
  }

  /** The start of `change_password`; a hash stands for the password it is of.  `rotated`: there was one. */
  function AfterPasswordRead(users: map<UserId, User>, user: UserId, current: Option<nat>, next: nat): Pc {
    if user !in users then Finished(Failed)
    else if users[user].passwordHash.None? then PasswordWriting(user, next, false)
    else if current.None? then Finished(BadRequest)
    else if current != users[user].passwordHash then Finished(BadCurrentPassword)
    else PasswordWriting(user, next, true)
  }

  function Apply(s: System, e: Event): System
    requires Enabled(s, e)
  {
    match e
    case CreateUser(id, role, hash, io) =>
      s.(users := After(s.users, io, s.users[id := User(role, Active, 1, 0, None, hash)]), ids := s.ids + {id})
    case RollbackUser(id, io) => s.(users := After(s.users, io, s.users - {id}))
    case AddGrant(u, g, io) => s.(grants := After(s.grants, io, s.grants + {(u, g)}))
    case Begin(c, pc) => s.(calls := s.calls[c := Call(pc, s.users)])
    case PatchRead(c, io) =>
      Goto(s, c, if io.Failed() then Finished(Failed)
                 else AfterPatchRead(s.users, s.calls[c].pc.id, s.calls[c].pc.patch))
    case PatchWrite(c, io) =>
      var PatchWriting(id, patch, seen) := s.calls[c].pc;
      Goto(s, c, if io.Failed() then Finished(Failed)
                 else if PatchHits(s.users, id, seen.version) then Finished(Patched(id, seen.version))
                 else Finished(Conflict))
        .(users := After(s.users, io, PatchIn(s.users, id, patch, seen)))
    case Delete(id, at, io) => s.(users := After(s.users, io, DeleteIn(s.users, id, at)))
    case DropGrant(c, io) =>
      var GrantDropping(u, g) := s.calls[c].pc;
      Goto(s, c, if io.Failed() then Finished(Failed)
                 else if (u, g) !in s.grants then Finished(NotFound) else GrantBumping(u, g))
        .(grants := After(s.grants, io, s.grants - {(u, g)}))
    case GrantBump(c, io) =>
      var GrantBumping(u, g) := s.calls[c].pc;
      Goto(s, c, if io.Failed() then Finished(Failed) else Finished(GrantRevoked(u, g)))
        .(users := After(s.users, io, BumpIn(s.users, u)))
    case PasswordRead(c, io) =>
      var PasswordReading(u, current, next) := s.calls[c].pc;
      Goto(s, c, if io.Failed() then Finished(Failed) else AfterPasswordRead(s.users, u, current, next))
    case PasswordWrite(c, io) =>
      var PasswordWriting(u, next, rotated) := s.calls[c].pc;
      Goto(s, c, if io.Failed() then Finished(Failed) else PasswordBumping(u, rotated))
        .(users := After(s.users, io, HashIn(s.users, u, next)))
    case PasswordBump(c, io) =>
      var PasswordBumping(u, rotated) := s.calls[c].pc;
      Goto(s, c, if io.Failed() then Finished(Failed) else Finished(PasswordChanged(u, rotated)))
        .(users := After(s.users, io, BumpIn(s.users, u)))
    case ReuseBump(id, io) => s.(users := After(s.users, io, BumpIn(s.users, id)))
    case ReconcileRole(id, role, io) => s.(users := After(s.users, io, ReconcileIn(s.users, id, role)))
  }

  /** A run with its events: `tr[i + 1]` is `tr[i]` after `es[i]`. */
  ghost predicate StepAt(tr: seq<System>, es: seq<Event>, i: nat)
    requires i < |es| && |tr| == |es| + 1
  {
    Enabled(tr[i], es[i]) && tr[i + 1] == Apply(tr[i], es[i])
  }

  ghost predicate Run(tr: seq<System>, es: seq<Event>) {
    |tr| == |es| + 1 && Init(tr[0]) && forall i :: 0 <= i < |es| ==> StepAt(tr, es, i)
  }

  // ---- Access tokens -------------------------------------------------------------------------

  /** `mint_access` copies the version out of the row that was just loaded. */
  function Mint(users: map<UserId, User>, id: UserId): Claim
    requires id in users
  {
    Claim(id, users[id].tokenVersion)
  }

  /** `AuthenticatedUser::from_request_parts` after the signature check. */
  predicate Accepts(users: map<UserId, User>, claim: Claim) {
    && claim.sub in users
    && users[claim.sub].tokenVersion == claim.tokenVersion
    && users[claim.sub].status.Active?
    && users[claim.sub].deletedAt.None?
  }
}
