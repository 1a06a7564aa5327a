/**
 * The handlers that write user rows, statement after statement, with any amount of other work
 * between two statements.  `Valid` says that what happened so far is a run of the protocol.
 */
module UserServer {
  import opened Prelude
  import opened UserProtocol
  import UserTheorems
  import UserAnswers

  lemma Extend(tr: seq<System>, es: seq<Event>, e: Event, s: System)
    requires Run(tr, es) && Enabled(tr[|es|], e) && s == Apply(tr[|es|], e)
    ensures Run(tr + [s], es + [e])
  {
    hide Enabled, Apply, Init;
    forall i | 0 <= i < |es| + 1 ensures StepAt(tr + [s], es + [e], i) {
      if i < |es| { assert StepAt(tr, es, i); }
    }
  }

  class Server {
    var users: map<UserId, User>
    var grants: set<(UserId, GroupId)>
    ghost var ids: set<UserId>
    ghost var calls: map<CallId, Call>
    ghost var log: seq<System>
    ghost var events: seq<Event>

    ghost function State(): System
      reads this
    {
      System(users, grants, ids, calls)
    }

    ghost predicate Valid()
      reads this
    {
      Run(log, events) && log[|events|] == State()
    }

    constructor ()
      ensures Valid() && users == map[] && grants == {}
    {
      users, grants, ids, calls := map[], {}, {}, map[];
      log, events := [System(map[], {}, {}, map[])], [];
    }

    /** Other calls run.  Callers know only that the log went on and that their own call stood still. */
    method Interfere(ghost c: CallId)
      requires Valid() && c in calls
      modifies this
      ensures Valid() && old(log) <= log && c in calls && calls[c] == old(calls[c])
    {}

    ghost method Record(e: Event, before: System)
      requires Run(log, events) && log[|events|] == before
      requires Enabled(before, e) && State() == Apply(before, e)
      modifies this`log, this`events
      ensures Valid() && log == old(log) + [State()]
    {
      Extend(log, events, e, State());
      log, events := log + [State()], events + [e];
    }

    ghost method BeginCall(c: CallId, pc: Pc)
      requires Valid() && c !in calls && (pc.PatchReading? || pc.GrantDropping? || pc.PasswordReading?)
      modifies this`calls, this`log, this`events
      ensures Valid() && old(log) <= log && calls == old(calls)[c := Call(pc, users)]
    {
      var before := State();
      calls := calls[c := Call(pc, users)];
      Record(Begin(c, pc), before);
    }

    ghost method Proceed(c: CallId, pc: Pc)
      requires c in calls
      modifies this`calls
      ensures calls == Goto(old(State()), c, pc).calls
    {
      calls := Goto(State(), c, pc).calls;
    }

    /** PATCH /api/admin/users/:id */
    method UpdateAdminUser(ghost c: CallId, caller: UserId, id: UserId, patch: Patch) returns (outcome: Outcome)
      requires Valid() && c !in calls
      modifies this
      ensures Valid() && old(log) <= log
      ensures caller == id ==> outcome == Forbidden && users == old(users)
      ensures caller != id ==> c in calls && calls[c].pc == Finished(outcome)
      ensures outcome.Patched? ==> outcome == Patched(id, patch.version) && id in users
      ensures outcome.Patched? && patch.role.Some? ==> users[id].role == patch.role.value
      ensures outcome.Patched? && patch.status.Some? ==> users[id].status == patch.status.value
      ensures outcome.Patched? ==> users[id].version == patch.version + 1 && users[id].deletedAt.None?
    {
      if caller == id { return Forbidden; }
      BeginCall(c, PatchReading(id, patch));
      Interfere(c);

      ghost var before := State();
      var existing := if id in users && users[id].deletedAt.None? then Some(users[id]) else None;
      var io := AskDatabase();
      Proceed(c, if io.Failed() then Finished(Failed) else AfterPatchRead(users, id, patch));
      Record(PatchRead(c, io), before);
      if io.Failed() { return Failed; }
      if existing.None? { return NotFound; }
      var seen := existing.value;
      if seen.version != patch.version { return Conflict; }
      Interfere(c);
      outcome := GuardedUpdate(c, id, patch, seen);
    }

    /** UPDATE $id SET role, status, version, token_version WHERE version = $expected AND deleted_at IS NONE */
    method GuardedUpdate(ghost c: CallId, id: UserId, patch: Patch, seen: User) returns (outcome: Outcome)
      requires Valid() && c in calls && calls[c].pc == PatchWriting(id, patch, seen) && seen.version == patch.version
      modifies this
      ensures Valid() && old(log) <= log && c in calls && calls[c].pc == Finished(outcome)
      ensures outcome.Patched? ==> outcome == Patched(id, patch.version) && PatchHits(old(users), id, seen.version)
      ensures outcome.Patched? ==> UserAnswers.OnlyRow(old(users), users, id)
      ensures outcome.Patched? ==> UserAnswers.AsAsked(patch, old(users)[id], users[id])
      ensures outcome == Conflict ==> users == old(users) && !PatchHits(users, id, seen.version)
      ensures users == PatchIn(old(users), id, patch, seen) || (outcome == Failed && users == old(users))
    {
      UserTheorems.RunInv(log, events, |log| - 1);
      hide Run, UserTheorems.Inv, UserAnswers.AsAsked, UserAnswers.OnlyRow;
      var newRole := if patch.role.Some? then patch.role.value else seen.role;
      var newStatus := if patch.status.Some? then patch.status.value else seen.status;
      var bumpToken := newRole != seen.role || newStatus != seen.status;
      ghost var before := State();
      var io := AskDatabase();
      var hit := id in users && users[id].version == seen.version && users[id].deletedAt.None?;
      if hit && io.Took() {
        var row := users[id];
        row := row.(role := newRole, status := newStatus, version := row.version + 1);
        if bumpToken { row := row.(tokenVersion := row.tokenVersion + 1); }
        users := users[id := row];
      }
      assert users == After(before.users, io, PatchIn(before.users, id, patch, seen));
      hide PatchIn;
      outcome := if io.Failed() then Failed else if hit then Patched(id, seen.version) else Conflict;
      Proceed(c, Finished(outcome));
      Record(PatchWrite(c, io), before);
      UserAnswers.PatchWrites(before, c, io);
    }

    /** DELETE /api/admin/users/:id, up to the revocation of the refresh tokens. */
    method DeleteAdminUser(caller: UserId, id: UserId, now: Time) returns (outcome: Option<Outcome>)
      requires Valid()
      modifies this
      ensures Valid() && old(log) <= log
      ensures users == old(users) || users == DeleteIn(old(users), id, now)
      ensures outcome.None? ==>
        && caller != id && id in old(users) && old(users)[id].deletedAt.None?
        && UserAnswers.OnlyRow(old(users), users, id)
        && users[id] == old(users)[id].(deletedAt := Some(now), version := old(users)[id].version + 1,
                                        tokenVersion := old(users)[id].tokenVersion + 1)
      ensures outcome == Some(NotFound) ==> users == old(users)
    {
      if caller == id { return Some(Forbidden); }
      ghost var before := State();
      var io := AskDatabase();
      var hit := id in users && users[id].deletedAt.None?;
      if hit && io.Took() {
        var row := users[id];
        users := users[id := row.(deletedAt := Some(now), version := row.version + 1,
                                  tokenVersion := row.tokenVersion + 1)];
      }
      Record(Delete(id, now, io), before);
      outcome := if io.Failed() then Some(Failed) else if hit then None else Some(NotFound);
    }

    method BumpTokenVersion(id: UserId) returns (io: Io)
      modifies this`users
      ensures users == After(old(users), io, BumpIn(old(users), id))
      ensures UserAnswers.OnlyRow(old(users), users, id)
      ensures io.Took() && id in users ==>
        users[id] == old(users)[id].(tokenVersion := old(users)[id].tokenVersion + 1)
    {
      io := AskDatabase();
      if io.Took() && id in users {
        users := users[id := users[id].(tokenVersion := users[id].tokenVersion + 1)];
      }
    }

    /** Access tokens minted from the users of `before` are rejected now. */
    ghost predicate Outdated(before: map<UserId, User>, user: UserId)
      reads this
    {
      user in before ==> !Accepts(users, Mint(before, user))
    }

    ghost method Conclude(c: CallId, user: UserId, outcome: Outcome)
      requires Valid() && c in calls && calls[c].pc == Finished(outcome)
      requires (outcome.GrantRevoked? || outcome.PasswordChanged?) && outcome.user == user
      ensures Outdated(calls[c].start, user)
    {
      if user in calls[c].start {
        if outcome.GrantRevoked? {
          UserTheorems.RevokedGrantRejectsOldTokens(log, events, |events|, c, user, outcome.group);
        } else {
          UserTheorems.ChangedPasswordRejectsOldTokens(log, events, |events|, c, user, outcome.rotated);
        }
      }
      hide Run;
    }

    /** DELETE /api/admin/users/:id/groups/:group_id */
    method RevokeGroupAdmin(ghost c: CallId, user: UserId, group: GroupId) returns (outcome: Outcome)
      requires Valid() && c !in calls
      modifies this
      ensures Valid() && old(log) <= log && c in calls && calls[c].pc == Finished(outcome)
      ensures outcome.GrantRevoked? ==> outcome == GrantRevoked(user, group) && Outdated(old(users), user)
      ensures outcome.GrantRevoked? ==> exists k :: |old(log)| <= k < |log| && (user, group) !in log[k].grants
    {
      hide Run, Outdated;
      BeginCall(c, GrantDropping(user, group));
      Interfere(c);
      outcome := DropGrant(c, user, group);
      if !outcome.GrantRevoked? { return; }
      ghost var dropped := |log| - 1;
      assert (user, group) !in log[dropped].grants;
      Interfere(c);
      outcome := BumpFor(c, user, GrantRevoked(user, group));
      if outcome.GrantRevoked? { Conclude(c, user, outcome); }
    }

    /** Delete the grant; GrantRevoked means: go on. */
    method DropGrant(ghost c: CallId, user: UserId, group: GroupId) returns (outcome: Outcome)
      requires Valid() && c in calls && calls[c].pc == GrantDropping(user, group)
      modifies this
      ensures Valid() && old(log) <= log && |old(log)| < |log| && users == old(users)
      ensures c in calls && calls[c].start == old(calls[c].start)
      ensures outcome == GrantRevoked(user, group) || outcome == NotFound || outcome == Failed
      ensures calls[c].pc == if outcome.GrantRevoked? then GrantBumping(user, group) else Finished(outcome)
      ensures grants == old(grants) || grants == old(grants) - {(user, group)}
      ensures outcome.GrantRevoked? ==> (user, group) in old(grants) && (user, group) !in log[|log| - 1].grants
    {
      hide Run;
      ghost var before := State();
      var io := AskDatabase();
      var found := (user, group) in grants;
      if io.Took() { grants := grants - {(user, group)}; }
      outcome := if io.Failed() then Failed else if found then GrantRevoked(user, group) else NotFound;
      Proceed(c, if outcome.GrantRevoked? then GrantBumping(user, group) else Finished(outcome));
      Record(UserProtocol.DropGrant(c, io), before);
    }

    /** The bump that ends a grant revoke or a password change. */
    method BumpFor(ghost c: CallId, user: UserId, done: Outcome) returns (outcome: Outcome)
      requires Valid() && c in calls
      requires (done.GrantRevoked? && done.user == user && calls[c].pc == GrantBumping(user, done.group))
        || (done.PasswordChanged? && done.user == user && calls[c].pc == PasswordBumping(user, done.rotated))
      modifies this
      ensures Valid() && old(log) <= log && c in calls && calls[c] == old(calls[c]).(pc := Finished(outcome))
      ensures outcome == done || outcome == Failed
      ensures users == BumpIn(old(users), user) || (outcome == Failed && users == old(users))
    {
      hide Run;
      ghost var before := State();
      var io := BumpTokenVersion(user);
      outcome := if io.Failed() then Failed else done;
      Proceed(c, Finished(outcome));
      Record(if done.GrantRevoked? then GrantBump(c, io) else PasswordBump(c, io), before);
    }

    /** POST /api/auth/change-password, up to the revocation of the refresh tokens. */
    method ChangePassword(ghost c: CallId, user: UserId, current: Option<nat>, next: nat) returns (outcome: Outcome)
      requires Valid() && c !in calls
      modifies this
      ensures Valid() && old(log) <= log && c in calls && calls[c].pc == Finished(outcome)
      ensures outcome.PasswordChanged? ==> outcome.user == user && Outdated(old(users), user)
      ensures outcome.PasswordChanged? ==> exists k :: |old(log)| <= k < |log| && HasPassword(log[k].users, user, next)
    {
      hide Run, HasPassword, Outdated;
      BeginCall(c, PasswordReading(user, current, next));
      Interfere(c);
      outcome := CheckCurrent(c, user, current, next);
      if outcome.PasswordChanged? {
        Interfere(c);
        outcome := WriteAndBump(c, user, next, outcome.rotated);
      }
      if outcome.PasswordChanged? { Conclude(c, user, outcome); }
    }

    method WriteAndBump(ghost c: CallId, user: UserId, next: nat, rotated: bool) returns (outcome: Outcome)
      requires Valid() && c in calls && calls[c].pc == PasswordWriting(user, next, rotated)
      modifies this
      ensures Valid() && old(log) <= log && c in calls && calls[c].start == old(calls[c].start)
      ensures calls[c].pc == Finished(outcome) && (outcome == PasswordChanged(user, rotated) || outcome == Failed)
      ensures outcome.PasswordChanged? ==> exists k :: |old(log)| <= k < |log| && HasPassword(log[k].users, user, next)
    {
      hide Run, HasPassword;
      var written := UpdatePasswordHash(c, user, next, rotated);
      if !written { return Failed; }
      ghost var k := |log| - 1;
      assert HasPassword(log[k].users, user, next);
      Interfere(c);
      outcome := BumpFor(c, user, PasswordChanged(user, rotated));
    }

    static ghost predicate HasPassword(users: map<UserId, User>, user: UserId, hash: nat) {
      user in users ==> users[user].passwordHash == Some(hash)
    }

    method UpdatePasswordHash(ghost c: CallId, user: UserId, next: nat, rotated: bool) returns (ok: bool)
      requires Valid() && c in calls && calls[c].pc == PasswordWriting(user, next, rotated)
      modifies this
      ensures Valid() && old(log) <= log && |old(log)| < |log| && log[|log| - 1].users == users
      ensures c in calls && calls[c].start == old(calls[c].start)
      ensures calls[c].pc == if ok then PasswordBumping(user, rotated) else Finished(Failed)
      ensures users == HashIn(old(users), user, next) || (!ok && users == old(users))
      ensures ok ==> HasPassword(users, user, next)
    {
      hide Run;
      ghost var before := State();
      var io := AskDatabase();
      if io.Took() && user in users { users := users[user := users[user].(passwordHash := Some(next))]; }
      Proceed(c, if io.Failed() then Finished(Failed) else PasswordBumping(user, rotated));
      Record(PasswordWrite(c, io), before);
      ok := io.Answered?;
    }

    /** Load the row and verify the current password; PasswordChanged means: go on. */
    method CheckCurrent(ghost c: CallId, user: UserId, current: Option<nat>, next: nat) returns (outcome: Outcome)
      requires Valid() && c in calls && calls[c].pc == PasswordReading(user, current, next)
      modifies this`calls, this`log, this`events
      ensures Valid() && old(log) <= log && c in calls && calls[c].start == old(calls[c].start)
      ensures calls[c].pc == if outcome.PasswordChanged? then PasswordWriting(user, next, outcome.rotated)
                             else Finished(outcome)
      ensures outcome.PasswordChanged? ==> outcome.user == user && user in users
      ensures outcome.PasswordChanged? ==> outcome.rotated == users[user].passwordHash.Some?
      ensures outcome.PasswordChanged? && outcome.rotated ==> users[user].passwordHash == current
    {
      hide Run;
      ghost var before := State();
      var io := AskDatabase();
      outcome := Failed;
      if io.Answered? && user in users {
        var hash := users[user].passwordHash;
        outcome := if hash.None? then PasswordChanged(user, false)
                   else if current.None? then BadRequest
                   else if current != hash then BadCurrentPassword
                   else PasswordChanged(user, true);
      }
      Proceed(c, if outcome.PasswordChanged? then PasswordWriting(user, next, outcome.rotated) else Finished(outcome));
      Record(PasswordRead(c, io), before);
    }
  }
}
