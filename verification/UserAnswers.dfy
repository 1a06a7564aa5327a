/**
 * What each statement on the user row answers and writes, column by column, and what a whole
 * PATCH comes to.
 */
module UserAnswers {
  import opened Prelude
  import opened UserProtocol
  import opened UserTheorems

  /** The table is what it was but for the row of `id`. */
  ghost predicate OnlyRow(before: map<UserId, User>, after: map<UserId, User>, id: UserId) {
    after.Keys == before.Keys && forall x :: x in before && x != id ==> after[x] == before[x]
  }

  /** The row has what the patch asked for, and in every other column what it had before. */
  ghost predicate AsAsked(patch: Patch, before: User, after: User) {
    && (patch.role.Some? ==> after.role == patch.role.value)
    && (patch.role.None? ==> after.role == before.role)
    && (patch.status.Some? ==> after.status == patch.status.value)
    && (patch.status.None? ==> after.status == before.status)
    && after.deletedAt == before.deletedAt && after.passwordHash == before.passwordHash
    && after.version == before.version + 1
    && after.tokenVersion ==
         before.tokenVersion + if after.role != before.role || after.status != before.status then 1 else 0
  }

  /**
   * The guarded write of a PATCH: it hits exactly the row that is there, has the version and is not
   * deleted, and gives it what was asked for, although the values it writes and the decision on
   * token_version are from an old snapshot.
   */
  lemma PatchWrites(s: System, c: CallId, io: Io)
    requires Inv(s) && Enabled(s, PatchWrite(c, io))
    ensures var s' := Apply(s, PatchWrite(c, io));
      var PatchWriting(id, patch, _) := s.calls[c].pc;
      var hits := id in s.users && s.users[id].version == patch.version && s.users[id].deletedAt.None?;
      && OnlyRow(s.users, s'.users, id) && s'.grants == s.grants
      && (hits && io.Took() ==> AsAsked(patch, s.users[id], s'.users[id]))
      && (!(hits && io.Took()) ==> s'.users == s.users)
      && s'.calls[c].pc == Finished(
           if io != Answered then Failed else if hits then Patched(id, patch.version) else Conflict)
  {
    assert CallOk(s, s.calls[c]);
  }

  /** The snapshot of a PATCH goes on exactly with a row that is there, not deleted, and of that version. */
  lemma PatchReadAnswers(s: System, c: CallId, io: Io)
    requires Enabled(s, PatchRead(c, io))
    ensures var s' := Apply(s, PatchRead(c, io));
      var PatchReading(id, patch) := s.calls[c].pc;
      && s'.users == s.users && s'.grants == s.grants
      && s'.calls[c].pc ==
           if io != Answered then Finished(Failed)
           else if !(id in s.users && s.users[id].deletedAt.None?) then Finished(NotFound)
           else if s.users[id].version == patch.version then PatchWriting(id, patch, s.users[id])
           else Finished(Conflict)
  {}

  /** A soft delete marks a row that is not marked, and raises both of its counters. */
  lemma DeleteWrites(s: System, id: UserId, at: Time, io: Io)
    ensures var s' := Apply(s, Delete(id, at, io));
      var hits := id in s.users && s.users[id].deletedAt.None?;
      && OnlyRow(s.users, s'.users, id) && s' == s.(users := s'.users)
      && (!(hits && io.Took()) ==> s'.users == s.users)
      && (hits && io.Took() ==>
            var row := s.users[id];
            s'.users[id] == User(row.role, row.status, row.version + 1, row.tokenVersion + 1, Some(at),
                                 row.passwordHash))
  {}

  /** The start-up reconciliation of a role spares deleted rows, and raises both counters. */
  lemma ReconcileWrites(s: System, id: UserId, role: Role, io: Io)
    ensures var s' := Apply(s, ReconcileRole(id, role, io));
      var hits := id in s.users && s.users[id].deletedAt.None?;
      && OnlyRow(s.users, s'.users, id) && s' == s.(users := s'.users)
      && (!(hits && io.Took()) ==> s'.users == s.users)
      && (hits && io.Took() ==>
            var row := s.users[id];
            s'.users[id] == User(role, row.status, row.version + 1, row.tokenVersion + 1, None, row.passwordHash))
  {}

  /** One grant goes and nothing else; a grant that is not there is answered as not found. */
  lemma DropGrantWrites(s: System, c: CallId, io: Io)
    requires Enabled(s, DropGrant(c, io))
    ensures var s' := Apply(s, DropGrant(c, io));
      var GrantDropping(u, g) := s.calls[c].pc;
      && s'.users == s.users
      && (forall x :: x in s'.grants <==> x in s.grants && !(io.Took() && x == (u, g)))
      && s'.calls[c].pc == if io != Answered then Finished(Failed)
                           else if (u, g) in s.grants then GrantBumping(u, g) else Finished(NotFound)
  {}

  /** A bump raises one counter of one row by one; no row, no effect and no error. */
  lemma BumpWrites(s: System, e: Event)
    requires Enabled(s, e) && (e.GrantBump? || e.PasswordBump? || e.ReuseBump?)
    ensures var s' := Apply(s, e);
      var id := if e.ReuseBump? then e.id else s.calls[e.c].pc.user;
      && OnlyRow(s.users, s'.users, id) && s'.grants == s.grants
      && (id in s.users ==>
            var row := s.users[id];
            s'.users[id] == User(row.role, row.status, row.version,
                                 row.tokenVersion + if e.io.Took() then 1 else 0, row.deletedAt, row.passwordHash))
      && (e.GrantBump? ==>
            s'.calls[e.c].pc == Finished(if e.io == Answered then GrantRevoked(id, s.calls[e.c].pc.group) else Failed))
      && (e.PasswordBump? ==>
            s'.calls[e.c].pc == Finished(
              if e.io == Answered then PasswordChanged(id, s.calls[e.c].pc.rotated) else Failed))
  {}

  /** Who has a password must give it; who has none sets a first one. */
  lemma PasswordAnswers(s: System, c: CallId, io: Io)
    requires Enabled(s, PasswordRead(c, io))
    ensures var s' := Apply(s, PasswordRead(c, io));
      var PasswordReading(u, current, next) := s.calls[c].pc;
      && s'.users == s.users && s'.grants == s.grants
      && (io == Answered && u in s.users && s.users[u].passwordHash.Some? ==>
            s'.calls[c].pc == if current == s.users[u].passwordHash then PasswordWriting(u, next, true)
                              else Finished(if current.Some? then BadCurrentPassword else BadRequest))
      && (io == Answered && u in s.users && s.users[u].passwordHash.None? ==>
            s'.calls[c].pc == PasswordWriting(u, next, false))
      && (io != Answered || u !in s.users ==> s'.calls[c].pc == Finished(Failed))
  {}

  /** The new password is stored, and no other column of any row changes. */
  lemma PasswordWrites(s: System, c: CallId, io: Io)
    requires Enabled(s, PasswordWrite(c, io))
    ensures var s' := Apply(s, PasswordWrite(c, io));
      var PasswordWriting(u, next, rotated) := s.calls[c].pc;
      && OnlyRow(s.users, s'.users, u) && s'.grants == s.grants
      && (u in s.users ==>
            var row := s.users[u];
            s'.users[u] == User(row.role, row.status, row.version, row.tokenVersion, row.deletedAt,
                                if io.Took() then Some(next) else row.passwordHash))
      && s'.calls[c].pc == if io == Answered then PasswordBumping(u, rotated) else Finished(Failed)
  {}

  /** New accounts start active, at version 1 and token_version 0. */
  lemma CreateWrites(s: System, id: UserId, role: Role, hash: Option<nat>, io: Io)
    requires Inv(s) && Enabled(s, CreateUser(id, role, hash, io))
    ensures var s' := Apply(s, CreateUser(id, role, hash, io));
      && id !in s.users && (io.Refused? ==> s'.users == s.users)
      && (io.Took() ==> id in s'.users && s'.users[id] == User(role, Active, 1, 0, None, hash))
      && (forall x :: x in s.users ==> x in s'.users && s'.users[x] == s.users[x])
      && (forall x :: x in s'.users && x != id ==> x in s.users)
      && s'.grants == s.grants && s'.calls == s.calls
  {
    hide CallOk;
  }

  /** Over runs: whenever a PATCH answers success, at that moment the row is as asked. */
  lemma PatchedIsAsAsked(tr: seq<System>, es: seq<Event>, i: nat, c: CallId)
    requires Run(tr, es) && i < |es| && es[i] == PatchWrite(c, Answered) && c in tr[i].calls && c in tr[i + 1].calls
    requires tr[i].calls[c].pc.PatchWriting?
    requires tr[i + 1].calls[c].pc.Finished? && tr[i + 1].calls[c].pc.outcome.Patched?
    ensures var PatchWriting(id, patch, _) := tr[i].calls[c].pc;
      && tr[i + 1].calls[c].pc.outcome == Patched(id, patch.version)
      && id in tr[i].users && id in tr[i + 1].users && AsAsked(patch, tr[i].users[id], tr[i + 1].users[id])
  {
    hide Inv;
    StepOfRun(tr, es, i);
    PatchWrites(tr[i], c, Answered);
    hide Apply, Enabled, AsAsked;
  }

  /** The token that is minted now is accepted exactly from an active account that is not deleted. */
  lemma FreshTokenAcceptedIff(users: map<UserId, User>, id: UserId)
    requires id in users
    ensures Accepts(users, Mint(users, id)) <==> users[id].status == Active && users[id].deletedAt == None
    ensures Mint(users, id).sub == id
  {}

  /** No token at all is accepted from an account that is gone, disabled or deleted, nor an old one. */
  lemma RefusedIff(users: map<UserId, User>, claim: Claim)
    ensures !Accepts(users, claim) <==>
      || claim.sub !in users || users[claim.sub].status == Disabled || users[claim.sub].deletedAt != None
      || claim != Mint(users, claim.sub)
  {}

  /** A PATCH of a version that is the current one, with nobody in between, succeeds. */
  lemma UndisturbedPatchSucceeds(s: System, c: CallId, id: UserId, patch: Patch)
    requires Inv(s) && c !in s.calls && id in s.users
    requires s.users[id].deletedAt.None? && s.users[id].version == patch.version
    ensures var s1 := Apply(s, Begin(c, PatchReading(id, patch)));
      && Enabled(s1, PatchRead(c, Answered))
      && var s2 := Apply(s1, PatchRead(c, Answered));
         && Enabled(s2, PatchWrite(c, Answered))
         && var s3 := Apply(s2, PatchWrite(c, Answered));
            && s3.calls[c].pc == Finished(Patched(id, patch.version))
            && OnlyRow(s.users, s3.users, id) && AsAsked(patch, s.users[id], s3.users[id])
  {
    hide Inv;
  }
}
