/** What the versioning of the user row guarantees, over every interleaving of its writers. */
module UserTheorems {
  import opened Prelude
  import opened UserProtocol

  /** How one row may have moved on: counters never fall, and an unchanged `version` means an
      unchanged standing.  This is what makes a decision taken from a snapshot safe. */
  ghost predicate MovedOn(before: User, after: User) {
    && before.version <= after.version
    && before.tokenVersion <= after.tokenVersion
    && (before.version == after.version ==> before.Standing() == after.Standing())
    && (before.Standing() != after.Standing() ==> before.tokenVersion < after.tokenVersion)
  }

  ghost predicate TableMovedOn(before: map<UserId, User>, after: map<UserId, User>) {
    forall id :: id in before && id in after ==> MovedOn(before[id], after[id])
  }

  ghost predicate BumpedSince(call: Call, users: map<UserId, User>, u: UserId) {
    u in call.start && u in users ==> call.start[u].tokenVersion < users[u].tokenVersion
  }

  ghost predicate CallOk(s: System, call: Call) {
    && call.start.Keys <= s.ids && TableMovedOn(call.start, s.users)
    && match call.pc
       case PatchWriting(id, patch, seen) =>
         id in s.ids && seen.deletedAt.None? && seen.version == patch.version
         && (id in s.users ==> MovedOn(seen, s.users[id]))
       case Finished(Patched(id, expected)) => id in s.ids && (id in s.users ==> expected < s.users[id].version)
       case Finished(GrantRevoked(u, _)) => BumpedSince(call, s.users, u)
       case Finished(PasswordChanged(u, _)) => BumpedSince(call, s.users, u)
       case _ => true
  }

  ghost predicate WonSame(a: Call, b: Call) {
    a.pc.Finished? && b.pc.Finished? && a.pc.outcome.Patched? && a.pc.outcome == b.pc.outcome
  }

  ghost predicate Inv(s: System) {
    && s.users.Keys <= s.ids
    && (forall c :: c in s.calls ==> CallOk(s, s.calls[c]))
    && (forall c, d :: c in s.calls && d in s.calls && WonSame(s.calls[c], s.calls[d]) ==> c == d)
  }

  lemma CallStays(s: System, s': System, call: Call)
    requires CallOk(s, call) && s.users.Keys <= s.ids && s.ids <= s'.ids
    requires TableMovedOn(s.users, s'.users)
    requires forall id :: id in s'.users && id !in s.users ==> id !in s.ids
    ensures CallOk(s', call)
  {}

  /** The snapshot argument: the guarded write hits only a row whose standing is still the one
      seen, so the flag computed from the snapshot is right for the row that is written. */
  lemma PatchMovesOn(s: System, c: CallId)
    requires Inv(s) && c in s.calls && s.calls[c].pc.PatchWriting?
    ensures var PatchWriting(id, patch, seen) := s.calls[c].pc;
      TableMovedOn(s.users, PatchIn(s.users, id, patch, seen))
  {
    assert CallOk(s, s.calls[c]);
  }

  lemma TablesMoveOn(s: System, e: Event)
    requires Inv(s) && Enabled(s, e)
    ensures var s' := Apply(s, e); TableMovedOn(s.users, s'.users) && s.ids <= s'.ids
    ensures var s' := Apply(s, e); forall id :: id in s'.users && id !in s.users ==> id !in s.ids
  {
    if e.PatchWrite? { PatchMovesOn(s, e.c); }
  }

  function Caller(e: Event): Option<CallId> {
    match e
    case Begin(c, _) => Some(c)
    case PatchRead(c, _) => Some(c)
    case PatchWrite(c, _) => Some(c)
    case DropGrant(c, _) => Some(c)
    case GrantBump(c, _) => Some(c)
    case PasswordRead(c, _) => Some(c)
    case PasswordWrite(c, _) => Some(c)
    case PasswordBump(c, _) => Some(c)
    case _ => None
  }

  lemma CallerOk(s: System, e: Event)
    requires Inv(s) && Enabled(s, e) && Caller(e).Some?
    ensures var s' := Apply(s, e); var c := Caller(e).value;
      && c in s'.calls && CallOk(s', s'.calls[c]) && s'.calls == s.calls[c := s'.calls[c]]
  {
    var s' := Apply(s, e);
    var c := Caller(e).value;
    TablesMoveOn(s, e);
    if c in s.calls { CallStays(s, s', s.calls[c]); }
  }

  lemma WinnersDiffer(s: System, e: Event)
    requires Inv(s) && Enabled(s, e) && e.PatchWrite?
    ensures var s' := Apply(s, e); forall d :: d in s.calls && d != e.c ==> !WonSame(s'.calls[e.c], s.calls[d])
  {
    var s' := Apply(s, e);
    forall d | d in s.calls && d != e.c ensures !WonSame(s'.calls[e.c], s.calls[d]) {
      assert CallOk(s, s.calls[d]);
    }
  }

  lemma WinnersStayUnique(s: System, e: Event)
    requires Inv(s) && Enabled(s, e)
    ensures var s' := Apply(s, e);
      forall c, d :: c in s'.calls && d in s'.calls && WonSame(s'.calls[c], s'.calls[d]) ==> c == d
  {
    if e.PatchWrite? { WinnersDiffer(s, e); }
    hide CallOk;
  }

  lemma OthersStay(s: System, e: Event, c: CallId)
    requires Inv(s) && Enabled(s, e) && c in Apply(s, e).calls && Caller(e) != Some(c)
    ensures CallOk(Apply(s, e), Apply(s, e).calls[c])
  {
    TablesMoveOn(s, e);
    CallStays(s, Apply(s, e), s.calls[c]);
  }

  /** Every event keeps the invariant and moves every row on. */
  lemma Step(s: System, e: Event)
    requires Inv(s) && Enabled(s, e)
    ensures Inv(Apply(s, e)) && TableMovedOn(s.users, Apply(s, e).users)
  {
    hide CallOk, TableMovedOn, WonSame;
    var s' := Apply(s, e);
    TablesMoveOn(s, e);
    WinnersStayUnique(s, e);
    if Caller(e).Some? { CallerOk(s, e); }
    assert s'.users.Keys <= s'.ids;
    hide Apply, Enabled;
    forall c | c in s'.calls ensures CallOk(s', s'.calls[c]) {
      if Caller(e) != Some(c) { OthersStay(s, e, c); }
    }
  }

  lemma {:induction false} RunInv(tr: seq<System>, es: seq<Event>, i: nat)
    requires Run(tr, es) && i < |tr|
    ensures Inv(tr[i])
  {
    if i > 0 {
      hide Inv, Init;
      RunInv(tr, es, i - 1);
      assert StepAt(tr, es, i - 1);
      Step(tr[i - 1], es[i - 1]);
    }
  }

  lemma StepOfRun(tr: seq<System>, es: seq<Event>, i: nat)
    requires Run(tr, es) && i < |es|
    ensures TableMovedOn(tr[i].users, tr[i + 1].users)
    ensures Inv(tr[i]) && Enabled(tr[i], es[i]) && tr[i + 1] == Apply(tr[i], es[i])
  {
    hide Inv, Init;
    RunInv(tr, es, i);
    assert StepAt(tr, es, i);
    Step(tr[i], es[i]);
  }

  // ---- Theorems ------------------------------------------------------------------------------

  /** Every step that changes role, status or deleted_at of a row raises its token_version,
      even when the decision to do so was taken from an old snapshot. */
  lemma ChangeOfStandingRaisesTokenVersion(tr: seq<System>, es: seq<Event>, i: nat, id: UserId)
    requires Run(tr, es) && i < |es| && id in tr[i].users && id in tr[i + 1].users
    requires tr[i].users[id].Standing() != tr[i + 1].users[id].Standing()
    ensures tr[i].users[id].tokenVersion < tr[i + 1].users[id].tokenVersion
  {
    hide Inv, Enabled, Apply;
    StepOfRun(tr, es, i);
  }

  /** A row seen at two moments: nothing fell, and equal counters mean an equal standing. */
  lemma {:induction false} RowsMoveOn(tr: seq<System>, es: seq<Event>, i: nat, j: nat, id: UserId)
    requires Run(tr, es) && i <= j < |tr| && id in tr[i].users && id in tr[j].users
    ensures MovedOn(tr[i].users[id], tr[j].users[id])
  {
    if i < j {
      hide Inv, Enabled, Apply, Init;
      StepOfRun(tr, es, j - 1);
      StaysKnown(tr, es, i, j - 1, id);
      RowWasThere(tr, es, j - 1, id);
      RowsMoveOn(tr, es, i, j - 1, id);
    }
  }

  lemma {:induction false} StaysKnown(tr: seq<System>, es: seq<Event>, i: nat, j: nat, id: UserId)
    requires Run(tr, es) && i <= j < |tr| && id in tr[i].users
    ensures id in tr[j].ids
  {
    hide Enabled, Apply, Init;
    if i == j {
      RunInv(tr, es, i);
    } else {
      StaysKnown(tr, es, i, j - 1, id);
      StepOfRun(tr, es, j - 1);
      TablesMoveOn(tr[j - 1], es[j - 1]);
    }
  }

  /** A known id is in the table now only if it was in it before: ids are never used again. */
  lemma RowWasThere(tr: seq<System>, es: seq<Event>, i: nat, id: UserId)
    requires Run(tr, es) && i < |es| && id in tr[i].ids && id in tr[i + 1].users
    ensures id in tr[i].users
  {
    hide Inv, Enabled, Apply, Init;
    StepOfRun(tr, es, i);
    TablesMoveOn(tr[i], es[i]);
  }

  /** An access token minted from a row and accepted later speaks for the row as it is now:
      role, status and deletion are what they were when the token was minted. */
  lemma AcceptedTokenIsCurrent(tr: seq<System>, es: seq<Event>, i: nat, j: nat, id: UserId)
    requires Run(tr, es) && i <= j < |tr| && id in tr[i].users
    requires Accepts(tr[j].users, Mint(tr[i].users, id))
    ensures tr[j].users[id].Standing() == tr[i].users[id].Standing()
  {
    RowsMoveOn(tr, es, i, j, id);
  }

  /** A token minted before a change of standing is rejected for the rest of the run, even if
      the change is undone later. */
  lemma ChangedUserRejectsOldTokensForEver(tr: seq<System>, es: seq<Event>, i: nat, k: nat, j: nat, id: UserId)
    requires Run(tr, es) && i <= k < j < |tr|
    requires id in tr[i].users && id in tr[k].users && id in tr[k + 1].users
    requires tr[k].users[id].Standing() != tr[k + 1].users[id].Standing()
    ensures !Accepts(tr[j].users, Mint(tr[i].users, id))
  {
    hide Inv, Enabled, Apply;
    if id in tr[j].users {
      RowsMoveOn(tr, es, i, k, id);
      StepOfRun(tr, es, k);
      RowsMoveOn(tr, es, k + 1, j, id);
    }
  }

  /** At most one PATCH succeeds against any one version of a user. */
  lemma OnePatchPerVersion(tr: seq<System>, es: seq<Event>, i: nat, c: CallId, d: CallId, id: UserId, v: int)
    requires Run(tr, es) && i < |tr| && c in tr[i].calls && d in tr[i].calls
    requires tr[i].calls[c].pc == Finished(Patched(id, v)) && tr[i].calls[d].pc == Finished(Patched(id, v))
    ensures c == d
  {
    RunInv(tr, es, i);
    assert WonSame(tr[i].calls[c], tr[i].calls[d]);
  }

  /** A PATCH writes role and status from its snapshot, and yet changes only what was asked for. */
  lemma PatchChangesOnlyWhatWasAsked(tr: seq<System>, es: seq<Event>, i: nat)
    requires Run(tr, es) && i < |es| && es[i].PatchWrite?
    requires es[i].c in tr[i].calls
    requires var pc := tr[i].calls[es[i].c].pc; pc.PatchWriting? && PatchHits(tr[i].users, pc.id, pc.seen.version)
    ensures var pc := tr[i].calls[es[i].c].pc;
      pc.id in tr[i + 1].users &&
      var before, after := tr[i].users[pc.id], tr[i + 1].users[pc.id];
      && (pc.patch.role.None? ==> after.role == before.role)
      && (pc.patch.status.None? ==> after.status == before.status)
      && after.deletedAt == before.deletedAt && after.passwordHash == before.passwordHash
  {
    RunInv(tr, es, i);
    assert StepAt(tr, es, i);
    assert CallOk(tr[i], tr[i].calls[es[i].c]);
  }

  /** Tokens minted before `revoke_group_admin` began are rejected once it has reported success. */
  lemma RevokedGrantRejectsOldTokens(tr: seq<System>, es: seq<Event>, i: nat, c: CallId, u: UserId, g: GroupId)
    requires Run(tr, es) && i < |tr| && c in tr[i].calls && tr[i].calls[c].pc == Finished(GrantRevoked(u, g))
    requires u in tr[i].calls[c].start
    ensures !Accepts(tr[i].users, Mint(tr[i].calls[c].start, u))
  {
    RunInv(tr, es, i);
    assert CallOk(tr[i], tr[i].calls[c]);
  }

  /** The same for a password change. */
  lemma ChangedPasswordRejectsOldTokens(tr: seq<System>, es: seq<Event>, i: nat, c: CallId, u: UserId, rotated: bool)
    requires Run(tr, es) && i < |tr| && c in tr[i].calls && tr[i].calls[c].pc == Finished(PasswordChanged(u, rotated))
    requires u in tr[i].calls[c].start
    ensures !Accepts(tr[i].users, Mint(tr[i].calls[c].start, u))
  {
    RunInv(tr, es, i);
    assert CallOk(tr[i], tr[i].calls[c]);
  }

  /** A call remembers the users of some moment after which it was not there yet. */
  lemma {:induction false} StartOf(tr: seq<System>, es: seq<Event>, i: nat, j: nat, c: CallId) returns (k: nat)
    requires Run(tr, es) && i <= j < |tr| && c !in tr[i].calls && c in tr[j].calls
    ensures i <= k <= j && tr[k].users == tr[j].calls[c].start
    decreases j
  {
    hide Init;
    assert StepAt(tr, es, j - 1);
    if c in tr[j - 1].calls {
      k := StartOf(tr, es, i, j - 1, c);
    } else {
      k := j - 1;
    }
  }

  /** A call whose bump is behind it has raised the token_version over what it was at any moment
      before the call began. */
  lemma BumpIsSinceBefore(tr: seq<System>, es: seq<Event>, i: nat, c: CallId, u: UserId)
    requires Run(tr, es) && i <= |es| && c !in tr[i].calls && c in tr[|es|].calls
    requires var pc := tr[|es|].calls[c].pc;
      pc.Finished? && (pc.outcome.PasswordChanged? || pc.outcome.GrantRevoked?) && pc.outcome.user == u
    requires u in tr[i].users && u in tr[|es|].users
    ensures tr[i].users[u].tokenVersion < tr[|es|].users[u].tokenVersion
  {
    hide Run, Enabled, Apply, Init;
    var j := |es|;
    RunLength(tr, es);
    var k := StartOf(tr, es, i, j, c);
    WasThereBetween(tr, es, i, k, j, u);
    RowsMoveOn(tr, es, i, k, u);
    RunInv(tr, es, j);
    assert CallOk(tr[j], tr[j].calls[c]);
  }

  lemma {:induction false} WasThereBetween(tr: seq<System>, es: seq<Event>, i: nat, k: nat, j: nat, u: UserId)
    requires Run(tr, es) && i <= k <= j < |tr| && u in tr[i].users && u in tr[j].users
    ensures u in tr[k].users
    decreases j
  {
    hide Run, Enabled, Apply, Init, StepAt;
    if k < j {
      StaysKnown(tr, es, i, j - 1, u);
      RunLength(tr, es);
      RowWasThere(tr, es, j - 1, u);
      WasThereBetween(tr, es, i, k, j - 1, u);
    }
  }

  lemma RunLength(tr: seq<System>, es: seq<Event>)
    requires Run(tr, es)
    ensures |tr| == |es| + 1
  {}

  /** Whether this event is a statement that raises the token_version of `id` and takes effect. */
  predicate Raises(s: System, e: Event, id: UserId)
    requires Enabled(s, e)
  {
    match e
    case PatchWrite(c, io) =>
      var PatchWriting(target, patch, seen) := s.calls[c].pc;
      io.Took() && target == id && PatchHits(s.users, id, seen.version) && BumpFlag(patch, seen)
    case Delete(target, _, io) => io.Took() && target == id && id in s.users && s.users[id].deletedAt.None?
    case GrantBump(c, io) => io.Took() && s.calls[c].pc.user == id
    case PasswordBump(c, io) => io.Took() && s.calls[c].pc.user == id
    case ReuseBump(target, io) => io.Took() && target == id
    case ReconcileRole(target, _, io) => io.Took() && target == id && id in s.users && s.users[id].deletedAt.None?
    case _ => false
  }

  ghost function RaisesBetween(tr: seq<System>, es: seq<Event>, i: nat, j: nat, id: UserId): nat
    requires Run(tr, es) && i <= j <= |es|
  {
    if i == j then 0 else
    assert StepAt(tr, es, j - 1);
    RaisesBetween(tr, es, i, j - 1, id) + if Raises(tr[j - 1], es[j - 1], id) then 1 else 0
  }

  /** No bump is lost, whoever else wrote in between: token_version grows by exactly the number
      of raising statements that took effect. */
  lemma {:induction false} NoBumpIsLost(tr: seq<System>, es: seq<Event>, i: nat, j: nat, id: UserId)
    requires Run(tr, es) && i <= j <= |es| && id in tr[i].users && id in tr[j].users
    ensures tr[j].users[id].tokenVersion == tr[i].users[id].tokenVersion + RaisesBetween(tr, es, i, j, id)
  {
    if i < j {
      StaysKnown(tr, es, i, j - 1, id);
      RowWasThere(tr, es, j - 1, id);
      NoBumpIsLost(tr, es, i, j - 1, id);
      assert StepAt(tr, es, j - 1);
    }
  }
}
