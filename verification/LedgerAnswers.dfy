/**
 * When each handler of the ledger accepts its request, what it answers otherwise, and what it
 * stores: every condition and every column written out in the rows of the books.
 */
module LedgerAnswers {
  import opened Prelude
  import opened Ledger

  /** The table is what it was but for the row of `id`. */
  ghost predicate OnlyRow<T>(before: map<Id, T>, after: map<Id, T>, id: Id) {
    id in after && after.Keys == before.Keys + {id} && forall x :: x in before && x != id ==> after[x] == before[x]
  }

  predicate InScope(actor: Actor, group: Id) {
    actor.role.SuperAdmin? || (actor.role.Admin? && group in actor.grants)
  }

  /** Who may act on a record, of the group if the record is there. */
  predicate MayActOn(actor: Actor, group: Option<Id>) {
    if group.Some? then InScope(actor, group.value) else actor.role.SuperAdmin?
  }

  lemma GateAnswers(actor: Actor, group: Option<Id>)
    ensures Gate(actor, group) == Done <==> group.Some? && MayActOn(actor, group)
    ensures Gate(actor, group) == Forbidden <==> !MayActOn(actor, group)
    ensures Gate(actor, group) == NotFound <==> group.None? && MayActOn(actor, group)
  {}

  /** `Trim(s)` is what is left of `s` between white space. */
  lemma TrimIsTheMiddle(s: string) returns (a: string, z: string)
    ensures s == a + Trim(s) + z
    ensures (forall i :: 0 <= i < |a| ==> IsWhitespace(a[i])) && (forall i :: 0 <= i < |z| ==> IsWhitespace(z[i]))
    ensures var t := Trim(s); t != "" ==> !IsWhitespace(t[0]) && !IsWhitespace(t[|t| - 1])
  {
    hide TrimStart, TrimEnd, IsWhitespace;
    var t := TrimStart(s);
    var r := TrimEnd(t);
    a, z := s[..|s| - |t|], t[|r|..];
    assert s == a + t && t == r + z;
    assert forall i :: 0 <= i < |a| ==> a[i] == s[i];
    assert forall i :: 0 <= i < |z| ==> z[i] == t[|r| + i];
    if r != "" { assert r[0] == t[0]; }
  }

  lemma {:induction false} Utf8OfTwo(s: string, t: string)
    ensures Utf8Length(s + t) == Utf8Length(s) + Utf8Length(t)
  {
    if s == "" {
      assert s + t == t;
    } else {
      Utf8OfTwo(s[1..], t);
      assert (s + t)[1..] == s[1..] + t;
    }
  }

  lemma Utf8OfOne(c: char)
    ensures Utf8Length([c]) ==
      var code := c as int;
      1 + (if code >= 0x80 then 1 else 0) + (if code >= 0x800 then 1 else 0) + (if code >= 0x10000 then 1 else 0)
  {
    assert [c][1..] == "";
  }

  // ---- Groups ----------------------------------------------------------------------------------------

  lemma CreateGroupAnswers(b: Books, actor: Actor, id: Id, name: string, description: Option<string>)
    requires id !in b.groups
    ensures var (b', reply) := CreateGroup(b, actor, id, name, description);
      var good := 0 < Utf8Length(Trim(name)) <= 100;
      && (reply == Done <==> actor.role.SuperAdmin? && good)
      && (reply == Forbidden <==> !actor.role.SuperAdmin?)
      && (reply == BadRequest <==> actor.role.SuperAdmin? && !good)
      && (reply == Done ==>
            && OnlyRow(b.groups, b'.groups, id) && b' == b.(groups := b'.groups)
            && b'.groups[id] == Group(Trim(name), GroupActive, description, None, 1))
  {
    hide Trim, Utf8Length;
  }

  predicate GoodGroupPatch(patch: GroupPatch) {
    && (patch.name.Some? ==> 0 < Utf8Length(Trim(patch.name.value)) <= 100)
    && (patch.status.Some? ==> patch.status.value != Unreadable)
  }

  lemma UpdateGroupAnswers(b: Books, actor: Actor, id: Id, patch: GroupPatch)
    ensures var (b', reply) := UpdateGroup(b, actor, id, patch);
      && (reply == Done <==>
            && actor.role.SuperAdmin? && GoodGroupPatch(patch)
            && id in b.groups && b.groups[id].version == patch.version)
      && (reply == Forbidden <==> !actor.role.SuperAdmin?)
      && (reply == BadRequest <==> actor.role.SuperAdmin? && !GoodGroupPatch(patch))
      && (reply == NotFound <==> actor.role.SuperAdmin? && GoodGroupPatch(patch) && id !in b.groups)
      && (reply == Done ==>
            && OnlyRow(b.groups, b'.groups, id) && b' == b.(groups := b'.groups)
            && var row, row' := b.groups[id], b'.groups[id];
               && row'.name == (if patch.name.Some? then Trim(patch.name.value) else row.name)
               && (patch.status.Some? ==> patch.status == Some(Reads(row'.status)))
               && (patch.status.None? ==> row'.status == row.status)
               && row'.description == (if patch.description.Some? then patch.description else row.description)
               && row'.deletedAt == row.deletedAt && row'.version == row.version + 1)
  {
    hide Trim, Utf8Length;
  }

  lemma DeleteGroupAnswers(b: Books, actor: Actor, id: Id, now: Time)
    ensures var (b', reply) := DeleteGroup(b, actor, id, now);
      var inUse := (exists m :: m in b.members && b.members[m].group == id && b.members[m].deletedAt.None?)
                   || (exists c :: c in b.cycles && b.cycles[c].group == id);
      && (reply == Done <==> actor.role.SuperAdmin? && id in b.groups && !inUse)
      && (reply == Forbidden <==> !actor.role.SuperAdmin?)
      && (reply == NotFound <==> actor.role.SuperAdmin? && id !in b.groups)
      && (reply == Conflict <==> actor.role.SuperAdmin? && id in b.groups && inUse)
      && (reply == Done ==>
            && OnlyRow(b.groups, b'.groups, id) && b' == b.(groups := b'.groups)
            && var row := b.groups[id];
               b'.groups[id] == Group(row.name, row.status, row.description, Some(now), row.version + 1))
  {}

  // ---- Members ---------------------------------------------------------------------------------------

  /** A live member of the group, other than `except`, has the phone. */
  ghost predicate HasPhone(b: Books, group: Id, phone: string, except: Option<Id>) {
    exists m :: m in b.members && b.members[m].deletedAt.None? && b.members[m].group == group
                && b.members[m].phone == phone && except != Some(m)
  }

  lemma CreateMemberAnswers(b: Books, actor: Actor, id: Id, group: Id, n: NewMember)
    requires id !in b.members
    ensures var (b', reply) := CreateMember(b, actor, id, group, n);
      var good := Trim(n.name) != "" && Trim(n.phone) != "" && n.position > 0 && n.joinedAt != Some(Unreadable);
      var live := group in b.groups && b.groups[group].deletedAt.None?;
      && (reply == Done <==> InScope(actor, group) && good && live && !HasPhone(b, group, Trim(n.phone), None))
      && (reply == Forbidden <==> !InScope(actor, group))
      && (reply == BadRequest <==> InScope(actor, group) && !good)
      && (reply == NotFound <==> InScope(actor, group) && good && !live)
      && (reply == Done ==>
            && OnlyRow(b.members, b'.members, id) && b' == b.(members := b'.members)
            && b'.members[id] == Member(Trim(n.name), Trim(n.phone), n.position, Active, n.notes, n.joinedAt, group,
                                        None, 1))
  {
    hide Trim;
  }

  predicate GoodMemberPatch(patch: MemberPatch) {
    && (patch.name.Some? ==> Trim(patch.name.value) != "") && (patch.phone.Some? ==> Trim(patch.phone.value) != "")
    && (patch.position.Some? ==> patch.position.value > 0)
    && patch.status != Some(Unreadable) && patch.joinedAt != Some(Unreadable)
  }

  lemma UpdateMemberAnswers(b: Books, actor: Actor, id: Id, patch: MemberPatch)
    ensures var (b', reply) := UpdateMember(b, actor, id, patch);
      var good, there := GoodMemberPatch(patch), id in b.members;
      var may := MayActOn(actor, if there then Some(b.members[id].group) else None);
      && (reply == Done <==>
            && good && there && may && b.members[id].version == patch.version
            && !(patch.phone.Some? && HasPhone(b, b.members[id].group, Trim(patch.phone.value), Some(id))))
      && (reply == BadRequest <==> !good)
      && (reply == Forbidden <==> good && !may)
      && (reply == NotFound <==> good && may && !there)
      && (reply == Done ==>
            && OnlyRow(b.members, b'.members, id) && b' == b.(members := b'.members)
            && var row, row' := b.members[id], b'.members[id];
               && row'.name == (if patch.name.Some? then Trim(patch.name.value) else row.name)
               && row'.phone == (if patch.phone.Some? then Trim(patch.phone.value) else row.phone)
               && row'.position == (if patch.position.Some? then patch.position.value else row.position)
               && (patch.status.Some? ==> patch.status == Some(Reads(row'.status)))
               && (patch.status.None? ==> row'.status == row.status)
               && row'.notes == (if patch.notes.Some? then patch.notes else row.notes)
               && row'.joinedAt == (if patch.joinedAt.Some? then patch.joinedAt else row.joinedAt)
               && row'.group == row.group && row'.deletedAt == row.deletedAt && row'.version == row.version + 1)
  {
    GateAnswers(actor, GroupOf(b, id));
    hide Trim, Gate, MayActOn;
  }

  lemma DeleteMemberAnswers(b: Books, actor: Actor, id: Id, now: Time)
    ensures var (b', reply) := DeleteMember(b, actor, id, now);
      var there := id in b.members;
      var may := MayActOn(actor, if there then Some(b.members[id].group) else None);
      var receives := exists c :: c in b.cycles && b.cycles[c].recipient == id && b.cycles[c].status.CycleActive?;
      && (reply == Done <==> there && may && !receives)
      && (reply == Forbidden <==> !may) && (reply == NotFound <==> may && !there)
      && (reply == Conflict <==> there && may && receives)
      && (reply == Done ==>
            && OnlyRow(b.members, b'.members, id) && b' == b.(members := b'.members)
            && var row := b.members[id];
               b'.members[id] == Member(row.name, row.phone, row.position, row.status, row.notes, row.joinedAt,
                                        row.group, Some(now), row.version + 1))
  {
    GateAnswers(actor, GroupOf(b, id));
    hide Gate, MayActOn;
  }

  // ---- Cycles ----------------------------------------------------------------------------------------

  /** An i64 that differs from contribution times active live members by a multiple of 2^64. */
  predicate IsTotal(b: Books, group: Id, contribution: int, total: int) {
    var n := |set m | m in b.members && b.members[m].group == group && b.members[m].status == Active
                      && b.members[m].deletedAt == None|;
    && -0x8000_0000_0000_0000 <= total <= 0x7FFF_FFFF_FFFF_FFFF
    && (total - contribution * n) % 0x1_0000_0000_0000_0000 == 0
  }

  lemma TotalIs(b: Books, group: Id, contribution: int)
    ensures IsTotal(b, group, contribution, TotalAmount(b, group, contribution))
  {
    var active := set m | m in b.members && b.members[m].group == group && b.members[m].status == Active
                          && b.members[m].deletedAt == None;
    assert active == ActiveMembers(b, group);
    Wraps(contribution * |active|);
  }

  lemma Wraps(x: int)
    ensures -0x8000_0000_0000_0000 <= WrapI64(x) <= 0x7FFF_FFFF_FFFF_FFFF
    ensures (WrapI64(x) - x) % 0x1_0000_0000_0000_0000 == 0
  {
    assert x + TWO_63 == (x + TWO_63) / TWO_64 * TWO_64 + (x + TWO_63) % TWO_64;
    assert WrapI64(x) - x == -((x + TWO_63) / TWO_64) * TWO_64;
  }

  /** A member that may receive the money of a cycle of the group. */
  predicate CanReceive(b: Books, m: Id, group: Id) {
    m in b.members && b.members[m].deletedAt.None? && b.members[m].group == group
  }

  lemma CreateCycleAnswers(b: Books, actor: Actor, id: Id, group: Id, n: NewCycle)
    requires id !in b.cycles
    ensures var (b', reply) := CreateCycle(b, actor, id, group, n);
      var good := n.number > 0 && n.contribution > 0 && n.start.Reads? && n.end.Reads? && n.start.value <= n.end.value;
      var live := group in b.groups && b.groups[group].deletedAt.None?;
      && (reply == Done <==> InScope(actor, group) && good && live && CanReceive(b, n.recipient, group))
      && (reply == Forbidden <==> !InScope(actor, group))
      && (reply == NotFound <==> InScope(actor, group) && good && (!live || n.recipient !in b.members))
      && reply != Conflict
      && (reply == Done ==>
            && OnlyRow(b.cycles, b'.cycles, id) && b' == b.(cycles := b'.cycles)
            && IsTotal(b, group, n.contribution, b'.cycles[id].total)
            && b'.cycles[id] == Cycle(n.number, n.start, n.end, n.contribution, b'.cycles[id].total, n.recipient,
                                      CyclePending, n.notes, group, 1))
  {
    TotalIs(b, group, n.contribution);
    hide IsTotal, TotalAmount;
  }

  predicate GoodCyclePatch(patch: CyclePatch) {
    && patch.start != Some(Unreadable) && patch.end != Some(Unreadable) && patch.status != Some(Unreadable)
    && (patch.contribution.Some? ==> patch.contribution.value > 0)
    && (patch.start.Some? && patch.start.value.Reads? && patch.end.Some? && patch.end.value.Reads? ==>
          patch.start.value.value <= patch.end.value.value)
  }

  lemma UpdateCycleAnswers(b: Books, actor: Actor, id: Id, patch: CyclePatch)
    ensures var (b', reply) := UpdateCycle(b, actor, id, patch);
      var good, there := GoodCyclePatch(patch), id in b.cycles;
      var may := MayActOn(actor, if there then Some(b.cycles[id].group) else None);
      var current := there && b.cycles[id].version == patch.version;
      && (reply == Done <==>
            && good && may && current
            && (patch.recipient.Some? ==> CanReceive(b, patch.recipient.value, b.cycles[id].group)))
      && (reply == Forbidden <==> good && !may)
      && (reply == Conflict <==> good && may && there && !current)
      && (reply == NotFound <==>
            good && may && (!there || (current && patch.recipient.Some? && patch.recipient.value !in b.members)))
      && (reply == Done ==> OnlyRow(b.cycles, b'.cycles, id) && b' == b.(cycles := b'.cycles)
                            && CycleIsPatched(b, patch, b.cycles[id], b'.cycles[id]))
  {
    GateAnswers(actor, GroupOfCycle(b, id));
    hide Gate, MayActOn, TotalAmount, CycleIsPatched, IsTotal;
    var (b', reply) := UpdateCycle(b, actor, id, patch);
    if reply == Done { CycleColumns(b, actor, id, patch); }
  }

  ghost predicate CycleIsPatched(b: Books, patch: CyclePatch, row: Cycle, row': Cycle) {
    && row'.number == row.number && row'.group == row.group && row'.version == row.version + 1
    && row'.start == (if patch.start.Some? then patch.start.value else row.start)
    && row'.end == (if patch.end.Some? then patch.end.value else row.end)
    && row'.recipient == (if patch.recipient.Some? then patch.recipient.value else row.recipient)
    && (patch.status.Some? ==> patch.status == Some(Reads(row'.status)))
    && (patch.status.None? ==> row'.status == row.status)
    && row'.notes == (if patch.notes.Some? then patch.notes else row.notes)
    && (patch.contribution.None? ==> row'.contribution == row.contribution && row'.total == row.total)
    && (patch.contribution.Some? ==>
          row'.contribution == patch.contribution.value && IsTotal(b, row.group, patch.contribution.value, row'.total))
  }

  lemma CycleColumns(b: Books, actor: Actor, id: Id, patch: CyclePatch)
    requires UpdateCycle(b, actor, id, patch).1 == Done
    ensures id in b.cycles && id in UpdateCycle(b, actor, id, patch).0.cycles
    ensures CycleIsPatched(b, patch, b.cycles[id], UpdateCycle(b, actor, id, patch).0.cycles[id])
  {
    hide TotalAmount, IsTotal, RecipientCheck;
    if patch.contribution.Some? { TotalIs(b, b.cycles[id].group, patch.contribution.value); }
  }

  lemma DeleteCycleAnswers(b: Books, actor: Actor, id: Id)
    ensures var (b', reply) := DeleteCycle(b, actor, id);
      var there := id in b.cycles;
      var may := MayActOn(actor, if there then Some(b.cycles[id].group) else None);
      var paid := exists p :: p in b.payments && b.payments[p].cycle == id && b.payments[p].deletedAt.None?;
      && (reply == Done <==> there && may && !paid)
      && (reply == Forbidden <==> !may) && (reply == NotFound <==> may && !there)
      && (reply == Conflict <==> there && may && paid)
      && (reply == Done ==>
            && b' == b.(cycles := b'.cycles) && b'.cycles.Keys == b.cycles.Keys - {id}
            && forall c :: c in b'.cycles ==> b'.cycles[c] == b.cycles[c])
  {
    GateAnswers(actor, GroupOfCycle(b, id));
    hide Gate, MayActOn;
  }

  // ---- Payments --------------------------------------------------------------------------------------

  lemma CreatePaymentAnswers(b: Books, actor: Actor, id: Id, pay: NewPayment)
    requires id !in b.payments
    ensures var (b', reply) := CreatePayment(b, actor, id, pay);
      var good := pay.amount > 0 && pay.currency != Unreadable && pay.date != Unreadable;
      var there := pay.member in b.members;
      var may := MayActOn(actor, if there then Some(b.members[pay.member].group) else None);
      var live := there && b.members[pay.member].deletedAt.None?;
      && (reply == Done <==>
            && good && may && live
            && pay.cycle in b.cycles && b.cycles[pay.cycle].group == b.members[pay.member].group)
      && (reply == Forbidden <==> good && !may)
      && (reply == NotFound <==> good && may && (!there || (live && pay.cycle !in b.cycles)))
      && reply != Conflict
      && (reply == Done ==>
            && OnlyRow(b.payments, b'.payments, id) && b' == b.(payments := b'.payments)
            && b'.payments[id] == Payment(pay.member, pay.cycle, pay.amount, Reads(Naira), pay.date,
                                          None, None, None, None, None))
  {
    GateAnswers(actor, GroupOf(b, pay.member));
    hide Gate, MayActOn;
    if pay.currency.Reads? { assert pay.currency.value == Naira; }
  }

  /** Every live payment of the pair gets the mark, and no other row changes. */
  lemma DeletePaymentAnswers(b: Books, actor: Actor, member: Id, cycle: Id, now: Time)
    ensures var (b', reply) := DeletePayment(b, actor, member, cycle, now);
      var there := cycle in b.cycles;
      var may := MayActOn(actor, if there then Some(b.cycles[cycle].group) else None);
      var hits := set p | p in b.payments && b.payments[p].deletedAt.None?
                          && b.payments[p].member == member && b.payments[p].cycle == cycle;
      && (reply == Done <==> there && may && hits != {})
      && (reply == Forbidden <==> !may)
      && (reply == NotFound <==> may && (!there || hits == {}))
      && (reply == Done ==>
            && b' == b.(payments := b'.payments) && b'.payments.Keys == b.payments.Keys
            && forall p :: p in b.payments ==>
                 b'.payments[p] == if p in hits
                                   then b.payments[p].(deletedAt := Some(now), deletedBy := Some(actor.user))
                                   else b.payments[p])
  {
    GateAnswers(actor, GroupOfCycle(b, cycle));
    hide Gate, MayActOn;
    var hits := set p | p in b.payments && b.payments[p].deletedAt.None?
                        && b.payments[p].member == member && b.payments[p].cycle == cycle;
    assert forall p :: p in hits <==> p in b.payments && PaymentFor(b, p, member, cycle);
    if p :| p in b.payments && PaymentFor(b, p, member, cycle) { assert p in hits; }
  }

  // ---- Receipts --------------------------------------------------------------------------------------

  /** The receipt is there, not deleted, and the caller may administer its group. */
  predicate MayHandle(b: Books, actor: Actor, id: Id) {
    id in b.receipts && b.receipts[id].deletedAt.None? && InScope(actor, b.receipts[id].group)
  }

  /** What a receipt needs to be confirmed. */
  ghost predicate CanBeConfirmed(b: Books, r: Receipt) {
    && r.status == Pending && r.member.Some? && r.cycle.Some? && r.amount.Some?
    && r.member.value in b.members && b.members[r.member.value].deletedAt.None?
    && r.cycle.value in b.cycles && b.cycles[r.cycle.value].group == b.members[r.member.value].group
    && (forall p :: p in b.payments && b.payments[p].deletedAt.None? ==>
          !(b.payments[p].member == r.member.value && b.payments[p].cycle == r.cycle.value))
    && (if r.ingestedAt.Some? then r.ingestedAt != Some(Unreadable) else r.createdAt != Unreadable)
  }

  lemma ConfirmAnswers(b: Books, actor: Actor, id: Id, payment: Id)
    requires payment !in b.payments
    ensures var (b', reply) := ConfirmReceipt(b, actor, id, payment);
      var there := id in b.receipts && b.receipts[id].deletedAt.None?;
      && (reply == Done <==> MayHandle(b, actor, id) && CanBeConfirmed(b, b.receipts[id]))
      && (reply == Conflict <==> MayHandle(b, actor, id) && !CanBeConfirmed(b, b.receipts[id]))
      && (reply == NotFound <==> actor.role.SuperAdmin? && !there)
      && reply != BadRequest
      && (reply == Done ==>
            && b' == b.(payments := b'.payments, receipts := b'.receipts)
            && OnlyRow(b.payments, b'.payments, payment) && OnlyRow(b.receipts, b'.receipts, id)
            && PaymentIsOf(b.receipts[id], actor, b'.payments[payment])
            && b'.receipts[id] == b.receipts[id].(status := Confirmed, confirmedBy := Some(actor.user)))
  {
    GateAnswers(actor, GroupOfReceipt(b, id));
    hide Gate;
  }

  /** A payment with the data of the receipt, dated by the server's own stamp. */
  predicate PaymentIsOf(r: Receipt, actor: Actor, p: Payment) {
    && r.member == Some(p.member) && r.cycle == Some(p.cycle) && r.amount == Some(p.amount)
    && p.currency == Reads(Naira) && p.date == (if r.ingestedAt.Some? then r.ingestedAt.value else r.createdAt)
    && p.paidBy == Some(WhatsappReceipt) && p.reference == Some(r.messageId) && p.confirmedBy == Some(actor.user)
    && p.deletedAt == None && p.deletedBy == None
  }

  lemma TransitionAnswers(b: Books, actor: Actor, id: Id, target: ReceiptStatus, reason: Option<string>)
    requires target.Rejected? || target.Flagged?
    ensures var (b', reply) := TransitionReceipt(b, actor, id, target, reason);
      var there := id in b.receipts && b.receipts[id].deletedAt.None?;
      && (reply == Done <==> MayHandle(b, actor, id) && b.receipts[id].status == Pending)
      && (reply == Conflict <==> MayHandle(b, actor, id) && b.receipts[id].status != Pending)
      && (reply == NotFound <==> actor.role.SuperAdmin? && !there)
      && reply != BadRequest
      && (reply == Done ==>
            && OnlyRow(b.receipts, b'.receipts, id) && b' == b.(receipts := b'.receipts)
            && var r, r' := b.receipts[id], b'.receipts[id];
               && r'.status == target && r'.reason == (if reason.Some? then reason else r.reason)
               && r'.rejectedBy == (if target == Rejected then Some(actor.user) else r.rejectedBy)
               && r' == r.(status := r'.status, reason := r'.reason, rejectedBy := r'.rejectedBy))
  {
    GateAnswers(actor, GroupOfReceipt(b, id));
    hide Gate;
  }

  lemma InsertReceiptAnswers(b: Books, id: Id, r: Receipt)
    requires r.status.Pending? && id !in b.receipts
    ensures var (b', reply) := InsertReceipt(b, id, r);
      var taken := exists x :: x in b.receipts && b.receipts[x].messageId == r.messageId;
      && (reply == Done <==> !taken) && (reply == Conflict <==> taken)
      && (reply == Done ==>
            OnlyRow(b.receipts, b'.receipts, id) && b' == b.(receipts := b'.receipts) && b'.receipts[id] == r)
  {}

  // ---- Chat links ------------------------------------------------------------------------------------

  lemma CreateLinkAnswers(b: Books, actor: Actor, id: Id, chat: string, group: Id)
    requires id !in b.links
    ensures var (b', reply) := CreateLink(b, actor, id, chat, group);
      var super, good := actor.role.SuperAdmin?, Trim(chat) != "";
      var live := group in b.groups && b.groups[group].deletedAt.None?;
      var taken := exists l :: l in b.links && b.links[l].chat == Trim(chat) && b.links[l].deletedAt.None?;
      && (reply == Done <==> super && good && live && !taken)
      && (reply == Forbidden <==> !super) && (reply == BadRequest <==> super && !good)
      && (reply == NotFound <==> super && good && !live) && (reply == Conflict <==> super && good && live && taken)
      && (reply == Done ==>
            && OnlyRow(b.links, b'.links, id) && b' == b.(links := b'.links)
            && b'.links[id] == Link(Trim(chat), group, None))
  {
    hide Trim;
  }

  lemma DeleteLinkAnswers(b: Books, actor: Actor, id: Id, now: Time)
    ensures var (b', reply) := DeleteLink(b, actor, id, now);
      && (reply == Done <==> actor.role.SuperAdmin? && id in b.links)
      && (reply == Forbidden <==> !actor.role.SuperAdmin?)
      && (reply == NotFound <==> actor.role.SuperAdmin? && id !in b.links)
      && (reply == Done ==>
            && OnlyRow(b.links, b'.links, id) && b' == b.(links := b'.links)
            && var l := b.links[id];
               b'.links[id] == Link(l.chat, l.group, if l.deletedAt.Some? then l.deletedAt else Some(now)))
  {}
}
