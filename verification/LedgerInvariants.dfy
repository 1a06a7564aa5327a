/** What every handler call keeps true of the books, call by call. */
module LedgerInvariants {
  import opened Prelude
  import opened Ledger

  // ---- Referential integrity -----------------------------------------------------------------------

  /** Every member's group exists, and a live member's group is not deleted. */
  ghost predicate MembersFit(groups: map<Id, Group>, members: map<Id, Member>) {
    forall m :: m in members ==>
      && members[m].group in groups
      && (members[m].deletedAt.None? ==> groups[members[m].group].deletedAt.None?)
  }

  /** A deleted group has no cycle, and a cycle's recipient belongs to the cycle's group. */
  ghost predicate CyclesFit(groups: map<Id, Group>, members: map<Id, Member>, cycles: map<Id, Cycle>) {
    forall c :: c in cycles ==>
      && cycles[c].group in groups && groups[cycles[c].group].deletedAt.None?
      && cycles[c].recipient in members && members[cycles[c].recipient].group == cycles[c].group
  }

  /** A live payment's member and cycle exist and share a group. */
  ghost predicate PaymentsFit(members: map<Id, Member>, cycles: map<Id, Cycle>, payments: map<Id, Payment>) {
    forall p :: p in payments && payments[p].deletedAt.None? ==>
      && payments[p].member in members && payments[p].cycle in cycles
      && members[payments[p].member].group == cycles[payments[p].cycle].group
  }

  ghost predicate LinksFit(groups: map<Id, Group>, links: map<Id, Link>) {
    forall l :: l in links ==> links[l].group in groups
  }

  /** A receipt's member belongs to the receipt's group. */
  ghost predicate ReceiptsFit(members: map<Id, Member>, receipts: map<Id, Receipt>) {
    forall r :: r in receipts && receipts[r].member.Some? ==>
      && receipts[r].member.value in members
      && members[receipts[r].member.value].group == receipts[r].group
  }

  ghost predicate PhonesUnique(members: map<Id, Member>) {
    forall m, n | m in members && n in members && members[m].deletedAt.None? && members[n].deletedAt.None?
      :: members[m].group == members[n].group && members[m].phone == members[n].phone ==> m == n
  }

  ghost predicate ChatsUnique(links: map<Id, Link>) {
    forall l, k | l in links && k in links && links[l].deletedAt.None? && links[k].deletedAt.None?
      :: links[l].chat == links[k].chat ==> l == k
  }

  ghost predicate Referential(b: Books) {
    && MembersFit(b.groups, b.members)
    && CyclesFit(b.groups, b.members, b.cycles)
    && PaymentsFit(b.members, b.cycles, b.payments)
    && LinksFit(b.groups, b.links)
    && ReceiptsFit(b.members, b.receipts)
    && PhonesUnique(b.members)
    && ChatsUnique(b.links)
  }

  // ---- Conservation --------------------------------------------------------------------------------

  /** The payment was made from the receipt: same message, member, cycle and amount. */
  predicate Matches(p: Payment, r: Receipt) {
    && p.paidBy == Some(WhatsappReceipt) && r.status.Confirmed?
    && p.reference == Some(r.messageId) && r.member == Some(p.member) && r.cycle == Some(p.cycle)
    && r.amount == Some(p.amount)
  }

  ghost predicate MessagesUnique(receipts: map<Id, Receipt>) {
    forall r, s :: r in receipts && s in receipts && receipts[r].messageId == receipts[s].messageId ==> r == s
  }

  /** No two payments, live or deleted, were made from one message. */
  ghost predicate ReferencesUnique(payments: map<Id, Payment>) {
    forall p, q | p in payments && q in payments && payments[p].paidBy.Some? && payments[q].paidBy.Some?
      :: payments[p].reference == payments[q].reference ==> p == q
  }

  ghost predicate PaymentsEarned(payments: map<Id, Payment>, receipts: map<Id, Receipt>) {
    forall p :: p in payments && payments[p].paidBy.Some? ==>
      exists r :: r in receipts && Matches(payments[p], receipts[r])
  }

  ghost predicate ReceiptsPaid(payments: map<Id, Payment>, receipts: map<Id, Receipt>) {
    forall r :: r in receipts && receipts[r].status.Confirmed? ==>
      exists p :: p in payments && Matches(payments[p], receipts[r])
  }

  ghost predicate Conserved(b: Books) {
    && MessagesUnique(b.receipts)
    && ReferencesUnique(b.payments)
    && PaymentsEarned(b.payments, b.receipts)
    && ReceiptsPaid(b.payments, b.receipts)
  }

  ghost predicate Inv(b: Books) {
    Referential(b) && Conserved(b)
  }

  /** A confirmed, rejected or flagged receipt keeps its status, message, member, cycle and amount. */
  ghost predicate ReceiptsSettled(b: Books, b': Books) {
    forall r :: r in b.receipts ==>
      && r in b'.receipts
      && b'.receipts[r].messageId == b.receipts[r].messageId && b'.receipts[r].group == b.receipts[r].group
      && b'.receipts[r].member == b.receipts[r].member && b'.receipts[r].cycle == b.receipts[r].cycle
      && b'.receipts[r].amount == b.receipts[r].amount
      && (!b.receipts[r].status.Pending? ==> b'.receipts[r] == b.receipts[r])
  }

  /** Equal but for the deletion marks. */
  predicate SameMoney(p: Payment, p': Payment) {
    p' == p.(deletedAt := p'.deletedAt, deletedBy := p'.deletedBy)
  }

  /** Money is never taken out of the books: a payment stays, with everything but its deletion marks. */
  ghost predicate PaymentsKept(b: Books, b': Books) {
    forall p :: p in b.payments ==>
      && p in b'.payments && SameMoney(b.payments[p], b'.payments[p])
      && (b.payments[p].deletedAt.Some? ==> b'.payments[p] == b.payments[p])
  }

  /** Conservation is about payments and receipts only. */
  lemma TablesDecide(b: Books, b': Books)
    requires Conserved(b) && b'.payments == b.payments && b'.receipts == b.receipts
    ensures Conserved(b')
  {
    hide MessagesUnique, ReferencesUnique, PaymentsEarned, ReceiptsPaid;
  }

  // ---- Group and link handlers ---------------------------------------------------------------------

  lemma GroupsChange(b: Books, id: Id, row: Group)
    requires Referential(b)
    requires
      || row.deletedAt.None?
      || id !in b.groups
      || b.groups[id].deletedAt.Some?
      || ((forall m :: m in b.members && b.members[m].group == id ==> b.members[m].deletedAt.Some?)
          && (forall c :: c in b.cycles ==> b.cycles[c].group != id))
    ensures Referential(b.(groups := b.groups[id := row]))
  {
    var groups := b.groups[id := row];
    assert MembersFit(groups, b.members);
    assert CyclesFit(groups, b.members, b.cycles);
    assert LinksFit(groups, b.links);
  }

  lemma DeleteGroupStep(b: Books, actor: Actor, id: Id, now: Time)
    requires Inv(b)
    ensures Inv(DeleteGroup(b, actor, id, now).0)
  {
    if DeleteGroup(b, actor, id, now).1 == Done {
      assert forall m :: m in b.members && b.members[m].group == id ==> b.members[m].deletedAt.Some?;
      assert forall c :: c in b.cycles ==> b.cycles[c].group != id;
      GroupsChange(b, id, b.groups[id].(deletedAt := Some(now), version := b.groups[id].version + 1));
    }
  }

  lemma OtherGroupStep(b: Books, actor: Actor, id: Id, name: string, description: Option<string>, patch: GroupPatch)
    requires Inv(b)
    ensures id !in b.groups ==> Inv(CreateGroup(b, actor, id, name, description).0)
    ensures Inv(UpdateGroup(b, actor, id, patch).0)
  {
    hide Trim, ValidName, Conserved, MembersFit, CyclesFit, PaymentsFit, LinksFit, ReceiptsFit, PhonesUnique,
         ChatsUnique;
    var b' := CreateGroup(b, actor, id, name, description).0;
    if id !in b.groups && CreateGroup(b, actor, id, name, description).1 == Done {
      GroupsChange(b, id, b'.groups[id]);
      TablesDecide(b, b');
    }
    var (b2, r) := UpdateGroup(b, actor, id, patch);
    if r == Done {
      GroupsChange(b, id, b2.groups[id]);
      TablesDecide(b, b2);
    }
  }

  lemma CreateLinkStep(b: Books, actor: Actor, id: Id, chat: string, group: Id)
    requires Inv(b) && id !in b.links
    ensures Inv(CreateLink(b, actor, id, chat, group).0)
  {
    hide MembersFit, CyclesFit, PaymentsFit, ReceiptsFit, PhonesUnique, Conserved, Trim, TrimStart, TrimEnd;
    var b' := CreateLink(b, actor, id, chat, group).0;
    assert LinksFit(b'.groups, b'.links) && ChatsUnique(b'.links);
    assert Conserved(b') by { TablesDecide(b, b'); }
  }

  lemma DeleteLinkStep(b: Books, actor: Actor, id: Id, now: Time)
    requires Inv(b)
    ensures Inv(DeleteLink(b, actor, id, now).0)
  {
    hide MembersFit, CyclesFit, PaymentsFit, ReceiptsFit, PhonesUnique, Conserved;
    var b' := DeleteLink(b, actor, id, now).0;
    assert LinksFit(b'.groups, b'.links) && ChatsUnique(b'.links);
    assert Conserved(b') by { TablesDecide(b, b'); }
  }

  // ---- Member handlers -----------------------------------------------------------------------------

  /** A member row may come, or change without changing its group or coming back to life. */
  lemma MembersChange(b: Books, id: Id, row: Member)
    requires Referential(b)
    requires LiveGroup(b, row.group) || (id in b.members && row.deletedAt.Some?)
    requires id in b.members ==> row.group == b.members[id].group
    requires row.deletedAt.None? ==> !PhoneTaken(b, row.group, row.phone, Some(id))
    ensures Referential(b.(members := b.members[id := row]))
  {
    var members := b.members[id := row];
    assert MembersFit(b.groups, members);
    assert CyclesFit(b.groups, members, b.cycles);
    assert PaymentsFit(members, b.cycles, b.payments);
    assert ReceiptsFit(members, b.receipts);
    assert PhonesUnique(members) by {
      forall m, n | m in members && n in members && members[m].deletedAt.None? && members[n].deletedAt.None?
                    && members[m].group == members[n].group && members[m].phone == members[n].phone
        ensures m == n
      {
        if m == id && n != id { assert LiveMember(b, n); }
        if n == id && m != id { assert LiveMember(b, m); }
      }
    }
  }

  lemma CreateMemberStep(b: Books, actor: Actor, id: Id, group: Id, member: NewMember)
    requires Inv(b) && id !in b.members
    ensures Inv(CreateMember(b, actor, id, group, member).0)
  {
    hide Trim, MembersFit, CyclesFit, PaymentsFit, LinksFit, ReceiptsFit, PhonesUnique, ChatsUnique, Conserved;
    var (b', r) := CreateMember(b, actor, id, group, member);
    if r == Done {
      assert !PhoneTaken(b, group, Trim(member.phone), Some(id));
      hide PhoneTaken;
      MembersChange(b, id, b'.members[id]);
      TablesDecide(b, b');
    }
  }

  /** A deleted member stays deleted. */
  ghost predicate NobodyRevived(members: map<Id, Member>, members': map<Id, Member>) {
    forall m :: m in members && members[m].deletedAt.Some? ==>
      m in members' && members'[m].deletedAt.Some? && members'[m].group == members[m].group
  }

  lemma UpdateMemberStep(b: Books, actor: Actor, id: Id, patch: MemberPatch)
    requires Inv(b)
    ensures Inv(UpdateMember(b, actor, id, patch).0)
    ensures NobodyRevived(b.members, UpdateMember(b, actor, id, patch).0.members)
  {
    hide Trim, MembersFit, CyclesFit, PaymentsFit, LinksFit, ReceiptsFit, ChatsUnique, Conserved;
    var (b', r) := UpdateMember(b, actor, id, patch);
    if r == Done {
      UpdatedPhoneIsFree(b, actor, id, patch);
      UpdatedGroupIsLive(b, id);
      hide PhoneTaken, PhonesUnique;
      MembersChange(b, id, b'.members[id]);
      TablesDecide(b, b');
    }
  }

  lemma UpdatedPhoneIsFree(b: Books, actor: Actor, id: Id, patch: MemberPatch)
    requires PhonesUnique(b.members) && UpdateMember(b, actor, id, patch).1 == Done
    ensures var row := UpdateMember(b, actor, id, patch).0.members[id];
      row.deletedAt.None? ==> !PhoneTaken(b, row.group, row.phone, Some(id))
  {
    hide Trim;
  }

  lemma UpdatedGroupIsLive(b: Books, id: Id)
    requires Referential(b) && id in b.members
    ensures LiveGroup(b, b.members[id].group) || b.members[id].deletedAt.Some?
  {
    hide CyclesFit, PaymentsFit, LinksFit, ReceiptsFit, PhonesUnique, ChatsUnique;
  }

  lemma DeleteMemberStep(b: Books, actor: Actor, id: Id, now: Time)
    requires Inv(b)
    ensures Inv(DeleteMember(b, actor, id, now).0)
  {
    var (b', r) := DeleteMember(b, actor, id, now);
    if r == Done { MembersChange(b, id, b'.members[id]); }
  }

  // ---- Cycle handlers ------------------------------------------------------------------------------

  lemma CycleStep(b: Books, id: Id, row: Cycle)
    requires Referential(b)
    requires LiveGroup(b, row.group) && row.recipient in b.members && b.members[row.recipient].group == row.group
    requires id in b.cycles ==> row.group == b.cycles[id].group
    ensures Referential(b.(cycles := b.cycles[id := row]))
  {
    assert CyclesFit(b.groups, b.members, b.cycles[id := row]);
    assert PaymentsFit(b.members, b.cycles[id := row], b.payments);
  }

  lemma CreateCycleStep(b: Books, actor: Actor, id: Id, group: Id, cycle: NewCycle)
    requires Inv(b) && id !in b.cycles
    ensures Inv(CreateCycle(b, actor, id, group, cycle).0)
  {
    hide Conserved, MembersFit, CyclesFit, PaymentsFit, LinksFit, ReceiptsFit, PhonesUnique, ChatsUnique, TotalAmount;
    var (b', r) := CreateCycle(b, actor, id, group, cycle);
    if r == Done {
      CycleStep(b, id, b'.cycles[id]);
      TablesDecide(b, b');
    }
  }

  lemma UpdateCycleStep(b: Books, actor: Actor, id: Id, patch: CyclePatch)
    requires Inv(b)
    ensures Inv(UpdateCycle(b, actor, id, patch).0)
  {
    hide Conserved, MembersFit, PaymentsFit, LinksFit, ReceiptsFit, PhonesUnique, ChatsUnique, TotalAmount;
    var (b', r) := UpdateCycle(b, actor, id, patch);
    if r == Done {
      CycleFits(b, id);
      hide CyclesFit;
      CycleStep(b, id, b'.cycles[id]);
      TablesDecide(b, b');
    }
  }

  lemma CycleFits(b: Books, id: Id)
    requires Referential(b) && id in b.cycles
    ensures LiveGroup(b, b.cycles[id].group)
    ensures b.cycles[id].recipient in b.members && b.members[b.cycles[id].recipient].group == b.cycles[id].group
  {
    hide MembersFit, PaymentsFit, LinksFit, ReceiptsFit, PhonesUnique, ChatsUnique;
  }

  lemma DeleteCycleStep(b: Books, actor: Actor, id: Id)
    requires Inv(b)
    ensures Inv(DeleteCycle(b, actor, id).0)
  {
    var (b', r) := DeleteCycle(b, actor, id);
    if r == Done {
      assert forall p :: p in b.payments && b.payments[p].cycle == id ==> !LivePayment(b, p);
      assert PaymentsFit(b'.members, b'.cycles, b'.payments);
      assert CyclesFit(b'.groups, b'.members, b'.cycles);
    }
  }

  // ---- Payment and receipt handlers ----------------------------------------------------------------

  lemma CreatePaymentStep(b: Books, actor: Actor, id: Id, pay: NewPayment)
    requires Inv(b) && id !in b.payments
    ensures Inv(CreatePayment(b, actor, id, pay).0)
  {
    hide MembersFit, CyclesFit, LinksFit, ReceiptsFit, PhonesUnique, ChatsUnique;
    var b' := CreatePayment(b, actor, id, pay).0;
    CreatedPaymentFits(b, actor, id, pay);
    hide PaymentsFit, Gate, GroupOf;
    MorePayments(b.payments, b'.payments, b.receipts);
  }

  lemma CreatedPaymentFits(b: Books, actor: Actor, id: Id, pay: NewPayment)
    requires PaymentsFit(b.members, b.cycles, b.payments) && id !in b.payments
    ensures var b' := CreatePayment(b, actor, id, pay).0; PaymentsFit(b'.members, b'.cycles, b'.payments)
  {}

  lemma DeletePaymentStep(b: Books, actor: Actor, member: Id, cycle: Id, now: Time)
    requires Inv(b)
    ensures Inv(DeletePayment(b, actor, member, cycle, now).0)
  {
    var b' := DeletePayment(b, actor, member, cycle, now).0;
    assert PaymentsFit(b'.members, b'.cycles, b'.payments) by {
      hide MembersFit, CyclesFit, LinksFit, ReceiptsFit, PhonesUnique, ChatsUnique, Conserved;
    }
    assert PaymentsKept(b, b');
    hide MembersFit, CyclesFit, LinksFit, ReceiptsFit, PhonesUnique, ChatsUnique, PaymentsFit, Gate, GroupOfCycle;
    MorePayments(b.payments, b'.payments, b.receipts);
  }

  /** Deletion marks and payments that were made by hand do not disturb the correspondence. */
  lemma MorePayments(payments: map<Id, Payment>, payments': map<Id, Payment>, receipts: map<Id, Receipt>)
    requires ReferencesUnique(payments) && PaymentsEarned(payments, receipts) && ReceiptsPaid(payments, receipts)
    requires forall p :: p in payments ==> p in payments' && SameMoney(payments[p], payments'[p])
    requires forall p :: p in payments' && payments'[p].paidBy.Some? ==> p in payments
    ensures ReferencesUnique(payments') && PaymentsEarned(payments', receipts) && ReceiptsPaid(payments', receipts)
  {
    assert ReferencesUnique(payments') by { hide PaymentsEarned, ReceiptsPaid; }
    assert PaymentsEarned(payments', receipts) by {
      hide ReceiptsPaid, ReferencesUnique;
      forall p | p in payments' && payments'[p].paidBy.Some?
        ensures exists r :: r in receipts && Matches(payments'[p], receipts[r])
      {
        var r :| r in receipts && Matches(payments[p], receipts[r]);
        assert Matches(payments'[p], receipts[r]);
      }
    }
    assert ReceiptsPaid(payments', receipts) by {
      hide PaymentsEarned, ReferencesUnique;
      forall r | r in receipts && receipts[r].status.Confirmed?
        ensures exists p :: p in payments' && Matches(payments'[p], receipts[r])
      {
        var p :| p in payments && Matches(payments[p], receipts[r]);
        assert Matches(payments'[p], receipts[r]);
      }
    }
  }

  lemma ConfirmStep(b: Books, actor: Actor, id: Id, payment: Id)
    requires Inv(b) && payment !in b.payments
    ensures Inv(ConfirmReceipt(b, actor, id, payment).0)
  {
    var (b', reply) := ConfirmReceipt(b, actor, id, payment);
    if reply == Done {
      assert PaymentsFit(b'.members, b'.cycles, b'.payments) by {
        hide MembersFit, CyclesFit, LinksFit, ReceiptsFit, PhonesUnique, ChatsUnique, Conserved;
      }
      assert Matches(b'.payments[payment], b'.receipts[id]);
      hide MembersFit, CyclesFit, LinksFit, ReceiptsFit, PhonesUnique, ChatsUnique, PaymentsFit, Gate, GroupOfReceipt;
      PairAdded(b.payments, b.receipts, payment, b'.payments[payment], id, b'.receipts[id]);
    }
  }

  /** A pending receipt becomes confirmed together with the payment made from it. */
  lemma PairAdded(payments: map<Id, Payment>, receipts: map<Id, Receipt>, pid: Id, pay: Payment, rid: Id, rec: Receipt)
    requires MessagesUnique(receipts) && ReferencesUnique(payments)
    requires PaymentsEarned(payments, receipts) && ReceiptsPaid(payments, receipts)
    requires pid !in payments && rid in receipts && receipts[rid].status.Pending?
    requires rec.messageId == receipts[rid].messageId && Matches(pay, rec)
    ensures MessagesUnique(receipts[rid := rec]) && ReferencesUnique(payments[pid := pay])
    ensures PaymentsEarned(payments[pid := pay], receipts[rid := rec])
    ensures ReceiptsPaid(payments[pid := pay], receipts[rid := rec])
  {
    var payments', receipts' := payments[pid := pay], receipts[rid := rec];
    assert MessagesUnique(receipts') by { hide PaymentsEarned, ReceiptsPaid, ReferencesUnique; }
    assert ReferencesUnique(payments') by {
      hide ReceiptsPaid;
      forall q | q in payments && payments[q].paidBy.Some?
        ensures payments[q].reference != pay.reference
      {
        var r :| r in receipts && Matches(payments[q], receipts[r]);
        assert r != rid;
      }
      hide PaymentsEarned;
    }
    assert PaymentsEarned(payments', receipts') by {
      hide ReceiptsPaid, MessagesUnique, ReferencesUnique;
      assert Matches(payments'[pid], receipts'[rid]);
      forall q | q in payments' && payments'[q].paidBy.Some? && q != pid
        ensures exists r :: r in receipts' && Matches(payments'[q], receipts'[r])
      {
        var r :| r in receipts && Matches(payments[q], receipts[r]);
        assert Matches(payments'[q], receipts'[r]);
      }
    }
    assert ReceiptsPaid(payments', receipts') by {
      hide PaymentsEarned, MessagesUnique, ReferencesUnique;
      assert Matches(payments'[pid], receipts'[rid]);
      forall r | r in receipts' && receipts'[r].status.Confirmed? && r != rid
        ensures exists p :: p in payments' && Matches(payments'[p], receipts'[r])
      {
        var p :| p in payments && Matches(payments[p], receipts[r]);
        assert Matches(payments'[p], receipts'[r]);
      }
    }
  }

  lemma TransitionStep(b: Books, actor: Actor, id: Id, target: ReceiptStatus, reason: Option<string>)
    requires Inv(b) && (target.Rejected? || target.Flagged?)
    ensures Inv(TransitionReceipt(b, actor, id, target, reason).0)
  {
    hide Referential;
    var (b', reply) := TransitionReceipt(b, actor, id, target, reason);
    if reply == Done {
      assert MessagesUnique(b'.receipts);
      StillEarned(b.payments, b.receipts, id, b'.receipts[id]);
      StillPaid(b.payments, b.receipts, id, b'.receipts[id]);
      ReceiptComes(b, id, b'.receipts[id]);
    }
  }

  lemma IngestStep(b: Books, id: Id, r: Receipt)
    requires Inv(b) && id !in b.receipts && MayBeIngested(b, r)
    ensures Inv(InsertReceipt(b, id, r).0)
  {
    hide Referential;
    var (b', reply) := InsertReceipt(b, id, r);
    if reply == Done {
      assert MessagesUnique(b'.receipts);
      StillEarned(b.payments, b.receipts, id, r);
      StillPaid(b.payments, b.receipts, id, r);
      ReceiptComes(b, id, b'.receipts[id]);
    }
  }

  lemma ReceiptComes(b: Books, id: Id, row: Receipt)
    requires Referential(b)
    requires
      || MayBeIngested(b, row)
      || (id in b.receipts && row.member == b.receipts[id].member && row.group == b.receipts[id].group)
    ensures Referential(b.(receipts := b.receipts[id := row]))
  {
    hide MembersFit, CyclesFit, LinksFit, PhonesUnique, ChatsUnique, PaymentsFit;
    assert ReceiptsFit(b.members, b.receipts[id := row]);
  }

  /** A receipt that is confirmed neither before nor after can come or change. */
  lemma StillEarned(payments: map<Id, Payment>, receipts: map<Id, Receipt>, id: Id, rec: Receipt)
    requires PaymentsEarned(payments, receipts) && (id in receipts ==> !receipts[id].status.Confirmed?)
    ensures PaymentsEarned(payments, receipts[id := rec])
  {
    var receipts' := receipts[id := rec];
    forall p | p in payments && payments[p].paidBy.Some?
      ensures exists r :: r in receipts' && Matches(payments[p], receipts'[r])
    {
      var r :| r in receipts && Matches(payments[p], receipts[r]);
      assert Matches(payments[p], receipts'[r]);
    }
  }

  lemma StillPaid(payments: map<Id, Payment>, receipts: map<Id, Receipt>, id: Id, rec: Receipt)
    requires ReceiptsPaid(payments, receipts) && !rec.status.Confirmed?
    ensures ReceiptsPaid(payments, receipts[id := rec])
  {
    var receipts' := receipts[id := rec];
    forall r | r in receipts' && receipts'[r].status.Confirmed?
      ensures exists p :: p in payments && Matches(payments[p], receipts'[r])
    {
      var p :| p in payments && Matches(payments[p], receipts[r]);
    }
  }

  // ---- Any call ------------------------------------------------------------------------------------

  lemma Step(b: Books, c: Call)
    requires Inv(b) && Enabled(b, c)
    ensures Inv(Apply(b, c).0)
  {
    hide Inv, CreateGroup, UpdateGroup, DeleteGroup, CreateMember, UpdateMember, DeleteMember, CreateCycle, UpdateCycle,
         DeleteCycle, CreatePayment, DeletePayment, ConfirmReceipt, TransitionReceipt, InsertReceipt, CreateLink,
         DeleteLink;
    match c
    case CallCreateGroup(actor, id, name, description) =>
      OtherGroupStep(b, actor, id, name, description, GroupPatch(None, None, None, 0));
    case CallUpdateGroup(actor, id, patch) => OtherGroupStep(b, actor, id, "", None, patch);
    case CallDeleteGroup(actor, id, now) => DeleteGroupStep(b, actor, id, now);
    case CallCreateMember(actor, id, group, member) => CreateMemberStep(b, actor, id, group, member);
    case CallUpdateMember(actor, id, patch) => UpdateMemberStep(b, actor, id, patch);
    case CallDeleteMember(actor, id, now) => DeleteMemberStep(b, actor, id, now);
    case CallCreateCycle(actor, id, group, cycle) => CreateCycleStep(b, actor, id, group, cycle);
    case CallUpdateCycle(actor, id, patch) => UpdateCycleStep(b, actor, id, patch);
    case CallDeleteCycle(actor, id) => DeleteCycleStep(b, actor, id);
    case CallCreatePayment(actor, id, pay) => CreatePaymentStep(b, actor, id, pay);
    case CallDeletePayment(actor, member, cycle, now) => DeletePaymentStep(b, actor, member, cycle, now);
    case CallConfirm(actor, id, payment) => ConfirmStep(b, actor, id, payment);
    case CallReject(actor, id, reason) => TransitionStep(b, actor, id, Rejected, reason);
    case CallFlag(actor, id, reason) => TransitionStep(b, actor, id, Flagged, reason);
    case CallIngest(id, receipt) => IngestStep(b, id, receipt);
    case CallCreateLink(actor, id, chat, group) => CreateLinkStep(b, actor, id, chat, group);
    case CallDeleteLink(actor, id, now) => DeleteLinkStep(b, actor, id, now);
  }
}
