/** The handlers as the source writes them: read, check, then write rows in place. */
module LedgerServer {
  import opened Prelude
  import opened Ledger
  import opened LedgerInvariants
  import LedgerAnswers

  /**
   * The tables.  Each method is one handler, run without interruption; it does to the tables what
   * the function of the same name does to the books, and keeps referential integrity and
   * conservation.
   */
  class Tables {
    var groups: map<Id, Group>
    var members: map<Id, Member>
    var cycles: map<Id, Cycle>
    var payments: map<Id, Payment>
    var receipts: map<Id, Receipt>
    var links: map<Id, Link>

    function Contents(): Books
      reads this
    {
      Books(groups, members, cycles, payments, receipts, links)
    }

    ghost predicate Valid()
      reads this
    {
      Inv(Contents())
    }

    constructor ()
      ensures Valid() && Contents() == EMPTY
    {
      groups, members, cycles, payments, receipts, links := map[], map[], map[], map[], map[], map[];
      new;
      assert Referential(EMPTY) && Conserved(EMPTY);
    }

    // ---- Groups --------------------------------------------------------------------------------------

    method CreateGroup(actor: Actor, name: string, description: Option<string>) returns (reply: Reply, id: Id)
      requires Valid()
      modifies this`groups
      ensures Valid() && id !in old(groups)
      ensures (Contents(), reply) == Ledger.CreateGroup(old(Contents()), actor, id, name, description)
    {
      hide Inv, Trim, ValidName;
      id := DrawFresh(groups.Keys);
      OtherGroupStep(Contents(), actor, id, name, description, GroupPatch(None, None, None, 0));
      if !actor.role.SuperAdmin? { return Forbidden, id; }
      if !ValidName(name) { return BadRequest, id; }
      groups := groups[id := Group(Trim(name), GroupActive, description, None, 1)];
      reply := Done;
    }

    method UpdateGroup(actor: Actor, id: Id, patch: GroupPatch) returns (reply: Reply)
      requires Valid()
      modifies this`groups
      ensures Valid()
      ensures (Contents(), reply) == Ledger.UpdateGroup(old(Contents()), actor, id, patch)
    {
      hide Inv, Trim, ValidName;
      OtherGroupStep(Contents(), actor, id, "", None, patch);
      if !actor.role.SuperAdmin? { return Forbidden; }
      if !patch.Valid() { return BadRequest; }
      if id !in groups { return NotFound; }
      var existing := groups[id];
      if existing.version != patch.version { return Conflict; }
      var next := existing.(version := existing.version + 1);
      if patch.name.Some? { next := next.(name := Trim(patch.name.value)); }
      if patch.status.Some? { next := next.(status := patch.status.value.value); }
      if patch.description.Some? { next := next.(description := patch.description); }
      groups := groups[id := next];
      reply := Done;
    }

    method DeleteGroup(actor: Actor, id: Id, now: Time) returns (reply: Reply)
      requires Valid()
      modifies this`groups
      ensures Valid()
      ensures (Contents(), reply) == Ledger.DeleteGroup(old(Contents()), actor, id, now)
    {
      hide Inv;
      DeleteGroupStep(Contents(), actor, id, now);
      if !actor.role.SuperAdmin? { return Forbidden; }
      if id !in groups { return NotFound; }
      if exists m :: m in members && members[m].group == id && LiveMember(Contents(), m) { return Conflict; }
      if exists c :: c in cycles && cycles[c].group == id { return Conflict; }
      var existing := groups[id];
      groups := groups[id := existing.(deletedAt := Some(now), version := existing.version + 1)];
      reply := Done;
    }

    // ---- Members -------------------------------------------------------------------------------------

    method CreateMember(actor: Actor, group: Id, member: NewMember) returns (reply: Reply, id: Id)
      requires Valid()
      modifies this`members
      ensures Valid() && id !in old(members)
      ensures (Contents(), reply) == Ledger.CreateMember(old(Contents()), actor, id, group, member)
    {
      hide Inv, Trim, NewMember.Valid, PhoneTaken;
      id := DrawFresh(members.Keys);
      CreateMemberStep(Contents(), actor, id, group, member);
      if !actor.MayAdminister(group) { return Forbidden, id; }
      if !member.Valid() { return BadRequest, id; }
      if group !in groups || groups[group].deletedAt.Some? { return NotFound, id; }
      if PhoneTaken(Contents(), group, Trim(member.phone), None) { return Conflict, id; }
      members := members[id := Member(
        Trim(member.name), Trim(member.phone), member.position, Active, member.notes, member.joinedAt, group, None, 1)];
      reply := Done;
    }

    method UpdateMember(actor: Actor, id: Id, patch: MemberPatch) returns (reply: Reply)
      requires Valid()
      modifies this`members
      ensures Valid()
      ensures (Contents(), reply) == Ledger.UpdateMember(old(Contents()), actor, id, patch)
    {
      hide Inv, Trim, PhoneTaken;
      UpdateMemberStep(Contents(), actor, id, patch);
      if !patch.Valid() { return BadRequest; }
      reply := Gate(actor, GroupOf(Contents(), id));
      if reply != Done { return; }
      var existing := members[id];
      if existing.version != patch.version { return Conflict; }
      if patch.phone.Some? && PhoneTaken(Contents(), existing.group, Trim(patch.phone.value), Some(id)) {
        return Conflict;
      }
      var next := Patched(existing, patch);
      hide MemberPatch.Of, MemberPatch.Valid;
      members := members[id := next];
    }

    /** The row that is written, column by column. */
    static method Patched(existing: Member, patch: MemberPatch) returns (next: Member)
      requires patch.Valid()
      ensures next == patch.Of(existing)
    {
      hide Trim;
      next := existing.(version := existing.version + 1);
      if patch.name.Some? { next := next.(name := Trim(patch.name.value)); }
      if patch.phone.Some? { next := next.(phone := Trim(patch.phone.value)); }
      if patch.position.Some? { next := next.(position := patch.position.value); }
      if patch.status.Some? { next := next.(status := patch.status.value.value); }
      if patch.notes.Some? { next := next.(notes := patch.notes); }
      if patch.joinedAt.Some? { next := next.(joinedAt := patch.joinedAt); }
    }

    method DeleteMember(actor: Actor, id: Id, now: Time) returns (reply: Reply)
      requires Valid()
      modifies this`members
      ensures Valid()
      ensures (Contents(), reply) == Ledger.DeleteMember(old(Contents()), actor, id, now)
    {
      hide Inv;
      DeleteMemberStep(Contents(), actor, id, now);
      reply := Gate(actor, GroupOf(Contents(), id));
      if reply != Done { return; }
      if exists c :: c in cycles && cycles[c].recipient == id && cycles[c].status.CycleActive? { return Conflict; }
      var existing := members[id];
      members := members[id := existing.(deletedAt := Some(now), version := existing.version + 1)];
    }

    // ---- Cycles --------------------------------------------------------------------------------------

    method CreateCycle(actor: Actor, group: Id, cycle: NewCycle) returns (reply: Reply, id: Id)
      requires Valid()
      modifies this`cycles
      ensures Valid() && id !in old(cycles)
      ensures (Contents(), reply) == Ledger.CreateCycle(old(Contents()), actor, id, group, cycle)
    {
      hide Inv, TotalAmount, NewCycle.Valid;
      id := DrawFresh(cycles.Keys);
      CreateCycleStep(Contents(), actor, id, group, cycle);
      if !actor.MayAdminister(group) { return Forbidden, id; }
      if !cycle.Valid() { return BadRequest, id; }
      if group !in groups || groups[group].deletedAt.Some? { return NotFound, id; }
      reply := RecipientCheck(Contents(), cycle.recipient, group);
      if reply != Done { return; }
      var total := TotalAmount(Contents(), group, cycle.contribution);
      cycles := cycles[id := Cycle(
        cycle.number, cycle.start, cycle.end, cycle.contribution, total, cycle.recipient, CyclePending, cycle.notes,
        group, 1)];
    }

    method UpdateCycle(actor: Actor, id: Id, patch: CyclePatch) returns (reply: Reply)
      requires Valid()
      modifies this`cycles
      ensures Valid()
      ensures (Contents(), reply) == Ledger.UpdateCycle(old(Contents()), actor, id, patch)
    {
      hide Inv, TotalAmount, RecipientCheck, CyclePatch.Of;
      UpdateCycleStep(Contents(), actor, id, patch);
      if !patch.Valid() { return BadRequest; }
      reply := Gate(actor, GroupOfCycle(Contents(), id));
      if reply != Done { return; }
      var existing := cycles[id];
      if existing.version != patch.version { return Conflict; }
      if patch.recipient.Some? {
        reply := RecipientCheck(Contents(), patch.recipient.value, existing.group);
        if reply != Done { return; }
      }
      var total :=
        if patch.contribution.Some? then TotalAmount(Contents(), existing.group, patch.contribution.value) else 0;
      var next := PatchedCycle(existing, patch, total);
      cycles := cycles[id := next];
    }

    /** The row that is written, column by column; the total only with a new contribution. */
    static method PatchedCycle(existing: Cycle, patch: CyclePatch, total: int) returns (next: Cycle)
      requires patch.Valid()
      ensures next == patch.Of(existing, total)
    {
      next := existing.(version := existing.version + 1);
      if patch.start.Some? { next := next.(start := patch.start.value); }
      if patch.end.Some? { next := next.(end := patch.end.value); }
      if patch.contribution.Some? { next := next.(contribution := patch.contribution.value, total := total); }
      if patch.recipient.Some? { next := next.(recipient := patch.recipient.value); }
      if patch.status.Some? { next := next.(status := patch.status.value.value); }
      if patch.notes.Some? { next := next.(notes := patch.notes); }
    }

    method DeleteCycle(actor: Actor, id: Id) returns (reply: Reply)
      requires Valid()
      modifies this`cycles
      ensures Valid()
      ensures (Contents(), reply) == Ledger.DeleteCycle(old(Contents()), actor, id)
    {
      hide Inv;
      DeleteCycleStep(Contents(), actor, id);
      reply := Gate(actor, GroupOfCycle(Contents(), id));
      if reply != Done { return; }
      if exists p :: p in payments && payments[p].cycle == id && LivePayment(Contents(), p) { return Conflict; }
      cycles := cycles - {id};
    }

    // ---- Payments ------------------------------------------------------------------------------------

    method CreatePayment(actor: Actor, pay: NewPayment) returns (reply: Reply, id: Id)
      requires Valid()
      modifies this`payments
      ensures Valid() && id !in old(payments)
      ensures (Contents(), reply) == Ledger.CreatePayment(old(Contents()), actor, id, pay)
    {
      hide Inv;
      id := DrawFresh(payments.Keys);
      CreatePaymentStep(Contents(), actor, id, pay);
      if !pay.Valid() { return BadRequest, id; }
      reply := Gate(actor, GroupOf(Contents(), pay.member));
      if reply != Done { return; }
      if members[pay.member].deletedAt.Some? { return BadRequest, id; }
      if pay.cycle !in cycles { return NotFound, id; }
      if members[pay.member].group != cycles[pay.cycle].group { return BadRequest, id; }
      payments := payments[id := Payment(
        pay.member, pay.cycle, pay.amount, pay.currency, pay.date, None, None, None, None, None)];
    }

    method DeletePayment(actor: Actor, member: Id, cycle: Id, now: Time) returns (reply: Reply)
      requires Valid()
      modifies this`payments
      ensures Valid()
      ensures (Contents(), reply) == Ledger.DeletePayment(old(Contents()), actor, member, cycle, now)
    {
      hide Inv;
      DeletePaymentStep(Contents(), actor, member, cycle, now);
      reply := Gate(actor, GroupOfCycle(Contents(), cycle));
      if reply != Done { return; }
      if !exists p :: p in payments && PaymentFor(Contents(), p, member, cycle) { return NotFound; }
      DeleteRows(actor, member, cycle, now);
    }

    /** The loop of `delete_payment` over the matching rows. */
    method DeleteRows(actor: Actor, member: Id, cycle: Id, now: Time)
      modifies this`payments
      ensures payments == map p | p in old(payments) :: AfterDelete(old(Contents()), p, member, cycle, actor, now)
    {
      ghost var was := Contents();
      var rows := set p | p in payments && PaymentFor(Contents(), p, member, cycle);
      while rows != {}
        invariant rows <= payments.Keys == was.payments.Keys
        invariant forall p :: p in rows ==> payments[p] == was.payments[p] && PaymentFor(was, p, member, cycle)
        invariant forall p :: p in payments && p !in rows ==>
                    payments[p] == AfterDelete(was, p, member, cycle, actor, now)
        decreases rows
      {
        var p :| p in rows;
        payments := payments[p := payments[p].(deletedAt := Some(now), deletedBy := Some(actor.user))];
        rows := rows - {p};
      }
    }

    // ---- Receipts ------------------------------------------------------------------------------------

    method ConfirmReceipt(actor: Actor, id: Id) returns (reply: Reply, payment: Id)
      requires Valid()
      modifies this`payments, this`receipts
      ensures Valid() && payment !in old(payments)
      ensures (Contents(), reply) == Ledger.ConfirmReceipt(old(Contents()), actor, id, payment)
      ensures reply == Done <==>
        && LedgerAnswers.MayHandle(old(Contents()), actor, id)
        && LedgerAnswers.CanBeConfirmed(old(Contents()), old(receipts)[id])
      ensures reply == Done ==>
        payment in payments && LedgerAnswers.PaymentIsOf(old(receipts)[id], actor, payments[payment])
    {
      hide Inv, LedgerAnswers.CanBeConfirmed, LedgerAnswers.MayHandle, LedgerAnswers.PaymentIsOf;
      payment := DrawFresh(payments.Keys);
      LedgerAnswers.ConfirmAnswers(Contents(), actor, id, payment);
      ConfirmStep(Contents(), actor, id, payment);
      reply := Gate(actor, GroupOfReceipt(Contents(), id));
      if reply != Done { return; }
      var receipt := receipts[id];
      reply := Conflict;
      if !receipt.status.Pending? { return; }
      if receipt.member.None? || receipt.cycle.None? || receipt.amount.None? { return; }
      var member, cycle := receipt.member.value, receipt.cycle.value;
      if member !in members || members[member].deletedAt.Some? { return; }
      if cycle !in cycles || members[member].group != cycles[cycle].group { return; }
      if exists p :: p in payments && PaymentFor(Contents(), p, member, cycle) { return; }
      var stamp := PaymentStamp(receipt);
      if stamp.Unreadable? { return; }
      payments := payments[payment := Payment(
        member, cycle, receipt.amount.value, Reads(Naira), stamp,
        Some(WhatsappReceipt), Some(receipt.messageId), Some(actor.user), None, None)];
      receipts := receipts[id := receipt.(status := Confirmed, confirmedBy := Some(actor.user))];
      reply := Done;
    }

    method TransitionReceipt(actor: Actor, id: Id, target: ReceiptStatus, reason: Option<string>) returns (reply: Reply)
      requires Valid() && (target.Rejected? || target.Flagged?)
      modifies this`receipts
      ensures Valid()
      ensures (Contents(), reply) == Ledger.TransitionReceipt(old(Contents()), actor, id, target, reason)
    {
      hide Inv;
      TransitionStep(Contents(), actor, id, target, reason);
      reply := Gate(actor, GroupOfReceipt(Contents(), id));
      if reply != Done { return; }
      var receipt := receipts[id];
      if !receipt.status.Pending? { return Conflict; }
      var rejectedBy := if target.Rejected? then Some(actor.user) else receipt.rejectedBy;
      receipts := receipts[id := receipt.(
        status := target, reason := if reason.Some? then reason else receipt.reason, rejectedBy := rejectedBy)];
    }

    // ---- Chat links ----------------------------------------------------------------------------------

    method CreateLink(actor: Actor, chat: string, group: Id) returns (reply: Reply, id: Id)
      requires Valid()
      modifies this`links
      ensures Valid() && id !in old(links)
      ensures (Contents(), reply) == Ledger.CreateLink(old(Contents()), actor, id, chat, group)
    {
      hide Inv;
      id := DrawFresh(links.Keys);
      CreateLinkStep(Contents(), actor, id, chat, group);
      if !actor.role.SuperAdmin? { return Forbidden, id; }
      if Trim(chat) == "" { return BadRequest, id; }
      if group !in groups || groups[group].deletedAt.Some? { return NotFound, id; }
      if ChatTaken(Contents(), Trim(chat)) { return Conflict, id; }
      links := links[id := Link(Trim(chat), group, None)];
      reply := Done;
    }

    method DeleteLink(actor: Actor, id: Id, now: Time) returns (reply: Reply)
      requires Valid()
      modifies this`links
      ensures Valid()
      ensures (Contents(), reply) == Ledger.DeleteLink(old(Contents()), actor, id, now)
    {
      hide Inv;
      DeleteLinkStep(Contents(), actor, id, now);
      if !actor.role.SuperAdmin? { return Forbidden; }
      if id !in links { return NotFound; }
      reply := Done;
      if links[id].deletedAt.Some? { return; }
      links := links[id := links[id].(deletedAt := Some(now))];
    }
  }
}
