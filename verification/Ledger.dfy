/**
 * Groups, members, cycles, payments, receipts and chat links, and what each handler of
 * src/api/handlers.rs does to them.  The handlers run their statements without a transaction;
 * here one handler is one atomic step.
 */
module Ledger {
  import opened Prelude

  type Id = nat
  type Time = int

  datatype Role = SuperAdmin | Admin | Plain

  /** Who calls, with the groups the caller has an admin grant for. */
  datatype Actor = Actor(user: Id, role: Role, grants: set<Id>) {
    /** `require_group_scope` */
    predicate MayAdminister(group: Id) {
      role.SuperAdmin? || (role.Admin? && group in grants)
    }
  }

  datatype GroupStatus = GroupActive | GroupClosed
  datatype MemberStatus = Active | Inactive
  datatype CycleStatus = CyclePending | CycleActive | CycleClosed
  datatype ReceiptStatus = Pending | Confirmed | Rejected | Flagged
  datatype PaymentMethod = WhatsappReceipt
  datatype Currency = Naira

  /** A text as the source reads it (a date, a status, a currency), or one that it cannot read. */
  datatype Read<+T> = Reads(value: T) | Unreadable

  /** The calendar day of a text, counted from some day. */
  type DateText = Read<int>

  datatype Group = Group(
    name: string, status: GroupStatus, description: Option<string>, deletedAt: Option<Time>, version: int)

  datatype Member = Member(
    name: string, phone: string, position: int, status: MemberStatus, notes: Option<string>,
    joinedAt: Option<DateText>, group: Id, deletedAt: Option<Time>, version: int)

  datatype Cycle = Cycle(
    number: int, start: DateText, end: DateText, contribution: int, total: int, recipient: Id,
    status: CycleStatus, notes: Option<string>, group: Id, version: int)

  datatype Payment = Payment(
    member: Id, cycle: Id, amount: int, currency: Read<Currency>, date: DateText, paidBy: Option<PaymentMethod>,
    reference: Option<string>, confirmedBy: Option<Id>, deletedAt: Option<Time>, deletedBy: Option<Id>)

  datatype Receipt = Receipt(
    messageId: string, group: Id, member: Option<Id>, cycle: Option<Id>, amount: Option<int>,
    status: ReceiptStatus, reason: Option<string>, ingestedAt: Option<DateText>, createdAt: DateText,
    deletedAt: Option<Time>, confirmedBy: Option<Id>, rejectedBy: Option<Id>)

  datatype Link = Link(chat: string, group: Id, deletedAt: Option<Time>)

  datatype Books = Books(
    groups: map<Id, Group>, members: map<Id, Member>, cycles: map<Id, Cycle>,
    payments: map<Id, Payment>, receipts: map<Id, Receipt>, links: map<Id, Link>)

  datatype Reply = Done | Forbidden | NotFound | Conflict | BadRequest

  /** `GroupScopedAdmin::ensure_or_deny` */
  function Gate(actor: Actor, group: Option<Id>): Reply {
    if group.None? then (if actor.role.SuperAdmin? then NotFound else Forbidden)
    else if actor.MayAdminister(group.value) then Done else Forbidden
  }

  function GroupOf(b: Books, member: Id): Option<Id> {
    if member in b.members then Some(b.members[member].group) else None
  }

  function GroupOfCycle(b: Books, cycle: Id): Option<Id> {
    if cycle in b.cycles then Some(b.cycles[cycle].group) else None
  }

  predicate LiveGroup(b: Books, g: Id) {
    g in b.groups && b.groups[g].deletedAt.None?
  }

  predicate LiveMember(b: Books, m: Id) {
    m in b.members && b.members[m].deletedAt.None?
  }

  predicate LivePayment(b: Books, p: Id) {
    p in b.payments && b.payments[p].deletedAt.None?
  }

  function Chosen<T>(asked: Option<T>, stored: T): T {
    if asked.Some? then asked.value else stored
  }

  /** `asked.or(stored)` */
  function Or<T>(asked: Option<T>, stored: Option<T>): Option<T> {
    if asked.Some? then asked else stored
  }

  /** An optional text of the request, if it is there, can be read. */
  predicate Readable<T>(asked: Option<Read<T>>) {
    asked.Some? ==> asked.value.Reads?
  }

  // ---- Groups ------------------------------------------------------------------------------------

  /** Length of the character in UTF-8. */
  function Utf8Width(c: char): nat {
    if c < '\U{0080}' then 1 else if c < '\U{0800}' then 2 else if c < '\U{10000}' then 3 else 4
  }

  /** `str::len` */
  function Utf8Length(s: string): nat {
    if s == "" then 0 else Utf8Width(s[0]) + Utf8Length(s[1..])
  }

  predicate ValidName(name: string) {
    0 < Utf8Length(Trim(name)) <= 100
  }

  datatype GroupPatch = GroupPatch(
    name: Option<string>, status: Option<Read<GroupStatus>>, description: Option<string>, version: int)
  {
    predicate Valid() { (name.Some? ==> ValidName(name.value)) && Readable(status) }
  }

  function CreateGroup(b: Books, actor: Actor, id: Id, name: string, description: Option<string>): (out: (Books, Reply))
    ensures out.0 == b.(groups := out.0.groups) && (out.1 != Done ==> out.0 == b)
  {
    if !actor.role.SuperAdmin? then (b, Forbidden)
    else if !ValidName(name) then (b, BadRequest)
    else (b.(groups := b.groups[id := Group(Trim(name), GroupActive, description, None, 1)]), Done)
  }

  function UpdateGroup(b: Books, actor: Actor, id: Id, patch: GroupPatch): (out: (Books, Reply))
    ensures out.0 == b.(groups := out.0.groups) && (out.1 != Done ==> out.0 == b)
  {
    if !actor.role.SuperAdmin? then (b, Forbidden)
    else if !patch.Valid() then (b, BadRequest)
    else if id !in b.groups then (b, NotFound)
    else if b.groups[id].version != patch.version then (b, Conflict)
    else
      var row := b.groups[id];
      (b.(groups := b.groups[id := row.(
        name := if patch.name.Some? then Trim(patch.name.value) else row.name,
        status := if patch.status.Some? then patch.status.value.value else row.status,
        description := Or(patch.description, row.description),
        version := row.version + 1)]), Done)
  }

  function DeleteGroup(b: Books, actor: Actor, id: Id, now: Time): (out: (Books, Reply))
    ensures out.0 == b.(groups := out.0.groups) && (out.1 != Done ==> out.0 == b)
  {
    if !actor.role.SuperAdmin? then (b, Forbidden)
    else if id !in b.groups then (b, NotFound)
    else if exists m :: m in b.members && b.members[m].group == id && LiveMember(b, m) then (b, Conflict)
    else if exists c :: c in b.cycles && b.cycles[c].group == id then (b, Conflict)
    else
      var row := b.groups[id];
      (b.(groups := b.groups[id := row.(deletedAt := Some(now), version := row.version + 1)]), Done)
  }

  // ---- Members -----------------------------------------------------------------------------------

  predicate PhoneTaken(b: Books, group: Id, phone: string, except: Option<Id>) {
    exists m :: m in b.members && LiveMember(b, m) && b.members[m].group == group
                && b.members[m].phone == phone && except != Some(m)
  }

  datatype NewMember = NewMember(
    name: string, phone: string, position: int, notes: Option<string>, joinedAt: Option<DateText>)
  {
    predicate Valid() { Trim(name) != "" && Trim(phone) != "" && position > 0 && Readable(joinedAt) }
  }

  datatype MemberPatch = MemberPatch(
    name: Option<string>, phone: Option<string>, position: Option<int>, status: Option<Read<MemberStatus>>,
    notes: Option<string>, joinedAt: Option<DateText>, version: int)
  {
    predicate Valid() {
      && (name.Some? ==> Trim(name.value) != "") && (phone.Some? ==> Trim(phone.value) != "")
      && (position.Some? ==> position.value > 0) && Readable(status) && Readable(joinedAt)
    }

    function Of(row: Member): Member
      requires Valid()
    {
      row.(name := if name.Some? then Trim(name.value) else row.name,
           phone := if phone.Some? then Trim(phone.value) else row.phone,
           position := Chosen(position, row.position),
           status := if status.Some? then status.value.value else row.status,
           notes := Or(notes, row.notes),
           joinedAt := Or(joinedAt, row.joinedAt),
           version := row.version + 1)
    }
  }

  function CreateMember(b: Books, actor: Actor, id: Id, group: Id, member: NewMember): (out: (Books, Reply))
    ensures out.0 == b.(members := out.0.members) && (out.1 != Done ==> out.0 == b)
  {
    if !actor.MayAdminister(group) then (b, Forbidden)
    else if !member.Valid() then (b, BadRequest)
    else if !LiveGroup(b, group) then (b, NotFound)
    else if PhoneTaken(b, group, Trim(member.phone), None) then (b, Conflict)
    else
      (b.(members := b.members[id := Member(
        Trim(member.name), Trim(member.phone), member.position, Active, member.notes, member.joinedAt,
        group, None, 1)]), Done)
  }

  function UpdateMember(b: Books, actor: Actor, id: Id, patch: MemberPatch): (out: (Books, Reply))
    ensures out.0 == b.(members := out.0.members) && (out.1 != Done ==> out.0 == b)
  {
    if !patch.Valid() then (b, BadRequest)
    else if Gate(actor, GroupOf(b, id)) != Done then (b, Gate(actor, GroupOf(b, id)))
    else if b.members[id].version != patch.version then (b, Conflict)
    else if patch.phone.Some? && PhoneTaken(b, b.members[id].group, Trim(patch.phone.value), Some(id))
    then (b, Conflict)
    else (b.(members := b.members[id := patch.Of(b.members[id])]), Done)
  }

  function DeleteMember(b: Books, actor: Actor, id: Id, now: Time): (out: (Books, Reply))
    ensures out.0 == b.(members := out.0.members) && (out.1 != Done ==> out.0 == b)
  {
    if Gate(actor, GroupOf(b, id)) != Done then (b, Gate(actor, GroupOf(b, id)))
    else if exists c :: c in b.cycles && b.cycles[c].recipient == id && b.cycles[c].status.CycleActive?
    then (b, Conflict)
    else
      var row := b.members[id];
      (b.(members := b.members[id := row.(deletedAt := Some(now), version := row.version + 1)]), Done)
  }

  // ---- Cycles ------------------------------------------------------------------------------------

  const TWO_63: int := 0x8000_0000_0000_0000
  const TWO_64: int := 0x1_0000_0000_0000_0000

  /** Two's complement wrap-around of an i64 product in a release build. */
  function WrapI64(x: int): int {
    (x + TWO_63) % TWO_64 - TWO_63
  }

  function ActiveMembers(b: Books, group: Id): set<Id> {
    set m | m in b.members && b.members[m].group == group && b.members[m].status.Active? && LiveMember(b, m)
  }

  function TotalAmount(b: Books, group: Id, contribution: int): int {
    WrapI64(contribution * |ActiveMembers(b, group)|)
  }

  /** The recipient must exist, be live and belong to the group of the cycle. */
  function RecipientCheck(b: Books, recipient: Id, group: Id): Reply {
    if recipient !in b.members then NotFound
    else if !LiveMember(b, recipient) || b.members[recipient].group != group then BadRequest
    else Done
  }

  datatype NewCycle = NewCycle(
    number: int, start: DateText, end: DateText, contribution: int, recipient: Id, notes: Option<string>)
  {
    predicate Valid() {
      number > 0 && start.Reads? && end.Reads? && start.value <= end.value && contribution > 0
    }
  }

  datatype CyclePatch = CyclePatch(
    start: Option<DateText>, end: Option<DateText>, contribution: Option<int>, recipient: Option<Id>,
    status: Option<Read<CycleStatus>>, notes: Option<string>, version: int)
  {
    /** The dates are compared only when both are given. */
    predicate Valid() {
      && Readable(start) && Readable(end) && (contribution.Some? ==> contribution.value > 0) && Readable(status)
      && (start.Some? && end.Some? ==> start.value.value <= end.value.value)
    }

    function Of(row: Cycle, total: int): Cycle
      requires Valid()
    {
      row.(start := Chosen(start, row.start),
           end := Chosen(end, row.end),
           contribution := Chosen(contribution, row.contribution),
           total := if contribution.Some? then total else row.total,
           recipient := Chosen(recipient, row.recipient),
           status := if status.Some? then status.value.value else row.status,
           notes := Or(notes, row.notes),
           version := row.version + 1)
    }
  }

  function CreateCycle(b: Books, actor: Actor, id: Id, group: Id, cycle: NewCycle): (out: (Books, Reply))
    ensures out.0 == b.(cycles := out.0.cycles) && (out.1 != Done ==> out.0 == b)
  {
    if !actor.MayAdminister(group) then (b, Forbidden)
    else if !cycle.Valid() then (b, BadRequest)
    else if !LiveGroup(b, group) then (b, NotFound)
    else if RecipientCheck(b, cycle.recipient, group) != Done then (b, RecipientCheck(b, cycle.recipient, group))
    else
      (b.(cycles := b.cycles[id := Cycle(
        cycle.number, cycle.start, cycle.end, cycle.contribution, TotalAmount(b, group, cycle.contribution),
        cycle.recipient, CyclePending, cycle.notes, group, 1)]), Done)
  }

  function UpdateCycle(b: Books, actor: Actor, id: Id, patch: CyclePatch): (out: (Books, Reply))
    ensures out.0 == b.(cycles := out.0.cycles) && (out.1 != Done ==> out.0 == b)
  {
    if !patch.Valid() then (b, BadRequest)
    else if Gate(actor, GroupOfCycle(b, id)) != Done then (b, Gate(actor, GroupOfCycle(b, id)))
    else if b.cycles[id].version != patch.version then (b, Conflict)
    else
      var row := b.cycles[id];
      if patch.recipient.Some? && RecipientCheck(b, patch.recipient.value, row.group) != Done
      then (b, RecipientCheck(b, patch.recipient.value, row.group))
      else
        var total := if patch.contribution.Some? then TotalAmount(b, row.group, patch.contribution.value) else 0;
        (b.(cycles := b.cycles[id := patch.Of(row, total)]), Done)
  }

  /** Cycles are deleted for good, but not while a live payment refers to them. */
  function DeleteCycle(b: Books, actor: Actor, id: Id): (out: (Books, Reply))
    ensures out.0 == b.(cycles := out.0.cycles) && (out.1 != Done ==> out.0 == b)
  {
    if Gate(actor, GroupOfCycle(b, id)) != Done then (b, Gate(actor, GroupOfCycle(b, id)))
    else if exists p :: p in b.payments && b.payments[p].cycle == id && LivePayment(b, p) then (b, Conflict)
    else (b.(cycles := b.cycles - {id}), Done)
  }

  // ---- Payments ----------------------------------------------------------------------------------

  datatype NewPayment = NewPayment(member: Id, cycle: Id, amount: int, currency: Read<Currency>, date: DateText) {
    predicate Valid() { amount > 0 && currency.Reads? && date.Reads? }
  }

  function CreatePayment(b: Books, actor: Actor, id: Id, pay: NewPayment): (out: (Books, Reply))
    ensures out.0 == b.(payments := out.0.payments) && (out.1 != Done ==> out.0 == b)
  {
    if !pay.Valid() then (b, BadRequest)
    else if Gate(actor, GroupOf(b, pay.member)) != Done then (b, Gate(actor, GroupOf(b, pay.member)))
    else if !LiveMember(b, pay.member) then (b, BadRequest)
    else if pay.cycle !in b.cycles then (b, NotFound)
    else if b.members[pay.member].group != b.cycles[pay.cycle].group then (b, BadRequest)
    else
      (b.(payments := b.payments[id := Payment(
        pay.member, pay.cycle, pay.amount, pay.currency, pay.date, None, None, None, None, None)]), Done)
  }

  predicate PaymentFor(b: Books, p: Id, member: Id, cycle: Id) {
    LivePayment(b, p) && b.payments[p].member == member && b.payments[p].cycle == cycle
  }

  function AfterDelete(b: Books, p: Id, member: Id, cycle: Id, actor: Actor, now: Time): Payment
    requires p in b.payments
  {
    if PaymentFor(b, p, member, cycle)
    then b.payments[p].(deletedAt := Some(now), deletedBy := Some(actor.user))
    else b.payments[p]
  }

  /** Every live payment of the member in the cycle is marked as deleted. */
  function DeletePayment(b: Books, actor: Actor, member: Id, cycle: Id, now: Time): (out: (Books, Reply))
    ensures out.0 == b.(payments := out.0.payments) && (out.1 != Done ==> out.0 == b)
  {
    if Gate(actor, GroupOfCycle(b, cycle)) != Done then (b, Gate(actor, GroupOfCycle(b, cycle)))
    else if !exists p :: p in b.payments && PaymentFor(b, p, member, cycle) then (b, NotFound)
    else
      (b.(payments := map p | p in b.payments :: AfterDelete(b, p, member, cycle, actor, now)), Done)
  }

  // ---- Receipts ----------------------------------------------------------------------------------

  function GroupOfReceipt(b: Books, id: Id): Option<Id> {
    if id in b.receipts && b.receipts[id].deletedAt.None? then Some(b.receipts[id].group) else None
  }

  function PaymentStamp(r: Receipt): DateText {
    if r.ingestedAt.Some? then r.ingestedAt.value else r.createdAt
  }

  /** What must hold, beyond the gate, for a receipt to be confirmed. */
  predicate Confirmable(b: Books, r: Receipt) {
    && r.status.Pending? && r.member.Some? && r.cycle.Some? && r.amount.Some?
    && LiveMember(b, r.member.value) && r.cycle.value in b.cycles
    && b.members[r.member.value].group == b.cycles[r.cycle.value].group
    && !(exists p :: p in b.payments && PaymentFor(b, p, r.member.value, r.cycle.value))
    && PaymentStamp(r).Reads?
  }

  function ConfirmReceipt(b: Books, actor: Actor, id: Id, payment: Id): (out: (Books, Reply))
    ensures out.0 == b.(payments := out.0.payments, receipts := out.0.receipts) && (out.1 != Done ==> out.0 == b)
  {
    if Gate(actor, GroupOfReceipt(b, id)) != Done then (b, Gate(actor, GroupOfReceipt(b, id)))
    else
      var r := b.receipts[id];
      if !Confirmable(b, r) then (b, Conflict)
      else
        (b.(payments := b.payments[payment := Payment(
              r.member.value, r.cycle.value, r.amount.value, Reads(Naira), PaymentStamp(r),
              Some(WhatsappReceipt), Some(r.messageId), Some(actor.user), None, None)],
            receipts := b.receipts[id := r.(status := Confirmed, confirmedBy := Some(actor.user))]), Done)
  }

  /** `transition_receipt`, shared by reject and flag. */
  function TransitionReceipt(b: Books, actor: Actor, id: Id, target: ReceiptStatus, reason: Option<string>)
    : (out: (Books, Reply))
    requires target.Rejected? || target.Flagged?
    ensures out.0 == b.(receipts := out.0.receipts) && (out.1 != Done ==> out.0 == b)
  {
    if Gate(actor, GroupOfReceipt(b, id)) != Done then (b, Gate(actor, GroupOfReceipt(b, id)))
    else
      var r := b.receipts[id];
      if !r.status.Pending? then (b, Conflict)
      else
        (b.(receipts := b.receipts[id := r.(
          status := target,
          reason := if reason.Some? then reason else r.reason,
          rejectedBy := if target.Rejected? then Some(actor.user) else r.rejectedBy)]), Done)
  }

  /** The insert at the end of `ingest_receipt`, under the unique index on the message id. */
  function InsertReceipt(b: Books, id: Id, r: Receipt): (out: (Books, Reply))
    requires r.status.Pending?
    ensures out.0 == b.(receipts := out.0.receipts) && (out.1 != Done ==> out.0 == b)
  {
    if exists x :: x in b.receipts && b.receipts[x].messageId == r.messageId then (b, Conflict)
    else (b.(receipts := b.receipts[id := r]), Done)
  }

  // ---- Chat links ----------------------------------------------------------------------------------

  predicate ChatTaken(b: Books, chat: string) {
    exists l :: l in b.links && b.links[l].chat == chat && b.links[l].deletedAt.None?
  }

  function CreateLink(b: Books, actor: Actor, id: Id, chat: string, group: Id): (out: (Books, Reply))
    ensures out.0 == b.(links := out.0.links) && (out.1 != Done ==> out.0 == b)
  {
    if !actor.role.SuperAdmin? then (b, Forbidden)
    else if Trim(chat) == "" then (b, BadRequest)
    else if !LiveGroup(b, group) then (b, NotFound)
    else if ChatTaken(b, Trim(chat)) then (b, Conflict)
    else (b.(links := b.links[id := Link(Trim(chat), group, None)]), Done)
  }

  function DeleteLink(b: Books, actor: Actor, id: Id, now: Time): (out: (Books, Reply))
    ensures out.0 == b.(links := out.0.links) && (out.1 != Done ==> out.0 == b)
  {
    if !actor.role.SuperAdmin? then (b, Forbidden)
    else if id !in b.links then (b, NotFound)
    else if b.links[id].deletedAt.Some? then (b, Done)
    else (b.(links := b.links[id := b.links[id].(deletedAt := Some(now))]), Done)
  }

  // ---- Runs ----------------------------------------------------------------------------------------

  datatype Call =
    | CallCreateGroup(actor: Actor, id: Id, name: string, description: Option<string>)
    | CallUpdateGroup(actor: Actor, id: Id, groupPatch: GroupPatch)
    | CallDeleteGroup(actor: Actor, id: Id, now: Time)
    | CallCreateMember(actor: Actor, id: Id, group: Id, newMember: NewMember)
    | CallUpdateMember(actor: Actor, id: Id, memberPatch: MemberPatch)
    | CallDeleteMember(actor: Actor, id: Id, now: Time)
    | CallCreateCycle(actor: Actor, id: Id, group: Id, newCycle: NewCycle)
    | CallUpdateCycle(actor: Actor, id: Id, cyclePatch: CyclePatch)
    | CallDeleteCycle(actor: Actor, id: Id)
    | CallCreatePayment(actor: Actor, id: Id, newPayment: NewPayment)
    | CallDeletePayment(actor: Actor, member: Id, cycle: Id, now: Time)
    | CallConfirm(actor: Actor, id: Id, payment: Id)
    | CallReject(actor: Actor, id: Id, reason: Option<string>)
    | CallFlag(actor: Actor, id: Id, reason: Option<string>)
    | CallIngest(id: Id, receipt: Receipt)
    | CallCreateLink(actor: Actor, id: Id, chat: string, group: Id)
    | CallDeleteLink(actor: Actor, id: Id, now: Time)

  /** A receipt is ingested pending, for a member that was looked up in its group. */
  predicate MayBeIngested(b: Books, r: Receipt) {
    && r.status.Pending? && r.deletedAt.None?
    && (r.member.Some? ==> r.member.value in b.members && b.members[r.member.value].group == r.group)
  }

  /** New records get ids that are not in use. */
  predicate Enabled(b: Books, c: Call) {
    match c
    case CallCreateGroup(_, id, _, _) => id !in b.groups
    case CallCreateMember(_, id, _, _) => id !in b.members
    case CallCreateCycle(_, id, _, _) => id !in b.cycles
    case CallCreatePayment(_, id, _) => id !in b.payments
    case CallConfirm(_, _, payment) => payment !in b.payments
    case CallIngest(id, r) => id !in b.receipts && MayBeIngested(b, r)
    case CallCreateLink(_, id, _, _) => id !in b.links
    case _ => true
  }

  function Apply(b: Books, c: Call): (Books, Reply)
    requires Enabled(b, c)
  {
    match c
    case CallCreateGroup(actor, id, name, description) => CreateGroup(b, actor, id, name, description)
    case CallUpdateGroup(actor, id, patch) => UpdateGroup(b, actor, id, patch)
    case CallDeleteGroup(actor, id, now) => DeleteGroup(b, actor, id, now)
    case CallCreateMember(actor, id, group, member) => CreateMember(b, actor, id, group, member)
    case CallUpdateMember(actor, id, patch) => UpdateMember(b, actor, id, patch)
    case CallDeleteMember(actor, id, now) => DeleteMember(b, actor, id, now)
    case CallCreateCycle(actor, id, group, cycle) => CreateCycle(b, actor, id, group, cycle)
    case CallUpdateCycle(actor, id, patch) => UpdateCycle(b, actor, id, patch)
    case CallDeleteCycle(actor, id) => DeleteCycle(b, actor, id)
    case CallCreatePayment(actor, id, pay) => CreatePayment(b, actor, id, pay)
    case CallDeletePayment(actor, member, cycle, now) => DeletePayment(b, actor, member, cycle, now)
    case CallConfirm(actor, id, payment) => ConfirmReceipt(b, actor, id, payment)
    case CallReject(actor, id, reason) => TransitionReceipt(b, actor, id, Rejected, reason)
    case CallFlag(actor, id, reason) => TransitionReceipt(b, actor, id, Flagged, reason)
    case CallIngest(id, receipt) => InsertReceipt(b, id, receipt)
    case CallCreateLink(actor, id, chat, group) => CreateLink(b, actor, id, chat, group)
    case CallDeleteLink(actor, id, now) => DeleteLink(b, actor, id, now)
  }

  const EMPTY: Books := Books(map[], map[], map[], map[], map[], map[])

  ghost predicate NextAt(tr: seq<Books>, i: nat)
    requires i + 1 < |tr|
  {
    exists c :: Enabled(tr[i], c) && tr[i + 1] == Apply(tr[i], c).0
  }

  /** Any sequence of handler calls on books that were empty at first. */
  ghost predicate Run(tr: seq<Books>) {
    |tr| > 0 && tr[0] == EMPTY && forall i :: 0 <= i < |tr| - 1 ==> NextAt(tr, i)
  }
}
