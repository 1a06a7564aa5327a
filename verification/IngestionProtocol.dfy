/**
 * Ingesting receipts (src/ingestion.rs) while other deliveries of the same message, admins and
 * failures interleave.  Each lookup and the insert is one atomic statement.
 */
module IngestionProtocol {
  import opened Prelude
  import opened Money

  type Id = nat
  type CallId = nat

  datatype ActiveCycle = ActiveCycle(id: Id, group: Id, number: int, contribution: int)

  /** What the lookups of src/routing.rs look at: live links, live groups, live members, active cycles. */
  datatype Directory = Directory(
    links: map<string, Id>, groups: set<Id>, members: map<(Id, string), Id>, active: set<ActiveCycle>)

  datatype Receipt = Receipt(
    messageId: string, group: Id, phone: string, member: Option<Id>, cycle: Option<Id>,
    extracted: Option<int>, expected: Option<int>, matches: Option<bool>, deleted: bool)

  /** `amount`: the amount field of the parsed receipt, a normalised string. */
  datatype Input = Input(chat: string, phone: string, messageId: string, amount: Option<string>)

  datatype Outcome = NotLinked | DuplicateMessage | Ingested(id: Id) | StorageError

  datatype Pc =
    | FindingLink
    | FindingGroup(group: Id)
    | FindingDuplicate(group: Id)
    | FindingMember(group: Id)
    | FindingCycle(group: Id, member: Option<Id>)
    | Inserting(receipt: Receipt)
    | Finished(outcome: Outcome)

  /** `linked`: the live group that the chat was found to be linked to.  `clean`: no statement of this call
      has failed yet. */
  datatype Call = Call(input: Input, linked: Option<Id>, pc: Pc, clean: bool)

  datatype System = System(receipts: map<Id, Receipt>, directory: Directory, calls: map<CallId, Call>)

  /** `strip_jid`: everything before the first `@`. */
  function StripJid(jid: string): (phone: string)
    ensures '@' !in phone && phone <= jid
    ensures |phone| < |jid| ==> jid[|phone|] == '@'
  {
    if jid == "" || jid[0] == '@' then "" else [jid[0]] + StripJid(jid[1..])
  }

  function Lookup<K, V>(m: map<K, V>, k: K): Option<V> {
    if k in m then Some(m[k]) else None
  }

  /** A row, deleted or not, has the message id: this is what the unique index looks at. */
  predicate Carried(receipts: map<Id, Receipt>, message: string) {
    exists r :: r in receipts && receipts[r].messageId == message
  }

  /** The lookup before the insert passes over deleted rows. */
  predicate SeenLive(receipts: map<Id, Receipt>, message: string) {
    exists r :: r in receipts && receipts[r].messageId == message && !receipts[r].deleted
  }

  function Compared(extracted: Option<int>, expected: Option<int>): Option<bool> {
    if extracted.Some? && expected.Some? then AmountMatches(extracted.value, expected.value) else None
  }

  function Content(input: Input, group: Id, member: Option<Id>, cycle: Option<ActiveCycle>): Receipt {
    var extracted := if input.amount.Some? then ParseAmountToKobo(input.amount.value) else None;
    var expected := if cycle.Some? then Some(cycle.value.contribution) else None;
    Receipt(input.messageId, group, StripJid(input.phone), member, if cycle.Some? then Some(cycle.value.id) else None,
            extracted, expected, Compared(extracted, expected), false)
  }

  /** ORDER BY cycle_number ASC LIMIT 1: an active cycle of the lowest number, whichever if several have it. */
  ghost predicate MayFindCycle(active: set<ActiveCycle>, group: Id, found: Option<ActiveCycle>) {
    match found
    case None => forall a :: a in active ==> a.group != group
    case Some(f) =>
      f in active && f.group == group && forall a :: a in active && a.group == group ==> f.number <= a.number
  }

  /** `likeUnique`: the text of a failed insert contains one of the phrases that mean a unique violation. */
  datatype Event =
    | Begin(c: CallId, input: Input)
    | FindLink(c: CallId, io: Io)
    | FindGroup(c: CallId, io: Io)
    | FindDuplicate(c: CallId, io: Io)
    | FindMember(c: CallId, io: Io)
    | FindCycle(c: CallId, found: Option<ActiveCycle>, io: Io)
    | Insert(c: CallId, id: Id, io: Io, likeUnique: bool)
    | ChangeDirectory(directory: Directory)
    | ChangeReceipt(id: Id, receipt: Receipt)

  /** Contributions pass the request validation, so they are positive and fit an i64. */
  predicate ValidDirectory(d: Directory) {
    forall a :: a in d.active ==> 0 < a.contribution <= I64_MAX
  }

  /** Admins may do anything to a row but give it another message id; rows are never removed. */
  ghost predicate Enabled(s: System, e: Event) {
    match e
    case Begin(c, _) => c !in s.calls
    case FindLink(c, _) => c in s.calls && s.calls[c].pc.FindingLink?
    case FindGroup(c, _) => c in s.calls && s.calls[c].pc.FindingGroup?
    case FindDuplicate(c, _) => c in s.calls && s.calls[c].pc.FindingDuplicate?
    case FindMember(c, _) => c in s.calls && s.calls[c].pc.FindingMember?
    case FindCycle(c, found, _) =>
      c in s.calls && s.calls[c].pc.FindingCycle? && MayFindCycle(s.directory.active, s.calls[c].pc.group, found)
    case Insert(c, id, _, _) => c in s.calls && s.calls[c].pc.Inserting? && id !in s.receipts
    case ChangeDirectory(d) => ValidDirectory(d)
    case ChangeReceipt(id, r) => id in s.receipts && r.messageId == s.receipts[id].messageId
  }

  function Goto(s: System, c: CallId, pc: Pc, io: Io): System
    requires c in s.calls
  {
    s.(calls := s.calls[c := s.calls[c].(
      pc := if io.Failed() then Finished(StorageError) else pc, clean := s.calls[c].clean && !io.Failed())])
  }

  function InsertOutcome(s: System, c: CallId, id: Id, io: Io, likeUnique: bool): Outcome
    requires c in s.calls && s.calls[c].pc.Inserting?
  {
    if io.Failed() then (if likeUnique then DuplicateMessage else StorageError)
    else if Carried(s.receipts, s.calls[c].pc.receipt.messageId) then DuplicateMessage
    else Ingested(id)
  }

  function ApplyInsert(s: System, c: CallId, id: Id, io: Io, likeUnique: bool): System
    requires c in s.calls && s.calls[c].pc.Inserting?
  {
    var row := s.calls[c].pc.receipt;
    s.(receipts := if io.Took() && !Carried(s.receipts, row.messageId) then s.receipts[id := row] else s.receipts,
       calls := s.calls[c := s.calls[c].(
         pc := Finished(InsertOutcome(s, c, id, io, likeUnique)), clean := s.calls[c].clean && !io.Failed())])
  }

  function AfterFindLink(s: System, c: CallId): Pc
    requires c in s.calls
  {
    var g := Lookup(s.directory.links, s.calls[c].input.chat);
    if g.Some? then FindingGroup(g.value) else Finished(NotLinked)
  }

  /** The group of the link, unless it is deleted or gone. */
  function ApplyFindGroup(s: System, c: CallId, io: Io): System
    requires c in s.calls && s.calls[c].pc.FindingGroup?
  {
    var g := s.calls[c].pc.group;
    if g !in s.directory.groups then Goto(s, c, Finished(NotLinked), io)
    else
      var s' := Goto(s, c, FindingDuplicate(g), io);
      if io.Failed() then s' else s'.(calls := s'.calls[c := s'.calls[c].(linked := Some(g))])
  }

  function Apply(s: System, e: Event): System
    requires Enabled(s, e)
  {
    match e
    case Begin(c, input) => s.(calls := s.calls[c := Call(input, None, FindingLink, true)])
    case FindLink(c, io) => Goto(s, c, AfterFindLink(s, c), io)
    case FindGroup(c, io) => ApplyFindGroup(s, c, io)
    case FindDuplicate(c, io) =>
      Goto(s, c, if SeenLive(s.receipts, s.calls[c].input.messageId) then Finished(DuplicateMessage)
                 else FindingMember(s.calls[c].pc.group), io)
    case FindMember(c, io) =>
      var group := s.calls[c].pc.group;
      Goto(s, c, FindingCycle(group, Lookup(s.directory.members, (group, StripJid(s.calls[c].input.phone)))), io)
    case FindCycle(c, found, io) =>
      var FindingCycle(group, member) := s.calls[c].pc;
      Goto(s, c, Inserting(Content(s.calls[c].input, group, member, found)), io)
    case Insert(c, id, io, likeUnique) => ApplyInsert(s, c, id, io, likeUnique)
    case ChangeDirectory(d) => s.(directory := d)
    case ChangeReceipt(id, r) => s.(receipts := s.receipts[id := r])
  }

  ghost predicate Init(s: System) {
    s == System(map[], Directory(map[], {}, map[], {}), map[])
  }

  ghost predicate NextAt(tr: seq<System>, i: nat)
    requires i + 1 < |tr|
  {
    exists e :: Enabled(tr[i], e) && tr[i + 1] == Apply(tr[i], e)
  }

  ghost predicate Run(tr: seq<System>) {
    |tr| > 0 && Init(tr[0]) && forall i :: 0 <= i < |tr| - 1 ==> NextAt(tr, i)
  }
}
