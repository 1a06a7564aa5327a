/**
 * `ingest_receipt` as it runs: statement after statement, with other deliveries and admins in
 * between.  `Valid` says that what happened so far is a run of the protocol.
 */
module IngestionServer {
  import opened Prelude
  import opened IngestionProtocol

  lemma Extend(log: seq<System>, e: Event, s: System)
    requires Run(log) && Enabled(log[|log| - 1], e) && s == Apply(log[|log| - 1], e)
    ensures Run(log + [s])
  {
    hide Enabled, Apply, Init;
    var tr := log + [s];
    forall i | 0 <= i < |tr| - 1 ensures NextAt(tr, i) {
      if i < |log| - 1 {
        assert NextAt(log, i);
        var d :| Enabled(log[i], d) && log[i + 1] == Apply(log[i], d);
        assert Enabled(tr[i], d);
      } else {
        assert Enabled(tr[i], e);
      }
    }
  }

  class Intake {
    var receipts: map<Id, Receipt>
    var directory: Directory
    ghost var calls: map<CallId, Call>
    ghost var log: seq<System>

    ghost function State(): System
      reads this
    {
      System(receipts, directory, calls)
    }

    ghost predicate Valid()
      reads this
    {
      Run(log) && log[|log| - 1] == State()
    }

    constructor ()
      ensures Valid() && receipts == map[]
    {
      receipts, directory, calls := map[], Directory(map[], {}, map[], {}), map[];
      log := [System(map[], Directory(map[], {}, map[], {}), map[])];
    }

    /** Other calls run.  Callers know only that the log went on and that their own call stood still. */
    method Interfere(ghost c: CallId)
      requires Valid() && c in calls
      modifies this
      ensures Valid() && old(log) <= log && c in calls && calls[c] == old(calls[c])
    {}

    ghost method Record(e: Event, before: System)
      requires Run(log) && log[|log| - 1] == before
      requires Enabled(before, e) && State() == Apply(before, e)
      modifies this`log
      ensures Valid() && log == old(log) + [State()]
    {
      Extend(log, e, State());
      log := log + [State()];
    }

    /** The call goes on to `pc`, or ends with a storage error if its statement failed. */
    ghost predicate Moved(before: System, c: CallId, io: Io, pc: Pc)
      requires c in before.calls
      reads this
    {
      && c in calls && calls[c].input == before.calls[c].input
      && calls[c].pc == if io.Failed() then Finished(StorageError) else pc
    }

    method IngestReceipt(ghost c: CallId, input: Input) returns (outcome: Outcome)
      requires Valid() && c !in calls
      modifies this
      ensures Valid() && old(log) <= log
      ensures c in calls && calls[c].pc == Finished(outcome) && calls[c].input == input
      ensures outcome.Ingested? ==>
        outcome.id in receipts && receipts[outcome.id].messageId == input.messageId && !receipts[outcome.id].deleted
    {
      hide *;
      Open(c, input);
      Interfere(c);
      var group, ended := Route(c, input);
      if ended.Some? { return ended.value; }
      Interfere(c);
      var row;
      row, ended := Attribute(c, input, group);
      if ended.Some? { return ended.value; }
      Interfere(c);
      outcome := Create(c, row);
    }

    /** Which group the chat belongs to, and whether the message is known there. */
    method Route(ghost c: CallId, input: Input) returns (group: Id, ended: Option<Outcome>)
      requires Valid() && c in calls && calls[c].pc.FindingLink? && calls[c].input == input
      modifies this
      ensures Valid() && old(log) <= log && c in calls && calls[c].input == input
      ensures calls[c].pc == if ended.Some? then Finished(ended.value) else FindingMember(group)
      ensures ended.Some? ==> !ended.value.Ingested?
    {
      hide Run, Apply, Lookup, SeenLive;
      group, ended := FindGroupByChatId(c, input.chat);
      if ended.Some? { return; }
      Interfere(c);
      var seen, io;
      seen, io := FindReceiptByMessageId(c, input.messageId);
      if io.Failed() { return group, Some(StorageError); }
      ended := if seen then Some(DuplicateMessage) else None;
    }

    /** Who sent it and for which cycle, put together with the amount that was read. */
    method Attribute(ghost c: CallId, input: Input, group: Id) returns (row: Receipt, ended: Option<Outcome>)
      requires Valid() && c in calls && calls[c].pc == FindingMember(group) && calls[c].input == input
      modifies this
      ensures Valid() && old(log) <= log && c in calls && calls[c].input == input
      ensures calls[c].pc == if ended.Some? then Finished(ended.value) else Inserting(row)
      ensures ended.Some? ==> !ended.value.Ingested?
      ensures row.messageId == input.messageId && !row.deleted
    {
      hide Run, Apply, Lookup, StripJid;
      row := Content(input, group, None, None);
      var phone := StripJid(input.phone);
      var member, io := FindMemberByPhone(c, group, phone);
      if io.Failed() { return row, Some(StorageError); }
      Interfere(c);
      var cycle;
      cycle, io := FindActiveCycle(c, group, member);
      if io.Failed() { return row, Some(StorageError); }
      row := Content(input, group, member, cycle);
      ended := None;
    }

    method Open(ghost c: CallId, input: Input)
      requires Valid() && c !in calls
      modifies this`calls, this`log
      ensures Valid() && old(log) <= log && c in calls && calls[c] == Call(input, None, FindingLink, true)
    {
      hide Run;
      ghost var before := State();
      calls := calls[c := Call(input, None, FindingLink, true)];
      Record(Begin(c, input), before);
    }

    /** The ghost side of a statement of call `c`: it did to the system what event `e` does. */
    ghost method Move(c: CallId, e: Event)
      requires Valid() && Enabled(State(), e) && c in calls && c in Apply(State(), e).calls
      requires Apply(State(), e).receipts == receipts && Apply(State(), e).directory == directory
      modifies this`calls, this`log
      ensures Valid() && old(log) <= log && State() == Apply(old(State()), e)
    {
      hide Run, Apply, Enabled;
      var before := State();
      calls := Apply(before, e).calls;
      Record(e, before);
    }

    /** The link of the chat, then the group of the link: two statements. */
    method FindGroupByChatId(ghost c: CallId, chat: string) returns (group: Id, ended: Option<Outcome>)
      requires Valid() && c in calls && calls[c].pc.FindingLink? && calls[c].input.chat == chat
      modifies this
      ensures Valid() && old(log) <= log && c in calls && calls[c].input == old(calls[c].input)
      ensures calls[c].pc == if ended.Some? then Finished(ended.value) else FindingDuplicate(group)
      ensures ended.Some? ==> ended.value == StorageError || ended.value == NotLinked
      ensures ended.None? ==> group in directory.groups
    {
      hide Run, Apply, Lookup;
      var found, io := FindLink(c, chat);
      if io.Failed() { return 0, Some(StorageError); }
      if found.None? { return 0, Some(NotLinked); }
      group := found.value;
      Interfere(c);
      var live;
      live, io := SelectGroup(c, group);
      ended := if io.Failed() then Some(StorageError) else if live then None else Some(NotLinked);
    }

    /** SELECT * FROM group_link WHERE chat_id = $cid AND deleted_at IS NONE LIMIT 1 */
    method FindLink(ghost c: CallId, chat: string) returns (group: Option<Id>, io: Io)
      requires Valid() && c in calls && calls[c].pc.FindingLink? && calls[c].input.chat == chat
      modifies this`calls, this`log
      ensures Valid() && old(log) <= log && State() == Apply(old(State()), IngestionProtocol.FindLink(c, io))
      ensures group == Lookup(directory.links, chat)
      ensures Moved(old(State()), c, io, if group.Some? then FindingGroup(group.value) else Finished(NotLinked))
    {
      hide Run;
      io := AskDatabase();
      group := Lookup(directory.links, chat);
      Move(c, IngestionProtocol.FindLink(c, io));
    }

    method SelectGroup(ghost c: CallId, group: Id) returns (live: bool, io: Io)
      requires Valid() && c in calls && calls[c].pc == FindingGroup(group)
      modifies this`calls, this`log
      ensures Valid() && old(log) <= log && State() == Apply(old(State()), FindGroup(c, io))
      ensures live == (group in directory.groups)
      ensures Moved(old(State()), c, io, if live then FindingDuplicate(group) else Finished(NotLinked))
    {
      hide Run;
      io := AskDatabase();
      live := group in directory.groups;
      Move(c, FindGroup(c, io));
    }

    /** SELECT ... WHERE whatsapp_message_id = $mid AND deleted_at IS NONE LIMIT 1 */
    method FindReceiptByMessageId(ghost c: CallId, message: string) returns (seen: bool, io: Io)
      requires Valid() && c in calls && calls[c].pc.FindingDuplicate? && calls[c].input.messageId == message
      modifies this`calls, this`log
      ensures Valid() && old(log) <= log && State() == Apply(old(State()), FindDuplicate(c, io))
      ensures seen == SeenLive(receipts, message)
      ensures Moved(old(State()), c, io,
                    if seen then Finished(DuplicateMessage) else FindingMember(old(calls[c].pc.group)))
    {
      hide Run;
      io := AskDatabase();
      seen := SeenLive(receipts, message);
      Move(c, FindDuplicate(c, io));
    }

    method FindMemberByPhone(ghost c: CallId, group: Id, phone: string) returns (member: Option<Id>, io: Io)
      requires Valid() && c in calls && calls[c].pc == FindingMember(group) && StripJid(calls[c].input.phone) == phone
      modifies this`calls, this`log
      ensures Valid() && old(log) <= log && State() == Apply(old(State()), FindMember(c, io))
      ensures member == Lookup(directory.members, (group, phone))
      ensures Moved(old(State()), c, io, FindingCycle(group, member))
    {
      hide Run, StripJid;
      io := AskDatabase();
      member := Lookup(directory.members, (group, phone));
      Move(c, FindMember(c, io));
    }

    /** SELECT * FROM cycle WHERE group_id = $gid AND status = 'active' ORDER BY cycle_number ASC LIMIT 1 */
    method FindActiveCycle(ghost c: CallId, group: Id, ghost member: Option<Id>)
      returns (cycle: Option<ActiveCycle>, io: Io)
      requires Valid() && c in calls && calls[c].pc == FindingCycle(group, member)
      modifies this`calls, this`log
      ensures Valid() && old(log) <= log && MayFindCycle(directory.active, group, cycle)
      ensures State() == Apply(old(State()), FindCycle(c, cycle, io))
      ensures Moved(old(State()), c, io, Inserting(Content(old(calls[c].input), group, member, cycle)))
    {
      hide Run, Content;
      io := AskDatabase();
      cycle := LowestActive(directory.active, group);
      Move(c, FindCycle(c, cycle, io));
    }

    static method LowestActive(active: set<ActiveCycle>, group: Id) returns (lowest: Option<ActiveCycle>)
      ensures MayFindCycle(active, group, lowest)
    {
      lowest := None;
      var rest := active;
      while rest != {}
        invariant rest <= active && MayFindCycle(active - rest, group, lowest)
        decreases rest
      {
        var a :| a in rest;
        rest := rest - {a};
        if a.group == group && (lowest.None? || a.number < lowest.value.number) { lowest := Some(a); }
      }
      assert active - rest == active;
    }

    /** CREATE receipt, under the unique index on the message id; an error is told apart by its text. */
    method Create(ghost c: CallId, row: Receipt) returns (outcome: Outcome)
      requires Valid() && c in calls && calls[c].pc == Inserting(row)
      modifies this
      ensures Valid() && old(log) <= log && c in calls
      ensures calls[c] == old(calls[c]).(pc := Finished(outcome), clean := calls[c].clean)
      ensures outcome.Ingested? ==>
        outcome.id in receipts && receipts[outcome.id] == row && outcome.id !in old(receipts)
      ensures outcome.Ingested? ==> !Carried(old(receipts), row.messageId)
    {
      hide Run;
      ghost var before := State();
      var id := DrawFresh(receipts.Keys);
      var io := AskDatabase();
      var likeUnique: bool := *;
      ghost var s' := ApplyInsert(before, c, id, io, likeUnique);
      var taken := Carried(receipts, row.messageId);
      if io.Took() && !taken { receipts := receipts[id := row]; }
      if io.Failed() {
        outcome := if likeUnique then DuplicateMessage else StorageError;
      } else {
        outcome := if taken then DuplicateMessage else Ingested(id);
      }
      calls := s'.calls;
      Record(Insert(c, id, io, likeUnique), before);
    }
  }
}
