/**
 * What each statement of an ingestion answers, and what the stored receipt says: column by column
 * what the lookups found, and in kobo what the text of the receipt means.
 */
module IngestionAnswers {
  import opened Prelude
  import opened Money
  import opened AmountPattern
  import opened IngestionProtocol
  import opened IngestionTheorems

  // ---- One statement ---------------------------------------------------------------------------------

  /** The lookups that decide whether the message is wanted at all. */
  lemma RoutingAnswers(s: System, e: Event)
    requires Enabled(s, e) && (e.FindLink? || e.FindGroup? || e.FindDuplicate?)
    ensures var s' := Apply(s, e);
      var call, call' := s.calls[e.c], s'.calls[e.c];
      && s'.receipts == s.receipts && s'.directory == s.directory && call'.input == call.input
      && (e.io != Answered ==> call'.pc == Finished(StorageError) && call'.linked == call.linked)
      && (e.io == Answered && e.FindLink? ==>
            call'.pc == if call.input.chat in s.directory.links then FindingGroup(s.directory.links[call.input.chat])
                        else Finished(NotLinked))
      && (e.io == Answered && e.FindGroup? ==>
            && call'.pc == (if call.pc.group in s.directory.groups then FindingDuplicate(call.pc.group)
                            else Finished(NotLinked))
            && call'.linked == (if call.pc.group in s.directory.groups then Some(call.pc.group) else call.linked))
      && (e.io == Answered && e.FindDuplicate? ==>
            call'.pc ==
              if exists r :: r in s.receipts && s.receipts[r].messageId == call.input.messageId
                             && !s.receipts[r].deleted
              then Finished(DuplicateMessage) else FindingMember(call.pc.group))
  {}

  /** The insert takes effect exactly when no row, deleted or not, has the message id. */
  lemma InsertAnswers(s: System, c: CallId, id: Id, io: Io, likeUnique: bool)
    requires Enabled(s, Insert(c, id, io, likeUnique))
    ensures var s' := Apply(s, Insert(c, id, io, likeUnique));
      var row := s.calls[c].pc.receipt;
      var taken := exists r :: r in s.receipts && s.receipts[r].messageId == row.messageId;
      && s'.directory == s.directory
      && s'.receipts == (if io.Took() && !taken then s.receipts[id := row] else s.receipts)
      && s'.calls[c].pc == Finished(
           if io == Answered then (if taken then DuplicateMessage else Ingested(id))
           else if likeUnique then DuplicateMessage else StorageError)
  {}

  // ---- Where the columns of a receipt come from ------------------------------------------------------

  /** The chat was linked to the group at some moment of call `c` before `i`. */
  ghost predicate WasLinked(tr: seq<System>, i: nat, c: CallId, chat: string, g: Id) {
    exists k :: 0 <= k < i && k < |tr| && c in tr[k].calls
                && chat in tr[k].directory.links && tr[k].directory.links[chat] == g
  }

  ghost predicate WasLive(tr: seq<System>, i: nat, c: CallId, g: Id) {
    exists k :: 0 <= k < i && k < |tr| && c in tr[k].calls && g in tr[k].directory.groups
  }

  /** `member` is who had the phone in the group at some moment of call `c` before `i`, or nobody had it then. */
  ghost predicate WasMember(tr: seq<System>, i: nat, c: CallId, g: Id, phone: string, member: Option<Id>) {
    exists k :: 0 <= k < i && k < |tr| && c in tr[k].calls &&
      var members := tr[k].directory.members;
      if member.Some? then (g, phone) in members && members[(g, phone)] == member.value else (g, phone) !in members
  }

  /** A lowest active cycle of the group at some moment of call `c` before `i`, with its contribution;
      or there was none. */
  ghost predicate WasActive(tr: seq<System>, i: nat, c: CallId, g: Id, cycle: Option<Id>, expected: Option<int>) {
    exists k :: 0 <= k < i && k < |tr| && c in tr[k].calls && IsLowestActive(tr[k].directory.active, g, cycle, expected)
  }

  ghost predicate IsLowest(active: set<ActiveCycle>, g: Id, a: ActiveCycle) {
    a.group == g && forall x :: x in active && x.group == g ==> a.number <= x.number
  }

  ghost predicate IsLowestActive(active: set<ActiveCycle>, g: Id, cycle: Option<Id>, expected: Option<int>) {
    if cycle.Some? then
      expected.Some? && exists a :: a in active && IsLowest(active, g, a) && a.id == cycle.value
                                    && a.contribution == expected.value
    else expected.None? && forall x :: x in active ==> x.group != g
  }

  /** The text before the first `@`, or all of it. */
  predicate IsPhoneOf(phone: string, jid: string) {
    && |phone| <= |jid| && phone == jid[..|phone|] && (forall i :: 0 <= i < |phone| ==> phone[i] != '@')
    && (|phone| < |jid| ==> jid[|phone|] == '@')
  }

  /** The verdict is there exactly when both amounts are, and says whether they are at most 100 kobo apart. */
  predicate IsVerdict(extracted: Option<int>, expected: Option<int>, matches: Option<bool>) {
    if extracted.Some? && expected.Some? then matches == Some(-100 <= extracted.value - expected.value <= 100)
    else matches == None
  }

  ghost predicate FoundRow(tr: seq<System>, i: nat, c: CallId, input: Input, r: Receipt) {
    && r.messageId == input.messageId && !r.deleted && IsPhoneOf(r.phone, input.phone)
    && WasLinked(tr, i, c, input.chat, r.group) && WasLive(tr, i, c, r.group)
    && WasMember(tr, i, c, r.group, r.phone, r.member) && WasActive(tr, i, c, r.group, r.cycle, r.expected)
    && r.extracted == (if input.amount.Some? then ParseAmountToKobo(input.amount.value) else None)
    && IsVerdict(r.extracted, r.expected, r.matches)
  }

  /** The row was inserted before `i`, as it had been put together. */
  ghost predicate WasInserted(tr: seq<System>, i: nat, c: CallId, input: Input, id: Id) {
    exists k :: 0 < k <= i && k < |tr| && id in tr[k].receipts && FoundRow(tr, k, c, input, tr[k].receipts[id])
  }

  ghost predicate FoundOk(tr: seq<System>, i: nat, c: CallId, call: Call) {
    var input := call.input;
    match call.pc
    case FindingGroup(g) => WasLinked(tr, i, c, input.chat, g)
    case FindingDuplicate(g) => WasLinked(tr, i, c, input.chat, g) && WasLive(tr, i, c, g)
    case FindingMember(g) => WasLinked(tr, i, c, input.chat, g) && WasLive(tr, i, c, g)
    case FindingCycle(g, m) =>
      && WasLinked(tr, i, c, input.chat, g) && WasLive(tr, i, c, g)
      && exists phone :: IsPhoneOf(phone, input.phone) && WasMember(tr, i, c, g, phone, m)
    case Inserting(r) => FoundRow(tr, i, c, input, r)
    case Finished(Ingested(id)) => WasInserted(tr, i, c, input, id)
    case _ => true
  }

  lemma FoundStays(tr: seq<System>, i: nat, c: CallId, call: Call)
    requires FoundOk(tr, i, c, call)
    ensures FoundOk(tr, i + 1, c, call)
  {
    hide IsLowestActive, IsVerdict, IsPhoneOf, ParseAmountToKobo;
  }

  lemma OnePhone(p: string, q: string, jid: string)
    requires IsPhoneOf(p, jid) && IsPhoneOf(q, jid)
    ensures p == q
  {}

  lemma ContentIsFound(tr: seq<System>, i: nat, c: CallId, input: Input, g: Id, m: Option<Id>,
                       found: Option<ActiveCycle>)
    requires i < |tr| && c in tr[i].calls && Inv(tr[i]) && MayFindCycle(tr[i].directory.active, g, found)
    requires WasLinked(tr, i, c, input.chat, g) && WasLive(tr, i, c, g)
    requires exists phone :: IsPhoneOf(phone, input.phone) && WasMember(tr, i, c, g, phone, m)
    ensures FoundRow(tr, i + 1, c, input, Content(input, g, m, found))
  {
    var r := Content(input, g, m, found);
    VerdictIsTheComparison(tr[i], input, g, m, found);
    hide Inv, ParseAmountToKobo, Compared, StripJid, MayFindCycle;
    LowestIsActive(tr[i].directory.active, g, found);
    assert WasActive(tr, i + 1, c, g, r.cycle, r.expected);
    hide IsLowestActive;
    assert IsPhoneOf(r.phone, input.phone) by { assert r.phone == StripJid(input.phone); }
    var phone :| IsPhoneOf(phone, input.phone) && WasMember(tr, i, c, g, phone, m);
    OnePhone(phone, r.phone, input.phone);
    hide IsPhoneOf;
  }

  lemma LowestIsActive(active: set<ActiveCycle>, g: Id, found: Option<ActiveCycle>)
    requires MayFindCycle(active, g, found)
    ensures IsLowestActive(active, g, if found.Some? then Some(found.value.id) else None,
                           if found.Some? then Some(found.value.contribution) else None)
  {}

  lemma MemberStep(tr: seq<System>, i: nat, e: Event)
    requires i + 1 < |tr| && Enabled(tr[i], e) && e.FindMember? && tr[i + 1] == Apply(tr[i], e)
    requires FoundOk(tr, i + 1, e.c, tr[i].calls[e.c])
    ensures FoundOk(tr, i + 1, e.c, tr[i + 1].calls[e.c])
  {
    var call, call' := tr[i].calls[e.c], tr[i + 1].calls[e.c];
    hide StripJid, IsPhoneOf;
    if e.io == Answered {
      PhoneIs(call.input.phone);
      assert WasMember(tr, i + 1, e.c, call.pc.group, StripJid(call.input.phone), call'.pc.member);
    }
  }

  lemma CycleStep(tr: seq<System>, i: nat, e: Event)
    requires i + 1 < |tr| && Inv(tr[i]) && Enabled(tr[i], e) && e.FindCycle? && tr[i + 1] == Apply(tr[i], e)
    requires FoundOk(tr, i, e.c, tr[i].calls[e.c])
    ensures FoundOk(tr, i + 1, e.c, tr[i + 1].calls[e.c])
  {
    hide Inv, Content, FoundRow, IsPhoneOf;
    var call := tr[i].calls[e.c];
    ContentIsFound(tr, i, e.c, call.input, call.pc.group, call.pc.member, e.found);
  }

  /** The statement of a call, from what it had found to what it has found then. */
  lemma OwnStep(tr: seq<System>, i: nat, e: Event, c: CallId)
    requires i + 1 < |tr| && Inv(tr[i]) && Enabled(tr[i], e) && tr[i + 1] == Apply(tr[i], e)
    requires c in tr[i].calls && FoundOk(tr, i, c, tr[i].calls[c]) && FoundOk(tr, i + 1, c, tr[i].calls[c])
    requires !e.Begin? && !e.ChangeDirectory? && !e.ChangeReceipt? && e.c == c
    ensures c in tr[i + 1].calls && FoundOk(tr, i + 1, c, tr[i + 1].calls[c])
  {
    hide Inv, Content, FoundRow, IsPhoneOf, MayFindCycle, StripJid, WasMember;
    if e.FindCycle? {
      CycleStep(tr, i, e);
    } else if e.FindMember? {
      MemberStep(tr, i, e);
    }
  }

  lemma PhoneIs(jid: string)
    ensures IsPhoneOf(StripJid(jid), jid)
  {}

  lemma OthersStand(s: System, e: Event)
    requires Enabled(s, e)
    ensures forall c :: c in s.calls && (e.ChangeDirectory? || e.ChangeReceipt? || e.c != c) ==>
      c in Apply(s, e).calls && Apply(s, e).calls[c] == s.calls[c]
    ensures forall c :: c in Apply(s, e).calls && c !in s.calls ==> e.Begin? && Apply(s, e).calls[c].pc == FindingLink
  {}

  lemma {:induction false} RunFinds(tr: seq<System>, i: nat, c: CallId)
    requires Run(tr) && i < |tr| && c in tr[i].calls
    ensures FoundOk(tr, i, c, tr[i].calls[c])
  {
    hide Apply, Enabled, Inv, FoundOk;
    if i > 0 {
      RunInv(tr, i - 1);
      var e := RunStep(tr, i - 1);
      OthersStand(tr[i - 1], e);
      if c in tr[i - 1].calls {
        RunFinds(tr, i - 1, c);
        FoundStays(tr, i - 1, c, tr[i - 1].calls[c]);
        if e.ChangeDirectory? || e.ChangeReceipt? || e.c != c {
        } else {
          NotBegin(tr[i - 1], e);
          OwnStep(tr, i - 1, e, c);
        }
      } else {
        NothingFound(tr, i, c, tr[i].calls[c]);
      }
    }
  }

  lemma NotBegin(s: System, e: Event)
    requires Enabled(s, e) && !e.ChangeDirectory? && !e.ChangeReceipt? && e.c in s.calls
    ensures !e.Begin?
  {}

  lemma NothingFound(tr: seq<System>, i: nat, c: CallId, call: Call)
    requires call.pc == FindingLink
    ensures FoundOk(tr, i, c, call)
  {}

  /**
   * Whatever an ingestion stores, each column is what its lookup found at some moment of the call:
   * the group the chat was linked to, live, the member with the sender's phone in it, a lowest active
   * cycle with its contribution; and the verdict compares the two amounts.
   */
  lemma StoredRowIsWhatWasFound(tr: seq<System>, i: nat, c: CallId) returns (k: nat)
    requires Run(tr) && i < |tr| && c in tr[i].calls && IsIngested(tr[i].calls[c])
    ensures 0 < k <= i && var id := tr[i].calls[c].pc.outcome.id;
      id in tr[k].receipts && FoundRow(tr, k, c, tr[i].calls[c].input, tr[k].receipts[id])
  {
    RunFinds(tr, i, c);
    hide Run, FoundRow;
    var call := tr[i].calls[c];
    assert WasInserted(tr, i, c, call.input, call.pc.outcome.id);
    k :| 0 < k <= i && k < |tr| && call.pc.outcome.id in tr[k].receipts
         && FoundRow(tr, k, c, call.input, tr[k].receipts[call.pc.outcome.id]);
  }

  /** The stored amount is what the first amount in the text means in kobo, if it is read at all. */
  lemma StoredAmountIsWhatTheTextSays(tr: seq<System>, i: nat, c: CallId, input: Input, r: Receipt,
                                      text: string, nd: set<char>)
    requires FoundRow(tr, i, c, input, r) && IsDigitClass(nd) && input.amount == ExtractAmount(text, nd)
    ensures var found := FindAmount(text, 0, nd);
      if found.None? then r.extracted == None
      else
        var m := text[found.value.0..found.value.1];
        && IsAmount(m, nd)
        && r.extracted == if Plain(m, nd) && KoboMeant(m) <= I64_MAX then Some(KoboMeant(m)) else None
  {
    hide IsAmount, ParseAmountToKobo, KoboMeant, Plain, FindAmount, IsDigitClass;
    hide WasLinked, WasLive, WasMember, WasActive;
    ExtractedAmountIsWhatTheTextSays(text, nd);
    hide ExtractAmount;
  }
}
