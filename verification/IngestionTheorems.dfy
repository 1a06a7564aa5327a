/** A message is ingested at most once, and a deleted receipt keeps its message from coming back. */
module IngestionTheorems {
  import opened Prelude
  import opened Money
  import opened MoneyTheorems
  import opened IngestionProtocol

  ghost predicate MessagesUnique(receipts: map<Id, Receipt>) {
    forall r, q | r in receipts && q in receipts :: receipts[r].messageId == receipts[q].messageId ==> r == q
  }

  predicate IsIngested(call: Call) {
    call.pc.Finished? && call.pc.outcome.Ingested?
  }

  ghost predicate CallOk(receipts: map<Id, Receipt>, call: Call) {
    match call.pc
    case FindingLink => call.clean && call.linked.None?
    case FindingGroup(_) => call.clean && call.linked.None?
    case FindingDuplicate(g) => call.clean && call.linked == Some(g)
    case FindingMember(g) => call.clean && call.linked == Some(g)
    case FindingCycle(g, _) => call.clean && call.linked == Some(g)
    case Inserting(r) => call.clean && call.linked == Some(r.group) && r.messageId == call.input.messageId
    case Finished(NotLinked) => call.linked.None?
    case Finished(DuplicateMessage) => call.linked.Some? && (call.clean ==> Carried(receipts, call.input.messageId))
    case Finished(Ingested(id)) =>
      call.clean && call.linked.Some? && id in receipts && receipts[id].messageId == call.input.messageId
    case Finished(StorageError) => !call.clean
  }

  ghost predicate CallsOk(receipts: map<Id, Receipt>, calls: map<CallId, Call>) {
    forall c :: c in calls ==> CallOk(receipts, calls[c])
  }

  /** No row is the answer of two calls. */
  ghost predicate AnswersUnique(calls: map<CallId, Call>) {
    forall c, d | c in calls && d in calls && IsIngested(calls[c]) && IsIngested(calls[d]) ::
      calls[c].pc.outcome.id == calls[d].pc.outcome.id ==> c == d
  }

  ghost predicate Inv(s: System) {
    && MessagesUnique(s.receipts)
    && CallsOk(s.receipts, s.calls)
    && AnswersUnique(s.calls)
    && ValidDirectory(s.directory)
  }

  // ---- Every step keeps the invariant --------------------------------------------------------------

  /** Rows may come and change as long as message ids stay. */
  ghost predicate MessagesStay(receipts: map<Id, Receipt>, receipts': map<Id, Receipt>) {
    forall r :: r in receipts ==> r in receipts' && receipts'[r].messageId == receipts[r].messageId
  }

  lemma CarriedStays(receipts: map<Id, Receipt>, receipts': map<Id, Receipt>, message: string)
    requires MessagesStay(receipts, receipts') && Carried(receipts, message)
    ensures Carried(receipts', message)
  {
    var r :| r in receipts && receipts[r].messageId == message;
    assert r in receipts' && receipts'[r].messageId == message;
  }

  lemma CallStaysOk(receipts: map<Id, Receipt>, receipts': map<Id, Receipt>, call: Call)
    requires MessagesStay(receipts, receipts') && CallOk(receipts, call)
    ensures CallOk(receipts', call)
  {
    if Carried(receipts, call.input.messageId) { CarriedStays(receipts, receipts', call.input.messageId); }
  }

  /** One call moves, perhaps with the receipts; the others stand still. */
  lemma OneMoves(s: System, s': System, c: CallId, call: Call)
    requires Inv(s) && s'.calls == s.calls[c := call] && s'.directory == s.directory
    requires MessagesStay(s.receipts, s'.receipts) && MessagesUnique(s'.receipts) && CallOk(s'.receipts, call)
    requires IsIngested(call) ==> call.pc.outcome.id !in s.receipts
    ensures Inv(s')
  {
    assert CallsOk(s'.receipts, s'.calls) by {
      forall d | d in s'.calls ensures CallOk(s'.receipts, s'.calls[d]) {
        if d != c { CallStaysOk(s.receipts, s'.receipts, s.calls[d]); }
      }
    }
    assert AnswersUnique(s'.calls) by {
      forall d | d in s.calls && IsIngested(s.calls[d]) ensures s.calls[d].pc.outcome.id in s.receipts {
        assert CallOk(s.receipts, s.calls[d]);
      }
    }
  }

  lemma LookupStep(s: System, e: Event)
    requires Inv(s) && Enabled(s, e)
    requires e.Begin? || e.FindLink? || e.FindGroup? || e.FindDuplicate? || e.FindMember? || e.FindCycle?
    ensures Inv(Apply(s, e))
  {
    var s' := Apply(s, e);
    assert CallsOk(s.receipts, s.calls);
    assert e.c in s.calls ==> CallOk(s.receipts, s.calls[e.c]);
    if e.FindDuplicate? && SeenLive(s.receipts, s.calls[e.c].input.messageId) {
      assert Carried(s.receipts, s.calls[e.c].input.messageId);
    }
    hide ParseAmountToKobo, AmountMatches, StripJid, Inv;
    OneMoves(s, s', e.c, s'.calls[e.c]);
  }

  lemma InsertStep(s: System, e: Event)
    requires Inv(s) && Enabled(s, e) && e.Insert?
    ensures Inv(Apply(s, e))
  {
    var s' := Apply(s, e);
    assert CallOk(s.receipts, s.calls[e.c]);
    var row := s.calls[e.c].pc.receipt;
    if e.io.Answered? && !Carried(s.receipts, row.messageId) {
      assert s'.receipts[e.id].messageId == row.messageId;
    }
    InsertedUnique(s.receipts, e.id, row);
    hide Inv;
    OneMoves(s, s', e.c, s'.calls[e.c]);
  }

  lemma InsertedUnique(receipts: map<Id, Receipt>, id: Id, row: Receipt)
    requires MessagesUnique(receipts) && id !in receipts
    ensures !Carried(receipts, row.messageId) ==> MessagesUnique(receipts[id := row])
  {
  }

  lemma OutsideStep(s: System, e: Event)
    requires Inv(s) && Enabled(s, e) && (e.ChangeDirectory? || e.ChangeReceipt?)
    ensures Inv(Apply(s, e))
  {
    var s' := Apply(s, e);
    forall c | c in s'.calls ensures CallOk(s'.receipts, s'.calls[c]) {
      CallStaysOk(s.receipts, s'.receipts, s.calls[c]);
    }
  }

  lemma Step(s: System, e: Event)
    requires Inv(s) && Enabled(s, e)
    ensures Inv(Apply(s, e))
  {
    hide *;
    match e
    case Insert(_, _, _, _) => InsertStep(s, e);
    case ChangeDirectory(_) => OutsideStep(s, e);
    case ChangeReceipt(_, _) => OutsideStep(s, e);
    case _ => LookupStep(s, e);
  }

  lemma RunStart(tr: seq<System>)
    requires Run(tr)
    ensures Inv(tr[0])
  {
  }

  lemma RunStep(tr: seq<System>, i: nat) returns (e: Event)
    requires Run(tr) && i + 1 < |tr|
    ensures Enabled(tr[i], e) && tr[i + 1] == Apply(tr[i], e)
  {
    hide Apply;
    assert NextAt(tr, i);
    e :| Enabled(tr[i], e) && tr[i + 1] == Apply(tr[i], e);
  }

  lemma {:induction false} RunInv(tr: seq<System>, i: nat)
    requires Run(tr) && i < |tr|
    ensures Inv(tr[i])
  {
    hide *;
    if i == 0 {
      RunStart(tr);
    } else {
      RunInv(tr, i - 1);
      var e := RunStep(tr, i - 1);
      Step(tr[i - 1], e);
    }
  }

  // ---- Results over runs ---------------------------------------------------------------------------

  /** A message id has at most one row and at most one call that answered Ingested for it. */
  lemma IngestedAtMostOnce(tr: seq<System>, i: nat, message: string)
    requires Run(tr) && i < |tr|
    ensures forall r, q | r in tr[i].receipts && q in tr[i].receipts ::
              tr[i].receipts[r].messageId == message && tr[i].receipts[q].messageId == message ==> r == q
    ensures forall c, d
              | c in tr[i].calls && d in tr[i].calls && IsIngested(tr[i].calls[c]) && IsIngested(tr[i].calls[d]) ::
              tr[i].calls[c].input.messageId == message && tr[i].calls[d].input.messageId == message ==> c == d
  {
    RunInv(tr, i);
    var s := tr[i];
    forall c, d | c in s.calls && d in s.calls && IsIngested(s.calls[c]) && IsIngested(s.calls[d])
                  && s.calls[c].input.messageId == message && s.calls[d].input.messageId == message
      ensures c == d
    {
      assert CallOk(s.receipts, s.calls[c]) && CallOk(s.receipts, s.calls[d]);
    }
  }

  /**
   * A completed call on a linked chat that met no storage error answered Ingested, and its row is
   * there, or DuplicateMessage, and a row with its message id is there.
   */
  lemma CleanCallsAreIngestedOrDuplicate(tr: seq<System>, i: nat, c: CallId)
    requires Run(tr) && i < |tr| && c in tr[i].calls && tr[i].calls[c].pc.Finished? && tr[i].calls[c].clean
    ensures var call := tr[i].calls[c];
            && (call.linked.None? <==> call.pc.outcome == NotLinked)
            && (call.linked.Some? ==> call.pc.outcome.Ingested? || call.pc.outcome == DuplicateMessage)
            && (call.linked.Some? ==> Carried(tr[i].receipts, call.input.messageId))
  {
    RunInv(tr, i);
    assert CallOk(tr[i].receipts, tr[i].calls[c]);
  }

  /**
   * What decides at the moment a clean call on a linked chat completes: it answers Ingested exactly
   * when no row, live or deleted, has its message id.
   */
  lemma IngestedIffNobodyHasIt(tr: seq<System>, i: nat, c: CallId)
    requires Run(tr) && i + 1 < |tr| && c in tr[i].calls && c in tr[i + 1].calls
    requires !tr[i].calls[c].pc.Finished? && tr[i + 1].calls[c].pc.Finished?
    requires tr[i + 1].calls[c].clean && tr[i + 1].calls[c].linked.Some?
    ensures IsIngested(tr[i + 1].calls[c]) <==> !Carried(tr[i].receipts, tr[i].calls[c].input.messageId)
  {
    RunInv(tr, i);
    var e := RunStep(tr, i);
    var s := tr[i];
    assert CallOk(s.receipts, s.calls[c]);
    if e.FindDuplicate? && e.c == c && SeenLive(s.receipts, s.calls[c].input.messageId) {
      assert Carried(s.receipts, s.calls[c].input.messageId);
    }
    hide ParseAmountToKobo, AmountMatches, StripJid, Inv, Run;
  }

  /** Message ids of rows stay for ever. */
  lemma {:induction false} RowsStay(tr: seq<System>, i: nat, j: nat)
    requires Run(tr) && i <= j < |tr|
    ensures MessagesStay(tr[i].receipts, tr[j].receipts)
    decreases j
  {
    if i < j {
      RowsStay(tr, i, j - 1);
      StepKeepsRows(tr, j - 1);
    }
  }

  lemma StepKeepsRows(tr: seq<System>, i: nat)
    requires Run(tr) && i + 1 < |tr|
    ensures MessagesStay(tr[i].receipts, tr[i + 1].receipts)
  {
    var e := RunStep(tr, i);
    hide ParseAmountToKobo, AmountMatches, StripJid, Run;
  }

  /**
   * A deleted receipt blocks its message for good: the lookup passes over it but the unique index
   * does not.  Once a row has the message id, deleted or not, no call still running then, and none
   * begun later, is ever Ingested with it.
   */
  lemma {:induction false} TombstonesBlock(tr: seq<System>, i: nat, j: nat, c: CallId)
    requires Run(tr) && i <= j < |tr| && c in tr[j].calls && IsIngested(tr[j].calls[c])
    requires Carried(tr[i].receipts, tr[j].calls[c].input.messageId)
    ensures c in tr[i].calls && tr[i].calls[c] == tr[j].calls[c]
    decreases j
  {
    if i < j {
      RowsStay(tr, i, j - 1);
      CarriedStays(tr[i].receipts, tr[j - 1].receipts, tr[j].calls[c].input.messageId);
      NoNewAnswer(tr, j - 1, c);
      TombstonesBlock(tr, i, j - 1, c);
    }
  }

  lemma NoNewAnswer(tr: seq<System>, i: nat, c: CallId)
    requires Run(tr) && i + 1 < |tr| && c in tr[i + 1].calls && IsIngested(tr[i + 1].calls[c])
    requires Carried(tr[i].receipts, tr[i + 1].calls[c].input.messageId)
    ensures c in tr[i].calls && tr[i].calls[c] == tr[i + 1].calls[c]
  {
    RunInv(tr, i);
    var e := RunStep(tr, i);
    assert c in tr[i].calls ==> CallOk(tr[i].receipts, tr[i].calls[c]);
    hide ParseAmountToKobo, AmountMatches, StripJid, Inv, Run;
  }

  // ---- A run in which a tombstone blocks -----------------------------------------------------------

  lemma Grow(tr: seq<System>, e: Event) returns (tr': seq<System>)
    requires Run(tr) && Enabled(tr[|tr| - 1], e)
    ensures Run(tr') && tr <= tr' && |tr'| == |tr| + 1 && tr'[|tr|] == Apply(tr[|tr| - 1], e)
  {
    hide Enabled, Apply, Init;
    tr' := tr + [Apply(tr[|tr| - 1], e)];
    forall i | 0 <= i < |tr'| - 1 ensures NextAt(tr', i) {
      if i < |tr| - 1 {
        assert NextAt(tr, i);
        var d :| Enabled(tr[i], d) && tr[i + 1] == Apply(tr[i], d);
        assert Enabled(tr'[i], d);
      } else {
        assert Enabled(tr'[i], e);
      }
    }
  }

  const ONE_LINK := Directory(map["chat" := 0], {0}, map[], {})
  const DELIVERY := Input("chat", "2348", "message", None)

  function DeliveredRow(): Receipt { Content(DELIVERY, 0, None, None) }

  /** A call in a run of its own up to the insert, when no live row has the message id. */
  lemma Deliver(tr: seq<System>, c: CallId) returns (tr': seq<System>)
    requires Run(tr) && tr[|tr| - 1].directory == ONE_LINK && c !in tr[|tr| - 1].calls
    requires !SeenLive(tr[|tr| - 1].receipts, "message")
    ensures Run(tr') && tr <= tr'
    ensures var s, s' := tr[|tr| - 1], tr'[|tr'| - 1];
      s' == s.(calls := s.calls[c := Call(DELIVERY, Some(0), Inserting(DeliveredRow()), true)])
  {
    hide Run, SeenLive, Content, StripJid;
    tr' := Grow(tr, Begin(c, DELIVERY));
    tr' := Grow(tr', FindLink(c, Answered));
    tr' := Grow(tr', FindGroup(c, Answered));
    tr' := Grow(tr', FindDuplicate(c, Answered));
    tr' := Grow(tr', FindMember(c, Answered));
    tr' := Grow(tr', FindCycle(c, None, Answered));
  }

  /**
   * The input that breaks the promise of re-ingestion: a message is ingested, its receipt is deleted,
   * and the message comes again.  The second call meets no failure and passes the duplicate lookup,
   * and is still refused.
   */
  lemma RedeliveryAfterDeletionIsRefused() returns (tr: seq<System>)
    ensures Run(tr)
    ensures var s := tr[|tr| - 1];
      && 0 in s.receipts && s.receipts[0].deleted && !SeenLive(s.receipts, "message")
      && 1 in s.calls && s.calls[1].pc == Finished(DuplicateMessage) && s.calls[1].clean && s.calls[1].linked == Some(0)
  {
    hide Run, Content, StripJid;
    tr := [System(map[], Directory(map[], {}, map[], {}), map[])];
    OneState(tr);
    tr := Grow(tr, ChangeDirectory(ONE_LINK));
    tr := Deliver(tr, 0);
    assert DeliveredRow().messageId == "message" by { RowOfDelivery(); }
    tr := Grow(tr, Insert(0, 0, Answered, false));
    tr := Grow(tr, ChangeReceipt(0, DeliveredRow().(deleted := true)));
    tr := Deliver(tr, 1);
    assert Carried(tr[|tr| - 1].receipts, "message") by { assert tr[|tr| - 1].receipts[0].messageId == "message"; }
    tr := Grow(tr, Insert(1, 1, Answered, false));
  }

  lemma RowOfDelivery()
    ensures DeliveredRow().messageId == "message" && !DeliveredRow().deleted
  {}

  lemma OneState(tr: seq<System>)
    requires |tr| == 1 && Init(tr[0])
    ensures Run(tr)
  {}

  // ---- What is written -----------------------------------------------------------------------------

  /**
   * The verdict on the amount is never lost to overflow: it is there exactly when both amounts are,
   * and then it says whether they are at most 100 kobo apart.
   */
  lemma VerdictIsTheComparison(s: System, input: Input, group: Id, member: Option<Id>, found: Option<ActiveCycle>)
    requires Inv(s) && MayFindCycle(s.directory.active, group, found)
    ensures var r := Content(input, group, member, found);
            if r.extracted.Some? && r.expected.Some?
            then r.matches == Some(-100 <= r.extracted.value - r.expected.value <= 100)
            else r.matches == None
  {
    if input.amount.Some? && found.Some? && ParseAmountToKobo(input.amount.value).Some? {
      ToleranceIsExact(input.amount.value, found.value.contribution);
    }
    hide ParseAmountToKobo, AmountMatches, StripJid;
  }
}
