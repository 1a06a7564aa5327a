/** What holds of the books in every run of handler calls. */
module LedgerTheorems {
  import opened Prelude
  import opened Ledger
  import opened LedgerInvariants

  lemma RunStart(tr: seq<Books>)
    requires Run(tr)
    ensures Inv(tr[0])
  {
    assert Referential(EMPTY) && Conserved(EMPTY);
  }

  lemma RunStep(tr: seq<Books>, i: nat) returns (c: Call)
    requires Run(tr) && i + 1 < |tr|
    ensures Enabled(tr[i], c) && tr[i + 1] == Apply(tr[i], c).0
  {
    hide Apply;
    assert NextAt(tr, i);
    c :| Enabled(tr[i], c) && tr[i + 1] == Apply(tr[i], c).0;
  }

  lemma {:induction false} RunInv(tr: seq<Books>, i: nat)
    requires Run(tr) && i < |tr|
    ensures Inv(tr[i])
  {
    hide *;
    if i == 0 {
      RunStart(tr);
    } else {
      RunInv(tr, i - 1);
      var c := RunStep(tr, i - 1);
      Step(tr[i - 1], c);
    }
  }

  // ---- Money ---------------------------------------------------------------------------------------

  /** The amounts of the payments made from receipts, deleted or not, by payment. */
  function PaidAmounts(b: Books): map<Id, int> {
    map p | p in b.payments && b.payments[p].paidBy.Some? :: b.payments[p].amount
  }

  /** The extracted amounts of the confirmed receipts, by receipt. */
  function ConfirmedAmounts(b: Books): map<Id, int> {
    map r | r in b.receipts && b.receipts[r].status.Confirmed? ::
      if b.receipts[r].amount.Some? then b.receipts[r].amount.value else 0
  }

  ghost function Total(m: map<Id, int>): int
    decreases |m|
  {
    if m == map[] then 0
    else
      var k :| k in m;
      m[k] + Total(m - {k})
  }

  lemma {:induction false} TotalWithout(m: map<Id, int>, k: Id)
    requires k in m
    ensures Total(m) == m[k] + Total(m - {k})
    decreases |m|
  {
    var x :| x in m && Total(m) == m[x] + Total(m - {x});
    if x != k {
      TotalWithout(m - {x}, k);
      TotalWithout(m - {k}, x);
      assert m - {x} - {k} == m - {k} - {x};
    }
  }

  /** `f` pairs the keys of `a` with those of `c`, one to one, and paired keys carry equal amounts. */
  ghost predicate Pairs(f: map<Id, Id>, a: map<Id, int>, c: map<Id, int>) {
    && f.Keys == a.Keys && f.Values == c.Keys
    && (forall x, y :: x in f && y in f && f[x] == f[y] ==> x == y)
    && (forall x :: x in f && x in a && f[x] in c ==> a[x] == c[f[x]])
  }

  lemma PairRemoved(f: map<Id, Id>, a: map<Id, int>, c: map<Id, int>, x: Id)
    requires Pairs(f, a, c) && x in a
    ensures x in f && f[x] in c && a[x] == c[f[x]]
    ensures Pairs(f - {x}, a - {x}, c - {f[x]})
  {
    assert x in f && f[x] in f.Values;
    var f', c' := f - {x}, c - {f[x]};
    assert f'.Values <= c'.Keys;
    forall v | v in c' ensures v in f'.Values {
      assert v in f.Values;
      var y :| y in f && f[y] == v;
      assert y in f' && f'[y] == v;
    }
  }

  lemma NothingPaired(f: map<Id, Id>, a: map<Id, int>, c: map<Id, int>)
    requires Pairs(f, a, c) && a == map[]
    ensures c == map[]
  {
    assert f.Keys == {} && f.Values == {};
  }

  lemma {:induction false} PairedTotals(f: map<Id, Id>, a: map<Id, int>, c: map<Id, int>)
    requires Pairs(f, a, c)
    ensures Total(a) == Total(c) && |a| == |c|
    decreases |a|
  {
    hide Pairs;
    if a == map[] {
      NothingPaired(f, a, c);
    } else {
      var x :| x in a;
      PairRemoved(f, a, c, x);
      var y := f[x];
      assert |a - {x}| == |a| - 1 && |c - {y}| == |c| - 1 by { Shrinks(a, x); Shrinks(c, y); }
      PairedTotals(f - {x}, a - {x}, c - {y});
      TotalWithout(a, x);
      TotalWithout(c, y);
    }
  }

  lemma Shrinks(m: map<Id, int>, k: Id)
    requires k in m
    ensures |m - {k}| == |m| - 1
  {
    assert (m - {k}).Keys == m.Keys - {k};
    assert |(m - {k}).Keys| == |m - {k}| && |m.Keys| == |m|;
  }

  /** The receipt a payment was made from. */
  ghost function Source(b: Books, p: Id): Id
    requires PaymentsEarned(b.payments, b.receipts) && p in b.payments && b.payments[p].paidBy.Some?
    ensures Source(b, p) in b.receipts && Matches(b.payments[p], b.receipts[Source(b, p)])
  {
    var r :| r in b.receipts && Matches(b.payments[p], b.receipts[r]); r
  }

  function PaidKeys(b: Books): set<Id> {
    set p | p in b.payments && b.payments[p].paidBy.Some?
  }

  lemma EveryReceiptIsASource(b: Books, r: Id) returns (p: Id)
    requires Conserved(b) && r in b.receipts && b.receipts[r].status.Confirmed?
    ensures p in PaidKeys(b) && Source(b, p) == r
  {
    hide ReferencesUnique, PaymentsEarned;
    p :| p in b.payments && Matches(b.payments[p], b.receipts[r]);
    assert Matches(b.payments[p], b.receipts[Source(b, p)]);
  }

  lemma SourcesDiffer(b: Books, p: Id, q: Id)
    requires Conserved(b) && p in PaidKeys(b) && q in PaidKeys(b) && Source(b, p) == Source(b, q)
    ensures p == q
  {
    hide MessagesUnique, ReceiptsPaid, PaymentsEarned;
    var r := Source(b, p);
    assert Matches(b.payments[p], b.receipts[r]) && Matches(b.payments[q], b.receipts[r]);
  }

  lemma SourcesPair(b: Books) returns (f: map<Id, Id>)
    requires Conserved(b)
    ensures Pairs(f, PaidAmounts(b), ConfirmedAmounts(b))
  {
    hide MessagesUnique, ReferencesUnique, ReceiptsPaid, PaymentsEarned;
    f := map p | p in PaidKeys(b) :: Source(b, p);
    var a, c := PaidAmounts(b), ConfirmedAmounts(b);
    assert f.Keys == a.Keys;
    forall r | r in c ensures r in f.Values {
      var p := EveryReceiptIsASource(b, r);
      assert p in f && f[p] == r;
    }
    forall r | r in f.Values ensures r in c.Keys {
      var p :| p in f && f[p] == r;
    }
    forall p, q | p in f && q in f && f[p] == f[q] ensures p == q {
      SourcesDiffer(b, p, q);
    }
  }

  /**
   * Conservation: in every state of every run the payments made from receipts, the deleted ones
   * included, are as many as the confirmed receipts and add up to the same number of kobo.
   */
  lemma TotalsAgree(tr: seq<Books>, i: nat)
    requires Run(tr) && i < |tr|
    ensures Total(PaidAmounts(tr[i])) == Total(ConfirmedAmounts(tr[i]))
    ensures |PaidAmounts(tr[i])| == |ConfirmedAmounts(tr[i])|
  {
    RunInv(tr, i);
    var f := SourcesPair(tr[i]);
    PairedTotals(f, PaidAmounts(tr[i]), ConfirmedAmounts(tr[i]));
  }

  /** Each confirmed receipt has exactly one payment made from its message, and it agrees with the receipt. */
  lemma OnePaymentPerReceipt(tr: seq<Books>, i: nat, r: Id) returns (p: Id)
    requires Run(tr) && i < |tr| && r in tr[i].receipts && tr[i].receipts[r].status.Confirmed?
    ensures p in tr[i].payments && Matches(tr[i].payments[p], tr[i].receipts[r])
    ensures forall q | q in tr[i].payments && tr[i].payments[q].paidBy.Some?
              :: tr[i].payments[q].reference == Some(tr[i].receipts[r].messageId) ==> q == p
  {
    RunInv(tr, i);
    hide Referential;
    p :| p in tr[i].payments && Matches(tr[i].payments[p], tr[i].receipts[r]);
    hide PaymentsEarned, ReceiptsPaid, MessagesUnique;
  }

  // ---- What is settled stays settled ---------------------------------------------------------------

  lemma StepKeepsRecords(b: Books, c: Call)
    requires Enabled(b, c)
    ensures ReceiptsSettled(b, Apply(b, c).0) && PaymentsKept(b, Apply(b, c).0)
  {
    StepKeepsPayments(b, c);
    StepSettlesReceipts(b, c);
  }

  lemma StepKeepsPayments(b: Books, c: Call)
    requires Enabled(b, c)
    ensures PaymentsKept(b, Apply(b, c).0)
  {
    hide CreateGroup, UpdateGroup, DeleteGroup, CreateMember, UpdateMember, DeleteMember, CreateCycle, UpdateCycle,
         DeleteCycle, TransitionReceipt, InsertReceipt, CreateLink, DeleteLink, ReceiptsSettled, Confirmable;
  }

  lemma StepSettlesReceipts(b: Books, c: Call)
    requires Enabled(b, c)
    ensures ReceiptsSettled(b, Apply(b, c).0)
  {
    hide CreateGroup, UpdateGroup, DeleteGroup, CreateMember, UpdateMember, DeleteMember, CreateCycle, UpdateCycle,
         DeleteCycle, CreatePayment, DeletePayment, ConfirmReceipt, TransitionReceipt, InsertReceipt, CreateLink,
         DeleteLink;
    match c
    case CallConfirm(actor, id, payment) => ConfirmSettles(b, actor, id, payment);
    case CallReject(actor, id, reason) => TransitionSettles(b, actor, id, Rejected, reason);
    case CallFlag(actor, id, reason) => TransitionSettles(b, actor, id, Flagged, reason);
    case CallIngest(id, receipt) => InsertSettles(b, id, receipt);
    case _ =>
  }

  lemma ConfirmSettles(b: Books, actor: Actor, id: Id, payment: Id)
    ensures ReceiptsSettled(b, ConfirmReceipt(b, actor, id, payment).0)
  {
    hide PaymentFor, LiveMember;
  }

  lemma TransitionSettles(b: Books, actor: Actor, id: Id, target: ReceiptStatus, reason: Option<string>)
    requires target.Rejected? || target.Flagged?
    ensures ReceiptsSettled(b, TransitionReceipt(b, actor, id, target, reason).0)
  {
  }

  lemma InsertSettles(b: Books, id: Id, r: Receipt)
    requires id !in b.receipts && r.status.Pending?
    ensures ReceiptsSettled(b, InsertReceipt(b, id, r).0)
  {
  }

  /**
   * From any state of a run on, a receipt that is confirmed, rejected or flagged never changes
   * again, and a payment never disappears, changes its money, or loses its deletion mark.
   */
  lemma {:induction false} RecordsAreFinal(tr: seq<Books>, i: nat, j: nat)
    requires Run(tr) && i <= j < |tr|
    ensures ReceiptsSettled(tr[i], tr[j]) && PaymentsKept(tr[i], tr[j])
    decreases j
  {
    if i < j {
      RecordsAreFinal(tr, i, j - 1);
      StepIn(tr, j - 1);
      KeptTwice(tr[i], tr[j - 1], tr[j]);
    }
  }

  lemma StepIn(tr: seq<Books>, i: nat)
    requires Run(tr) && i + 1 < |tr|
    ensures ReceiptsSettled(tr[i], tr[i + 1]) && PaymentsKept(tr[i], tr[i + 1])
  {
    hide *;
    var c := RunStep(tr, i);
    StepKeepsRecords(tr[i], c);
  }

  lemma KeptTwice(a: Books, b: Books, c: Books)
    requires ReceiptsSettled(a, b) && PaymentsKept(a, b) && ReceiptsSettled(b, c) && PaymentsKept(b, c)
    ensures ReceiptsSettled(a, c) && PaymentsKept(a, c)
  {
  }

  /** A receipt that was acted on refuses every later confirm, reject and flag, by anybody. */
  lemma SettledReceiptsRefuse(tr: seq<Books>, i: nat, j: nat, id: Id, actor: Actor, payment: Id, reason: Option<string>)
    requires Run(tr) && i <= j < |tr|
    requires id in tr[i].receipts && !tr[i].receipts[id].status.Pending?
    ensures ConfirmReceipt(tr[j], actor, id, payment).0 == tr[j] && ConfirmReceipt(tr[j], actor, id, payment).1 != Done
    ensures TransitionReceipt(tr[j], actor, id, Rejected, reason).0 == tr[j]
    ensures TransitionReceipt(tr[j], actor, id, Rejected, reason).1 != Done
    ensures TransitionReceipt(tr[j], actor, id, Flagged, reason).0 == tr[j]
    ensures TransitionReceipt(tr[j], actor, id, Flagged, reason).1 != Done
  {
    RecordsAreFinal(tr, i, j);
  }

  /** A confirm that succeeds leaves exactly one live payment for the member and cycle. */
  lemma ConfirmMakesTheOnlyPayment(b: Books, actor: Actor, id: Id, payment: Id)
    requires ConfirmReceipt(b, actor, id, payment).1 == Done
    ensures var b' := ConfirmReceipt(b, actor, id, payment).0;
            var pay := b'.payments[payment];
            && Matches(pay, b'.receipts[id])
            && forall p :: p in b'.payments ==> (PaymentFor(b', p, pay.member, pay.cycle) <==> p == payment)
  {
    var b' := ConfirmReceipt(b, actor, id, payment).0;
    var pay := b'.payments[payment];
    forall p | p in b.payments && p != payment
      ensures !PaymentFor(b', p, pay.member, pay.cycle)
    {
      assert !PaymentFor(b, p, pay.member, pay.cycle);
    }
  }

  // ---- Who may change what ---------------------------------------------------------------------------

  /** A call that is refused changes nothing. */
  lemma RefusedCallsChangeNothing(b: Books, c: Call)
    requires Enabled(b, c) && Apply(b, c).1 != Done
    ensures Apply(b, c).0 == b
  {
    hide CreateGroup, UpdateGroup, DeleteGroup, CreateMember, UpdateMember, DeleteMember, CreateCycle, UpdateCycle,
         DeleteCycle, CreatePayment, DeletePayment, ConfirmReceipt, TransitionReceipt, InsertReceipt, CreateLink,
         DeleteLink;
  }

  /** Every member, cycle, payment and receipt that the step adds, changes or removes belongs to a group of `scope`. */
  ghost predicate ChangesOnlyIn(b: Books, b': Books, scope: set<Id>) {
    && b'.groups == b.groups && b'.links == b.links
    && (forall m :: m in b'.members && (m in b.members ==> b.members[m] != b'.members[m]) ==>
          b'.members[m].group in scope)
    && (forall c :: c in b'.cycles && (c in b.cycles ==> b.cycles[c] != b'.cycles[c]) ==> b'.cycles[c].group in scope)
    && (forall c :: c in b.cycles && c !in b'.cycles ==> b.cycles[c].group in scope)
    && (forall p :: p in b'.payments && (p in b.payments ==> b.payments[p] != b'.payments[p]) ==>
          b'.payments[p].member in b.members && b.members[b'.payments[p].member].group in scope)
    && (forall r :: r in b'.receipts && (r in b.receipts ==> b.receipts[r] != b'.receipts[r]) ==>
          b'.receipts[r].group in scope)
  }

  /**
   * Tenants are kept apart: whatever an administrator who is not a super-admin calls, in any state
   * of any run, only records of groups that the caller has a grant for change.
   */
  lemma ScopedAdminsStayInTheirGroups(tr: seq<Books>, i: nat, c: Call)
    requires Run(tr) && i < |tr| && Enabled(tr[i], c) && !c.CallIngest? && !c.actor.role.SuperAdmin?
    ensures ChangesOnlyIn(tr[i], Apply(tr[i], c).0, if c.actor.role.Admin? then c.actor.grants else {})
  {
    hide *;
    RunInv(tr, i);
    ScopedStep(tr[i], c);
  }

  lemma ScopedStep(b: Books, c: Call)
    requires Inv(b) && Enabled(b, c) && !c.CallIngest? && !c.actor.role.SuperAdmin?
    ensures ChangesOnlyIn(b, Apply(b, c).0, if c.actor.role.Admin? then c.actor.grants else {})
  {
    match c
    case CallCreateMember(_, _, _, _) => MemberCallsInScope(b, c);
    case CallUpdateMember(_, _, _) => MemberCallsInScope(b, c);
    case CallDeleteMember(_, _, _) => MemberCallsInScope(b, c);
    case CallCreateCycle(_, _, _, _) => CycleCallsInScope(b, c);
    case CallUpdateCycle(_, _, _) => CycleCallsInScope(b, c);
    case CallDeleteCycle(_, _) => CycleCallsInScope(b, c);
    case CallCreatePayment(_, _, _) => PaymentCallsInScope(b, c);
    case CallDeletePayment(_, _, _, _) => PaymentCallsInScope(b, c);
    case CallConfirm(_, _, _) => ReceiptCallsInScope(b, c);
    case CallReject(_, _, _) => ReceiptCallsInScope(b, c);
    case CallFlag(_, _, _) => ReceiptCallsInScope(b, c);
    case _ =>
  }

  lemma MemberCallsInScope(b: Books, c: Call)
    requires Inv(b) && Enabled(b, c) && (c.CallCreateMember? || c.CallUpdateMember? || c.CallDeleteMember?)
    requires !c.actor.role.SuperAdmin?
    ensures ChangesOnlyIn(b, Apply(b, c).0, if c.actor.role.Admin? then c.actor.grants else {})
  {
    hide Inv, Trim, PhoneTaken, LiveGroup;
  }

  lemma CycleCallsInScope(b: Books, c: Call)
    requires Inv(b) && Enabled(b, c) && (c.CallCreateCycle? || c.CallUpdateCycle? || c.CallDeleteCycle?)
    requires !c.actor.role.SuperAdmin?
    ensures ChangesOnlyIn(b, Apply(b, c).0, if c.actor.role.Admin? then c.actor.grants else {})
  {
    hide Inv, TotalAmount, RecipientCheck, LiveGroup;
  }

  lemma PaymentCallsInScope(b: Books, c: Call)
    requires Inv(b) && Enabled(b, c) && (c.CallCreatePayment? || c.CallDeletePayment?) && !c.actor.role.SuperAdmin?
    ensures ChangesOnlyIn(b, Apply(b, c).0, if c.actor.role.Admin? then c.actor.grants else {})
  {
    hide MembersFit, CyclesFit, LinksFit, ReceiptsFit, PhonesUnique, ChatsUnique, Conserved;
  }

  lemma ReceiptCallsInScope(b: Books, c: Call)
    requires Inv(b) && Enabled(b, c) && (c.CallConfirm? || c.CallReject? || c.CallFlag?) && !c.actor.role.SuperAdmin?
    ensures ChangesOnlyIn(b, Apply(b, c).0, if c.actor.role.Admin? then c.actor.grants else {})
  {
    hide MembersFit, CyclesFit, LinksFit, PaymentsFit, PhonesUnique, ChatsUnique, Conserved;
  }

  // ---- Optimistic versions -----------------------------------------------------------------------------

  ghost predicate GroupVersionsRise(b: Books, b': Books) {
    forall g :: g in b.groups ==>
      g in b'.groups && (b'.groups[g] == b.groups[g] || b'.groups[g].version > b.groups[g].version)
  }

  ghost predicate MemberVersionsRise(b: Books, b': Books) {
    forall m :: m in b.members ==>
      m in b'.members && (b'.members[m] == b.members[m] || b'.members[m].version > b.members[m].version)
  }

  /** Cycles are the rows that can go. */
  ghost predicate CycleVersionsRise(b: Books, b': Books) {
    forall c :: c in b.cycles && c in b'.cycles ==>
      b'.cycles[c] == b.cycles[c] || b'.cycles[c].version > b.cycles[c].version
  }

  /** A group or member row that changed at all has a higher version. */
  ghost predicate VersionsRise(b: Books, b': Books) {
    GroupVersionsRise(b, b') && MemberVersionsRise(b, b')
  }

  lemma StepRaisesGroupVersions(b: Books, c: Call)
    requires Enabled(b, c)
    ensures GroupVersionsRise(b, Apply(b, c).0)
  {
    hide CreateMember, UpdateMember, DeleteMember, CreateCycle, UpdateCycle, DeleteCycle, CreatePayment, DeletePayment,
         ConfirmReceipt, TransitionReceipt, InsertReceipt, CreateLink, DeleteLink, Trim, ValidName, LiveMember;
  }

  lemma StepRaisesMemberVersions(b: Books, c: Call)
    requires Enabled(b, c)
    ensures MemberVersionsRise(b, Apply(b, c).0)
  {
    hide CreateGroup, UpdateGroup, DeleteGroup, CreateCycle, UpdateCycle, DeleteCycle, CreatePayment, DeletePayment,
         ConfirmReceipt, TransitionReceipt, InsertReceipt, CreateLink, DeleteLink, Trim, PhoneTaken, LiveGroup;
  }

  lemma StepRaisesCycleVersions(b: Books, c: Call)
    requires Enabled(b, c)
    ensures CycleVersionsRise(b, Apply(b, c).0)
  {
    hide CreateGroup, UpdateGroup, DeleteGroup, CreateMember, UpdateMember, DeleteMember, CreatePayment, DeletePayment,
         ConfirmReceipt, TransitionReceipt, InsertReceipt, CreateLink, DeleteLink, TotalAmount, RecipientCheck,
         LiveGroup;
  }

  lemma {:induction false} VersionsRiseInRuns(tr: seq<Books>, i: nat, j: nat)
    requires Run(tr) && i <= j < |tr|
    ensures VersionsRise(tr[i], tr[j])
    decreases j
  {
    hide Run, Apply, Enabled;
    if i < j {
      VersionsRiseInRuns(tr, i, j - 1);
      var c := RunStep(tr, j - 1);
      StepRaisesGroupVersions(tr[j - 1], c);
      StepRaisesMemberVersions(tr[j - 1], c);
    }
  }

  /** An edit made from a row that has changed since in any way is refused, for members and for groups. */
  lemma StaleEditsAreRefused(tr: seq<Books>, i: nat, j: nat, actor: Actor, id: Id,
                             member: MemberPatch, group: GroupPatch)
    requires Run(tr) && i <= j < |tr|
    ensures id in tr[i].members && member.version == tr[i].members[id].version
            && (id in tr[j].members ==> tr[j].members[id] != tr[i].members[id])
            ==> UpdateMember(tr[j], actor, id, member).1 != Done
    ensures id in tr[i].groups && group.version == tr[i].groups[id].version
            && (id in tr[j].groups ==> tr[j].groups[id] != tr[i].groups[id])
            ==> UpdateGroup(tr[j], actor, id, group).1 != Done
  {
    VersionsRiseInRuns(tr, i, j);
    hide Run, Trim, PhoneTaken, ValidName, MemberPatch.Of;
  }

  /** The database draws new ids: a cycle that is there before and after was there all the time. */
  ghost predicate CycleIdsAreNotReused(tr: seq<Books>) {
    forall i, k, j, c | 0 <= i <= k <= j < |tr| && c in tr[i].cycles && c in tr[j].cycles :: c in tr[k].cycles
  }

  lemma {:induction false} CycleVersionsRiseInRuns(tr: seq<Books>, i: nat, j: nat, c: Id)
    requires Run(tr) && CycleIdsAreNotReused(tr) && i <= j < |tr| && c in tr[i].cycles && c in tr[j].cycles
    ensures tr[j].cycles[c] == tr[i].cycles[c] || tr[j].cycles[c].version > tr[i].cycles[c].version
    decreases j
  {
    if i < j {
      assert c in tr[j - 1].cycles;
      hide Run, Apply, Enabled, CycleIdsAreNotReused;
      CycleVersionsRiseInRuns(tr, i, j - 1, c);
      var call := RunStep(tr, j - 1);
      StepRaisesCycleVersions(tr[j - 1], call);
    }
  }

  /** The same for cycles, also when the cycle is gone. */
  lemma StaleCycleEditsAreRefused(tr: seq<Books>, i: nat, j: nat, actor: Actor, id: Id, patch: CyclePatch)
    requires Run(tr) && CycleIdsAreNotReused(tr) && i <= j < |tr|
    requires id in tr[i].cycles && patch.version == tr[i].cycles[id].version
    requires id in tr[j].cycles ==> tr[j].cycles[id] != tr[i].cycles[id]
    ensures UpdateCycle(tr[j], actor, id, patch).1 != Done
  {
    if id in tr[j].cycles { CycleVersionsRiseInRuns(tr, i, j, id); }
    hide Run, CycleIdsAreNotReused, RecipientCheck, TotalAmount, CyclePatch.Of;
  }

  // ---- Totals of cycles --------------------------------------------------------------------------------

  lemma WrapIsIdentityInRange(x: int)
    ensures WrapI64(x) == x <==> -TWO_63 <= x < TWO_63
    ensures -TWO_63 <= WrapI64(x) < TWO_63
  {
  }

  /**
   * The total of a cycle is contribution times active members exactly when that product fits an
   * i64.  Validation only asks for a positive contribution, so it need not fit.
   */
  lemma TotalIsExactIffItFits(b: Books, group: Id, contribution: int)
    requires 0 < contribution
    ensures TotalAmount(b, group, contribution) == contribution * |ActiveMembers(b, group)|
            <==> contribution * |ActiveMembers(b, group)| < TWO_63
  {
    WrapIsIdentityInRange(contribution * |ActiveMembers(b, group)|);
  }

  // ---- Dates of cycles ---------------------------------------------------------------------------------

  predicate DatesInOrder(c: Cycle) {
    c.start.Reads? && c.end.Reads? && c.start.value <= c.end.value
  }

  /** A new cycle does not end before it starts. */
  lemma NewCyclesAreInOrder(b: Books, actor: Actor, id: Id, group: Id, cycle: NewCycle)
    requires CreateCycle(b, actor, id, group, cycle).1 == Done
    ensures DatesInOrder(CreateCycle(b, actor, id, group, cycle).0.cycles[id])
  {
    hide TotalAmount, LiveGroup, RecipientCheck;
  }

  /**
   * An edit compares the dates only when both are given.  So it keeps them in order exactly when a
   * date that is given alone fits the stored other one.
   */
  lemma EditsKeepDatesInOrderIff(b: Books, actor: Actor, id: Id, patch: CyclePatch)
    requires UpdateCycle(b, actor, id, patch).1 == Done && DatesInOrder(b.cycles[id])
    ensures DatesInOrder(UpdateCycle(b, actor, id, patch).0.cycles[id]) <==>
      && (patch.start.Some? && patch.end.None? ==> patch.start.value.value <= b.cycles[id].end.value)
      && (patch.end.Some? && patch.start.None? ==> b.cycles[id].start.value <= patch.end.value.value)
  {
    hide TotalAmount, RecipientCheck;
  }

  // ---- Lookups -------------------------------------------------------------------------------------

  /** The query behind `find_group_by_chat_id` may pick any live link of the chat. */
  ghost predicate MayFindGroup(b: Books, chat: string, g: Option<Id>) {
    if ChatTaken(b, chat) then
      exists l :: l in b.links && b.links[l].chat == chat && b.links[l].deletedAt.None?
                  && g == if LiveGroup(b, b.links[l].group) then Some(b.links[l].group) else None
    else g.None?
  }

  ghost predicate MayFindMember(b: Books, group: Id, phone: string, m: Option<Id>) {
    if PhoneTaken(b, group, phone, None) then
      m.Some? && LiveMember(b, m.value) && b.members[m.value].group == group && b.members[m.value].phone == phone
    else m.None?
  }

  ghost predicate MayFindReceipt(b: Books, message: string, r: Option<Id>) {
    if exists x :: x in b.receipts && b.receipts[x].messageId == message && b.receipts[x].deletedAt.None? then
      && r.Some? && r.value in b.receipts
      && b.receipts[r.value].messageId == message && b.receipts[r.value].deletedAt.None?
    else r.None?
  }

  predicate ActiveIn(b: Books, group: Id, c: Id) {
    c in b.cycles && b.cycles[c].group == group && b.cycles[c].status.CycleActive?
  }

  /** `find_active_cycle` may pick any active cycle of the lowest number. */
  ghost predicate MayFindCycle(b: Books, group: Id, c: Option<Id>) {
    if exists x :: x in b.cycles && ActiveIn(b, group, x) then
      && c.Some? && ActiveIn(b, group, c.value)
      && forall x :: x in b.cycles && ActiveIn(b, group, x) ==> b.cycles[c.value].number <= b.cycles[x].number
    else c.None?
  }

  /** In every state of every run the chat, phone and message lookups have a single possible answer. */
  lemma LookupsAreDeterministic(tr: seq<Books>, i: nat, chat: string, group: Id, phone: string, message: string)
    requires Run(tr) && i < |tr|
    ensures forall g, h :: MayFindGroup(tr[i], chat, g) && MayFindGroup(tr[i], chat, h) ==> g == h
    ensures forall m, n :: MayFindMember(tr[i], group, phone, m) && MayFindMember(tr[i], group, phone, n) ==> m == n
    ensures forall r, s :: MayFindReceipt(tr[i], message, r) && MayFindReceipt(tr[i], message, s) ==> r == s
  {
    RunInv(tr, i);
    hide MembersFit, CyclesFit, PaymentsFit, LinksFit, ReferencesUnique, PaymentsEarned, ReceiptsPaid;
  }

  /** A chat is routed to a live group or to none, and a phone to a live member of a live group. */
  lemma LookupsFindWhatIsLive(tr: seq<Books>, i: nat, chat: string, group: Id, phone: string,
                              g: Option<Id>, m: Option<Id>)
    requires Run(tr) && i < |tr|
    requires MayFindGroup(tr[i], chat, g) && MayFindMember(tr[i], group, phone, m)
    ensures g.Some? ==> LiveGroup(tr[i], g.value)
    ensures m.Some? ==> LiveGroup(tr[i], group)
  {
    RunInv(tr, i);
  }

  /** Two active cycles of the group share a number and no active cycle has a lower one. */
  predicate LowestIsTied(b: Books, group: Id) {
    exists c, d :: c in b.cycles && d in b.cycles && c != d && ActiveIn(b, group, c) && ActiveIn(b, group, d)
      && b.cycles[c].number == b.cycles[d].number
      && (forall x :: x in b.cycles && ActiveIn(b, group, x) ==> b.cycles[c].number <= b.cycles[x].number)
  }

  /** The active-cycle lookup has a single possible answer exactly when the lowest number is not tied. */
  lemma CycleLookupIsDeterministicUnlessTied(b: Books, group: Id)
    ensures (forall c, d :: MayFindCycle(b, group, c) && MayFindCycle(b, group, d) ==> c == d)
            <==> !LowestIsTied(b, group)
  {
    if LowestIsTied(b, group) {
      var c, d :| c in b.cycles && d in b.cycles && c != d && ActiveIn(b, group, c) && ActiveIn(b, group, d)
        && b.cycles[c].number == b.cycles[d].number
        && (forall x :: x in b.cycles && ActiveIn(b, group, x) ==> b.cycles[c].number <= b.cycles[x].number);
      assert MayFindCycle(b, group, Some(c)) && MayFindCycle(b, group, Some(d));
    }
  }
}
