/** Runs of handler calls that end in states one might not expect. */
module LedgerWitnesses {
  import opened Prelude
  import opened Ledger
  import opened LedgerTheorems

  const ROOT := Actor(0, SuperAdmin, {})
  const POOL := Group("P", GroupActive, None, None, 1)
  const ADA := Member("A", "2", 1, Active, None, None, 0, None, 1)

  ghost predicate Follows(b: Books, b': Books) {
    exists c :: Enabled(b, c) && b' == Apply(b, c).0
  }

  lemma ByStep(tr: seq<Books>, i: nat)
    requires i + 1 < |tr| && Follows(tr[i], tr[i + 1])
    ensures NextAt(tr, i)
  {}

  lemma IsRun(tr: seq<Books>)
    requires |tr| > 0 && tr[0] == EMPTY && forall i :: 0 <= i < |tr| - 1 ==> Follows(tr[i], tr[i + 1])
    ensures Run(tr)
  {
    hide NextAt, Follows;
    forall i | 0 <= i < |tr| - 1 ensures NextAt(tr, i) {
      ByStep(tr, i);
    }
  }

  lemma TrimOne(c: char)
    requires !IsWhitespace(c)
    ensures Trim([c]) == [c]
  {}

  lemma OpenGroup() returns (b: Books)
    ensures Follows(EMPTY, b) && b == EMPTY.(groups := map[0 := POOL])
  {
    TrimOne('P');
    hide Trim;
    b := EMPTY.(groups := map[0 := POOL]);
    assert Utf8Length("P") == 1;
    assert Apply(EMPTY, CallCreateGroup(ROOT, 0, "P", None)).0 == b;
  }

  lemma AddAda(b: Books) returns (b': Books)
    requires b == EMPTY.(groups := map[0 := POOL])
    ensures Follows(b, b') && b' == b.(members := map[0 := ADA])
  {
    TrimOne('A');
    TrimOne('2');
    hide Trim;
    b' := b.(members := map[0 := ADA]);
    assert Apply(b, CallCreateMember(ROOT, 0, 0, NewMember("A", "2", 1, None, None))).0 == b';
  }

  /** A second live, active member of the group. */
  lemma AddAnother(b: Books) returns (b': Books)
    requires b.groups == map[0 := POOL] && b.members == map[0 := ADA]
    ensures Follows(b, b') && b' == b.(members := b'.members) && b'.members.Keys == {0, 1} && b'.members[0] == ADA
    ensures var m := b'.members[1]; m.group == 0 && m.status.Active? && m.deletedAt.None?
  {
    var other := NewMember("B", "3", 2, None, None);
    NamesAreGood(b, other);
    MemberJoins(b, other);
    b' := CreateMember(b, ROOT, 1, 0, other).0;
    hide CreateMember;
    var c := CallCreateMember(ROOT, 1, 0, other);
    assert Enabled(b, c) && b' == Apply(b, c).0;
  }

  lemma NamesAreGood(b: Books, other: NewMember)
    requires b.members == map[0 := ADA] && other == NewMember("B", "3", 2, None, None)
    ensures other.Valid() && !PhoneTaken(b, 0, Trim(other.phone), None)
  {
    TrimOne('B');
    TrimOne('3');
    OnlyPhone(b, Trim(other.phone));
    hide Trim, PhoneTaken;
  }

  lemma OnlyPhone(b: Books, phone: string)
    requires b.members == map[0 := ADA] && phone == ['3']
    ensures !PhoneTaken(b, 0, phone, None)
  {
    assert forall m :: m in b.members ==> m == 0;
    assert b.members[0].phone[0] == '2';
  }

  lemma MemberJoins(b: Books, other: NewMember)
    requires b.groups == map[0 := POOL] && 1 !in b.members
    requires other.Valid() && !PhoneTaken(b, 0, Trim(other.phone), None)
    ensures var b' := CreateMember(b, ROOT, 1, 0, other).0;
      && b'.members == b.members[1 := b'.members[1]]
      && b'.members[1].group == 0 && b'.members[1].status.Active? && b'.members[1].deletedAt.None?
  {
    hide Trim, PhoneTaken, NewMember.Valid;
  }

  // ---- Two active cycles of one number -----------------------------------------------------------------

  function PendingCycle(contribution: int, total: int): Cycle {
    Cycle(1, Reads(0), Reads(30), contribution, total, 0, CyclePending, None, 0, 1)
  }

  function ActiveCycle(total: int): Cycle { PendingCycle(500, total).(status := CycleActive, version := 2) }

  lemma AddCycle(b: Books, id: Id, contribution: int) returns (b': Books, total: int)
    requires b.groups == map[0 := POOL] && 0 in b.members && b.members[0] == ADA && id !in b.cycles && contribution > 0
    ensures total == TotalAmount(b, 0, contribution)
    ensures b' == b.(cycles := b.cycles[id := PendingCycle(contribution, total)]) && Follows(b, b')
  {
    hide TotalAmount;
    total := TotalAmount(b, 0, contribution);
    b' := b.(cycles := b.cycles[id := PendingCycle(contribution, total)]);
    assert Apply(b, CallCreateCycle(ROOT, id, 0, NewCycle(1, Reads(0), Reads(30), contribution, 0, None))).0 == b';
  }

  lemma Activate(b: Books, id: Id, total: int) returns (b': Books)
    requires id in b.cycles && b.cycles[id] == PendingCycle(500, total)
    ensures b' == b.(cycles := b.cycles[id := ActiveCycle(total)]) && Follows(b, b')
  {
    b' := b.(cycles := b.cycles[id := ActiveCycle(total)]);
    var patch := CyclePatch(None, None, None, None, Some(Reads(CycleActive)), None, 1);
    assert Apply(b, CallUpdateCycle(ROOT, id, patch)).0 == b';
  }

  lemma Tied(b: Books, n: int, k: int)
    requires b.cycles == map[0 := ActiveCycle(n), 1 := ActiveCycle(k)]
    ensures LowestIsTied(b, 0)
  {
    assert ActiveIn(b, 0, 0) && ActiveIn(b, 0, 1);
  }

  /** Nothing stops two cycles of one number from being active at once, so ties are reachable. */
  lemma TiesAreReachable() returns (tr: seq<Books>)
    ensures Run(tr) && LowestIsTied(tr[|tr| - 1], 0)
  {
    hide Follows, Run, TotalAmount, LowestIsTied;
    var b1 := OpenGroup();
    var b2 := AddAda(b1);
    var b3, n := AddCycle(b2, 0, 500);
    var b4, k := AddCycle(b3, 1, 500);
    var b5 := Activate(b4, 0, n);
    var b6 := Activate(b5, 1, k);
    Tied(b6, n, k);
    tr := [EMPTY, b1, b2, b3, b4, b5, b6];
    IsRun(tr);
  }

  // ---- A negative total --------------------------------------------------------------------------------

  lemma TwoMembersWrap(b: Books)
    requires b.members.Keys == {0, 1} && b.members[0] == ADA
    requires b.members[1].group == 0 && b.members[1].status.Active? && b.members[1].deletedAt.None?
    ensures TotalAmount(b, 0, 0x4000_0000_0000_0000) == -TWO_63
  {
    assert ActiveMembers(b, 0) == {0, 1};
  }

  /** With two members a contribution of 2^62 kobo passes the validation and stores a negative total. */
  lemma NegativeTotalsAreReachable() returns (tr: seq<Books>)
    ensures Run(tr)
    ensures var s := tr[|tr| - 1]; 0 in s.cycles && s.cycles[0].contribution > 0 && s.cycles[0].total < 0
  {
    hide Follows, Run, TotalAmount, LowestIsTied;
    var b1 := OpenGroup();
    var b2 := AddAda(b1);
    var b3 := AddAnother(b2);
    TwoMembersWrap(b3);
    var b4, n := AddCycle(b3, 0, 0x4000_0000_0000_0000);
    tr := [EMPTY, b1, b2, b3, b4];
    IsRun(tr);
  }

  // ---- A cycle that ends before it starts --------------------------------------------------------------

  lemma Postpone(b: Books, total: int) returns (b': Books)
    requires 0 in b.cycles && b.cycles[0] == PendingCycle(500, total)
    ensures b' == b.(cycles := b.cycles[0 := b.cycles[0].(start := Reads(60), version := 2)]) && Follows(b, b')
  {
    b' := b.(cycles := b.cycles[0 := b.cycles[0].(start := Reads(60), version := 2)]);
    var patch := CyclePatch(Some(Reads(60)), None, None, None, None, None, 1);
    assert Apply(b, CallUpdateCycle(ROOT, 0, patch)).0 == b';
  }

  /** Moving only the start date of a cycle past its end date is accepted. */
  lemma InvertedDatesAreReachable() returns (tr: seq<Books>)
    ensures Run(tr)
    ensures var s := tr[|tr| - 1]; 0 in s.cycles && s.cycles[0].start == Reads(60) && s.cycles[0].end == Reads(30)
  {
    hide Follows, Run, TotalAmount, LowestIsTied;
    var b1 := OpenGroup();
    var b2 := AddAda(b1);
    var b3, n := AddCycle(b2, 0, 500);
    var b4 := Postpone(b3, n);
    tr := [EMPTY, b1, b2, b3, b4];
    IsRun(tr);
  }
}
