/** What every budget operation keeps, and what that says about whole runs. */
module BudgetInvariant {
  import opened Wrappers
  import opened Amounts
  import opened Budget

  // ---------------------------------------------------------------- the invariant

  ghost predicate ReservationOk(b: Books, id: int)
    requires id in b.open
  {
    var r := b.open[id];
    && r.id == id && 1 <= id < b.nextId
    && r.lane != "" && PurposeClass(r.purpose).Some?
    && NonNegative(r.amount) && CheckProvenance(r.prov) == None
  }

  /** Charges that the journal records against one lane. */
  ghost function Charged(journal: seq<JournalRow>, lane: string): Amount {
    if |journal| == 0 then ZERO
    else
      var last := journal[|journal| - 1];
      Plus(Charged(journal[..|journal| - 1], lane),
           if last.ChargeRow? && last.lane == lane then Amount(last.cpu, 0.0) else ZERO)
  }

  predicate Balanced(a: LaneAccount, claimed: Amount, charged: Amount) {
    && a.reserved == claimed
    && NonNegative(a.spent)
    && a.spent == Plus(Plus(Plus(a.measured, a.estimated), a.fallback), charged)
    && a.settlements == a.measuredSettlements + a.estimatedSettlements + a.fallbackSettlements
  }

  /** A lane's reservation total is what is open on it; its spend is accounted for source by source. */
  ghost predicate AccountOk(b: Books, lane: string) {
    Balanced(Account(b.lanes, lane), Claimed(b.open, OnLane(lane)), Charged(b.journal, lane))
  }

  predicate GroupBalanced(reserved: Amount, spent: Amount, claimed: Amount) {
    reserved == claimed && NonNegative(spent)
  }

  ghost predicate GroupOk(b: Books, g: Group) {
    GroupBalanced(Get(b.reserved, g), Get(b.spent, g), Claimed(b.open, InGroup(g)))
  }

  function Four(a: Amount, b: Amount, c: Amount, d: Amount): Amount { Plus(Plus(a, b), Plus(c, d)) }

  function TotalSpent(b: Books): Amount {
    Four(Get(b.spent, Solver), Get(b.spent, Verify), Get(b.spent, Refine), Get(b.spent, Controller))
  }

  ghost predicate Numbered(journal: seq<JournalRow>) {
    forall i | 0 <= i < |journal| :: journal[i].sequence == i + 1
  }

  ghost predicate BInv(b: Books) {
    && ValidEnvelope(b.env) && b.nextId >= 1 && Numbered(b.journal)
    && (forall id {:trigger ReservationOk(b, id)} | id in b.open :: ReservationOk(b, id))
    && (forall lane {:trigger AccountOk(b, lane)} :: AccountOk(b, lane))
    && (forall g {:trigger GroupOk(b, g)} :: GroupOk(b, g))
    && (forall sel {:trigger Claimed(b.open, sel)} | sel == All ::
          Committed(b) == Plus(Claimed(b.open, sel), TotalSpent(b)))
  }

  lemma {:induction false} ZeroBalances(z: Amount, a: LaneAccount)
    requires z.cpu == 0.0 && z.gpu == 0.0 && a == LaneAccount(z, z, z, z, z, z, 0, 0, 0, 0, map[])
    ensures Balanced(a, z, z) && GroupBalanced(z, z, z) && Four(z, z, z, z) == z && Plus(z, z) == z
  {
  }

  lemma {:induction false} OpeningKeeps(env: Envelope)
    requires ValidEnvelope(env)
    ensures BInv(Opening(env))
  {
    hide Claimed, Balanced, GroupBalanced, Plus, Four, ValidEnvelope;
    var b := Opening(env);
    assert b.open.Keys == {};
    NoClaims(b.open);
    ZeroBalances(ZERO, NEW_ACCOUNT);
    forall lane ensures AccountOk(b, lane) {}
    forall g ensures GroupOk(b, g) {}
    assert LaneHolds(b.lanes) == map[];
  }

  /** Rewriting one lane's account moves the committed total by the change in that account. */
  lemma {:induction false} LaneSet(b: Books, c: Books, lane: string, a: LaneAccount)
    requires c.lanes == b.lanes[lane := a]
    ensures Committed(c) == Plus(Committed(b), Minus(Held(a), Held(Account(b.lanes, lane))))
  {
    var m := LaneHolds(b.lanes);
    assert LaneHolds(c.lanes) == m[lane := Held(a)];
    SumSet(m, lane, Held(a));
  }

  lemma {:induction false} ChargedAppend(journal: seq<JournalRow>, row: JournalRow, lane: string)
    ensures Charged(journal + [row], lane) ==
            Plus(Charged(journal, lane), if row.ChargeRow? && row.lane == lane then Amount(row.cpu, 0.0) else ZERO)
  {
    assert (journal + [row])[..|journal|] == journal;
  }

  // ---------------------------------------------------------------- reserve

  lemma {:induction false} ReserveOpens(b: Books, lane: string, purpose: string, want: Amount,
      prov: Provenance, sel: Selector)
    requires BInv(b)
    ensures var c := DoReserve(b, lane, purpose, GroupOf(purpose), want, prov);
            var r := Reservation(b.nextId, lane, purpose, want, prov);
            && b.nextId !in b.open
            && Claimed(c.open, sel) == Plus(Claimed(b.open, sel), if Picks(sel, r) then want else ZERO)
  {
    hide Claimed;
    assert b.nextId in b.open ==> ReservationOk(b, b.nextId);
    ClaimAdd(b.open, b.nextId, Reservation(b.nextId, lane, purpose, want, prov), sel);
  }

  lemma {:induction false} ReserveBalances(a: LaneAccount, want: Amount, claimed: Amount, charged: Amount)
    requires Balanced(a, claimed, charged)
    ensures Balanced(a.(reserved := Plus(a.reserved, want)), Plus(claimed, want), charged)
    ensures Held(a.(reserved := Plus(a.reserved, want))) == Plus(Held(a), want)
  {
  }

  lemma {:induction false} ReserveAccounts(b: Books, lane: string, purpose: string, want: Amount,
      prov: Provenance, l: string)
    requires BInv(b)
    ensures AccountOk(DoReserve(b, lane, purpose, GroupOf(purpose), want, prov), l)
  {
    hide Claimed, Committed, Charged, Balanced, Plus, GroupOf, Held, ValidEnvelope;
    var c := DoReserve(b, lane, purpose, GroupOf(purpose), want, prov);
    assert AccountOk(b, l);
    ReserveOpens(b, lane, purpose, want, prov, OnLane(l));
    ChargedAppend(b.journal, c.journal[|b.journal|], l);
    PlusZero(Charged(b.journal, l));
    PlusZero(Claimed(b.open, OnLane(l)));
    ReserveBalances(Account(b.lanes, l), want, Claimed(b.open, OnLane(l)), Charged(b.journal, l));
  }

  lemma {:induction false} ReserveGroups(b: Books, lane: string, purpose: string, want: Amount,
      prov: Provenance, h: Group)
    requires BInv(b) && PurposeClass(purpose).Some?
    ensures GroupOk(DoReserve(b, lane, purpose, GroupOf(purpose), want, prov), h)
  {
    hide Claimed, Committed, Charged, Plus, ValidEnvelope, PurposeClass;
    assert GroupOk(b, h);
    ReserveOpens(b, lane, purpose, want, prov, InGroup(h));
    PlusZero(Claimed(b.open, InGroup(h)));
  }

  lemma {:induction false} PlusSwap(a: Amount, b: Amount, c: Amount)
    ensures Plus(Plus(a, b), c) == Plus(Plus(a, c), b)
    ensures Minus(Plus(a, c), a) == c
  {
  }

  lemma {:induction false} ReserveCommits(b: Books, lane: string, purpose: string, want: Amount, prov: Provenance)
    requires BInv(b)
    ensures var c := DoReserve(b, lane, purpose, GroupOf(purpose), want, prov);
            && Committed(c) == Plus(Committed(b), want)
            && Committed(c) == Plus(Claimed(c.open, All), TotalSpent(c))
  {
    hide Claimed, Committed, Charged, Plus, ValidEnvelope, PurposeClass, Balanced, Four, Minus, Held;
    var c := DoReserve(b, lane, purpose, GroupOf(purpose), want, prov);
    ReserveOpens(b, lane, purpose, want, prov, All);
    LaneSet(b, c, lane, c.lanes[lane]);
    assert AccountOk(b, lane);
    ReserveBalances(Account(b.lanes, lane), want, Claimed(b.open, OnLane(lane)), Charged(b.journal, lane));
    PlusSwap(Held(Account(b.lanes, lane)), ZERO, want);
    PlusSwap(Claimed(b.open, All), TotalSpent(b), want);
  }

  lemma {:induction false} ReserveKeeps(b: Books, lane: string, purpose: string, want: Amount, prov: Provenance)
    requires BInv(b) && CheckReserve(b, lane, purpose, want, prov) == None
    ensures BInv(DoReserve(b, lane, purpose, GroupOf(purpose), want, prov))
  {
    hide Claimed, Committed, Charged, Available, Headroom, TotalSpent, AccountOk, GroupOk, Plus, ValidEnvelope;
    var c := DoReserve(b, lane, purpose, GroupOf(purpose), want, prov);
    forall id | id in c.open ensures ReservationOk(c, id) {
      if id in b.open { assert ReservationOk(b, id); }
    }
    forall l ensures AccountOk(c, l) { ReserveAccounts(b, lane, purpose, want, prov, l); }
    forall h ensures GroupOk(c, h) { ReserveGroups(b, lane, purpose, want, prov, h); }
    ReserveCommits(b, lane, purpose, want, prov);
  }

  // ---------------------------------------------------------------- settle and release

  /** The totals that a settlement or release subtracts from are never smaller than what it subtracts. */
  lemma {:induction false} ClampNeverBites(b: Books, r: Reservation)
    requires BInv(b) && r.id in b.open && b.open[r.id] == r
    ensures var left := Minus(Account(b.lanes, r.lane).reserved, r.amount);
            Clamp(left) == left && left == Claimed(b.open - {r.id}, OnLane(r.lane))
    ensures var left := Minus(Get(b.reserved, GroupOf(r.purpose)), r.amount);
            Clamp(left) == left && left == Claimed(b.open - {r.id}, InGroup(GroupOf(r.purpose)))
  {
    hide Claimed, Committed, Charged;
    forall id | id in b.open ensures NonNegative(b.open[id].amount) { assert ReservationOk(b, id); }
    assert ReservationOk(b, r.id) && AccountOk(b, r.lane) && GroupOk(b, GroupOf(r.purpose));
    ClaimCovers(b.open, r.id, OnLane(r.lane));
    ClaimCovers(b.open, r.id, InGroup(GroupOf(r.purpose)));
    ClaimRemove(b.open, r.id, OnLane(r.lane));
    ClaimRemove(b.open, r.id, InGroup(GroupOf(r.purpose)));
  }

  /**
   A total that owes one claim, after an object's amount is taken off it: what is left is right, and the claim is owed
   where it is taken or is nothing.
   */
  predicate Leaves(total: Amount, taken: Amount, same: bool, owed: Amount) {
    && Clamp(Minus(total, taken)) == (if same then Minus(total, owed) else total)
    && (same || owed == ZERO)
  }

  /** The object r may close its id: what it takes off its lane and its group is what the stored reservation claims. */
  predicate Harmless(b: Books, r: Reservation)
    requires r.id in b.open
  {
    var q := b.open[r.id];
    && Leaves(Account(b.lanes, r.lane).reserved, r.amount, r.lane == q.lane, q.amount)
    && Leaves(Get(b.reserved, GroupOf(r.purpose)), r.amount, GroupOf(r.purpose) == GroupOf(q.purpose), q.amount)
  }

  lemma {:induction false} StoredIsHarmless(b: Books, r: Reservation)
    requires BInv(b) && r.id in b.open && b.open[r.id] == r
    ensures Harmless(b, r)
  {
    hide BInv, Claimed, Clamp, Minus, GroupOf;
    ClampNeverBites(b, r);
  }

  lemma {:induction false} SettledClosesAccount(a: LaneAccount, r: Reservation, spend: Amount, cpu: Source, gpu: Source)
    ensures ClosedAccount(a, Settled(a, r, spend, cpu, gpu), r.amount, spend)
  {
  }

  /** An account with a reservation taken off and a spend booked under its sources. */
  predicate ClosedAccount(a: LaneAccount, n: LaneAccount, amount: Amount, spend: Amount) {
    && n.reserved == Clamp(Minus(a.reserved, amount))
    && n.spent == Plus(a.spent, spend)
    && Plus(Plus(n.measured, n.estimated), n.fallback) == Plus(Plus(Plus(a.measured, a.estimated), a.fallback), spend)
    && n.settlements - (n.measuredSettlements + n.estimatedSettlements + n.fallbackSettlements)
       == a.settlements - (a.measuredSettlements + a.estimatedSettlements + a.fallbackSettlements)
  }

  lemma {:induction false} CloseBalances(a: LaneAccount, n: LaneAccount, amount: Amount, spend: Amount,
      left: Amount, claimed: Amount, charged: Amount)
    requires Balanced(a, claimed, charged) && ClosedAccount(a, n, amount, spend)
    requires Clamp(Minus(claimed, amount)) == left && NonNegative(spend)
    ensures Balanced(n, left, charged)
  {
  }

  /** c is b with reservation r closed, spend booked on its lane and group, and one row appended. */
  ghost predicate Closes(b: Books, c: Books, r: Reservation, spend: Amount) {
    && r.lane in c.lanes && c.lanes == b.lanes[r.lane := c.lanes[r.lane]]
    && ClosedAccount(Account(b.lanes, r.lane), c.lanes[r.lane], r.amount, spend)
    && c.open == b.open - {r.id}
    && c.reserved == b.reserved[GroupOf(r.purpose) := Clamp(Minus(Get(b.reserved, GroupOf(r.purpose)), r.amount))]
    && (forall h ::
          Get(c.spent, h) == if h == GroupOf(r.purpose) then Plus(Get(b.spent, h), spend) else Get(b.spent, h))
    && |c.journal| == |b.journal| + 1 && c.journal[..|b.journal|] == b.journal
    && !c.journal[|b.journal|].ChargeRow? && c.journal[|b.journal|].sequence == |c.journal|
    && c.env == b.env && c.nextId == b.nextId
  }

  lemma {:induction false} BalancedReserved(a: LaneAccount, claimed: Amount, charged: Amount)
    requires Balanced(a, claimed, charged)
    ensures a.reserved == claimed
  {
  }

  /** The total here after the owed claim is gone, here being the named place or another one. */
  lemma {:induction false} LeftHere(total: Amount, here: Amount, taken: Amount, owed: Amount, same: bool, named: bool,
      owes: bool)
    requires Leaves(total, taken, same, owed)
    requires if named then here == total && owes == same else owes ==> !same
    ensures Minus(here, if owes then owed else ZERO) == if named then Clamp(Minus(here, taken)) else here
  {
  }

  /** What remains claimed once the stored reservation of an id is gone. */
  lemma {:induction false} LeftOnLane(b: Books, r: Reservation, l: string)
    requires BInv(b) && r.id in b.open && Harmless(b, r)
    ensures Claimed(b.open - {r.id}, OnLane(l)) ==
            if l == r.lane then Clamp(Minus(Account(b.lanes, l).reserved, r.amount)) else Account(b.lanes, l).reserved
  {
    hide Claimed, Committed, Charged, Minus, Clamp, ValidEnvelope, GroupOf, Leaves, Balanced, GroupOk, ReservationOk;
    var q := b.open[r.id];
    assert AccountOk(b, l);
    BalancedReserved(Account(b.lanes, l), Claimed(b.open, OnLane(l)), Charged(b.journal, l));
    ClaimRemove(b.open, r.id, OnLane(l));
    LeftHere(Account(b.lanes, r.lane).reserved, Account(b.lanes, l).reserved, r.amount, q.amount, r.lane == q.lane,
             l == r.lane, l == q.lane);
  }

  lemma {:induction false} GroupReserved(b: Books, r: Reservation, h: Group)
    requires BInv(b) && r.id in b.open
    ensures Get(b.reserved, h) == Claimed(b.open, InGroup(h))
    ensures Picks(InGroup(h), b.open[r.id]) <==> h == GroupOf(b.open[r.id].purpose)
  {
    hide Claimed, Committed, AccountOk, ValidEnvelope, NonNegative, CheckProvenance, PurposeClass;
    assert GroupOk(b, h) && ReservationOk(b, r.id);
  }

  lemma {:induction false} LeftInGroup(b: Books, r: Reservation, h: Group)
    requires BInv(b) && r.id in b.open && Harmless(b, r)
    ensures Claimed(b.open - {r.id}, InGroup(h)) ==
            if h == GroupOf(r.purpose) then Clamp(Minus(Get(b.reserved, h), r.amount)) else Get(b.reserved, h)
  {
    hide BInv, Claimed, Minus, Clamp, GroupOf, Leaves, Picks, Get;
    var q, g := b.open[r.id], GroupOf(r.purpose);
    GroupReserved(b, r, h);
    ClaimRemove(b.open, r.id, InGroup(h));
    LeftHere(Get(b.reserved, g), Get(b.reserved, h), r.amount, q.amount, g == GroupOf(q.purpose),
             h == g, h == GroupOf(q.purpose));
  }

  lemma {:induction false} CloseAccounts(b: Books, c: Books, r: Reservation, spend: Amount, l: string)
    requires BInv(b) && r.id in b.open && Harmless(b, r) && NonNegative(spend) && Closes(b, c, r, spend)
    ensures AccountOk(c, l)
  {
    hide Claimed, Committed, Charged, Balanced, ClosedAccount, Clamp, Minus, Plus, Harmless;
    assert AccountOk(b, l);
    assert Balanced(Account(b.lanes, l), Account(b.lanes, l).reserved, Charged(b.journal, l)) by {
      BalancedReserved(Account(b.lanes, l), Claimed(b.open, OnLane(l)), Charged(b.journal, l));
    }
    LeftOnLane(b, r, l);
    assert c.journal == b.journal + [c.journal[|b.journal|]];
    ChargedAppend(b.journal, c.journal[|b.journal|], l);
    PlusZero(Charged(b.journal, l));
    if l == r.lane {
      CloseBalances(Account(b.lanes, l), c.lanes[l], r.amount, spend, Claimed(c.open, OnLane(l)),
                    Account(b.lanes, l).reserved, Charged(b.journal, l));
    }
  }

  lemma {:induction false} PlusZero(a: Amount)
    ensures Plus(a, ZERO) == a && Minus(a, ZERO) == a
  {
  }

  lemma {:induction false} SpendNonNegative(a: Amount, b: Amount)
    requires NonNegative(a) && NonNegative(b)
    ensures NonNegative(Plus(a, b))
  {
  }

  lemma {:induction false} CloseGroups(b: Books, c: Books, r: Reservation, spend: Amount, h: Group)
    requires BInv(b) && r.id in b.open && Harmless(b, r) && NonNegative(spend) && Closes(b, c, r, spend)
    ensures GroupOk(c, h)
  {
    hide Claimed, Committed, Charged, Plus, Minus, Clamp, NonNegative, ClosedAccount, PurposeClass, ValidEnvelope;
    hide Harmless;
    assert GroupOk(b, h);
    LeftInGroup(b, r, h);
    SpendNonNegative(Get(b.spent, h), spend);
  }

  lemma {:induction false} CloseHeld(a: LaneAccount, n: LaneAccount, amount: Amount, spend: Amount, same: bool,
      owed: Amount)
    requires ClosedAccount(a, n, amount, spend) && Leaves(a.reserved, amount, same, owed)
    ensures Minus(Held(n), Held(a)) == Minus(spend, owed)
  {
  }

  lemma {:induction false} SpendInGroup(b: Books, c: Books, g: Group, spend: Amount)
    requires forall h :: Get(c.spent, h) == if h == g then Plus(Get(b.spent, h), spend) else Get(b.spent, h)
    ensures TotalSpent(c) == Plus(TotalSpent(b), spend)
  {
    hide Plus, Four;
    FourShift(Get(b.spent, Solver), Get(b.spent, Verify), Get(b.spent, Refine), Get(b.spent, Controller), spend);
  }

  lemma {:induction false} FourShift(a: Amount, b: Amount, c: Amount, d: Amount, x: Amount)
    ensures Four(Plus(a, x), b, c, d) == Plus(Four(a, b, c, d), x)
    ensures Four(a, Plus(b, x), c, d) == Plus(Four(a, b, c, d), x)
    ensures Four(a, b, Plus(c, x), d) == Plus(Four(a, b, c, d), x)
    ensures Four(a, b, c, Plus(d, x)) == Plus(Four(a, b, c, d), x)
  {
  }

  lemma {:induction false} CloseSums(committed: Amount, claimed: Amount, spent: Amount, spend: Amount, amount: Amount)
    requires committed == Plus(claimed, spent)
    ensures Plus(committed, Minus(spend, amount)) == Plus(Minus(claimed, amount), Plus(spent, spend))
  {
  }

  lemma {:induction false} CloseCommits(b: Books, c: Books, r: Reservation, spend: Amount)
    requires BInv(b) && r.id in b.open && Harmless(b, r) && Closes(b, c, r, spend)
    ensures Committed(c) == Plus(Committed(b), Minus(spend, b.open[r.id].amount))
    ensures Committed(c) == Plus(Claimed(c.open, All), TotalSpent(c))
  {
    hide Claimed, Committed, Charged, Plus, Minus, Clamp, NonNegative, ClosedAccount, PurposeClass;
    hide ValidEnvelope, TotalSpent, Held, AccountOk, GroupOk, Leaves;
    var q := b.open[r.id];
    ClaimRemove(b.open, r.id, All);
    LaneSet(b, c, r.lane, c.lanes[r.lane]);
    CloseHeld(Account(b.lanes, r.lane), c.lanes[r.lane], r.amount, spend, r.lane == q.lane, q.amount);
    SpendInGroup(b, c, GroupOf(r.purpose), spend);
    CloseSums(Committed(b), Claimed(b.open, All), TotalSpent(b), spend, q.amount);
  }

  lemma {:induction false} AppendNumbered(journal: seq<JournalRow>, longer: seq<JournalRow>)
    requires Numbered(journal) && |longer| == |journal| + 1 && longer[..|journal|] == journal
    requires longer[|journal|].sequence == |longer|
    ensures Numbered(longer)
  {
    forall i | 0 <= i < |longer| ensures longer[i].sequence == i + 1 {
      assert i < |journal| ==> longer[i] == journal[i];
    }
  }

  lemma {:induction false} CloseKeeps(b: Books, c: Books, r: Reservation, spend: Amount)
    requires BInv(b) && r.id in b.open && Harmless(b, r) && NonNegative(spend) && Closes(b, c, r, spend)
    ensures BInv(c)
    ensures Committed(c) == Plus(Committed(b), Minus(spend, b.open[r.id].amount))
  {
    hide Claimed, Committed, Charged, Plus, Minus, Clamp, NonNegative, ClosedAccount, PurposeClass;
    hide ValidEnvelope, TotalSpent, Held, AccountOk, GroupOk, Numbered, Harmless;
    forall id | id in c.open ensures ReservationOk(c, id) { assert ReservationOk(b, id); }
    forall l ensures AccountOk(c, l) { CloseAccounts(b, c, r, spend, l); }
    forall h ensures GroupOk(c, h) { CloseGroups(b, c, r, spend, h); }
    CloseCommits(b, c, r, spend);
    AppendNumbered(b.journal, c.journal);
  }

  lemma {:induction false} SettleCloses(b: Books, r: Reservation, spend: Amount, cpuSource: string, gpuSource: string)
    requires ParseSource(cpuSource).Some? && ParseSource(gpuSource).Some?
    ensures Closes(b, DoSettle(b, r, GroupOf(r.purpose), spend, cpuSource, gpuSource), r, spend)
  {
    SettledClosesAccount(Account(b.lanes, r.lane), r, spend, ParseSource(cpuSource).value,
                         ParseSource(gpuSource).value);
  }

  lemma {:induction false} ReleaseCloses(b: Books, r: Reservation)
    ensures Closes(b, DoRelease(b, r, GroupOf(r.purpose)), r, ZERO)
  {
  }

  // ---------------------------------------------------------------- charges

  lemma {:induction false} ChargeBalances(a: LaneAccount, work: map<string, real>, charge: Amount, claimed: Amount,
      charged: Amount)
    requires Balanced(a, claimed, charged) && NonNegative(charge)
    ensures Balanced(a.(spent := Plus(a.spent, charge), work := work), claimed, Plus(charged, charge))
    ensures Minus(Held(a.(spent := Plus(a.spent, charge), work := work)), Held(a)) == charge
  {
  }

  lemma {:induction false} ChargeAccounts(b: Books, lane: string, cpu: real, note: string, tally: string,
      purpose: string, l: string)
    requires BInv(b) && cpu >= 0.0
    ensures AccountOk(DoCharge(b, lane, cpu, note, tally, purpose, GroupOf(purpose)), l)
  {
    hide Tally, Claimed, Committed, Charged, Balanced, Plus, GroupOf, Held, ValidEnvelope;
    var c := DoCharge(b, lane, cpu, note, tally, purpose, GroupOf(purpose));
    assert AccountOk(b, l);
    ChargedAppend(b.journal, c.journal[|b.journal|], l);
    PlusZero(Charged(b.journal, l));
    ChargeBalances(Account(b.lanes, l), c.lanes[lane].work, Amount(cpu, 0.0), Claimed(b.open, OnLane(l)),
                   Charged(b.journal, l));
  }

  lemma {:induction false} ChargeGroups(b: Books, lane: string, cpu: real, note: string, tally: string,
      purpose: string, h: Group)
    requires BInv(b) && cpu >= 0.0
    ensures GroupOk(DoCharge(b, lane, cpu, note, tally, purpose, GroupOf(purpose)), h)
  {
    hide Tally, Claimed, Committed, Charged, Plus, ValidEnvelope, GroupOf;
    assert GroupOk(b, h);
    SpendNonNegative(Get(b.spent, h), Amount(cpu, 0.0));
  }

  lemma {:induction false} ChargeCommits(b: Books, lane: string, cpu: real, note: string, tally: string,
      purpose: string)
    requires BInv(b) && cpu >= 0.0
    ensures var c := DoCharge(b, lane, cpu, note, tally, purpose, GroupOf(purpose));
            && Committed(c) == Plus(Committed(b), Amount(cpu, 0.0))
            && Committed(c) == Plus(Claimed(c.open, All), TotalSpent(c))
  {
    hide Tally, Claimed, Committed, Charged, Plus, Minus, Balanced, ValidEnvelope, GroupOf, TotalSpent, Held, GroupOk;
    var c := DoCharge(b, lane, cpu, note, tally, purpose, GroupOf(purpose));
    assert AccountOk(b, lane);
    ChargeBalances(Account(b.lanes, lane), c.lanes[lane].work, Amount(cpu, 0.0), Claimed(b.open, OnLane(lane)),
                   Charged(b.journal, lane));
    LaneSet(b, c, lane, c.lanes[lane]);
    SpendInGroup(b, c, GroupOf(purpose), Amount(cpu, 0.0));
    PlusAssoc(Claimed(b.open, All), TotalSpent(b), Amount(cpu, 0.0));
  }

  lemma {:induction false} PlusAssoc(a: Amount, b: Amount, c: Amount)
    ensures Plus(Plus(a, b), c) == Plus(a, Plus(b, c))
  {
  }

  lemma {:induction false} ChargeKeeps(b: Books, lane: string, cpu: real, note: string, tally: string, purpose: string)
    requires BInv(b) && CheckCharge(lane, cpu, purpose) == None
    ensures BInv(DoCharge(b, lane, cpu, note, tally, purpose, GroupOf(purpose)))
  {
    hide Tally, Claimed, Committed, Charged, Plus, ValidEnvelope, TotalSpent, AccountOk, GroupOk, GroupOf, PurposeClass;
    var c := DoCharge(b, lane, cpu, note, tally, purpose, GroupOf(purpose));
    forall id | id in c.open ensures ReservationOk(c, id) { assert ReservationOk(b, id); }
    forall l ensures AccountOk(c, l) { ChargeAccounts(b, lane, cpu, note, tally, purpose, l); }
    forall h ensures GroupOk(c, h) { ChargeGroups(b, lane, cpu, note, tally, purpose, h); }
    ChargeCommits(b, lane, cpu, note, tally, purpose);
  }

  // ---------------------------------------------------------------- runs

  lemma {:induction false} RefuseKeeps(b: Books, d: seq<Denial>)
    requires BInv(b)
    ensures BInv(b.(denials := d))
  {
    hide Claimed, Charged;
    var c := b.(denials := d);
    forall id | id in c.open ensures ReservationOk(c, id) { assert ReservationOk(b, id); }
    forall l ensures AccountOk(c, l) { assert AccountOk(b, l); }
    forall g ensures GroupOk(c, g) { assert GroupOk(b, g); }
  }

  lemma {:induction false} StoredFieldsPass(b: Books, r: Reservation)
    requires BInv(b) && r.id in b.open && b.open[r.id] == r
    ensures CheckFields(r) == None
  {
    hide PurposeClass, AccountOk, GroupOk, Committed, ValidEnvelope;
    assert ReservationOk(b, r.id);
  }

  /** A refused command on a genuine reservation changes nothing but the record of denials. */
  lemma {:induction false} RefusalLeavesBooks(b: Books, c: Command)
    requires BInv(b) && Genuine(b, c) && Check(b, c).Some?
    ensures Step(b, c) == b.(denials := Step(b, c).denials)
    ensures !c.Reserve? ==> Step(b, c) == b
  {
    hide BInv, CheckReserve, CheckFields, Dropped, CheckProvenance;
    if (c.Settle? || c.Release?) && c.r.id in b.open { StoredFieldsPass(b, c.r); }
  }

  /** Every command on a genuine reservation keeps the books in balance. */
  lemma {:induction false} StepKeepsBooks(b: Books, c: Command)
    requires BInv(b) && Genuine(b, c)
    ensures BInv(Step(b, c))
  {
    hide BInv, CheckReserve, DoReserve, DoSettle, DoRelease, DoCharge, Closes, Refused, CheckFields, Harmless;
    if Check(b, c).Some? {
      RefusalLeavesBooks(b, c);
      RefuseKeeps(b, Step(b, c).denials);
    } else {
      match c
      case Reserve(lane, purpose, want, prov) => ReserveKeeps(b, lane, purpose, want, prov);
      case Settle(r, cpu, gpu, cs, gs) =>
        StoredIsHarmless(b, r);
        SettledSpend(b, r, cpu, gpu);
        SettleCloses(b, r, Spend(r, cpu, gpu), SourceName(cs, cpu), SourceName(gs, gpu));
        CloseKeeps(b, Step(b, c), r, Spend(r, cpu, gpu));
      case Release(r) =>
        if r.id in b.open {
          StoredIsHarmless(b, r);
          ReleaseCloses(b, r);
          CloseKeeps(b, Step(b, c), r, ZERO);
        }
      case Charge(lane, cpu, note, tally, purpose) => ChargeKeeps(b, lane, cpu, note, tally, purpose);
    }
  }

  lemma {:induction false} SettledSpend(b: Books, r: Reservation, cpu: Option<real>, gpu: Option<real>)
    requires BInv(b) && r.id in b.open && b.open[r.id] == r
    requires (cpu.Some? ==> cpu.value >= 0.0) && (gpu.Some? ==> gpu.value >= 0.0)
    ensures NonNegative(Spend(r, cpu, gpu))
  {
    assert ReservationOk(b, r.id);
  }

  lemma {:induction false} RunKeepsBooks(b: Books, cs: seq<Command>)
    requires BInv(b) && GenuineRun(b, cs)
    ensures BInv(Run(b, cs))
  {
    hide BInv, Step, Genuine;
    if |cs| > 0 {
      RunKeepsBooks(b, cs[..|cs| - 1]);
      StepKeepsBooks(Run(b, cs[..|cs| - 1]), cs[|cs| - 1]);
    }
  }
}
