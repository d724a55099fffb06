/** How far the ledger can be over its envelope, and how the partition caps relate to the whole. */
module BudgetBounds {
  import opened Wrappers
  import opened Amounts
  import opened Budget
  import opened BudgetInvariant

  // ---------------------------------------------------------------- caps and the whole

  lemma {:induction false} Share(total: real, v: real, r: real)
    requires total >= 0.0 && v + r < 1.0
    ensures total - total * v - total * r >= 0.0
  {
    Product(total, 1.0 - v - r);
    assert total * (1.0 - v - r) == total - total * v - total * r;
  }

  /** The four partition caps of a valid envelope add up to exactly the envelope. */
  lemma {:induction false} CapsPartition(e: Envelope)
    requires ValidEnvelope(e)
    ensures Four(Cap(e, Solver), Cap(e, Verify), Cap(e, Refine), Cap(e, Controller)) == Whole(e)
  {
    Share(e.gpu, e.verify, e.refine);
  }

  lemma {:induction false} FourSums(a: Amount, b: Amount, c: Amount, d: Amount, w: Amount, x: Amount,
      y: Amount, z: Amount)
    ensures Four(Plus(a, w), Plus(b, x), Plus(c, y), Plus(d, z)) == Plus(Four(a, b, c, d), Four(w, x, y, z))
  {
  }

  /** Committed over lanes equals committed over purpose groups. */
  lemma {:induction false} LanesAgreeWithGroups(b: Books)
    requires BInv(b)
    ensures Committed(b) == Four(GroupCommitted(b, Solver), GroupCommitted(b, Verify),
                                 GroupCommitted(b, Refine), GroupCommitted(b, Controller))
  {
    hide Committed, Claimed, Plus, ValidEnvelope, PurposeClass, CheckProvenance, Charged, Balanced, NonNegative;
    forall i | i in b.open ensures PurposeClass(b.open[i].purpose).Some? { assert ReservationOk(b, i); }
    ClaimsByGroup(b.open);
    assert GroupOk(b, Solver) && GroupOk(b, Verify) && GroupOk(b, Refine) && GroupOk(b, Controller);
    FourSums(Get(b.reserved, Solver), Get(b.reserved, Verify), Get(b.reserved, Refine), Get(b.reserved, Controller),
             Get(b.spent, Solver), Get(b.spent, Verify), Get(b.spent, Refine), Get(b.spent, Controller));
  }

  ghost predicate WithinCaps(b: Books) {
    forall g :: Within(GroupCommitted(b, g), Cap(b.env, g))
  }

  ghost predicate WithinWhole(b: Books) {
    Within(Committed(b), Whole(b.env))
  }

  lemma {:induction false} FourWithin(a: Amount, b: Amount, c: Amount, d: Amount, w: Amount, x: Amount,
      y: Amount, z: Amount)
    requires Within(a, w) && Within(b, x) && Within(c, y) && Within(d, z)
    ensures Within(Four(a, b, c, d), Four(w, x, y, z))
  {
  }

  /** Keeping every partition cap keeps the envelope. */
  lemma {:induction false} CapsImplyEnvelope(b: Books)
    requires BInv(b) && WithinCaps(b)
    ensures WithinWhole(b)
  {
    hide Committed, GroupCommitted, Cap, Within, Four, Whole;
    CapsPartition(b.env);
    LanesAgreeWithGroups(b);
    FourWithin(GroupCommitted(b, Solver), GroupCommitted(b, Verify),
               GroupCommitted(b, Refine), GroupCommitted(b, Controller),
               Cap(b.env, Solver), Cap(b.env, Verify), Cap(b.env, Refine), Cap(b.env, Controller));
  }

  /** Lane spend and purpose spend are the same money, and so are lane and purpose reservations. */
  lemma {:induction false} ReservedAgrees(b: Books)
    requires BInv(b)
    ensures Four(Get(b.reserved, Solver), Get(b.reserved, Verify), Get(b.reserved, Refine), Get(b.reserved, Controller))
            == Claimed(b.open, All)
    ensures Minus(Committed(b), Claimed(b.open, All)) == TotalSpent(b)
  {
    hide Committed, Claimed, ValidEnvelope, PurposeClass, CheckProvenance;
    hide Charged, Balanced, NonNegative, TotalSpent, Plus, Minus;
    forall i | i in b.open ensures PurposeClass(b.open[i].purpose).Some? { assert ReservationOk(b, i); }
    ClaimsByGroup(b.open);
    assert GroupOk(b, Solver) && GroupOk(b, Verify) && GroupOk(b, Refine) && GroupOk(b, Controller);
    PlusSwap(Claimed(b.open, All), ZERO, TotalSpent(b));
  }

  // ---------------------------------------------------------------- the overrun bound

  /** What one journal row may add beyond capacity: settled beyond the reservation, or charged without one. */
  function Excess(row: JournalRow): Amount {
    match row
    case SettleRow(_, _, _, _, declared, actual, _, _, _) => Clamp(Minus(actual, declared))
    case ChargeRow(_, _, _, cpu, _) => Amount(cpu, 0.0)
    case _ => ZERO
  }

  function RowPicked(row: JournalRow, sel: Selector): bool {
    match sel
    case All => true
    case OnLane(l) => row.lane == l
    case InGroup(g) => PurposeClass(row.purpose) == Some(g)
  }

  function ExcessOf(journal: seq<JournalRow>, sel: Selector): Amount {
    if |journal| == 0 then ZERO
    else
      Plus(ExcessOf(journal[..|journal| - 1], sel),
           if RowPicked(journal[|journal| - 1], sel) then Excess(journal[|journal| - 1]) else ZERO)
  }

  lemma {:induction false} ExcessAppend(journal: seq<JournalRow>, row: JournalRow, sel: Selector)
    ensures ExcessOf(journal + [row], sel) ==
            Plus(ExcessOf(journal, sel), if RowPicked(row, sel) then Excess(row) else ZERO)
  {
    assert (journal + [row])[..|journal|] == journal;
  }

  /** The committed total of a selector, and the capacity it is held against. */
  ghost function Used(b: Books, sel: Selector): Amount
    requires !sel.OnLane?
  {
    match sel case All => Committed(b) case InGroup(g) => GroupCommitted(b, g)
  }

  ghost function Limit(e: Envelope, sel: Selector): Amount
    requires !sel.OnLane?
  {
    match sel case All => Whole(e) case InGroup(g) => Cap(e, g)
  }

  ghost predicate Bounded(b: Books, sel: Selector)
    requires !sel.OnLane?
  {
    NonNegative(ExcessOf(b.journal, sel)) && Within(Used(b, sel), Plus(Limit(b.env, sel), ExcessOf(b.journal, sel)))
  }

  lemma {:induction false} AdmitBound(used: Amount, limit: Amount, excess: Amount, want: Amount)
    requires NonNegative(want) && NonNegative(excess) && Within(want, Clamp(Minus(limit, used)))
    requires Within(used, Plus(limit, excess))
    ensures Within(Plus(used, want), Plus(limit, excess))
  {
  }

  lemma {:induction false} AddBound(used: Amount, limit: Amount, excess: Amount, delta: Amount, more: Amount)
    requires NonNegative(excess) && NonNegative(more) && Within(delta, more) && Within(used, Plus(limit, excess))
    ensures NonNegative(Plus(excess, more)) && Within(Plus(used, delta), Plus(limit, Plus(excess, more)))
  {
  }

  lemma {:induction false} ClampCovers(a: Amount)
    ensures NonNegative(Clamp(a)) && Within(a, Clamp(a))
  {
  }

  lemma {:induction false} HeadroomWithin(want: Amount, own: Amount, all: Amount, g: Amount, w: Amount, head: Amount)
    requires head == Amount(Min(Minus(own, g).cpu, Minus(all, w).cpu), Min(Minus(own, g).gpu, Minus(all, w).gpu))
    requires Within(want, Clamp(head))
    ensures Within(want, Clamp(Minus(own, g))) && Within(want, Clamp(Minus(all, w)))
  {
  }

  lemma {:induction false} ReserveUsed(b: Books, lane: string, purpose: string, want: Amount, prov: Provenance,
      sel: Selector)
    requires BInv(b) && !sel.OnLane? && PurposeClass(purpose).Some?
    ensures var c := DoReserve(b, lane, purpose, GroupOf(purpose), want, prov);
            Used(c, sel) ==
            if sel == All || sel == InGroup(GroupOf(purpose)) then Plus(Used(b, sel), want) else Used(b, sel)
  {
    hide Committed, BInv, Plus, Claimed, PurposeClass;
    match sel
    case All => ReserveCommits(b, lane, purpose, want, prov);
    case InGroup(g) => PlusSwap(Get(b.reserved, g), Get(b.spent, g), want);
  }

  lemma {:induction false} ReserveBound(b: Books, lane: string, purpose: string, want: Amount,
      prov: Provenance, sel: Selector)
    requires BInv(b) && !sel.OnLane? && CheckReserve(b, lane, purpose, want, prov) == None && Bounded(b, sel)
    ensures Bounded(DoReserve(b, lane, purpose, GroupOf(purpose), want, prov), sel)
  {
    hide Committed, BInv, Plus, Claimed, PurposeClass, CheckProvenance;
    hide GroupCommitted, Cap, Whole, Minus, Min, Clamp, ExcessOf;
    var g := GroupOf(purpose);
    var c := DoReserve(b, lane, purpose, g, want, prov);
    ReserveUsed(b, lane, purpose, want, prov, sel);
    ExcessAppend(b.journal, c.journal[|b.journal|], sel);
    PlusZero(ExcessOf(b.journal, sel));
    HeadroomWithin(want, Cap(b.env, g), Whole(b.env), GroupCommitted(b, g), Committed(b), Headroom(b, g));
    if sel == All || sel == InGroup(g) {
      AdmitBound(Used(b, sel), Limit(b.env, sel), ExcessOf(b.journal, sel), want);
    }
  }

  lemma {:induction false} CloseUsed(b: Books, c: Books, r: Reservation, spend: Amount, sel: Selector)
    requires BInv(b) && r.id in b.open && b.open[r.id] == r && Closes(b, c, r, spend) && !sel.OnLane?
    ensures Used(c, sel) == if sel == All || sel == InGroup(GroupOf(r.purpose))
                            then Plus(Used(b, sel), Minus(spend, r.amount)) else Used(b, sel)
  {
    hide Committed, BInv, Plus, Minus, Clamp, Claimed, ClosedAccount, PurposeClass, GroupOf;
    ClampNeverBites(b, r);
    match sel
    case All =>
      StoredIsHarmless(b, r);
      CloseCommits(b, c, r, spend);
    case InGroup(g) => PlusShift(Get(b.reserved, g), r.amount, Get(b.spent, g), spend);
  }

  lemma {:induction false} PlusShift(a: Amount, b: Amount, c: Amount, d: Amount)
    ensures Plus(Minus(a, b), Plus(c, d)) == Plus(Plus(a, c), Minus(d, b))
  {
  }

  /** Closing a reservation keeps the bound, the row it appends paying for any overrun. */
  lemma {:induction false} CloseBound(b: Books, c: Books, r: Reservation, spend: Amount, sel: Selector)
    requires BInv(b) && r.id in b.open && b.open[r.id] == r && Closes(b, c, r, spend) && !sel.OnLane?
    requires c.journal[|b.journal|].purpose == r.purpose && NonNegative(Excess(c.journal[|b.journal|]))
    requires Within(Minus(spend, r.amount), Excess(c.journal[|b.journal|]))
    requires Bounded(b, sel)
    ensures Bounded(c, sel)
  {
    hide Committed, Plus, Minus, Clamp, Claimed, ClosedAccount, Excess, ExcessOf, GroupCommitted, Cap, Whole;
    hide Within, NonNegative, AccountOk, GroupOk, CheckProvenance, ValidEnvelope, PurposeClass, TotalSpent;
    assert ReservationOk(b, r.id);
    var row := c.journal[|b.journal|];
    CloseUsed(b, c, r, spend, sel);
    assert c.journal == b.journal + [row];
    ExcessAppend(b.journal, row, sel);
    PlusZero(ExcessOf(b.journal, sel));
    if RowPicked(row, sel) {
      AddBound(Used(b, sel), Limit(b.env, sel), ExcessOf(b.journal, sel), Minus(spend, r.amount), Excess(row));
    }
  }

  lemma {:induction false} SettleBound(b: Books, r: Reservation, spend: Amount, cpuSource: string,
      gpuSource: string, sel: Selector)
    requires BInv(b) && r.id in b.open && b.open[r.id] == r && !sel.OnLane? && Bounded(b, sel)
    requires ParseSource(cpuSource).Some? && ParseSource(gpuSource).Some?
    ensures Bounded(DoSettle(b, r, GroupOf(r.purpose), spend, cpuSource, gpuSource), sel)
  {
    hide BInv, Bounded, Closes, ParseSource, Clamp, Minus, GroupOf;
    var c := DoSettle(b, r, GroupOf(r.purpose), spend, cpuSource, gpuSource);
    SettleCloses(b, r, spend, cpuSource, gpuSource);
    ClampCovers(Minus(spend, r.amount));
    CloseBound(b, c, r, spend, sel);
  }

  lemma {:induction false} ReleaseFrees(amount: Amount, zero: Amount)
    requires NonNegative(amount) && zero.cpu == 0.0 && zero.gpu == 0.0
    ensures Within(Minus(zero, amount), zero) && NonNegative(zero)
  {
  }

  lemma {:induction false} ReleaseBound(b: Books, r: Reservation, sel: Selector)
    requires BInv(b) && r.id in b.open && b.open[r.id] == r && !sel.OnLane? && Bounded(b, sel)
    ensures Bounded(DoRelease(b, r, GroupOf(r.purpose)), sel)
  {
    hide Bounded, Closes, GroupOf, Claimed, Committed, ValidEnvelope, PurposeClass, CheckProvenance, Within;
    hide Minus, NonNegative, AccountOk, GroupOk, Plus, Clamp;
    ReleaseCloses(b, r);
    assert ReservationOk(b, r.id);
    ReleaseFrees(r.amount, ZERO);
    CloseBound(b, DoRelease(b, r, GroupOf(r.purpose)), r, ZERO, sel);
  }

  lemma {:induction false} ChargeBound(b: Books, lane: string, cpu: real, note: string, tally: string,
      purpose: string, sel: Selector)
    requires BInv(b) && CheckCharge(lane, cpu, purpose) == None && !sel.OnLane? && Bounded(b, sel)
    ensures Bounded(DoCharge(b, lane, cpu, note, tally, purpose, GroupOf(purpose)), sel)
  {
    hide Committed, BInv, Plus, Claimed, ExcessOf, Cap, Whole, Within, NonNegative, PurposeClass;
    var c := DoCharge(b, lane, cpu, note, tally, purpose, GroupOf(purpose));
    var delta := Amount(cpu, 0.0);
    ChargeCommits(b, lane, cpu, note, tally, purpose);
    ExcessAppend(b.journal, c.journal[|b.journal|], sel);
    PlusZero(ExcessOf(b.journal, sel));
    Reflexive(delta);
    PlusAssoc(Get(b.reserved, GroupOf(purpose)), Get(b.spent, GroupOf(purpose)), delta);
    if RowPicked(c.journal[|b.journal|], sel) {
      AddBound(Used(b, sel), Limit(b.env, sel), ExcessOf(b.journal, sel), delta, delta);
    }
  }

  lemma {:induction false} Reflexive(a: Amount)
    ensures Within(a, a) && (a.cpu >= 0.0 && a.gpu >= 0.0 ==> NonNegative(a))
  {
  }

  lemma {:induction false} RefuseBound(b: Books, d: seq<Denial>, sel: Selector)
    requires !sel.OnLane? && Bounded(b, sel)
    ensures Bounded(b.(denials := d), sel)
  {
  }

  lemma {:induction false} StepBound(b: Books, c: Command, sel: Selector)
    requires BInv(b) && Genuine(b, c) && !sel.OnLane? && Bounded(b, sel)
    ensures Bounded(Step(b, c), sel)
  {
    hide BInv, CheckReserve, DoReserve, DoSettle, DoRelease, DoCharge, ExcessOf, Committed, Plus, Within;
    hide NonNegative, Refused, CheckFields;
    if Check(b, c).Some? {
      RefusalLeavesBooks(b, c);
      RefuseBound(b, Step(b, c).denials, sel);
    } else {
      match c
      case Reserve(lane, purpose, want, prov) => ReserveBound(b, lane, purpose, want, prov, sel);
      case Settle(r, cpu, gpu, cs, gs) =>
        SettleBound(b, r, Spend(r, cpu, gpu), SourceName(cs, cpu), SourceName(gs, gpu), sel);
      case Release(r) =>
        if r.id in b.open { ReleaseBound(b, r, sel); }
      case Charge(lane, cpu, note, tally, purpose) => ChargeBound(b, lane, cpu, note, tally, purpose, sel);
    }
  }

  lemma {:induction false} OpeningBounded(env: Envelope, sel: Selector)
    requires ValidEnvelope(env) && !sel.OnLane?
    ensures Bounded(Opening(env), sel)
  {
    hide ValidEnvelope, Plus, Within, NonNegative, Cap, Whole;
    var b := Opening(env);
    assert LaneHolds(b.lanes) == map[];
    CapsNonNegative(env);
    PlusFromZero(ZERO, ZERO);
    ZeroUse(Used(b, sel), ExcessOf(b.journal, sel), Limit(env, sel));
  }

  lemma {:induction false} PlusFromZero(z: Amount, a: Amount)
    requires z.cpu == 0.0 && z.gpu == 0.0
    ensures Plus(z, a) == a
  {
  }

  lemma {:induction false} ZeroUse(used: Amount, excess: Amount, limit: Amount)
    requires used.cpu == 0.0 && used.gpu == 0.0 && excess.cpu == 0.0 && excess.gpu == 0.0 && NonNegative(limit)
    ensures NonNegative(excess) && Within(used, Plus(limit, excess))
  {
  }

  lemma {:induction false} CapsNonNegative(e: Envelope)
    requires ValidEnvelope(e)
    ensures NonNegative(Whole(e)) && forall g :: NonNegative(Cap(e, g))
  {
    Product(e.cpu, e.verify);
    Product(e.cpu, e.refine);
    Product(e.gpu, e.verify);
    Product(e.gpu, e.refine);
    assert NonNegative(Cap(e, Solver));
    assert NonNegative(Cap(e, Verify));
    assert NonNegative(Cap(e, Refine));
    assert NonNegative(Cap(e, Controller));
  }

  lemma {:induction false} Product(x: real, y: real)
    requires x >= 0.0 && y >= 0.0
    ensures x * y >= 0.0
  {
  }

  /**
   Over any run, neither the whole envelope nor any partition is exceeded by more than what settlements
   spent beyond their reservations plus what was charged without one.
   */
  lemma {:induction false} RunBounded(env: Envelope, cs: seq<Command>, sel: Selector)
    requires ValidEnvelope(env) && GenuineRun(Opening(env), cs) && !sel.OnLane?
    ensures Bounded(Run(Opening(env), cs), sel)
  {
    hide Step, Genuine, Bounded, BInv, ValidEnvelope;
    OpeningKeeps(env);
    if |cs| == 0 {
      OpeningBounded(env, sel);
    } else {
      RunBounded(env, cs[..|cs| - 1], sel);
      RunKeepsBooks(Opening(env), cs[..|cs| - 1]);
      StepBound(Run(Opening(env), cs[..|cs| - 1]), cs[|cs| - 1], sel);
    }
  }
}
