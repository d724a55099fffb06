/** A small envelope and runs on it. */
module BudgetInstances {
  import opened Wrappers
  import opened Amounts
  import opened Budget
  import opened BudgetInvariant
  import opened BudgetBounds
  import opened BudgetObjects

  /** A CPU-only envelope of ten milliseconds with no reserves. */
  predicate IsTen(e: Envelope) {
    e.wall == 1.0 && e.cpu == 10.0 && e.gpu == 0.0 && e.verify == 0.0 && e.refine == 0.0 && e.controller == 0.0
  }

  predicate Is(a: Amount, cpu: real) { a.cpu == cpu && a.gpu == 0.0 }

  lemma {:induction false} TenCaps(e: Envelope)
    requires IsTen(e)
    ensures ValidEnvelope(e) && Is(Cap(e, Solver), 10.0) && Is(Whole(e), 10.0)
  {
    NothingReserved(e.cpu, e.verify, e.refine, e.controller);
    NothingReserved(e.gpu, e.verify, e.refine, 0.0);
  }

  lemma {:induction false} NothingReserved(total: real, v: real, r: real, fixed: real)
    requires total >= 0.0 && v == 0.0 && r == 0.0 && fixed == 0.0
    ensures Rest(total, v, r, fixed) == total && total * v == 0.0 && total * r == 0.0
  {
  }

  /** With nothing used the whole capacity is on offer; with the whole overrun the headroom is negative. */
  lemma {:induction false} HeadroomOf(cap: Amount, whole: Amount, used: Amount, all: Amount, head: Amount, x: real)
    requires Is(cap, 10.0) && Is(whole, 10.0) && Is(all, x)
    requires head ==
             Amount(Min(Minus(cap, used).cpu, Minus(whole, all).cpu), Min(Minus(cap, used).gpu, Minus(whole, all).gpu))
    ensures head.cpu <= 10.0 - x
    ensures Is(used, 0.0) && x == 0.0 ==> Is(Clamp(head), 10.0)
  {
  }

  lemma {:induction false} OpeningOffers(e: Envelope, lane: string, purpose: string, want: Amount, none: Provenance)
    requires IsTen(e) && lane != "" && PurposeClass(purpose) == Some(Solver) && Is(want, 10.0)
        && none == Provenance(None, None, None)
    ensures CheckReserve(Opening(e), lane, purpose, want, none) == None
    ensures Committed(Opening(e)) == ZERO
  {
    hide PurposeClass, Cap, Whole, Clamp, Plus, Minus, Min;
    var o := Opening(e);
    TenCaps(e);
    assert LaneHolds(o.lanes) == map[];
    PlusFromZero(ZERO, ZERO);
    HeadroomOf(Cap(e, Solver), Whole(e), GroupCommitted(o, Solver), Committed(o), Headroom(o, Solver), 0.0);
  }

  /** Settled under another lane's name, the claim on the first lane is never taken back. */
  lemma {:induction false} ForeignObjectUnbalances(e: Envelope, lane: string, other: string, purpose: string)
      returns (cs: seq<Command>)
    requires IsTen(e) && lane != "" && other != "" && other != lane && PurposeClass(purpose) == Some(Solver)
    ensures var claim, none := Amount(10.0, 0.0), Provenance(None, None, None);
            cs == [Reserve(lane, purpose, claim, none),
                   Settle(Reservation(1, other, purpose, claim, none), None, None, None, None)]
    ensures EachAccepted(Opening(e), cs)
    ensures BInv(Run(Opening(e), cs[..1])) && !BInv(Run(Opening(e), cs))
  {
    hide BInv, PurposeClass, CheckReserve, DoSettle, ValidEnvelope;
    var o, claim, none := Opening(e), Amount(10.0, 0.0), Provenance(None, None, None);
    var first := Reserve(lane, purpose, claim, none);
    var second := Settle(Reservation(1, other, purpose, claim, none), None, None, None, None);
    cs := [first, second];
    TenCaps(e);
    OpeningKeeps(e);
    OpeningOffers(e, lane, purpose, claim, none);
    StepKeepsBooks(o, first);
    var b := Step(o, first);
    assert cs[..1] == [first] && [first][..0] == [];
    assert Run(o, []) == o && Run(o, [first]) == b && Run(o, cs) == Step(b, second);
    assert EachAccepted(o, []) && EachAccepted(o, [first]);
    SettledElsewhere(b, second);
    OtherLaneUnbalances(b, second);
  }

  lemma {:induction false} SettledElsewhere(b: Books, c: Command)
    requires c.Settle? && c.cpu == c.gpu == None && c.cpuSource == c.gpuSource == None
    requires c.r.id in b.open && CheckFields(c.r) == None
    ensures Check(b, c) == None && Step(b, c).open == b.open - {c.r.id}
  {
    hide Settled, CheckFields;
  }
}
