/** Settling and releasing with any object: exactly when the books stay balanced. */
module BudgetObjects {
  import opened Wrappers
  import opened Amounts
  import opened Budget
  import opened BudgetInvariant

  /** The command takes its id out of the open reservations: its other arguments are in order. */
  ghost predicate Closing(b: Books, c: Command) {
    (c.Settle? || c.Release?) && c.r.id in b.open && Check(b, c) == CheckFields(c.r)
  }

  /** A part-way refusal does no harm: nothing was claimed, and the named lane, if any, loses nothing. */
  predicate HarmlessDrop(b: Books, r: Reservation)
    requires r.id in b.open
  {
    && b.open[r.id].amount == ZERO
    && (r.lane == "" || Clamp(Minus(Account(b.lanes, r.lane).reserved, r.amount)) == Account(b.lanes, r.lane).reserved)
  }

  /** What a caller can look up before the call: the object may close its id. */
  predicate MayClose(b: Books, r: Reservation)
    requires r.id in b.open
  {
    if CheckFields(r) == None then Harmless(b, r) else HarmlessDrop(b, r)
  }

  /** The command, if it closes an id, does so with an object that may. */
  ghost predicate MayTake(b: Books, c: Command) {
    Closing(b, c) ==> MayClose(b, c.r)
  }

  // ---------------------------------------------------------------- a completed settlement or release

  lemma {:induction false} OwedNonNegative(b: Books, r: Reservation)
    requires BInv(b) && r.id in b.open
    ensures NonNegative(b.open[r.id].amount) && NonNegative(Account(b.lanes, r.lane).reserved)
  {
    hide Claimed, Committed, Charged, ValidEnvelope, GroupOk, PurposeClass, CheckProvenance;
    forall i | i in b.open ensures NonNegative(b.open[i].amount) { assert ReservationOk(b, i); }
    assert AccountOk(b, r.lane);
    ClaimNonNegative(b.open, OnLane(r.lane));
  }

  lemma {:induction false} ClaimNonNegative(open: map<int, Reservation>, sel: Selector)
    requires forall i | i in open :: NonNegative(open[i].amount)
    ensures NonNegative(Claimed(open, sel))
  {
    hide Sum;
    forall i | i in Selected(open, sel) ensures NonNegative(Selected(open, sel)[i]) {
      assert i in open;
    }
    SumNonNegative(Selected(open, sel));
  }

  lemma {:induction false} TakenNonNegative(total: Amount, taken: Amount, same: bool, owed: Amount)
    requires Leaves(total, taken, same, owed) && NonNegative(total) && NonNegative(owed)
    ensures NonNegative(taken)
  {
  }

  /** A harmless object never books a negative spend, not even from its own amounts. */
  lemma {:induction false} HarmlessSpend(b: Books, r: Reservation, cpu: Option<real>, gpu: Option<real>)
    requires BInv(b) && r.id in b.open && Harmless(b, r)
    requires (cpu.Some? ==> cpu.value >= 0.0) && (gpu.Some? ==> gpu.value >= 0.0)
    ensures NonNegative(Spend(r, cpu, gpu))
  {
    hide BInv, Leaves;
    OwedNonNegative(b, r);
    TakenNonNegative(Account(b.lanes, r.lane).reserved, r.amount, r.lane == b.open[r.id].lane, b.open[r.id].amount);
  }

  lemma {:induction false} MustLeave(total: Amount, taken: Amount, same: bool, owed: Amount, other: Amount)
    requires Clamp(Minus(total, taken)) == Minus(total, if same then owed else ZERO)
    requires same || other == Minus(other, owed)
    ensures Leaves(total, taken, same, owed)
  {
  }

  /** Balanced books after the step leave no other possibility than a harmless object. */
  lemma {:induction false} BalancedIsHarmless(b: Books, d: Books, r: Reservation, spend: Amount)
    requires BInv(b) && r.id in b.open && Closes(b, d, r, spend) && BInv(d)
    ensures Harmless(b, r)
  {
    hide BInv, Closes, Claimed, Clamp, Minus, Leaves, GroupOf;
    var q := b.open[r.id];
    LaneMustLeave(b, d, r, spend);
    GroupMustLeave(b, d, r, spend);
  }

  lemma {:induction false} LaneMustLeave(b: Books, d: Books, r: Reservation, spend: Amount)
    requires BInv(b) && r.id in b.open && Closes(b, d, r, spend) && BInv(d)
    ensures Leaves(Account(b.lanes, r.lane).reserved, r.amount, r.lane == b.open[r.id].lane, b.open[r.id].amount)
  {
    hide Claimed, Committed, Charged, Clamp, Minus, Leaves, GroupOf, Balanced, GroupOk, ReservationOk, ValidEnvelope;
    var q := b.open[r.id];
    SameReserved(b, r.lane);
    SameReserved(d, r.lane);
    SameReserved(b, q.lane);
    SameReserved(d, q.lane);
    ClaimRemove(b.open, r.id, OnLane(r.lane));
    ClaimRemove(b.open, r.id, OnLane(q.lane));
    MustLeave(Account(b.lanes, r.lane).reserved, r.amount, r.lane == q.lane, q.amount,
              Account(b.lanes, q.lane).reserved);
  }

  lemma {:induction false} SameReserved(b: Books, l: string)
    requires BInv(b)
    ensures Account(b.lanes, l).reserved == Claimed(b.open, OnLane(l))
  {
    hide Claimed, Committed, Charged, ValidEnvelope, ReservationOk, GroupOk;
    assert AccountOk(b, l);
  }

  lemma {:induction false} GroupMustLeave(b: Books, d: Books, r: Reservation, spend: Amount)
    requires BInv(b) && r.id in b.open && Closes(b, d, r, spend) && BInv(d)
    ensures Leaves(Get(b.reserved, GroupOf(r.purpose)), r.amount,
                   GroupOf(r.purpose) == GroupOf(b.open[r.id].purpose), b.open[r.id].amount)
  {
    hide Claimed, Committed, Charged, Clamp, Minus, Leaves, Balanced, AccountOk, ValidEnvelope, PurposeClass;
    hide CheckProvenance, NonNegative;
    var q := b.open[r.id];
    assert ReservationOk(b, r.id);
    var g, h := GroupOf(r.purpose), GroupOf(q.purpose);
    assert GroupOk(b, g) && GroupOk(d, g) && GroupOk(b, h) && GroupOk(d, h);
    ClaimRemove(b.open, r.id, InGroup(g));
    ClaimRemove(b.open, r.id, InGroup(h));
    MustLeave(Get(b.reserved, g), r.amount, g == h, q.amount, Get(b.reserved, h));
  }

  /** An accepted settlement or release leaves the books balanced exactly when its object is harmless. */
  lemma {:induction false} ClosingIff(b: Books, c: Command)
    requires BInv(b) && (c.Settle? || c.Release?) && c.r.id in b.open && Check(b, c) == None
    ensures BInv(Step(b, c)) <==> Harmless(b, c.r)
  {
    hide BInv, DoSettle, DoRelease, Closes, CheckFields, Harmless, NonNegative, ParseSource;
    var r, d := c.r, Step(b, c);
    var spend := if c.Settle? then Spend(r, c.cpu, c.gpu) else ZERO;
    if c.Settle? {
      SettleCloses(b, r, spend, SourceName(c.cpuSource, c.cpu), SourceName(c.gpuSource, c.gpu));
    } else {
      ReleaseCloses(b, r);
    }
    if Harmless(b, r) {
      if c.Settle? { HarmlessSpend(b, r, c.cpu, c.gpu); } else { NothingIsNonNegative(ZERO); }
      CloseKeeps(b, d, r, spend);
    }
    if BInv(d) { BalancedIsHarmless(b, d, r, spend); }
  }

  lemma {:induction false} NothingIsNonNegative(z: Amount)
    requires z == ZERO
    ensures NonNegative(z)
  {
  }

  // ---------------------------------------------------------------- a part-way refusal

  lemma {:induction false} ClampedIsSame(a: LaneAccount, taken: Amount)
    requires Clamp(Minus(a.reserved, taken)) == a.reserved
    ensures a.(reserved := Clamp(Minus(a.reserved, taken))) == a
  {
  }

  lemma {:induction false} NothingOwed(b: Books, id: int, sel: Selector)
    requires id in b.open && b.open[id].amount == ZERO
    ensures Claimed(b.open - {id}, sel) == Claimed(b.open, sel)
  {
    hide Claimed;
    ClaimRemove(b.open, id, sel);
    PlusZero(Claimed(b.open, sel));
  }

  lemma {:induction false} SameCommitted(b: Books, d: Books, lane: string)
    requires d.lanes == b.lanes || d.lanes == b.lanes[lane := Account(b.lanes, lane)]
    ensures Committed(d) == Committed(b)
  {
    hide Committed, Held, Plus, Minus;
    if d.lanes == b.lanes {
      assert LaneHolds(d.lanes) == LaneHolds(b.lanes);
      CommittedOf(b, d);
    } else {
      LaneSet(b, d, lane, Account(b.lanes, lane));
      NoChange(Committed(b), Held(Account(b.lanes, lane)));
    }
  }

  lemma {:induction false} CommittedOf(b: Books, d: Books)
    requires b.lanes == d.lanes
    ensures Committed(b) == Committed(d)
  {
  }

  lemma {:induction false} NoChange(a: Amount, h: Amount)
    ensures Plus(a, Minus(h, h)) == a
  {
  }

  lemma {:induction false} DropKeeps(b: Books, r: Reservation)
    requires BInv(b) && r.id in b.open && HarmlessDrop(b, r)
    ensures BInv(Dropped(b, r))
  {
    hide Claimed, Committed, Charged, Clamp, Minus, Balanced, GroupBalanced, ValidEnvelope, TotalSpent;
    var d := Dropped(b, r);
    if r.lane != "" { ClampedIsSame(Account(b.lanes, r.lane), r.amount); }
    SameCommitted(b, d, r.lane);
    NothingOwed(b, r.id, All);
    forall id | id in d.open ensures ReservationOk(d, id) { assert ReservationOk(b, id); }
    forall l ensures AccountOk(d, l) {
      assert AccountOk(b, l);
      NothingOwed(b, r.id, OnLane(l));
    }
    forall g ensures GroupOk(d, g) {
      assert GroupOk(b, g);
      NothingOwed(b, r.id, InGroup(g));
    }
    assert TotalSpent(d) == TotalSpent(b) by { SameSpent(b, d); }
  }

  lemma {:induction false} SameSpent(b: Books, d: Books)
    requires b.spent == d.spent
    ensures TotalSpent(b) == TotalSpent(d)
  {
  }

  lemma {:induction false} LessIsNothing(a: Amount, b: Amount)
    ensures Minus(a, b) == a ==> b == ZERO
    ensures Minus(a, ZERO) == a
  {
  }

  lemma {:induction false} BalancedIsDrop(b: Books, r: Reservation)
    requires BInv(b) && r.id in b.open && BInv(Dropped(b, r))
    ensures HarmlessDrop(b, r)
  {
    hide Claimed, Committed, Charged, Clamp, Minus, Balanced, AccountOk, ValidEnvelope, PurposeClass, CheckProvenance;
    hide NonNegative;
    var d, q := Dropped(b, r), b.open[r.id];
    assert ReservationOk(b, r.id);
    var h := GroupOf(q.purpose);
    assert GroupOk(b, h) && GroupOk(d, h);
    ClaimRemove(b.open, r.id, InGroup(h));
    LessIsNothing(Claimed(b.open, InGroup(h)), q.amount);
    SameReserved(b, r.lane);
    SameReserved(d, r.lane);
    NothingOwed(b, r.id, OnLane(r.lane));
  }

  /** A refusal after the id has left keeps the books balanced exactly when nothing was claimed and nothing is taken. */
  lemma {:induction false} DroppedIff(b: Books, r: Reservation)
    requires BInv(b) && r.id in b.open && CheckFields(r) != None
    ensures BInv(Dropped(b, r)) <==> HarmlessDrop(b, r)
  {
    hide BInv, Dropped, HarmlessDrop, CheckFields;
    if HarmlessDrop(b, r) { DropKeeps(b, r); }
    if BInv(Dropped(b, r)) { BalancedIsDrop(b, r); }
  }

  // ---------------------------------------------------------------- every command, every run

  /** A command other than a closing one always keeps the books; a closing one exactly when its object may close. */
  lemma {:induction false} StepKeepsBooksIff(b: Books, c: Command)
    requires BInv(b)
    ensures BInv(Step(b, c)) <==> MayTake(b, c)
  {
    hide BInv, CheckReserve, DoReserve, DoSettle, DoRelease, DoCharge, Dropped, Harmless, HarmlessDrop, CheckProvenance;
    if !Closing(b, c) {
      OtherwiseKeeps(b, c);
    } else if CheckFields(c.r) == None {
      ClosingIff(b, c);
    } else {
      DroppedIff(b, c.r);
    }
  }

  lemma {:induction false} OtherwiseKeeps(b: Books, c: Command)
    requires BInv(b) && !Closing(b, c)
    ensures BInv(Step(b, c))
  {
    hide BInv, CheckReserve, DoReserve, DoSettle, DoRelease, DoCharge, Dropped, CheckFields, CheckProvenance;
    if (c.Settle? || c.Release?) && c.r.id in b.open {
      assert c.Settle? && Step(b, c) == b;
    } else {
      StepKeepsBooks(b, c);
    }
  }

  /** Every closing command of the run has an object that may close. */
  ghost predicate HarmlessRun(b: Books, cs: seq<Command>) {
    |cs| > 0 ==>
      HarmlessRun(b, cs[..|cs| - 1]) && MayTake(Run(b, cs[..|cs| - 1]), cs[|cs| - 1])
  }

  /** The books are balanced after every command of the run. */
  ghost predicate BalancedThroughout(b: Books, cs: seq<Command>) {
    forall k | 0 <= k <= |cs| :: BInv(Run(b, cs[..k]))
  }

  lemma {:induction false} RunKeepsBooksIff(b: Books, cs: seq<Command>)
    requires BInv(b)
    ensures BalancedThroughout(b, cs) <==> HarmlessRun(b, cs)
  {
    hide BInv, Step, MayTake;
    if |cs| == 0 {
      assert cs[..0] == cs;
      assert Run(b, cs) == b;
    } else {
      var n := |cs| - 1;
      RunKeepsBooksIff(b, cs[..n]);
      assert forall k | 0 <= k <= n :: cs[..n][..k] == cs[..k];
      assert cs[..n + 1] == cs;
      if BalancedThroughout(b, cs[..n]) {
        assert cs[..n][..n] == cs[..n];
        assert BInv(Run(b, cs[..n]));
        StepKeepsBooksIff(Run(b, cs[..n]), cs[n]);
      }
    }
  }

  // ---------------------------------------------------------------- what the condition comes to

  lemma {:induction false} LeavesWithin(total: Amount, taken: Amount, same: bool, owed: Amount)
    requires Within(taken, total)
    ensures Leaves(total, taken, same, owed) <==> taken == owed && (same || owed == ZERO)
  {
  }

  /** An object that asks for no more than its lane and group hold must show the stored amount, lane and group. */
  lemma {:induction false} HarmlessWithin(b: Books, r: Reservation)
    requires r.id in b.open
    requires Within(r.amount, Account(b.lanes, r.lane).reserved)
    requires Within(r.amount, Get(b.reserved, GroupOf(r.purpose)))
    ensures var q := b.open[r.id];
            Harmless(b, r) <==>
            && r.amount == q.amount
            && (q.amount == ZERO || (r.lane == q.lane && GroupOf(r.purpose) == GroupOf(q.purpose)))
  {
    hide Leaves, Within, GroupOf;
    var q := b.open[r.id];
    LeavesWithin(Account(b.lanes, r.lane).reserved, r.amount, r.lane == q.lane, q.amount);
    LeavesWithin(Get(b.reserved, GroupOf(r.purpose)), r.amount, GroupOf(r.purpose) == GroupOf(q.purpose), q.amount);
  }

  /** The provenance and the purpose's own name do not matter. */
  lemma {:induction false} MatchingIsHarmless(b: Books, r: Reservation)
    requires BInv(b) && r.id in b.open
    requires var q := b.open[r.id]; r.lane == q.lane && r.amount == q.amount && GroupOf(r.purpose) == GroupOf(q.purpose)
    ensures Harmless(b, r)
  {
    hide BInv, Leaves, GroupOf;
    StoredOk(b, r.id);
    StoredIsHarmless(b, b.open[r.id]);
  }

  lemma {:induction false} StoredOk(b: Books, id: int)
    requires BInv(b) && id in b.open
    ensures ReservationOk(b, id)
  {
  }

  /** Closed with an object that names another lane, the stored claim stays on its own lane for good. */
  lemma {:induction false} OtherLaneUnbalances(b: Books, c: Command)
    requires BInv(b) && (c.Settle? || c.Release?) && c.r.id in b.open && Step(b, c).open == b.open - {c.r.id}
    requires c.r.lane != b.open[c.r.id].lane && b.open[c.r.id].amount != ZERO
    ensures !BInv(Step(b, c))
  {
    hide BInv, CheckFields, Leaves, DoSettle, DoRelease, PurposeClass, ParseSource;
    assert Closing(b, c) by { LeavesOpenIsClosing(b, c); }
    StepKeepsBooksIff(b, c);
    ElsewhereIsHarmful(b, c.r);
  }

  lemma {:induction false} LeavesOpenIsClosing(b: Books, c: Command)
    requires (c.Settle? || c.Release?) && c.r.id in b.open && Step(b, c).open == b.open - {c.r.id}
    ensures Closing(b, c)
  {
    hide DoSettle, DoRelease, CheckFields, ParseSource;
    assert c.r.id !in b.open - {c.r.id};
  }

  lemma {:induction false} ElsewhereIsHarmful(b: Books, r: Reservation)
    requires r.id in b.open && r.lane != b.open[r.id].lane && b.open[r.id].amount != ZERO
    ensures !MayClose(b, r)
  {
    hide CheckFields, Clamp, Minus, GroupOf;
  }
}
