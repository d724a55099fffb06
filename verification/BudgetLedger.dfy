/**
 The budget ledger as the program keeps it, with accounts updated in place, and the replayer's loop.
 Both are tied to the specification functions of Budget and Replay.
 */
module BudgetLedger {
  import opened Wrappers
  import opened Amounts
  import opened Budget
  import opened BudgetInvariant
  import opened BudgetBounds
  import opened BudgetObjects
  import opened Replay

  /** Add up a table of amounts. */
  method SumValues<K(==, !new)>(m: map<K, Amount>) returns (total: Amount)
    ensures total == Sum(m)
  {
    hide Plus;
    total := ZERO;
    var todo := m;
    PlusFromZero(ZERO, Sum(m));
    while todo.Keys != {}
      invariant Plus(total, Sum(todo)) == Sum(m)
      decreases |todo|
    {
      var k :| k in todo.Keys;
      SumPick(todo, k);
      PlusAssoc(total, todo[k], Sum(todo - {k}));
      total := Plus(total, todo[k]);
      todo := todo - {k};
    }
    assert todo == map[];
    PlusZero(total);
  }

  /** The claim of r taken off its lane and its group. */
  function TakenBack(b: Books, r: Reservation): Books {
    var a, g := Account(b.lanes, r.lane), GroupOf(r.purpose);
    b.(open := b.open - {r.id},
       lanes := b.lanes[r.lane := a.(reserved := Clamp(Minus(a.reserved, r.amount)))],
       reserved := b.reserved[g := Clamp(Minus(Get(b.reserved, g), r.amount))])
  }

  /** The spend of r booked on its lane under its sources, on its group and in the journal. */
  function SpentOn(b: Books, r: Reservation, spend: Amount, cpuName: string, gpuName: string): Books
    requires ParseSource(cpuName).Some? && ParseSource(gpuName).Some?
  {
    var a, g := Account(b.lanes, r.lane), GroupOf(r.purpose);
    var n := a.(declared := Plus(a.declared, r.amount), spent := Plus(a.spent, spend),
                settlements := a.settlements + 1);
    b.(lanes := b.lanes[r.lane := Attributed(n, spend, ParseSource(cpuName).value, ParseSource(gpuName).value)],
       spent := b.spent[g := Plus(Get(b.spent, g), spend)],
       journal := b.journal + [SettleRow(|b.journal| + 1, r.id, r.lane, r.purpose, r.amount, spend,
                                         cpuName, gpuName, r.prov)])
  }

  /** Taking the claim back and then booking the spend is the whole settlement. */
  lemma {:induction false} TakeBackThenSpend(b: Books, r: Reservation, spend: Amount, cpuName: string, gpuName: string)
    requires ParseSource(cpuName).Some? && ParseSource(gpuName).Some?
    ensures SpentOn(TakenBack(b, r), r, spend, cpuName, gpuName) ==
            DoSettle(b, r, GroupOf(r.purpose), spend, cpuName, gpuName)
  {
    hide Plus, Minus, Clamp, GroupOf, ParseSource, Attributed;
    var t := SpentOn(TakenBack(b, r), r, spend, cpuName, gpuName);
    var d := DoSettle(b, r, GroupOf(r.purpose), spend, cpuName, gpuName);
    assert t.lanes == d.lanes;
  }

  class Ledger {
    const envelope: Envelope
    var lanes: map<string, LaneAccount>
    var nextId: nat
    var open: map<int, Reservation>
    var reserved: map<Group, Amount>
    var spent: map<Group, Amount>
    var rows: seq<JournalRow>
    var denials: seq<Denial>

    function View(): Books
      reads this
    {
      Books(envelope, lanes, nextId, open, reserved, spent, rows, denials)
    }

    ghost predicate Valid()
      reads this
    {
      BInv(View())
    }

    constructor (env: Envelope)
      requires ValidEnvelope(env)
      ensures Valid() && View() == Opening(env)
    {
      hide BInv, ValidEnvelope;
      envelope := env;
      lanes, nextId, open, reserved, spent, rows, denials := map[], 1, map[], map[], map[], [], [];
      new;
      OpeningKeeps(env);
    }

    // -------------------------------------------------------------- capacity

    method CommittedTotal() returns (total: Amount)
      ensures total == Committed(View())
    {
      total := SumValues(map l | l in lanes :: Held(lanes[l]));
      assert LaneHolds(lanes) == map l | l in lanes :: Held(lanes[l]);
    }

    method AvailableCpu(purpose: string) returns (r: Result<real, BudgetError>)
      ensures r ==
              match PurposeClass(purpose)
              case None => Err(BudgetError.UnknownPurpose)
              case Some(g) => Ok(Available(View(), g).cpu)
    {
      hide Committed, PurposeClass, Cap;
      var total := CommittedTotal();
      match PurposeClass(purpose) {
        case None => r := Err(BudgetError.UnknownPurpose);
        case Some(g) =>
          r := Ok(Max(0.0, Min(Cap(envelope, g).cpu - GroupCommitted(View(), g).cpu, envelope.cpu - total.cpu)));
      }
    }

    method AvailableGpu(purpose: string) returns (r: Result<real, BudgetError>)
      ensures r ==
              match PurposeClass(purpose)
              case None => Err(BudgetError.UnknownPurpose)
              case Some(g) => Ok(Available(View(), g).gpu)
    {
      hide Committed, PurposeClass, Cap;
      var total := CommittedTotal();
      match PurposeClass(purpose) {
        case None => r := Err(BudgetError.UnknownPurpose);
        case Some(g) =>
          r := Ok(Max(0.0, Min(Cap(envelope, g).gpu - GroupCommitted(View(), g).gpu, envelope.gpu - total.gpu)));
      }
    }

    // -------------------------------------------------------------- reserve

    /** Claim capacity before the work starts; a capacity refusal is recorded, any other changes nothing. */
    method Reserve(lane: string, purpose: string, want: Amount, prov: Provenance)
        returns (r: Result<Reservation, BudgetError>)
      modifies this
      ensures old(Valid()) ==> Valid() && old(nextId) !in old(open)
      ensures View() == Step(old(View()), Command.Reserve(lane, purpose, want, prov))
      ensures match CheckReserve(old(View()), lane, purpose, want, prov)
              case Some(e) => r == Err(e)
              case None => r == Ok(Reservation(old(nextId), lane, purpose, want, prov))
    {
      hide BInv, PurposeClass, CheckProvenance, Available, Plus;
      if Valid() {
        StepKeepsBooks(View(), Command.Reserve(lane, purpose, want, prov));
        NextIdIsNew();
      }
      if want.cpu < 0.0 { return Err(NegativeCpu); }
      if want.gpu < 0.0 { return Err(NegativeGpu); }
      var badProvenance := CheckProvenance(prov);
      ProvenanceErrors(prov);
      if badProvenance.Some? { return Err(badProvenance.value); }
      var availableCpu := AvailableCpu(purpose);
      var availableGpu := AvailableGpu(purpose);
      if availableCpu.Err? { return Err(availableCpu.error); }
      if want.cpu > availableCpu.value {
        denials := denials + [Denial(lane, purpose, want.cpu, availableCpu.value, false)];
        return Err(CpuExceeded);
      }
      if want.gpu > availableGpu.value {
        denials := denials + [Denial(lane, purpose, want.gpu, availableGpu.value, true)];
        return Err(GpuExceeded);
      }
      if lane == "" { return Err(EmptyLane); }
      var reservation := OpenReservation(lane, purpose, want, prov);
      r := Ok(reservation);
    }

    /** Enter an accepted reservation in the accounts, the open map and the journal. */
    method OpenReservation(lane: string, purpose: string, want: Amount, prov: Provenance)
        returns (reservation: Reservation)
      requires PurposeClass(purpose).Some?
      modifies this
      ensures reservation == Reservation(old(nextId), lane, purpose, want, prov)
      ensures View() == DoReserve(old(View()), lane, purpose, GroupOf(purpose), want, prov)
    {
      hide Plus, PurposeClass;
      var group := GroupOf(purpose);
      var account := Account(lanes, lane);
      lanes := lanes[lane := account.(reserved := Plus(account.reserved, want))];
      reservation := Reservation(nextId, lane, purpose, want, prov);
      nextId := nextId + 1;
      open := open[reservation.id := reservation];
      reserved := reserved[group := Plus(Get(reserved, group), want)];
      rows := rows + [ReserveRow(|rows| + 1, reservation.id, lane, purpose, want, prov)];
    }

    lemma {:induction false} ProvenanceErrors(prov: Provenance)
      ensures CheckProvenance(prov) != Some(CpuExceeded) && CheckProvenance(prov) != Some(GpuExceeded)
    {
      hide IsDigest;
    }

    lemma {:induction false} NextIdIsNew()
      requires Valid()
      ensures nextId !in open
    {
      hide Committed, Claimed, ValidEnvelope, PurposeClass, CheckProvenance;
      assert nextId in open ==> ReservationOk(View(), nextId);
    }

    // -------------------------------------------------------------- settle and release

    lemma {:induction false} ObjectsDecide(c: Command)
      ensures Valid() && Genuine(View(), c) ==> BInv(Step(View(), c))
      ensures Valid() ==> (BInv(Step(View(), c)) <==> MayTake(View(), c))
    {
      hide BInv, Step, Genuine, Closing, MayClose;
      if Valid() {
        StepKeepsBooksIff(View(), c);
        if Genuine(View(), c) { StepKeepsBooks(View(), c); }
      }
    }

    /** Close an open id and take the claim off the named lane and group, as far as the fields are accepted. */
    method TakeBack(r: Reservation) returns (e: Option<BudgetError>)
      requires r.id in open
      modifies this
      ensures e == CheckFields(r) && (e.Some? ==> e.value == EmptyLane || e.value == BudgetError.UnknownPurpose)
      ensures e.Some? ==> View() == Dropped(old(View()), r)
      ensures e == None ==> View() == TakenBack(old(View()), r)
    {
      hide Minus, Clamp, PurposeClass;
      open := open - {r.id};
      if r.lane == "" { return Some(EmptyLane); }
      var account := Account(lanes, r.lane);
      lanes := lanes[r.lane := account.(reserved := Clamp(Minus(account.reserved, r.amount)))];
      if PurposeClass(r.purpose) == None { return Some(BudgetError.UnknownPurpose); }
      var group := GroupOf(r.purpose);
      reserved := reserved[group := Clamp(Minus(Get(reserved, group), r.amount))];
      e := None;
    }

    /** Book the spend of a closed reservation under its sources and journal it. */
    method BookSpend(r: Reservation, spend: Amount, cpuName: string, gpuName: string)
      requires ParseSource(cpuName).Some? && ParseSource(gpuName).Some?
      modifies this
      ensures View() == SpentOn(old(View()), r, spend, cpuName, gpuName)
    {
      hide Plus, GroupOf, ParseSource, Attributed;
      var account, group := Account(lanes, r.lane), GroupOf(r.purpose);
      account := account.(declared := Plus(account.declared, r.amount), spent := Plus(account.spent, spend),
                          settlements := account.settlements + 1);
      account := Attributed(account, spend, ParseSource(cpuName).value, ParseSource(gpuName).value);
      lanes := lanes[r.lane := account];
      spent := spent[group := Plus(Get(spent, group), spend)];
      rows := rows + [SettleRow(|rows| + 1, r.id, r.lane, r.purpose, r.amount, spend, cpuName, gpuName, r.prov)];
    }

    /** Settle an open id once the arguments are in order. */
    method SettleOpen(r: Reservation, spend: Amount, cpuName: string, gpuName: string) returns (e: Option<BudgetError>)
      requires r.id in open && ParseSource(cpuName).Some? && ParseSource(gpuName).Some?
      modifies this
      ensures e == CheckFields(r) && (e.Some? ==> e.value == EmptyLane || e.value == BudgetError.UnknownPurpose)
      ensures e.Some? ==> View() == Dropped(old(View()), r)
      ensures e == None ==> View() == DoSettle(old(View()), r, GroupOf(r.purpose), spend, cpuName, gpuName)
    {
      hide GroupOf, ParseSource, CheckFields, Dropped, DoSettle, TakenBack, SpentOn;
      e := TakeBack(r);
      if e.Some? { return; }
      BookSpend(r, spend, cpuName, gpuName);
      TakeBackThenSpend(old(View()), r, spend, cpuName, gpuName);
    }

    /** Turn a reservation into spend, recording where each figure came from. */
    method Settle(r: Reservation, cpu: Option<real>, gpu: Option<real>, cpuSource: Option<string>,
        gpuSource: Option<string>)
      returns (e: Option<BudgetError>)
      modifies this
      ensures old(Valid() && (r.id in open ==> open[r.id] == r)) ==> Valid()
      ensures old(Valid()) ==> (Valid() <==> old(MayTake(View(), Command.Settle(r, cpu, gpu, cpuSource, gpuSource))))
      ensures View() == Step(old(View()), Command.Settle(r, cpu, gpu, cpuSource, gpuSource))
      ensures e == CheckSettle(old(View()), r, cpu, gpu, cpuSource, gpuSource)
    {
      hide BInv, GroupOf, ParseSource, CheckFields, Spend, SourceName, Dropped, DoSettle, TakenBack, SpentOn;
      hide MayTake;
      ObjectsDecide(Command.Settle(r, cpu, gpu, cpuSource, gpuSource));
      if cpu.Some? && cpu.value < 0.0 { return Some(NegativeCpu); }
      if gpu.Some? && gpu.value < 0.0 { return Some(NegativeGpu); }
      var spend := Spend(r, cpu, gpu);
      var cpuName, gpuName := SourceName(cpuSource, cpu), SourceName(gpuSource, gpu);
      if ParseSource(cpuName) == None { return Some(BadCpuSource); }
      if ParseSource(gpuName) == None { return Some(BadGpuSource); }
      if r.id !in open { return Some(BudgetError.NotOpen); }
      e := SettleOpen(r, spend, cpuName, gpuName);
    }

    /** Give back a reservation; a reservation that is no longer open is ignored. */
    method Release(r: Reservation) returns (e: Option<BudgetError>)
      modifies this
      ensures old(Valid() && (r.id in open ==> open[r.id] == r)) ==> Valid()
      ensures old(Valid()) ==> (Valid() <==> old(MayTake(View(), Command.Release(r))))
      ensures View() == Step(old(View()), Command.Release(r))
      ensures e == if r.id in old(open) then CheckFields(r) else None
    {
      hide BInv, Plus, Minus, Clamp, GroupOf, PurposeClass, MayTake;
      ObjectsDecide(Command.Release(r));
      if r.id !in open { return None; }
      e := TakeBack(r);
      if e.Some? { return; }
      rows := rows + [ReleaseRow(|rows| + 1, r.id, r.lane, r.purpose, r.amount, r.prov)];
    }

    // -------------------------------------------------------------- charges

    /** Charge work that no reservation covers; a note also credits the lane's counter of that name. */
    method ChargeElapsed(lane: string, cpu: real, note: string, purpose: string) returns (e: Option<BudgetError>)
      modifies this
      ensures old(Valid()) ==> Valid()
      ensures View() == Step(old(View()), Command.Charge(lane, cpu, note, note, purpose))
      ensures e == CheckCharge(lane, cpu, purpose)
    {
      hide BInv, Plus, PurposeClass;
      if Valid() { StepKeepsBooks(View(), Command.Charge(lane, cpu, note, note, purpose)); }
      if cpu < 0.0 { return Some(NegativeCharge); }
      if PurposeClass(purpose) == None { return Some(BudgetError.UnknownPurpose); }
      if lane == "" { return Some(EmptyLane); }
      var group := GroupOf(purpose);
      var account := Account(lanes, lane);
      account := account.(spent := Plus(account.spent, Amount(cpu, 0.0)));
      spent := spent[group := Plus(Get(spent, group), Amount(cpu, 0.0))];
      if note != "" {
        var before := if note in account.work then account.work[note] else 0.0;
        account := account.(work := account.work[note := before + cpu]);
      }
      lanes := lanes[lane := account];
      rows := rows + [ChargeRow(|rows| + 1, lane, purpose, cpu, note)];
      e := None;
    }

    /** Charge a block of the controller's own CPU time to its lane, under the label's own counter. */
    method ControllerOverhead(note: string, cpu: real) returns (e: Option<BudgetError>)
      modifies this
      ensures old(Valid()) ==> Valid()
      ensures View() ==
              Step(old(View()), Command.Charge("controller", cpu, note, "controller." + note + "_ms", "controller"))
      ensures e == if cpu < 0.0 then Some(NegativeCharge) else None
    {
      hide BInv, Plus;
      var counter := "controller." + note + "_ms";
      if Valid() { StepKeepsBooks(View(), Command.Charge("controller", cpu, note, counter, "controller")); }
      if cpu < 0.0 { return Some(NegativeCharge); }
      var account := Account(lanes, "controller");
      var before := if counter in account.work then account.work[counter] else 0.0;
      lanes := lanes["controller" := account.(spent := Plus(account.spent, Amount(cpu, 0.0)),
                                              work := account.work[counter := before + cpu])];
      spent := spent[Controller := Plus(Get(spent, Controller), Amount(cpu, 0.0))];
      rows := rows + [ChargeRow(|rows| + 1, "controller", "controller", cpu, note)];
      e := None;
    }

    // -------------------------------------------------------------- reporting

    method WithinPartitionCaps() returns (ok: bool)
      ensures ok <==> WithinCaps(View())
    {
      hide GroupCommitted, Cap;
      var groups := [Solver, Verify, Refine, Controller];
      for i := 0 to 4
        invariant forall k | 0 <= k < i :: Within(GroupCommitted(View(), groups[k]), Cap(envelope, groups[k]))
      {
        var used, cap := GroupCommitted(View(), groups[i]), Cap(envelope, groups[i]);
        if used.cpu > cap.cpu || used.gpu > cap.gpu { return false; }
      }
      forall g ensures Within(GroupCommitted(View(), g), Cap(envelope, g)) {
        match g
        case Solver => assert groups[0] == g;
        case Verify => assert groups[1] == g;
        case Refine => assert groups[2] == g;
        case Controller => assert groups[3] == g;
      }
      ok := true;
    }

    method WithinEnvelope() returns (ok: bool)
      ensures ok <==> WithinWhole(View())
    {
      var total := CommittedTotal();
      ok := total.cpu <= envelope.cpu && total.gpu <= envelope.gpu;
    }
  }

  // ---------------------------------------------------------------- the replayer's loop

  method ClaimedTotal(rows: map<int, Reservation>, sel: Selector) returns (total: Amount)
    ensures total == Claimed(rows, sel)
  {
    total := SumValues(map id | id in rows && Picks(sel, rows[id]) :: rows[id].amount);
    assert Selected(rows, sel) == map id | id in rows && Picks(sel, rows[id]) :: rows[id].amount;
  }

  method ReplayOneReserve(t: Tape, row: JournalRow, l: Limits, tol: real) returns (r: Result<Tape, ReplayError>)
    requires row.ReserveRow?
    ensures r == ReplayReserve(t, row, l, tol)
  {
    hide PurposeClass, Claimed, Plus, Minus;
    if row.id <= 0 || row.id in t.used { return Err(BadId); }
    match PurposeClass(row.purpose) {
      case None => return Err(ReplayError.UnknownPurpose);
      case Some(group) =>
        if row.amount.cpu < 0.0 || row.amount.gpu < 0.0 { return Err(NegativeAmount); }
        var all := ClaimedTotal(t.open, All);
        var own := ClaimedTotal(t.open, InGroup(group));
        var wholeRoom := Minus(l.total, Plus(all, TapeSpent(t)));
        var groupRoom := Minus(Get(l.caps, group), Plus(own, Get(t.spent, group)));
        if row.amount.cpu > Min(groupRoom.cpu, wholeRoom.cpu) + tol { return Err(CpuUnaffordable); }
        if row.amount.gpu > Min(groupRoom.gpu, wholeRoom.gpu) + tol { return Err(GpuUnaffordable); }
        r := Ok(t.(used := t.used + {row.id},
                   open := t.open[row.id := Reservation(row.id, row.lane, row.purpose, row.amount, row.prov)]));
    }
  }

  method GroupWithin(t: Tape, l: Limits, group: Group, tol: real) returns (ok: bool)
    ensures ok == WithinBy(TapeGroup(t, group), Get(l.caps, group), tol)
  {
    var claimed := ClaimedTotal(t.open, InGroup(group));
    ok := WithinBy(Plus(claimed, Get(t.spent, group)), Get(l.caps, group), tol);
  }

  /** Fold the journal row by row, then report the accounts. */
  method ReplayJournal(journal: seq<JournalRow>, l: Limits, tol: real) returns (r: Result<Replayed, ReplayError>)
    ensures r == Replay.Replay(journal, l, tol)
  {
    hide ReplayReserve, ReplaySettle, ReplayRelease, ReplayCharge, Claimed, Plus, WithinBy, TapeGroup;
    if !GoodLimits(l) { return Err(BadLimits); }
    var tape := BLANK;
    var index := 0;
    while index < |journal|
      invariant 0 <= index <= |journal|
      invariant Fold(journal[..index], l, tol) == Ok(tape)
    {
      var row := journal[index];
      assert journal[..index + 1][..index] == journal[..index];
      var next: Result<Tape, ReplayError>;
      if row.sequence != index + 1 {
        next := Err(BadSequence);
      } else {
        match row
        case ReserveRow(_, _, _, _, _, _) => next := ReplayOneReserve(tape, row, l, tol);
        case SettleRow(_, _, _, _, _, _, _, _, _) => next := ReplaySettle(tape, row, tol);
        case ReleaseRow(_, _, _, _, _, _) => next := ReplayRelease(tape, row, tol);
        case ChargeRow(_, _, _, _, _) => next := ReplayCharge(tape, row);
      }
      assert Fold(journal[..index + 1], l, tol) == next;
      if next.Err? {
        FoldErrLasts(journal, index + 1, l, tol);
        return Err(next.error);
      }
      tape := next.value;
      index := index + 1;
    }
    assert journal[..|journal|] == journal;
    var claimed := ClaimedTotal(tape.open, All);
    var total := Plus(claimed, TapeSpent(tape));
    var solver := GroupWithin(tape, l, Solver, tol);
    var verify := GroupWithin(tape, l, Verify, tol);
    var refine := GroupWithin(tape, l, Refine, tol);
    var controller := GroupWithin(tape, l, Controller, tol);
    r := Ok(Replayed(|tape.open|, total, tape.spent, tape.lanes, WithinBy(total, l.total, tol),
                     solver && verify && refine && controller));
  }

  lemma {:induction false} FoldErrLasts(journal: seq<JournalRow>, k: nat, l: Limits, tol: real)
    requires k <= |journal| && Fold(journal[..k], l, tol).Err?
    ensures Fold(journal, l, tol) == Err(Fold(journal[..k], l, tol).error)
    decreases |journal|
  {
    hide ReplayRow;
    if k == |journal| {
      assert journal[..k] == journal;
    } else {
      assert journal[..|journal| - 1][..k] == journal[..k];
      FoldErrLasts(journal[..|journal| - 1], k, l, tol);
    }
  }
}
