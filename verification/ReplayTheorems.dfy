/** The replayer and the ledger compute the same accounts, and exactly when the replayer accepts. */
module ReplayTheorems {
  import opened Wrappers
  import opened Amounts
  import opened Budget
  import opened BudgetInvariant
  import opened BudgetBounds
  import opened Replay

  // ---------------------------------------------------------------- agreement of the two accounts

  ghost predicate SameClaims(t: Tape, b: Books, sel: Selector) {
    Claimed(t.open, sel) == Claimed(b.open, sel)
  }

  ghost predicate SameLane(t: Tape, b: Books, lane: string) {
    LaneOf(t.lanes, lane) == LaneSpend(Account(b.lanes, lane).spent, Account(b.lanes, lane).settlements)
  }

  /** The replayer's tape holds the same totals as the books. */
  ghost predicate Agrees(t: Tape, b: Books) {
    && |t.open| == |b.open|
    && (forall sel: Selector {:trigger SameClaims(t, b, sel)} | !sel.OnLane? :: SameClaims(t, b, sel))
    && (forall g :: Get(t.spent, g) == Get(b.spent, g))
    && (forall lane {:trigger SameLane(t, b, lane)} :: SameLane(t, b, lane))
  }

  lemma {:induction false} SameRoom(t: Tape, b: Books, g: Group)
    requires BInv(b) && Agrees(t, b)
    ensures TapeTotal(t) == Committed(b)
    ensures TapeGroup(t, g) == GroupCommitted(b, g)
    ensures Get(AsLimits(b.env).caps, g) == Cap(b.env, g)
    ensures Room(t, AsLimits(b.env), g) == Headroom(b, g)
  {
    hide Claimed, Committed, Plus, Minus, Min, Cap, Whole, Four, NonNegative, ValidEnvelope, AccountOk, ReservationOk;
    assert GroupOk(b, g) && SameClaims(t, b, InGroup(g)) && SameClaims(t, b, All);
    match g case Solver => case Verify => case Refine => case Controller =>
  }

  /** The four flags and totals of a summary are the ledger's own. */
  ghost predicate Reports(s: Replayed, b: Books, tol: real) {
    && s.openReservations == |b.open|
    && s.committed == Committed(b)
    && (forall g :: Get(s.spent, g) == Get(b.spent, g))
    && (forall lane ::
          LaneOf(s.lanes, lane) == LaneSpend(Account(b.lanes, lane).spent, Account(b.lanes, lane).settlements))
    && (tol == 0.0 ==> (s.withinEnvelope <==> WithinWhole(b)) && (s.withinPartitionCaps <==> WithinCaps(b)))
    && (tol >= 0.0 ==> (WithinWhole(b) ==> s.withinEnvelope) && (WithinCaps(b) ==> s.withinPartitionCaps))
  }

  lemma {:induction false} WithinByZero(a: Amount, limit: Amount, tol: real)
    ensures tol == 0.0 ==> (WithinBy(a, limit, tol) <==> Within(a, limit))
    ensures tol >= 0.0 && Within(a, limit) ==> WithinBy(a, limit, tol)
  {
  }

  lemma {:induction false} AgreementReports(t: Tape, b: Books, tol: real)
    requires BInv(b) && Agrees(t, b)
    ensures Reports(Summary(t, AsLimits(b.env), tol), b, tol)
  {
    hide BInv, Claimed, Committed, TapeTotal, TapeGroup, GroupCommitted, Cap, Whole, Within, WithinBy, Room, Headroom;
    forall g ensures TapeGroup(t, g) == GroupCommitted(b, g) && Get(AsLimits(b.env).caps, g) == Cap(b.env, g)
                  && TapeTotal(t) == Committed(b) {
      SameRoom(t, b, g);
    }
    SameRoom(t, b, Solver);
    WithinByZero(Committed(b), Whole(b.env), tol);
    WithinByZero(GroupCommitted(b, Solver), Cap(b.env, Solver), tol);
    WithinByZero(GroupCommitted(b, Verify), Cap(b.env, Verify), tol);
    WithinByZero(GroupCommitted(b, Refine), Cap(b.env, Refine), tol);
    WithinByZero(GroupCommitted(b, Controller), Cap(b.env, Controller), tol);
    GroupsAre(b);
    forall lane
      ensures LaneOf(t.lanes, lane) == LaneSpend(Account(b.lanes, lane).spent, Account(b.lanes, lane).settlements)
    {
      assert SameLane(t, b, lane);
    }
  }

  lemma {:induction false} GroupsAre(b: Books)
    ensures WithinCaps(b) <==>
            && Within(GroupCommitted(b, Solver), Cap(b.env, Solver))
                && Within(GroupCommitted(b, Verify), Cap(b.env, Verify))
            && Within(GroupCommitted(b, Refine), Cap(b.env, Refine))
                && Within(GroupCommitted(b, Controller), Cap(b.env, Controller))
  {
    hide GroupCommitted, Cap, Within;
    if Within(GroupCommitted(b, Solver), Cap(b.env, Solver)) && Within(GroupCommitted(b, Verify), Cap(b.env, Verify))
       && Within(GroupCommitted(b, Refine), Cap(b.env, Refine))
           && Within(GroupCommitted(b, Controller), Cap(b.env, Controller)) {
      forall g ensures Within(GroupCommitted(b, g), Cap(b.env, g)) {
        match g case Solver => case Verify => case Refine => case Controller =>
      }
    }
  }

  // ---------------------------------------------------------------- one step of each side

  /** Two reservations that differ at most in their id. */
  predicate SameTerms(r: Reservation, q: Reservation) {
    r.lane == q.lane && r.purpose == q.purpose && r.amount == q.amount && r.prov == q.prov
  }

  lemma {:induction false} OpenAgrees(t: Tape, b: Books, id: int, r: Reservation, n: int, q: Reservation,
      u: Tape, c: Books)
    requires Agrees(t, b) && id !in t.open && n !in b.open && SameTerms(r, q)
    requires u.open == t.open[id := r] && u.spent == t.spent && u.lanes == t.lanes
    requires c.open == b.open[n := q] && c.spent == b.spent
    requires forall l ::
               && Account(c.lanes, l).spent == Account(b.lanes, l).spent
               && Account(c.lanes, l).settlements == Account(b.lanes, l).settlements
    ensures Agrees(u, c)
  {
    hide Claimed, Plus;
    forall sel: Selector | !sel.OnLane? ensures SameClaims(u, c, sel) {
      assert SameClaims(t, b, sel);
      ClaimAdd(t.open, id, r, sel);
      ClaimAdd(b.open, n, q, sel);
    }
    forall l ensures SameLane(u, c, l) { assert SameLane(t, b, l); }
  }

  lemma {:induction false} CloseAgrees(t: Tape, b: Books, id: int, n: int, spend: Amount, settled: nat,
      u: Tape, c: Books)
    requires Agrees(t, b) && id in t.open && n in b.open && SameTerms(t.open[id], b.open[n])
    requires u.open == t.open - {id} && c.open == b.open - {n}
    requires var r := b.open[n];
             Spent(t, u, r.lane, GroupOf(r.purpose), spend, settled)
                 && Booked(b, c, r.lane, GroupOf(r.purpose), spend, settled)
    ensures Agrees(u, c)
  {
    hide Claimed, Plus, Minus, GroupOf;
    forall sel: Selector | !sel.OnLane? ensures SameClaims(u, c, sel) {
      assert SameClaims(t, b, sel);
      ClaimRemove(t.open, id, sel);
      ClaimRemove(b.open, n, sel);
    }
    forall l ensures SameLane(u, c, l) { assert SameLane(t, b, l); }
  }

  /** The replayer books a spend on one lane and group. */
  ghost predicate Spent(t: Tape, u: Tape, lane: string, g: Group, spend: Amount, settled: nat) {
    && (forall h :: Get(u.spent, h) == if h == g then Plus(Get(t.spent, h), spend) else Get(t.spent, h))
    && (forall l :: LaneOf(u.lanes, l) ==
          if l == lane then LaneSpend(Plus(LaneOf(t.lanes, l).spent, spend), LaneOf(t.lanes, l).settlements + settled)
          else LaneOf(t.lanes, l))
  }

  /** The ledger books the same spend. */
  ghost predicate Booked(b: Books, c: Books, lane: string, g: Group, spend: Amount, settled: nat) {
    && (forall h :: Get(c.spent, h) == if h == g then Plus(Get(b.spent, h), spend) else Get(b.spent, h))
    && (forall l ::
          Account(c.lanes, l).spent ==
          if l == lane then Plus(Account(b.lanes, l).spent, spend) else Account(b.lanes, l).spent)
    && (forall l ::
          Account(c.lanes, l).settlements == Account(b.lanes, l).settlements + if l == lane then settled else 0)
  }

  lemma {:induction false} ChargeAgrees(t: Tape, b: Books, lane: string, g: Group, spend: Amount, u: Tape, c: Books)
    requires Agrees(t, b) && u.open == t.open && c.open == b.open
    requires Spent(t, u, lane, g, spend, 0) && Booked(b, c, lane, g, spend, 0)
    ensures Agrees(u, c)
  {
    hide Claimed, Plus;
    forall sel: Selector | !sel.OnLane? ensures SameClaims(u, c, sel) { assert SameClaims(t, b, sel); }
    forall l ensures SameLane(u, c, l) { assert SameLane(t, b, l); }
  }

  lemma {:induction false} BookSpends(t: Tape, lane: string, g: Group, spend: Amount, settled: nat)
    ensures Spent(t, Book(t, lane, g, spend, settled), lane, g, spend, settled)
  {
    hide Plus;
  }

  lemma {:induction false} SettleBooks(b: Books, r: Reservation, spend: Amount, cpuSource: string, gpuSource: string)
    requires ParseSource(cpuSource).Some? && ParseSource(gpuSource).Some?
    ensures Booked(b, DoSettle(b, r, GroupOf(r.purpose), spend, cpuSource, gpuSource),
                   r.lane, GroupOf(r.purpose), spend, 1)
  {
    hide Plus, GroupOf, ParseSource;
  }

  lemma {:induction false} ReleaseBooks(t: Tape, b: Books, r: Reservation)
    ensures Booked(b, DoRelease(b, r, GroupOf(r.purpose)), r.lane, GroupOf(r.purpose), ZERO, 0)
    ensures Spent(t, t, r.lane, GroupOf(r.purpose), ZERO, 0)
  {
    hide GroupOf, Plus, Minus, Clamp;
    PlusZero(Get(b.spent, GroupOf(r.purpose)));
    PlusZero(Account(b.lanes, r.lane).spent);
    PlusZero(Get(t.spent, GroupOf(r.purpose)));
    PlusZero(LaneOf(t.lanes, r.lane).spent);
  }

  // ---------------------------------------------------------------- the ledger's journal, replayed

  /** The tape after the ledger's own journal: same open reservations under the same ids. */
  ghost predicate Follows(t: Tape, b: Books) {
    Agrees(t, b) && t.open == b.open && forall id :: id in t.used <==> 1 <= id < b.nextId
  }

  /**
   The guard under which the replayer accepts what the ledger accepted: a zero-size claim is not made
   while its headroom is already negative beyond the tolerance, and charges are controller charges.
   */
  ghost predicate Replayable(b: Books, c: Command, tol: real) {
    match c
    case Reserve(_, purpose, want, _) =>
      && (want.cpu > 0.0 || Headroom(b, GroupOf(purpose)).cpu >= -tol)
      && (want.gpu > 0.0 || Headroom(b, GroupOf(purpose)).gpu >= -tol)
    case Charge(_, _, _, _, purpose) => purpose == "controller"
    case _ => true
  }

  lemma {:induction false} Affordable(want: real, head: real, tol: real)
    requires tol >= 0.0 && want >= 0.0 && want <= Max(0.0, head)
    ensures want > head + tol <==> !(want > 0.0 || head >= -tol)
  {
  }

  lemma {:induction false} FoldAppend(journal: seq<JournalRow>, row: JournalRow, l: Limits, tol: real)
    ensures Fold(journal + [row], l, tol) ==
            match Fold(journal, l, tol)
            case Err(e) => Err(e)
            case Ok(t) => ReplayRow(t, row, |journal| + 1, l, tol)
  {
    assert (journal + [row])[..|journal|] == journal;
  }

  lemma {:induction false} ReserveReplays(t: Tape, b: Books, lane: string, purpose: string, want: Amount,
      prov: Provenance, tol: real)
    requires BInv(b) && Follows(t, b) && CheckReserve(b, lane, purpose, want, prov) == None && tol >= 0.0
    ensures var row := ReserveRow(|b.journal| + 1, b.nextId, lane, purpose, want, prov);
            var r := ReplayRow(t, row, |b.journal| + 1, AsLimits(b.env), tol);
            && (r.Ok? <==> Replayable(b, Reserve(lane, purpose, want, prov), tol))
            && (r.Ok? ==> Follows(r.value, DoReserve(b, lane, purpose, GroupOf(purpose), want, prov)))
  {
    hide Claimed, Committed, Headroom, Room, Max, Plus;
    hide AsLimits, PurposeClass, CheckProvenance, Agrees, AccountOk, GroupOk;
    var g := GroupOf(purpose);
    SameRoom(t, b, g);
    Affordable(want.cpu, Headroom(b, g).cpu, tol);
    Affordable(want.gpu, Headroom(b, g).gpu, tol);
    var row := ReserveRow(|b.journal| + 1, b.nextId, lane, purpose, want, prov);
    var q := Reservation(b.nextId, lane, purpose, want, prov);
    var r := ReplayRow(t, row, |b.journal| + 1, AsLimits(b.env), tol);
    assert b.nextId in b.open ==> ReservationOk(b, b.nextId);
    if r.Ok? {
      OpenAgrees(t, b, b.nextId, q, b.nextId, q, r.value, DoReserve(b, lane, purpose, g, want, prov));
    }
  }

  lemma {:induction false} CloseToItself(a: Amount, tol: real)
    requires tol >= 0.0
    ensures CloseTo(a, a, tol)
  {
  }

  lemma {:induction false} ReleaseReplays(t: Tape, b: Books, r: Reservation, tol: real)
    requires BInv(b) && Follows(t, b) && r.id in b.open && b.open[r.id] == r && tol >= 0.0
    ensures var row := ReleaseRow(|b.journal| + 1, r.id, r.lane, r.purpose, r.amount, r.prov);
            var f := ReplayRow(t, row, |b.journal| + 1, AsLimits(b.env), tol);
            f.Ok? && Follows(f.value, DoRelease(b, r, GroupOf(r.purpose)))
  {
    hide Claimed, Committed, Plus, Minus, Clamp, AsLimits;
    hide PurposeClass, CheckProvenance, Agrees, CloseTo, AccountOk, GroupOk, GroupOf;
    assert ReservationOk(b, r.id);
    CloseToItself(r.amount, tol);
    var row := ReleaseRow(|b.journal| + 1, r.id, r.lane, r.purpose, r.amount, r.prov);
    var u := ReplayRow(t, row, |b.journal| + 1, AsLimits(b.env), tol).value;
    ReleaseBooks(t, b, r);
    assert Spent(t, u, r.lane, GroupOf(r.purpose), ZERO, 0);
    CloseAgrees(t, b, r.id, r.id, ZERO, 0, u, DoRelease(b, r, GroupOf(r.purpose)));
  }

  lemma {:induction false} SettleReplays(t: Tape, b: Books, r: Reservation, spend: Amount, cpuSource: string,
      gpuSource: string, tol: real)
    requires BInv(b) && Follows(t, b) && r.id in b.open && b.open[r.id] == r && tol >= 0.0 && NonNegative(spend)
    requires ParseSource(cpuSource).Some? && ParseSource(gpuSource).Some?
    ensures var row := SettleRow(|b.journal| + 1, r.id, r.lane, r.purpose, r.amount, spend, cpuSource, gpuSource,
                                 r.prov);
            var f := ReplayRow(t, row, |b.journal| + 1, AsLimits(b.env), tol);
            f.Ok? && Follows(f.value, DoSettle(b, r, GroupOf(r.purpose), spend, cpuSource, gpuSource))
  {
    hide Claimed, Committed, Plus, Minus, Clamp, AsLimits, PurposeClass, CheckProvenance, Agrees, CloseTo;
    hide AccountOk, GroupOk, GroupOf, ParseSource, Settled, Book;
    assert ReservationOk(b, r.id);
    CloseToItself(r.amount, tol);
    var row := SettleRow(|b.journal| + 1, r.id, r.lane, r.purpose, r.amount, spend, cpuSource, gpuSource, r.prov);
    var g := GroupOf(r.purpose);
    var u := Book(t.(open := t.open - {r.id}), r.lane, g, spend, 1);
    assert ReplayRow(t, row, |b.journal| + 1, AsLimits(b.env), tol) == Ok(u);
    BookSpends(t.(open := t.open - {r.id}), r.lane, g, spend, 1);
    BookKeepsOpen(t.(open := t.open - {r.id}), r.lane, g, spend, 1);
    assert Spent(t, u, r.lane, g, spend, 1);
    SettleBooks(b, r, spend, cpuSource, gpuSource);
    CloseAgrees(t, b, r.id, r.id, spend, 1, u, DoSettle(b, r, g, spend, cpuSource, gpuSource));
  }

  lemma {:induction false} BookKeepsOpen(t: Tape, lane: string, g: Group, spend: Amount, settled: nat)
    ensures var u := Book(t, lane, g, spend, settled); u.open == t.open && u.used == t.used
  {
  }

  lemma {:induction false} ChargeReplays(t: Tape, b: Books, lane: string, cpu: real, note: string, tally: string,
      purpose: string, tol: real)
    requires BInv(b) && Follows(t, b) && CheckCharge(lane, cpu, purpose) == None
    ensures var row := ChargeRow(|b.journal| + 1, lane, purpose, cpu, note);
            var f := ReplayRow(t, row, |b.journal| + 1, AsLimits(b.env), tol);
            && (f.Ok? <==> purpose == "controller")
            && (f.Ok? ==> Follows(f.value, DoCharge(b, lane, cpu, note, tally, purpose, GroupOf(purpose))))
  {
    hide Claimed, Committed, Plus, AsLimits, CheckProvenance, Agrees, BInv, Book;
    if purpose == "controller" {
      var u := Book(t, lane, Controller, Amount(cpu, 0.0), 0);
      BookSpends(t, lane, Controller, Amount(cpu, 0.0), 0);
      BookKeepsOpen(t, lane, Controller, Amount(cpu, 0.0), 0);
      ChargeAgrees(t, b, lane, Controller, Amount(cpu, 0.0), u,
                   DoCharge(b, lane, cpu, note, tally, purpose, Controller));
    }
  }

  lemma {:induction false} RefuseFollows(t: Tape, b: Books, d: seq<Denial>)
    requires Follows(t, b)
    ensures Follows(t, b.(denials := d))
  {
    hide Claimed;
    var c := b.(denials := d);
    forall sel: Selector | !sel.OnLane? ensures SameClaims(t, c, sel) { assert SameClaims(t, b, sel); }
    forall l ensures SameLane(t, c, l) { assert SameLane(t, b, l); }
  }

  /** One more command: the replayer accepts the longer journal exactly under the guard. */
  lemma {:induction false} StepReplays(t: Tape, b: Books, c: Command, tol: real)
    requires BInv(b) && Genuine(b, c) && tol >= 0.0
    requires Fold(b.journal, AsLimits(b.env), tol) == Ok(t) && Follows(t, b)
    ensures Step(b, c).env == b.env
    ensures var f := Fold(Step(b, c).journal, AsLimits(b.env), tol);
            && (f.Ok? <==> (Check(b, c) == None ==> Replayable(b, c, tol)))
            && (f.Ok? ==> Follows(f.value, Step(b, c)))
  {
    hide BInv, Follows, Fold, ReplayRow, AsLimits, CheckReserve, ParseSource;
    hide GroupOf, CheckCharge, Settled, Clamp, Plus, Minus, NonNegative, Refused, CheckFields, Tally;
    if Check(b, c) == None {
      match c
      case Reserve(lane, purpose, want, prov) =>
        ReserveReplays(t, b, lane, purpose, want, prov, tol);
        FoldAppend(b.journal, ReserveRow(|b.journal| + 1, b.nextId, lane, purpose, want, prov), AsLimits(b.env), tol);
      case Settle(r, cpu, gpu, cs, gs) =>
        SettledSpend(b, r, cpu, gpu);
        SettleReplays(t, b, r, Spend(r, cpu, gpu), SourceName(cs, cpu), SourceName(gs, gpu), tol);
        FoldAppend(b.journal, SettleRow(|b.journal| + 1, r.id, r.lane, r.purpose, r.amount, Spend(r, cpu, gpu),
                                        SourceName(cs, cpu), SourceName(gs, gpu), r.prov), AsLimits(b.env), tol);
      case Release(r) =>
        if r.id in b.open {
          ReleaseReplays(t, b, r, tol);
          FoldAppend(b.journal, ReleaseRow(|b.journal| + 1, r.id, r.lane, r.purpose, r.amount, r.prov),
                     AsLimits(b.env), tol);
        }
      case Charge(lane, cpu, note, tally, purpose) =>
        ChargeReplays(t, b, lane, cpu, note, tally, purpose, tol);
        FoldAppend(b.journal, ChargeRow(|b.journal| + 1, lane, purpose, cpu, note), AsLimits(b.env), tol);
    } else {
      RefusalLeavesBooks(b, c);
      RefuseFollows(t, b, Step(b, c).denials);
    }
  }

  /** Every accepted command of the run met the guard when it was made. */
  ghost predicate ReplayableRun(b: Books, cs: seq<Command>, tol: real) {
    |cs| > 0 ==>
      && ReplayableRun(b, cs[..|cs| - 1], tol)
      && var s, c := Run(b, cs[..|cs| - 1]), cs[|cs| - 1];
         (Check(s, c) == None ==> Replayable(s, c, tol))
  }

  lemma {:induction false} JournalGrows(b: Books, c: Command)
    ensures Step(b, c).env == b.env
    ensures || Step(b, c).journal == b.journal
            || (|Step(b, c).journal| == |b.journal| + 1 && Step(b, c).journal[..|b.journal|] == b.journal)
  {
    hide CheckReserve, ParseSource, GroupOf, CheckCharge, Settled, Clamp, Plus, Minus, NonNegative, Available;
  }

  lemma {:induction false} OpeningFollows(env: Envelope)
    ensures Follows(BLANK, Opening(env))
  {
    hide Claimed;
    var t, b := BLANK, Opening(env);
    forall sel: Selector | !sel.OnLane? ensures SameClaims(t, b, sel) {}
    forall l ensures SameLane(t, b, l) {}
  }

  /**
   The replayer accepts the journal of a run exactly when every accepted command of the run met the
   guard, and then its tape is the ledger's own state.
   */
  lemma {:induction false} RunReplays(env: Envelope, cs: seq<Command>, tol: real)
    requires ValidEnvelope(env) && GenuineRun(Opening(env), cs) && tol >= 0.0
    ensures Run(Opening(env), cs).env == env
    ensures var b := Run(Opening(env), cs);
            var f := Fold(b.journal, AsLimits(env), tol);
            && (f.Ok? <==> ReplayableRun(Opening(env), cs, tol))
            && (f.Ok? ==> Follows(f.value, b))
  {
    hide Step, Genuine, BInv, ValidEnvelope, Follows, AsLimits, Check, Replayable, Fold;
    OpeningKeeps(env);
    if |cs| == 0 {
      OpeningFollows(env);
      FoldNothing(AsLimits(env), tol);
    } else {
      var front, c := cs[..|cs| - 1], cs[|cs| - 1];
      RunReplays(env, front, tol);
      RunKeepsBooks(Opening(env), front);
      var b := Run(Opening(env), front);
      JournalGrows(b, c);
      var f := Fold(b.journal, AsLimits(env), tol);
      if f.Ok? {
        StepReplays(f.value, b, c, tol);
      } else if Step(b, c).journal != b.journal {
        FoldErrSticks(Step(b, c).journal, AsLimits(env), tol);
      }
    }
  }

  lemma {:induction false} FoldNothing(l: Limits, tol: real)
    ensures Fold([], l, tol) == Ok(BLANK)
  {
  }

  lemma {:induction false} FoldErrSticks(journal: seq<JournalRow>, l: Limits, tol: real)
    requires |journal| > 0 && Fold(journal[..|journal| - 1], l, tol).Err?
    ensures Fold(journal, l, tol).Err?
  {
  }
}
