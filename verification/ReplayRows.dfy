/** What the replayer accepts next, told by the rows before it. */
module ReplayRows {
  import opened Wrappers
  import opened Amounts
  import opened Budget
  import opened BudgetInvariant
  import opened BudgetAvailability
  import opened Replay
  import BudgetAccounts

  predicate Reserves(row: JournalRow, id: int) { row.ReserveRow? && row.id == id }

  predicate Closes(row: JournalRow, id: int) { (row.SettleRow? || row.ReleaseRow?) && row.id == id }

  ghost predicate Opened(journal: seq<JournalRow>, id: int) {
    exists j | 0 <= j < |journal| :: Reserves(journal[j], id)
  }

  ghost predicate Closed(journal: seq<JournalRow>, id: int) {
    exists j | 0 <= j < |journal| :: Closes(journal[j], id)
  }

  predicate IsReservation(row: JournalRow, r: Reservation) {
    row.ReserveRow? && r == Reservation(row.id, row.lane, row.purpose, row.amount, row.prov)
  }

  /** The open reservations are those of the rows that no later row closes. */
  ghost predicate OpenAre(open: map<int, Reservation>, journal: seq<JournalRow>) {
    && (forall id :: id in open <==> Opened(journal, id) && !Closed(journal, id))
    && (forall id, j | id in open && 0 <= j < |journal| && Reserves(journal[j], id) ::
          IsReservation(journal[j], open[id]))
  }

  ghost predicate UsedAre(used: set<int>, journal: seq<JournalRow>) {
    && (forall id :: id in used <==> Opened(journal, id))
    && (forall id | Closed(journal, id) :: Opened(journal, id))
  }

  ghost predicate SpentAre(spent: map<Group, Amount>, journal: seq<JournalRow>) {
    forall g :: Get(spent, g) == JournalSpend(journal, PurposesOf(g))
  }

  predicate KnownPurposes(open: map<int, Reservation>) {
    forall id | id in open :: PurposeClass(open[id].purpose).Some?
  }

  ghost predicate TapeIs(t: Tape, journal: seq<JournalRow>) {
    UsedAre(t.used, journal) && OpenAre(t.open, journal) && KnownPurposes(t.open) && SpentAre(t.spent, journal)
  }

  lemma {:induction false} MoreRows(journal: seq<JournalRow>, row: JournalRow, id: int)
    ensures Opened(journal + [row], id) <==> Opened(journal, id) || Reserves(row, id)
    ensures Closed(journal + [row], id) <==> Closed(journal, id) || Closes(row, id)
  {
    hide Reserves, Closes;
    var more := journal + [row];
    assert more[|journal|] == row && forall j | 0 <= j < |journal| :: more[j] == journal[j];
  }

  lemma {:induction false} NoRows()
    ensures TapeIs(BLANK, [])
  {
  }

  /** What an accepted row does to the open reservations. */
  ghost predicate OpenMoves(open: map<int, Reservation>, next: map<int, Reservation>, row: JournalRow) {
    match row
    case ReserveRow(_, id, _, _, _, _) => id in next && IsReservation(row, next[id]) && next == open[id := next[id]]
    case SettleRow(_, id, _, _, _, _, _, _, _) => id in open && next == open - {id}
    case ReleaseRow(_, id, _, _, _, _) => id in open && next == open - {id}
    case ChargeRow(_, _, _, _, _) => next == open
  }

  lemma {:induction false} OpenStays(journal: seq<JournalRow>, row: JournalRow, open: map<int, Reservation>,
      next: map<int, Reservation>)
    requires OpenAre(open, journal) && OpenMoves(open, next, row)
    requires row.ReserveRow? ==> !Opened(journal, row.id) && !Closed(journal, row.id)
    ensures OpenAre(next, journal + [row])
  {
    hide Opened, Closed, IsReservation;
    var more := journal + [row];
    forall id ensures id in next <==> Opened(more, id) && !Closed(more, id) { MoreRows(journal, row, id); }
    forall id, j | id in next && 0 <= j < |more| && Reserves(more[j], id) ensures IsReservation(more[j], next[id]) {
      if j < |journal| {
        assert Reserves(journal[j], id);
        ReservedIsOpened(journal, j, id);
      }
    }
  }

  lemma {:induction false} ReservedIsOpened(journal: seq<JournalRow>, j: nat, id: int)
    requires j < |journal| && Reserves(journal[j], id)
    ensures Opened(journal, id)
  {
  }

  // ---------------------------------------------------------------- the next row

  /** The amount is within what is left of both ceilings, up to the tolerance. */
  predicate Affordable(x: real, cap: real, used: real, whole: real, all: real, tol: real) {
    x <= cap - used + tol && x <= whole - all + tol
  }

  /** What the rows have spent in all. */
  ghost function AllSpend(journal: seq<JournalRow>): Amount {
    Four(JournalSpend(journal, {"solver", "anchor"}), JournalSpend(journal, {"verify"}),
         JournalSpend(journal, {"refine"}), JournalSpend(journal, {"controller"}))
  }

  ghost predicate RoomFor(want: Amount, open: map<int, Reservation>, journal: seq<JournalRow>, g: Group, l: Limits,
      tol: real) {
    var used := Plus(ClaimedFor(open, PurposesOf(g)), JournalSpend(journal, PurposesOf(g)));
    var all := Plus(Claimed(open, All), AllSpend(journal));
    && Affordable(want.cpu, Get(l.caps, g).cpu, used.cpu, l.total.cpu, all.cpu, tol)
    && Affordable(want.gpu, Get(l.caps, g).gpu, used.gpu, l.total.gpu, all.gpu, tol)
  }

  predicate Near(x: real, y: real, tol: real) { y - tol <= x <= y + tol }

  /** The row repeats what the reservation said. */
  predicate Repeats(row: JournalRow, r: Reservation, amount: Amount, tol: real)
    requires row.SettleRow? || row.ReleaseRow?
  {
    && row.lane == r.lane && row.purpose == r.purpose && row.prov == r.prov
    && amount.cpu >= 0.0 && amount.gpu >= 0.0
    && Near(amount.cpu, r.amount.cpu, tol) && Near(amount.gpu, r.amount.gpu, tol)
  }

  const SOURCES := {"measured", "estimated_fallback", "declared_fallback"}

  /** The row may follow the journal. */
  ghost predicate MayFollow(open: map<int, Reservation>, journal: seq<JournalRow>, row: JournalRow, l: Limits,
      tol: real) {
    && row.sequence == |journal| + 1
    && match row
       case ReserveRow(_, id, _, purpose, amount, _) =>
         && id > 0 && !Opened(journal, id) && amount.cpu >= 0.0 && amount.gpu >= 0.0
         && exists g :: purpose in PurposesOf(g) && RoomFor(amount, open, journal, g, l, tol)
       case SettleRow(_, id, _, _, declared, actual, cpuSource, gpuSource, _) =>
         && id in open && Repeats(row, open[id], declared, tol)
         && actual.cpu >= 0.0 && actual.gpu >= 0.0 && cpuSource in SOURCES && gpuSource in SOURCES
       case ReleaseRow(_, id, _, _, amount, _) => id in open && Repeats(row, open[id], amount, tol)
       case ChargeRow(_, _, purpose, cpu, _) => purpose == "controller" && cpu >= 0.0
  }

  lemma {:induction false} ReserveFits(t: Tape, journal: seq<JournalRow>, row: JournalRow, l: Limits, tol: real)
    requires TapeIs(t, journal) && row.ReserveRow? && row.sequence == |journal| + 1
    ensures ReplayReserve(t, row, l, tol).Ok? <==> MayFollow(t.open, journal, row, l, tol)
    ensures ReplayReserve(t, row, l, tol).Ok? ==> OpenMoves(t.open, ReplayReserve(t, row, l, tol).value.open, row)
  {
    hide PurposeClass, PurposesOf, RoomFor, Room, Opened, Closed;
    forall g ensures PurposeClass(row.purpose) == Some(g) <==> row.purpose in PurposesOf(g) {
      GroupNames(row.purpose, g);
    }
    match PurposeClass(row.purpose)
    case None =>
    case Some(g) => RoomIs(t, journal, g, row.amount, l, tol);
  }

  lemma {:induction false} UseIs(t: Tape, journal: seq<JournalRow>, g: Group)
    requires SpentAre(t.spent, journal)
    ensures TapeGroup(t, g) == Plus(ClaimedFor(t.open, PurposesOf(g)), JournalSpend(journal, PurposesOf(g)))
    ensures TapeTotal(t) == Plus(Claimed(t.open, All), AllSpend(journal))
  {
    hide JournalSpend, Claimed, ClaimedFor, Plus, Get;
    ClaimsByName(t.open, g);
    assert Get(t.spent, Solver) == JournalSpend(journal, PurposesOf(Solver));
    assert Get(t.spent, Verify) == JournalSpend(journal, PurposesOf(Verify));
    assert Get(t.spent, Refine) == JournalSpend(journal, PurposesOf(Refine));
    assert Get(t.spent, Controller) == JournalSpend(journal, PurposesOf(Controller));
  }

  lemma {:induction false} RoomIs(t: Tape, journal: seq<JournalRow>, g: Group, want: Amount, l: Limits, tol: real)
    requires SpentAre(t.spent, journal)
    ensures want.cpu <= Room(t, l, g).cpu + tol && want.gpu <= Room(t, l, g).gpu + tol <==>
              RoomFor(want, t.open, journal, g, l, tol)
  {
    hide JournalSpend, Claimed, ClaimedFor, TapeGroup, TapeTotal, AllSpend, Plus, Get, PurposesOf;
    UseIs(t, journal, g);
  }

  lemma {:induction false} SettleFits(t: Tape, journal: seq<JournalRow>, row: JournalRow, l: Limits, tol: real)
    requires row.SettleRow? && row.sequence == |journal| + 1
    ensures ReplaySettle(t, row, tol).Ok? <==> MayFollow(t.open, journal, row, l, tol)
    ensures ReplaySettle(t, row, tol).Ok? ==> OpenMoves(t.open, ReplaySettle(t, row, tol).value.open, row)
  {
    hide ParseSource, GroupOf, Plus, RoomFor;
    BudgetAccounts.SourceTexts(row.cpuSource);
    BudgetAccounts.SourceTexts(row.gpuSource);
  }

  lemma {:induction false} ReleaseFits(t: Tape, journal: seq<JournalRow>, row: JournalRow, l: Limits, tol: real)
    requires row.ReleaseRow? && row.sequence == |journal| + 1
    ensures ReplayRelease(t, row, tol).Ok? <==> MayFollow(t.open, journal, row, l, tol)
    ensures ReplayRelease(t, row, tol).Ok? ==> OpenMoves(t.open, ReplayRelease(t, row, tol).value.open, row)
  {
    hide RoomFor;
  }

  lemma {:induction false} ChargeFits(t: Tape, journal: seq<JournalRow>, row: JournalRow, l: Limits, tol: real)
    requires row.ChargeRow? && row.sequence == |journal| + 1
    ensures ReplayCharge(t, row).Ok? <==> MayFollow(t.open, journal, row, l, tol)
    ensures ReplayCharge(t, row).Ok? ==> OpenMoves(t.open, ReplayCharge(t, row).value.open, row)
  {
    hide PurposeClass, Plus, RoomFor;
    GroupNames(row.purpose, Controller);
  }

  lemma {:induction false} RowFits(t: Tape, journal: seq<JournalRow>, row: JournalRow, l: Limits, tol: real)
    requires TapeIs(t, journal)
    ensures ReplayRow(t, row, |journal| + 1, l, tol).Ok? <==> MayFollow(t.open, journal, row, l, tol)
    ensures ReplayRow(t, row, |journal| + 1, l, tol).Ok? ==>
              OpenMoves(t.open, ReplayRow(t, row, |journal| + 1, l, tol).value.open, row)
  {
    hide TapeIs, ReplayReserve, ReplaySettle, ReplayRelease, ReplayCharge, OpenMoves, MayFollow;
    if row.sequence == |journal| + 1 {
      match row
      case ReserveRow(_, _, _, _, _, _) => ReserveFits(t, journal, row, l, tol);
      case SettleRow(_, _, _, _, _, _, _, _, _) => SettleFits(t, journal, row, l, tol);
      case ReleaseRow(_, _, _, _, _, _) => ReleaseFits(t, journal, row, l, tol);
      case ChargeRow(_, _, _, _, _) => ChargeFits(t, journal, row, l, tol);
    } else {
      WrongPlace(t.open, journal, row, l, tol);
    }
  }

  lemma {:induction false} WrongPlace(open: map<int, Reservation>, journal: seq<JournalRow>, row: JournalRow, l: Limits,
      tol: real)
    requires row.sequence != |journal| + 1
    ensures !MayFollow(open, journal, row, l, tol)
  {
  }

  // ---------------------------------------------------------------- the tape

  lemma {:induction false} UsedMoves(t: Tape, row: JournalRow, index: int, l: Limits, tol: real)
    requires ReplayRow(t, row, index, l, tol).Ok?
    ensures forall id :: id in ReplayRow(t, row, index, l, tol).value.used <==> id in t.used || Reserves(row, id)
    ensures row.ReserveRow? ==> row.id !in t.used
  {
    hide PurposeClass, Room, GroupOf, ParseSource, CloseTo, SameOrigin, Plus;
  }

  lemma {:induction false} SpentMoves(t: Tape, row: JournalRow, index: int, l: Limits, tol: real, g: Group)
    requires ReplayRow(t, row, index, l, tol).Ok?
    ensures Get(ReplayRow(t, row, index, l, tol).value.spent, g) ==
            Plus(Get(t.spent, g), if row.SettleRow? && row.purpose in PurposesOf(g) then row.actual
                                  else if row.ChargeRow? && row.purpose in PurposesOf(g) then Amount(row.cpu, 0.0)
                                  else ZERO)
    requires row.SettleRow? ==> PurposeClass(row.purpose).Some?
  {
    hide PurposeClass, Room, ParseSource, CloseTo, Plus, PurposesOf;
    PlusZero(Get(t.spent, g));
    if row.SettleRow? || row.ChargeRow? { GroupNames(row.purpose, g); }
  }

  lemma {:induction false} PurposesStay(t: Tape, row: JournalRow, index: int, l: Limits, tol: real)
    requires ReplayRow(t, row, index, l, tol).Ok? && KnownPurposes(t.open)
    ensures KnownPurposes(ReplayRow(t, row, index, l, tol).value.open)
    ensures row.SettleRow? ==> PurposeClass(row.purpose).Some?
  {
    hide PurposeClass, Room, ParseSource, CloseTo, Plus;
  }

  lemma {:induction false} UsedStays(used: set<int>, journal: seq<JournalRow>, row: JournalRow, next: set<int>)
    requires UsedAre(used, journal) && forall id :: id in next <==> id in used || Reserves(row, id)
    requires row.SettleRow? || row.ReleaseRow? ==> Opened(journal, row.id)
    ensures UsedAre(next, journal + [row])
  {
    hide Opened, Closed;
    forall id
      ensures id in next <==> Opened(journal + [row], id)
      ensures Closed(journal + [row], id) ==> Opened(journal + [row], id)
    {
      MoreRows(journal, row, id);
    }
  }

  lemma {:induction false} TapeStays(t: Tape, journal: seq<JournalRow>, row: JournalRow, l: Limits, tol: real)
    requires TapeIs(t, journal) && ReplayRow(t, row, |journal| + 1, l, tol).Ok?
    ensures TapeIs(ReplayRow(t, row, |journal| + 1, l, tol).value, journal + [row])
  {
    hide ReplayRow, Opened, Closed, JournalSpend, Plus, PurposesOf, IsReservation, KnownPurposes, MayFollow;
    var d := ReplayRow(t, row, |journal| + 1, l, tol).value;
    RowFits(t, journal, row, l, tol);
    UsedMoves(t, row, |journal| + 1, l, tol);
    UsedStays(t.used, journal, row, d.used);
    OpenStays(journal, row, t.open, d.open);
    PurposesStay(t, row, |journal| + 1, l, tol);
    forall g ensures Get(d.spent, g) == JournalSpend(journal + [row], PurposesOf(g)) {
      SpentMoves(t, row, |journal| + 1, l, tol, g);
      SpendAppend(journal, row, PurposesOf(g));
    }
  }

  /** The tape after an accepted journal, told by its rows. */
  lemma {:induction false} FoldIs(journal: seq<JournalRow>, l: Limits, tol: real)
    requires Fold(journal, l, tol).Ok?
    ensures TapeIs(Fold(journal, l, tol).value, journal)
  {
    hide ReplayRow, TapeIs;
    if |journal| == 0 {
      NoRows();
    } else {
      var front, row := journal[..|journal| - 1], journal[|journal| - 1];
      FoldIs(front, l, tol);
      TapeStays(Fold(front, l, tol).value, front, row, l, tol);
      assert journal == front + [row];
    }
  }

  /** One more row is accepted exactly when it may follow the rows before it. */
  lemma {:induction false} AcceptedNext(journal: seq<JournalRow>, row: JournalRow, l: Limits, tol: real)
    requires Fold(journal, l, tol).Ok?
    ensures Fold(journal + [row], l, tol).Ok? <==> MayFollow(Fold(journal, l, tol).value.open, journal, row, l, tol)
  {
    hide ReplayRow, TapeIs, MayFollow;
    FoldIs(journal, l, tol);
    RowFits(Fold(journal, l, tol).value, journal, row, l, tol);
    assert (journal + [row])[..|journal|] == journal;
  }

  /** The report exists exactly for complete, non-negative ceilings and a journal each row of which may follow. */
  lemma {:induction false} ReplayIff(journal: seq<JournalRow>, l: Limits, tol: real)
    ensures Replay.Replay(journal, l, tol).Ok? <==>
              && (forall g: Group :: g in l.caps && l.caps[g].cpu >= 0.0 && l.caps[g].gpu >= 0.0)
              && l.total.cpu >= 0.0 && l.total.gpu >= 0.0
              && forall k | 0 <= k < |journal| ::
                   Follows(journal, k, l, tol)
  {
    hide Fold, Follows, Summary;
    LimitsGood(l);
    EachFollows(journal, l, tol);
  }

  /** The rows before row k are accepted, and row k may follow them. */
  ghost predicate Follows(journal: seq<JournalRow>, k: nat, l: Limits, tol: real)
    requires k < |journal|
  {
    && Fold(journal[..k], l, tol).Ok?
    && MayFollow(Fold(journal[..k], l, tol).value.open, journal[..k], journal[k], l, tol)
  }

  lemma {:induction false} LimitsGood(l: Limits)
    ensures GoodLimits(l) <==>
              && (forall g: Group :: g in l.caps && l.caps[g].cpu >= 0.0 && l.caps[g].gpu >= 0.0)
              && l.total.cpu >= 0.0 && l.total.gpu >= 0.0
  {
    if GoodLimits(l) {
      forall g: Group ensures g in l.caps && l.caps[g].cpu >= 0.0 && l.caps[g].gpu >= 0.0 {
        match g case Solver => case Verify => case Refine => case Controller =>
      }
    }
  }

  lemma {:induction false} EachFollows(journal: seq<JournalRow>, l: Limits, tol: real)
    ensures Fold(journal, l, tol).Ok? <==> forall k | 0 <= k < |journal| :: Follows(journal, k, l, tol)
  {
    hide MayFollow, Fold;
    if |journal| == 0 {
      EmptyFold(l, tol);
    } else {
      var n := |journal| - 1;
      var front := journal[..n];
      assert journal == front + [journal[n]];
      EachFollows(front, l, tol);
      forall k | 0 <= k < n ensures Follows(front, k, l, tol) <==> Follows(journal, k, l, tol) {
        assert front[..k] == journal[..k];
      }
      if Fold(front, l, tol).Ok? {
        AcceptedNext(front, journal[n], l, tol);
        assert Follows(journal, n, l, tol) <==> Fold(journal, l, tol).Ok?;
        assert forall k | 0 <= k < n :: Follows(front, k, l, tol) && Follows(journal, k, l, tol);
      } else {
        PrefixAccepted(journal, l, tol);
      }
    }
  }

  lemma {:induction false} EmptyFold(l: Limits, tol: real)
    ensures Fold([], l, tol).Ok?
  {
  }

  lemma {:induction false} PrefixAccepted(journal: seq<JournalRow>, l: Limits, tol: real)
    requires |journal| > 0
    ensures Fold(journal, l, tol).Ok? ==> Fold(journal[..|journal| - 1], l, tol).Ok?
  {
    hide ReplayRow;
  }
}
