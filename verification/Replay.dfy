/** The independent journal replayer: one row at a time against the envelope's ceilings. */
module Replay {
  import opened Wrappers
  import opened Amounts
  import opened Budget
  import opened BudgetInvariant

  /** The envelope figures the replayer reads. */
  datatype Limits = Limits(total: Amount, caps: map<Group, Amount>)

  function AsLimits(e: Envelope): Limits {
    Limits(Whole(e), map[Solver := Cap(e, Solver), Verify := Cap(e, Verify),
                         Refine := Cap(e, Refine), Controller := Cap(e, Controller)])
  }

  predicate Complete(m: map<Group, Amount>) {
    Solver in m && Verify in m && Refine in m && Controller in m
  }

  predicate GoodLimits(l: Limits) {
    && NonNegative(l.total) && Complete(l.caps)
    && NonNegative(l.caps[Solver]) && NonNegative(l.caps[Verify])
    && NonNegative(l.caps[Refine]) && NonNegative(l.caps[Controller])
  }

  datatype LaneSpend = LaneSpend(spent: Amount, settlements: nat)

  datatype Tape = Tape(open: map<int, Reservation>, used: set<int>, spent: map<Group, Amount>,
      lanes: map<string, LaneSpend>)

  datatype ReplayError =
    | BadLimits | BadSequence | BadId | UnknownPurpose | NegativeAmount
    | CpuUnaffordable | GpuUnaffordable | NotOpen | ProvenanceDiffers
    | ReleaseDiffers | DeclarationDiffers | BadSource | NotController

  const BLANK := Tape(map[], {}, map[Solver := ZERO, Verify := ZERO, Refine := ZERO, Controller := ZERO], map[])

  function TapeSpent(t: Tape): Amount {
    Four(Get(t.spent, Solver), Get(t.spent, Verify), Get(t.spent, Refine), Get(t.spent, Controller))
  }

  ghost function TapeTotal(t: Tape): Amount { Plus(Claimed(t.open, All), TapeSpent(t)) }

  ghost function TapeGroup(t: Tape, g: Group): Amount { Plus(Claimed(t.open, InGroup(g)), Get(t.spent, g)) }

  /** What the replayer lets a group still reserve; unlike the ledger it does not clamp at zero. */
  ghost function Room(t: Tape, l: Limits, g: Group): Amount {
    var own, all := Minus(Get(l.caps, g), TapeGroup(t, g)), Minus(l.total, TapeTotal(t));
    Amount(Min(own.cpu, all.cpu), Min(own.gpu, all.gpu))
  }

  function LaneOf(lanes: map<string, LaneSpend>, lane: string): LaneSpend {
    if lane in lanes then lanes[lane] else LaneSpend(ZERO, 0)
  }

  function Abs(x: real): real { if x < 0.0 then -x else x }

  predicate CloseTo(a: Amount, b: Amount, tol: real) {
    Abs(a.cpu - b.cpu) <= tol && Abs(a.gpu - b.gpu) <= tol
  }

  ghost function ReplayReserve(t: Tape, row: JournalRow, l: Limits, tol: real): Result<Tape, ReplayError>
    requires row.ReserveRow?
  {
    if row.id <= 0 || row.id in t.used then Err(BadId)
    else match PurposeClass(row.purpose)
      case None => Err(ReplayError.UnknownPurpose)
      case Some(g) =>
        if !NonNegative(row.amount) then Err(NegativeAmount)
        else if row.amount.cpu > Room(t, l, g).cpu + tol then Err(CpuUnaffordable)
        else if row.amount.gpu > Room(t, l, g).gpu + tol then Err(GpuUnaffordable)
        else Ok(t.(used := t.used + {row.id},
                   open := t.open[row.id := Reservation(row.id, row.lane, row.purpose, row.amount, row.prov)]))
  }

  predicate SameOrigin(row: JournalRow, r: Reservation)
    requires row.SettleRow? || row.ReleaseRow?
  {
    row.lane == r.lane && row.purpose == r.purpose && row.prov == r.prov
  }

  function ReplayRelease(t: Tape, row: JournalRow, tol: real): Result<Tape, ReplayError>
    requires row.ReleaseRow?
  {
    if row.id !in t.open then Err(ReplayError.NotOpen)
    else if !SameOrigin(row, t.open[row.id]) then Err(ProvenanceDiffers)
    else if !NonNegative(row.amount) then Err(NegativeAmount)
    else if !CloseTo(row.amount, t.open[row.id].amount, tol) then Err(ReleaseDiffers)
    else Ok(t.(open := t.open - {row.id}))
  }

  function Book(t: Tape, lane: string, g: Group, spend: Amount, settled: nat): Tape {
    var a := LaneOf(t.lanes, lane);
    t.(spent := t.spent[g := Plus(Get(t.spent, g), spend)],
       lanes := t.lanes[lane := LaneSpend(Plus(a.spent, spend), a.settlements + settled)])
  }

  function ReplaySettle(t: Tape, row: JournalRow, tol: real): Result<Tape, ReplayError>
    requires row.SettleRow?
  {
    if row.id !in t.open then Err(ReplayError.NotOpen)
    else if !SameOrigin(row, t.open[row.id]) then Err(ProvenanceDiffers)
    else if !NonNegative(row.declared) then Err(NegativeAmount)
    else if !CloseTo(row.declared, t.open[row.id].amount, tol) then Err(DeclarationDiffers)
    else if !NonNegative(row.actual) then Err(NegativeAmount)
    else if ParseSource(row.cpuSource) == None || ParseSource(row.gpuSource) == None then Err(BadSource)
    else Ok(Book(t.(open := t.open - {row.id}), t.open[row.id].lane, GroupOf(t.open[row.id].purpose), row.actual, 1))
  }

  function ReplayCharge(t: Tape, row: JournalRow): Result<Tape, ReplayError>
    requires row.ChargeRow?
  {
    if PurposeClass(row.purpose) == None then Err(ReplayError.UnknownPurpose)
    else if PurposeClass(row.purpose) != Some(Controller) then Err(NotController)
    else if row.cpu < 0.0 then Err(NegativeAmount)
    else Ok(Book(t, row.lane, Controller, Amount(row.cpu, 0.0), 0))
  }

  ghost function ReplayRow(t: Tape, row: JournalRow, index: int, l: Limits, tol: real): Result<Tape, ReplayError> {
    if row.sequence != index then Err(BadSequence)
    else match row
      case ReserveRow(_, _, _, _, _, _) => ReplayReserve(t, row, l, tol)
      case SettleRow(_, _, _, _, _, _, _, _, _) => ReplaySettle(t, row, tol)
      case ReleaseRow(_, _, _, _, _, _) => ReplayRelease(t, row, tol)
      case ChargeRow(_, _, _, _, _) => ReplayCharge(t, row)
  }

  /** The tape after a whole journal, or the first objection. */
  ghost function Fold(journal: seq<JournalRow>, l: Limits, tol: real): Result<Tape, ReplayError> {
    if |journal| == 0 then Ok(BLANK)
    else match Fold(journal[..|journal| - 1], l, tol)
      case Err(e) => Err(e)
      case Ok(t) => ReplayRow(t, journal[|journal| - 1], |journal|, l, tol)
  }

  datatype Replayed = Replayed(
    openReservations: nat, committed: Amount, spent: map<Group, Amount>, lanes: map<string, LaneSpend>,
    withinEnvelope: bool, withinPartitionCaps: bool)

  predicate WithinBy(a: Amount, limit: Amount, tol: real) {
    a.cpu <= limit.cpu + tol && a.gpu <= limit.gpu + tol
  }

  ghost function Summary(t: Tape, l: Limits, tol: real): Replayed {
    Replayed(|t.open|, TapeTotal(t), t.spent, t.lanes,
             WithinBy(TapeTotal(t), l.total, tol),
             && WithinBy(TapeGroup(t, Solver), Get(l.caps, Solver), tol)
             && WithinBy(TapeGroup(t, Verify), Get(l.caps, Verify), tol)
             && WithinBy(TapeGroup(t, Refine), Get(l.caps, Refine), tol)
             && WithinBy(TapeGroup(t, Controller), Get(l.caps, Controller), tol))
  }

  /** What the replayer returns for a journal. */
  ghost function Replay(journal: seq<JournalRow>, l: Limits, tol: real): Result<Replayed, ReplayError> {
    if !GoodLimits(l) then Err(BadLimits)
    else match Fold(journal, l, tol)
      case Err(e) => Err(e)
      case Ok(t) => Ok(Summary(t, l, tol))
  }
}
