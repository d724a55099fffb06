/**
 The resource envelope and the abstract state of the budget ledger: what each operation checks, in
 order, and what each accepted operation leaves in the accounts and in the journal.
 */
module Budget {
  import opened Wrappers
  import opened Amounts

  // ---------------------------------------------------------------- envelope

  datatype Envelope = Envelope(wall: real, cpu: real, gpu: real, verify: real, refine: real, controller: real)

  /** The field checks made when an envelope is constructed. */
  predicate ValidEnvelope(e: Envelope) {
    && e.wall >= 0.0 && e.cpu >= 0.0 && e.gpu >= 0.0
    && 0.0 <= e.verify < 1.0 && 0.0 <= e.refine < 1.0 && e.verify + e.refine < 1.0
    && 0.0 <= e.controller <= e.cpu
    && e.cpu * e.verify + e.cpu * e.refine + e.controller <= e.cpu
  }

  datatype Group = Solver | Verify | Refine | Controller

  function PurposeClass(purpose: string): Option<Group> {
    if purpose == "solver" || purpose == "anchor" then Some(Solver)
    else if purpose == "verify" then Some(Verify)
    else if purpose == "refine" then Some(Refine)
    else if purpose == "controller" then Some(Controller)
    else None
  }

  /** The partition cap of each purpose group. */
  function Cap(e: Envelope, g: Group): Amount {
    match g
    case Verify => Amount(e.cpu * e.verify, e.gpu * e.verify)
    case Refine => Amount(e.cpu * e.refine, e.gpu * e.refine)
    case Controller => Amount(e.controller, 0.0)
    case Solver => Amount(Rest(e.cpu, e.verify, e.refine, e.controller), Rest(e.gpu, e.verify, e.refine, 0.0))
  }

  /** What the fractional reserves and a fixed one leave of a total, never below zero. */
  function Rest(total: real, v: real, r: real, fixed: real): (rest: real)
    ensures rest >= 0.0
  {
    Max(0.0, total - total * v - total * r - fixed)
  }

  function Whole(e: Envelope): Amount { Amount(e.cpu, e.gpu) }

  // ---------------------------------------------------------------- reservations and accounts

  datatype Provenance = Provenance(grant: Option<string>, profile: Option<string>, digest: Option<string>)

  predicate IsDigest(s: string) {
    |s| == 64 && forall i | 0 <= i < |s| :: s[i] in "0123456789abcdef"
  }

  datatype Reservation = Reservation(id: int, lane: string, purpose: string, amount: Amount, prov: Provenance)

  datatype Source = Measured | Estimated | Fallback

  function ParseSource(s: string): Option<Source> {
    if s == "measured" then Some(Measured)
    else if s == "estimated_fallback" then Some(Estimated)
    else if s == "declared_fallback" then Some(Fallback)
    else None
  }

  datatype LaneAccount = LaneAccount(
    reserved: Amount, spent: Amount, declared: Amount,
    measured: Amount, estimated: Amount, fallback: Amount,
    settlements: nat, measuredSettlements: nat, estimatedSettlements: nat, fallbackSettlements: nat,
    work: map<string, real>)

  const NEW_ACCOUNT := LaneAccount(ZERO, ZERO, ZERO, ZERO, ZERO, ZERO, 0, 0, 0, 0, map[])

  datatype JournalRow =
    | ReserveRow(sequence: int, id: int, lane: string, purpose: string, amount: Amount, prov: Provenance)
    | SettleRow(sequence: int, id: int, lane: string, purpose: string, declared: Amount, actual: Amount,
                cpuSource: string, gpuSource: string, prov: Provenance)
    | ReleaseRow(sequence: int, id: int, lane: string, purpose: string, amount: Amount, prov: Provenance)
    | ChargeRow(sequence: int, lane: string, purpose: string, cpu: real, note: string)

  datatype Denial = Denial(lane: string, purpose: string, requested: real, available: real, gpu: bool)

  datatype Books = Books(
    env: Envelope, lanes: map<string, LaneAccount>, nextId: nat, open: map<int, Reservation>,
    reserved: map<Group, Amount>, spent: map<Group, Amount>,
    journal: seq<JournalRow>, denials: seq<Denial>)

  function Opening(env: Envelope): Books {
    Books(env, map[], 1, map[], map[], map[], [], [])
  }

  function Get<K>(m: map<K, Amount>, k: K): Amount { if k in m then m[k] else ZERO }

  function Account(lanes: map<string, LaneAccount>, lane: string): LaneAccount {
    if lane in lanes then lanes[lane] else NEW_ACCOUNT
  }

  function Held(a: LaneAccount): Amount { Plus(a.reserved, a.spent) }

  ghost function LaneHolds(lanes: map<string, LaneAccount>): map<string, Amount> {
    map l | l in lanes :: Held(lanes[l])
  }

  /** Reserved plus spent over every lane. */
  ghost function Committed(b: Books): Amount {
    Sum(LaneHolds(b.lanes))
  }

  function GroupCommitted(b: Books, g: Group): Amount { Plus(Get(b.reserved, g), Get(b.spent, g)) }

  /** What is left for a group before the clamp at zero: the smaller of its own and the whole headroom. */
  ghost function Headroom(b: Books, g: Group): Amount {
    var own, all := Minus(Cap(b.env, g), GroupCommitted(b, g)), Minus(Whole(b.env), Committed(b));
    Amount(Min(own.cpu, all.cpu), Min(own.gpu, all.gpu))
  }

  ghost function Available(b: Books, g: Group): Amount { Clamp(Headroom(b, g)) }

  // ---------------------------------------------------------------- operations

  datatype BudgetError =
    | NegativeCpu | NegativeGpu | BadGrant | BadProfile | BadDigest | PartialProvenance
    | UnknownPurpose | CpuExceeded | GpuExceeded | EmptyLane
    | BadCpuSource | BadGpuSource | NotOpen | NegativeCharge

  /** Provenance is either absent or complete, with lowercase digests and a non-empty profile. */
  function CheckProvenance(p: Provenance): Option<BudgetError> {
    if p.grant.Some? && !IsDigest(p.grant.value) then Some(BadGrant)
    else if p.profile.Some? && p.profile.value == "" then Some(BadProfile)
    else if p.digest.Some? && !IsDigest(p.digest.value) then Some(BadDigest)
    else if (p.grant.Some? || p.profile.Some? || p.digest.Some?)
         && (p.grant.None? || p.profile.None? || p.digest.None?) then Some(PartialProvenance)
    else None
  }

  ghost function CheckReserve(b: Books, lane: string, purpose: string, want: Amount,
      prov: Provenance): Option<BudgetError> {
    if want.cpu < 0.0 then Some(NegativeCpu)
    else if want.gpu < 0.0 then Some(NegativeGpu)
    else if CheckProvenance(prov).Some? then CheckProvenance(prov)
    else match PurposeClass(purpose)
      case None => Some(UnknownPurpose)
      case Some(g) =>
        if want.cpu > Available(b, g).cpu then Some(CpuExceeded)
        else if want.gpu > Available(b, g).gpu then Some(GpuExceeded)
        else if lane == "" then Some(EmptyLane)
        else None
  }

  function DoReserve(b: Books, lane: string, purpose: string, g: Group, want: Amount, prov: Provenance): Books {
    var a := Account(b.lanes, lane);
    b.(lanes := b.lanes[lane := a.(reserved := Plus(a.reserved, want))],
       nextId := b.nextId + 1,
       open := b.open[b.nextId := Reservation(b.nextId, lane, purpose, want, prov)],
       reserved := b.reserved[g := Plus(Get(b.reserved, g), want)],
       journal := b.journal + [ReserveRow(|b.journal| + 1, b.nextId, lane, purpose, want, prov)])
  }

  /** A capacity refusal is recorded; every other refusal leaves no trace. */
  ghost function DoRefuse(b: Books, lane: string, purpose: string, g: Group, want: Amount, e: BudgetError): Books {
    match e
    case CpuExceeded => b.(denials := b.denials + [Denial(lane, purpose, want.cpu, Available(b, g).cpu, false)])
    case GpuExceeded => b.(denials := b.denials + [Denial(lane, purpose, want.gpu, Available(b, g).gpu, true)])
    case _ => b
  }

  /** How a settlement names its sources when the caller does not. */
  function SourceName(given: Option<string>, actual: Option<real>): string {
    match given
    case Some(s) => s
    case None => if actual.None? then "declared_fallback" else "estimated_fallback"
  }

  function Spend(r: Reservation, cpu: Option<real>, gpu: Option<real>): Amount {
    Amount(if cpu.None? then r.amount.cpu else cpu.value, if gpu.None? then r.amount.gpu else gpu.value)
  }

  function CheckSettle(b: Books, r: Reservation, cpu: Option<real>, gpu: Option<real>,
                       cpuSource: Option<string>, gpuSource: Option<string>): Option<BudgetError> {
    if cpu.Some? && cpu.value < 0.0 then Some(NegativeCpu)
    else if gpu.Some? && gpu.value < 0.0 then Some(NegativeGpu)
    else if ParseSource(SourceName(cpuSource, cpu)) == None then Some(BadCpuSource)
    else if ParseSource(SourceName(gpuSource, gpu)) == None then Some(BadGpuSource)
    else if r.id !in b.open then Some(NotOpen)
    else CheckFields(r)
  }

  /** The fields of the object handed in are used as they are, after its id has left the open reservations. */
  function CheckFields(r: Reservation): Option<BudgetError> {
    if r.lane == "" then Some(EmptyLane)
    else if PurposeClass(r.purpose) == None then Some(UnknownPurpose)
    else None
  }

  /** Refused fields leave the id closed and, when the lane has a name, the claim taken off that lane. */
  function Dropped(b: Books, r: Reservation): Books {
    var a := Account(b.lanes, r.lane);
    var lanes := b.lanes[r.lane := a.(reserved := Clamp(Minus(a.reserved, r.amount)))];
    b.(open := b.open - {r.id}, lanes := if r.lane == "" then b.lanes else lanes)
  }

  function OnlyCpu(a: Amount): Amount { Amount(a.cpu, 0.0) }
  function OnlyGpu(a: Amount): Amount { Amount(0.0, a.gpu) }

  /** Book the spend of one settlement under the sources of its two components. */
  function Attributed(a: LaneAccount, spend: Amount, cpu: Source, gpu: Source): LaneAccount {
    var c := match cpu
      case Measured => a.(measured := Plus(a.measured, OnlyCpu(spend)),
                          measuredSettlements := a.measuredSettlements + 1)
      case Estimated => a.(estimated := Plus(a.estimated, OnlyCpu(spend)),
                           estimatedSettlements := a.estimatedSettlements + 1)
      case Fallback => a.(fallback := Plus(a.fallback, OnlyCpu(spend)),
                          fallbackSettlements := a.fallbackSettlements + 1);
    match gpu
    case Measured => c.(measured := Plus(c.measured, OnlyGpu(spend)))
    case Estimated => c.(estimated := Plus(c.estimated, OnlyGpu(spend)))
    case Fallback => c.(fallback := Plus(c.fallback, OnlyGpu(spend)))
  }

  function Settled(a: LaneAccount, r: Reservation, spend: Amount, cpu: Source, gpu: Source): LaneAccount {
    Attributed(a.(reserved := Clamp(Minus(a.reserved, r.amount)), declared := Plus(a.declared, r.amount),
                  spent := Plus(a.spent, spend), settlements := a.settlements + 1), spend, cpu, gpu)
  }

  function DoSettle(b: Books, r: Reservation, g: Group, spend: Amount, cpuSource: string, gpuSource: string): Books
    requires ParseSource(cpuSource).Some? && ParseSource(gpuSource).Some?
  {
    var a := Settled(Account(b.lanes, r.lane), r, spend, ParseSource(cpuSource).value, ParseSource(gpuSource).value);
    b.(lanes := b.lanes[r.lane := a],
       open := b.open - {r.id},
       reserved := b.reserved[g := Clamp(Minus(Get(b.reserved, g), r.amount))],
       spent := b.spent[g := Plus(Get(b.spent, g), spend)],
       journal := b.journal + [SettleRow(|b.journal| + 1, r.id, r.lane, r.purpose, r.amount, spend,
                                         cpuSource, gpuSource, r.prov)])
  }

  function DoRelease(b: Books, r: Reservation, g: Group): Books {
    var a := Account(b.lanes, r.lane);
    b.(lanes := b.lanes[r.lane := a.(reserved := Clamp(Minus(a.reserved, r.amount)))],
       open := b.open - {r.id},
       reserved := b.reserved[g := Clamp(Minus(Get(b.reserved, g), r.amount))],
       journal := b.journal + [ReleaseRow(|b.journal| + 1, r.id, r.lane, r.purpose, r.amount, r.prov)])
  }

  function CheckCharge(lane: string, cpu: real, purpose: string): Option<BudgetError> {
    if cpu < 0.0 then Some(NegativeCharge)
    else if PurposeClass(purpose) == None then Some(UnknownPurpose)
    else if lane == "" then Some(EmptyLane)
    else None
  }

  /** Credit a native-work counter; the empty name stands for none. */
  function Tally(work: map<string, real>, name: string, cpu: real): map<string, real> {
    if name == "" then work else work[name := (if name in work then work[name] else 0.0) + cpu]
  }

  function DoCharge(b: Books, lane: string, cpu: real, note: string, tally: string, purpose: string, g: Group): Books {
    var a := Account(b.lanes, lane);
    b.(lanes := b.lanes[lane := a.(spent := Plus(a.spent, Amount(cpu, 0.0)), work := Tally(a.work, tally, cpu))],
       spent := b.spent[g := Plus(Get(b.spent, g), Amount(cpu, 0.0))],
       journal := b.journal + [ChargeRow(|b.journal| + 1, lane, purpose, cpu, note)])
  }

  // ---------------------------------------------------------------- commands and runs

  datatype Command =
    | Reserve(lane: string, purpose: string, want: Amount, prov: Provenance)
    | Settle(r: Reservation, cpu: Option<real>, gpu: Option<real>, cpuSource: Option<string>, gpuSource: Option<string>)
    | Release(r: Reservation)
    | Charge(lane: string, chargeCpu: real, note: string, tally: string, purpose: string)

  /** A settled or released reservation is the one that reserve returned for its id. */
  predicate Genuine(b: Books, c: Command) {
    (c.Settle? || c.Release?) && c.r.id in b.open ==> b.open[c.r.id] == c.r
  }

  /** The error a command raises; releasing a closed reservation is silently accepted. */
  ghost function Check(b: Books, c: Command): Option<BudgetError> {
    match c
    case Reserve(lane, purpose, want, prov) => CheckReserve(b, lane, purpose, want, prov)
    case Settle(r, cpu, gpu, cs, gs) => CheckSettle(b, r, cpu, gpu, cs, gs)
    case Release(r) => if r.id in b.open then CheckFields(r) else None
    case Charge(lane, cpu, _, _, purpose) => CheckCharge(lane, cpu, purpose)
  }

  /** The group of a purpose that the operation has already accepted. */
  function GroupOf(purpose: string): Group {
    match PurposeClass(purpose) case Some(g) => g case None => Controller
  }

  ghost function Refused(b: Books, c: Command, e: BudgetError): Books {
    match c
    case Reserve(lane, purpose, want, _) => DoRefuse(b, lane, purpose, GroupOf(purpose), want, e)
    case Settle(r, _, _, _, _) => if e == EmptyLane || e == UnknownPurpose then Dropped(b, r) else b
    case Release(r) => Dropped(b, r)
    case Charge(_, _, _, _, _) => b
  }

  ghost function Step(b: Books, c: Command): Books {
    match Check(b, c)
    case Some(e) => Refused(b, c, e)
    case None =>
      match c
      case Reserve(lane, purpose, want, prov) => DoReserve(b, lane, purpose, GroupOf(purpose), want, prov)
      case Settle(r, cpu, gpu, cs, gs) =>
        DoSettle(b, r, GroupOf(r.purpose), Spend(r, cpu, gpu), SourceName(cs, cpu), SourceName(gs, gpu))
      case Release(r) => if r.id in b.open then DoRelease(b, r, GroupOf(r.purpose)) else b
      case Charge(lane, cpu, note, tally, purpose) => DoCharge(b, lane, cpu, note, tally, purpose, GroupOf(purpose))
  }

  ghost function Run(b: Books, cs: seq<Command>): Books {
    if |cs| == 0 then b else Step(Run(b, cs[..|cs| - 1]), cs[|cs| - 1])
  }

  ghost predicate GenuineRun(b: Books, cs: seq<Command>) {
    |cs| > 0 ==> GenuineRun(b, cs[..|cs| - 1]) && Genuine(Run(b, cs[..|cs| - 1]), cs[|cs| - 1])
  }

  /** No command of the run is refused. */
  ghost predicate EachAccepted(b: Books, cs: seq<Command>) {
    |cs| > 0 ==> EachAccepted(b, cs[..|cs| - 1]) && Check(Run(b, cs[..|cs| - 1]), cs[|cs| - 1]) == None
  }

  // ---------------------------------------------------------------- selected claims

  /** Which open reservations a total is about. */
  datatype Selector = All | OnLane(name: string) | InGroup(group: Group)

  predicate Picks(sel: Selector, r: Reservation) {
    match sel
    case All => true
    case OnLane(l) => r.lane == l
    case InGroup(g) => PurposeClass(r.purpose) == Some(g)
  }

  ghost function Selected(open: map<int, Reservation>, sel: Selector): map<int, Amount> {
    map id | id in open && Picks(sel, open[id]) :: open[id].amount
  }

  /** The reserved amount of the selected open reservations. */
  ghost function Claimed(open: map<int, Reservation>, sel: Selector): Amount {
    Sum(Selected(open, sel))
  }

  lemma {:induction false} ClaimAdd(open: map<int, Reservation>, id: int, r: Reservation, sel: Selector)
    requires id !in open
    ensures Claimed(open[id := r], sel) == Plus(Claimed(open, sel), if Picks(sel, r) then r.amount else ZERO)
  {
    var m, n := Selected(open, sel), Selected(open[id := r], sel);
    if Picks(sel, r) {
      assert n == m[id := r.amount];
      SumSet(m, id, r.amount);
    } else {
      assert n == m;
    }
  }

  lemma {:induction false} ClaimRemove(open: map<int, Reservation>, id: int, sel: Selector)
    requires id in open
    ensures Claimed(open - {id}, sel) ==
            Minus(Claimed(open, sel), if Picks(sel, open[id]) then open[id].amount else ZERO)
  {
    assert open == (open - {id})[id := open[id]];
    ClaimAdd(open - {id}, id, open[id], sel);
  }

  lemma {:induction false} ClaimCovers(open: map<int, Reservation>, id: int, sel: Selector)
    requires forall i | i in open :: NonNegative(open[i].amount)
    requires id in open && Picks(sel, open[id])
    ensures Within(open[id].amount, Claimed(open, sel))
  {
    hide Sum;
    forall j | j in Selected(open, sel) ensures NonNegative(Selected(open, sel)[j]) {
      assert j in open;
    }
    SumCovers(Selected(open, sel), id);
  }

  lemma {:induction false} NoClaims(open: map<int, Reservation>)
    requires open.Keys == {}
    ensures forall sel :: Claimed(open, sel) == ZERO
  {
    forall sel ensures Claimed(open, sel) == ZERO {
      assert Selected(open, sel) == map[];
    }
  }

  /** Every open reservation is in exactly one group, so the four group totals add up to the whole. */
  lemma {:induction false} ClaimsByGroup(open: map<int, Reservation>)
    requires forall i | i in open :: PurposeClass(open[i].purpose).Some?
    ensures Claimed(open, All) ==
            Plus(Plus(Claimed(open, InGroup(Solver)), Claimed(open, InGroup(Verify))),
                 Plus(Claimed(open, InGroup(Refine)), Claimed(open, InGroup(Controller))))
    decreases |open|
  {
    hide Claimed;
    if open.Keys == {} {
      NoClaims(open);
    } else {
      var id := AnyKey(open);
      ClaimsByGroup(open - {id});
      ClaimRemove(open, id, All);
      ClaimRemove(open, id, InGroup(Solver));
      ClaimRemove(open, id, InGroup(Verify));
      ClaimRemove(open, id, InGroup(Refine));
      ClaimRemove(open, id, InGroup(Controller));
    }
  }
}
