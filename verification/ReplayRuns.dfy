/** Replay at every cut of a run, the run behind every accepted journal, and a journal that is refused. */
module ReplayRuns {
  import opened Wrappers
  import opened Amounts
  import opened Budget
  import opened BudgetInvariant
  import opened BudgetBounds
  import opened BudgetInstances
  import opened Replay
  import opened ReplayTheorems

  // ---------------------------------------------------------------- every cut

  /** Every prefix of a run's journal is the whole journal of a prefix of the run. */
  lemma {:induction false} CutIsRun(b: Books, cs: seq<Command>, k: nat) returns (j: nat)
    requires |b.journal| <= k <= |Run(b, cs).journal|
    ensures j <= |cs| && Run(b, cs[..j]).journal == Run(b, cs).journal[..k]
    decreases |cs|
  {
    hide Step;
    if k == |Run(b, cs).journal| {
      j := |cs|;
      assert cs[..|cs|] == cs;
    } else {
      var front, c := cs[..|cs| - 1], cs[|cs| - 1];
      JournalGrows(Run(b, front), c);
      j := CutIsRun(b, front, k);
      assert front[..j] == cs[..j];
      var shorter, longer := Run(b, front).journal, Run(b, cs).journal;
      assert longer[..k] == longer[..|shorter|][..k] == shorter[..k];
    }
  }

  lemma {:induction false} PrefixRuns(b: Books, cs: seq<Command>, j: nat, tol: real)
    requires j <= |cs|
    ensures GenuineRun(b, cs) ==> GenuineRun(b, cs[..j])
    ensures ReplayableRun(b, cs, tol) ==> ReplayableRun(b, cs[..j], tol)
    decreases |cs|
  {
    hide Run, Genuine, Replayable, Check;
    if j == |cs| {
      assert cs[..j] == cs;
    } else {
      PrefixRuns(b, cs[..|cs| - 1], j, tol);
      assert cs[..|cs| - 1][..j] == cs[..j];
    }
  }

  /**
   For a run that meets the guard, replaying any prefix of the journal succeeds and reports exactly the
   accounts the ledger had when the journal was that long.
   */
  lemma {:induction false} ReplayAtEveryCut(env: Envelope, cs: seq<Command>, tol: real, k: nat)
    requires ValidEnvelope(env) && GenuineRun(Opening(env), cs) && ReplayableRun(Opening(env), cs, tol) && tol >= 0.0
    requires k <= |Run(Opening(env), cs).journal|
    ensures exists j: nat :: j <= |cs|
              && Run(Opening(env), cs[..j]).journal == Run(Opening(env), cs).journal[..k]
              && Replay.Replay(Run(Opening(env), cs).journal[..k], AsLimits(env), tol).Ok?
              && Reports(Replay.Replay(Run(Opening(env), cs).journal[..k], AsLimits(env), tol).value,
                         Run(Opening(env), cs[..j]), tol)
  {
    hide Run, GenuineRun, ReplayableRun, BInv, Fold, Summary, Reports, Agrees, AsLimits, ValidEnvelope;
    var j := CutIsRun(Opening(env), cs, k);
    PrefixRuns(Opening(env), cs, j, tol);
    RunReplays(env, cs[..j], tol);
    OpeningKeeps(env);
    RunKeepsBooks(Opening(env), cs[..j]);
    var b := Run(Opening(env), cs[..j]);
    LimitsGood(env);
    AgreementReports(Fold(b.journal, AsLimits(env), tol).value, b, tol);
  }

  lemma {:induction false} LimitsGood(env: Envelope)
    requires ValidEnvelope(env)
    ensures GoodLimits(AsLimits(env))
  {
    hide ValidEnvelope, NonNegative, Cap, Whole;
    CapsNonNegative(env);
  }

  /** Outside the guard the replayer refuses the whole journal, whatever follows. */
  lemma {:induction false} UnguardedRefused(env: Envelope, cs: seq<Command>, tol: real)
    requires ValidEnvelope(env) && GenuineRun(Opening(env), cs) && tol >= 0.0
    ensures Replay.Replay(Run(Opening(env), cs).journal, AsLimits(env), tol).Ok? <==>
            ReplayableRun(Opening(env), cs, tol)
  {
    hide Run, GenuineRun, ReplayableRun, Fold, Summary, AsLimits, ValidEnvelope, GoodLimits;
    RunReplays(env, cs, tol);
    LimitsGood(env);
  }

  // ---------------------------------------------------------------- the run behind a journal

  function RenameRow(row: JournalRow, rho: map<int, int>): JournalRow {
    match row
    case ChargeRow(_, _, _, _, _) => row
    case ReserveRow(n, id, lane, purpose, amount, prov) => ReserveRow(n, NewId(id, rho), lane, purpose, amount, prov)
    case SettleRow(n, id, lane, purpose, declared, actual, cs, gs, prov) =>
      SettleRow(n, NewId(id, rho), lane, purpose, declared, actual, cs, gs, prov)
    case ReleaseRow(n, id, lane, purpose, amount, prov) => ReleaseRow(n, NewId(id, rho), lane, purpose, amount, prov)
  }

  function NewId(id: int, rho: map<int, int>): int { if id in rho then rho[id] else id }

  function Renamed(journal: seq<JournalRow>, rho: map<int, int>): seq<JournalRow> {
    seq(|journal|, i requires 0 <= i < |journal| => RenameRow(journal[i], rho))
  }

  /** Lanes are named and provenance is complete or absent, which the replayer does not test. */
  predicate WellFormedRow(row: JournalRow) {
    match row
    case ReserveRow(_, _, lane, _, _, prov) => lane != "" && CheckProvenance(prov) == None
    case ChargeRow(_, lane, _, _, _) => lane != ""
    case _ => true
  }

  predicate KnownRow(row: JournalRow, used: set<int>) {
    !row.ChargeRow? ==> row.id in used
  }

  ghost predicate Injective(rho: map<int, int>) {
    forall i, j | i in rho && j in rho && i != j :: rho[i] != rho[j]
  }

  /** The books of the constructed run mirror the tape under the renaming. */
  ghost predicate Mirrors(t: Tape, b: Books, rho: map<int, int>) {
    && Agrees(t, b)
    && rho.Keys == t.used && Injective(rho)
    && (forall id | id in rho :: 1 <= rho[id] < b.nextId)
    && (forall id | id in t.open :: id in t.used && rho[id] in b.open && SameTerms(t.open[id], b.open[rho[id]]))
  }

  /** One journal row is explained by one accepted, genuine command. */
  ghost predicate Explains(b: Books, c: Command, row: JournalRow) {
    && Genuine(b, c) && Check(b, c) == None
    && Step(b, c).journal == b.journal + [row]
  }

  lemma {:induction false} CapacityClamped(want: real, room: real)
    requires want <= room + 0.0
    ensures want <= Max(0.0, room)
  {
  }

  lemma {:induction false} MirrorsOpen(t: Tape, b: Books, rho: map<int, int>, q: Reservation, r: Reservation,
      u: Tape, c: Books)
    requires Mirrors(t, b, rho) && Agrees(u, c) && q.id !in t.used && b.nextId >= 1 && b.nextId !in b.open
    requires u.open == t.open[q.id := q] && u.used == t.used + {q.id} && SameTerms(q, r)
    requires c.open == b.open[b.nextId := r] && c.nextId == b.nextId + 1
    ensures Mirrors(u, c, rho[q.id := b.nextId])
  {
    hide Agrees, SameTerms;
  }

  lemma {:induction false} ReserveExplained(t: Tape, b: Books, rho: map<int, int>, row: JournalRow) returns (c: Command)
    requires BInv(b) && Mirrors(t, b, rho) && row.ReserveRow? && WellFormedRow(row)
    requires ReplayRow(t, row, |b.journal| + 1, AsLimits(b.env), 0.0).Ok?
    ensures Explains(b, c, RenameRow(row, rho[row.id := b.nextId]))
    ensures Mirrors(ReplayRow(t, row, |b.journal| + 1, AsLimits(b.env), 0.0).value, Step(b, c), rho[row.id := b.nextId])
  {
    hide Claimed, Committed, Headroom, Room, Max, Plus;
    hide AsLimits, PurposeClass, CheckProvenance, Agrees, AccountOk, GroupOk;
    var g := GroupOf(row.purpose);
    SameRoom(t, b, g);
    CapacityClamped(row.amount.cpu, Headroom(b, g).cpu);
    CapacityClamped(row.amount.gpu, Headroom(b, g).gpu);
    c := Reserve(row.lane, row.purpose, row.amount, row.prov);
    assert CheckReserve(b, row.lane, row.purpose, row.amount, row.prov) == None;
    assert b.nextId in b.open ==> ReservationOk(b, b.nextId);
    var q := Reservation(row.id, row.lane, row.purpose, row.amount, row.prov);
    var r := Reservation(b.nextId, row.lane, row.purpose, row.amount, row.prov);
    var u := ReplayRow(t, row, |b.journal| + 1, AsLimits(b.env), 0.0).value;
    OpenAgrees(t, b, row.id, q, b.nextId, r, u, Step(b, c));
    MirrorsOpen(t, b, rho, q, r, u, Step(b, c));
  }

  lemma {:induction false} CloseToNothing(a: Amount, b: Amount)
    requires CloseTo(a, b, 0.0)
    ensures a == b
  {
  }

  lemma {:induction false} MirrorsClose(t: Tape, b: Books, rho: map<int, int>, id: int, u: Tape, c: Books)
    requires Mirrors(t, b, rho) && id in t.open && Agrees(u, c)
    requires u.open == t.open - {id} && u.used == t.used && c.open == b.open - {rho[id]} && c.nextId == b.nextId
    ensures Mirrors(u, c, rho)
  {
    hide Agrees;
  }

  lemma {:induction false} SettleExplained(t: Tape, b: Books, rho: map<int, int>, row: JournalRow) returns (c: Command)
    requires BInv(b) && Mirrors(t, b, rho) && row.SettleRow?
    requires ReplayRow(t, row, |b.journal| + 1, AsLimits(b.env), 0.0).Ok?
    ensures Explains(b, c, RenameRow(row, rho))
    ensures Mirrors(ReplayRow(t, row, |b.journal| + 1, AsLimits(b.env), 0.0).value, Step(b, c), rho)
  {
    hide Claimed, Committed, Plus, Minus, Clamp, AsLimits, PurposeClass, CheckProvenance, Agrees, CloseTo;
    hide AccountOk, GroupOk, GroupOf, ParseSource, Settled, Book;
    var r := b.open[rho[row.id]];
    assert ReservationOk(b, rho[row.id]);
    CloseToNothing(row.declared, r.amount);
    c := Settle(r, Some(row.actual.cpu), Some(row.actual.gpu), Some(row.cpuSource), Some(row.gpuSource));
    assert Spend(r, c.cpu, c.gpu) == row.actual;
    var g, closed := GroupOf(r.purpose), t.(open := t.open - {row.id});
    var u := Book(closed, r.lane, g, row.actual, 1);
    BookSpends(closed, r.lane, g, row.actual, 1);
    BookKeepsOpen(closed, r.lane, g, row.actual, 1);
    assert Spent(t, u, r.lane, g, row.actual, 1);
    SettleBooks(b, r, row.actual, row.cpuSource, row.gpuSource);
    CloseAgrees(t, b, row.id, r.id, row.actual, 1, u, Step(b, c));
    MirrorsClose(t, b, rho, row.id, u, Step(b, c));
  }

  lemma {:induction false} ReleaseExplained(t: Tape, b: Books, rho: map<int, int>, row: JournalRow) returns (c: Command)
    requires BInv(b) && Mirrors(t, b, rho) && row.ReleaseRow?
    requires ReplayRow(t, row, |b.journal| + 1, AsLimits(b.env), 0.0).Ok?
    ensures Explains(b, c, RenameRow(row, rho))
    ensures Mirrors(ReplayRow(t, row, |b.journal| + 1, AsLimits(b.env), 0.0).value, Step(b, c), rho)
  {
    hide Claimed, Committed, Plus, Minus, Clamp, AsLimits;
    hide PurposeClass, CheckProvenance, Agrees, CloseTo, AccountOk, GroupOk, GroupOf;
    var r := b.open[rho[row.id]];
    assert ReservationOk(b, rho[row.id]);
    CloseToNothing(row.amount, r.amount);
    c := Release(r);
    var u := t.(open := t.open - {row.id});
    ReleaseBooks(t, b, r);
    assert Spent(t, u, r.lane, GroupOf(r.purpose), ZERO, 0);
    CloseAgrees(t, b, row.id, r.id, ZERO, 0, u, Step(b, c));
    MirrorsClose(t, b, rho, row.id, u, Step(b, c));
  }

  lemma {:induction false} ChargeExplained(t: Tape, b: Books, rho: map<int, int>, row: JournalRow) returns (c: Command)
    requires Mirrors(t, b, rho) && row.ChargeRow? && WellFormedRow(row)
    requires ReplayRow(t, row, |b.journal| + 1, AsLimits(b.env), 0.0).Ok?
    ensures Explains(b, c, row)
    ensures Mirrors(ReplayRow(t, row, |b.journal| + 1, AsLimits(b.env), 0.0).value, Step(b, c), rho)
  {
    hide Claimed, Committed, Plus, AsLimits, CheckProvenance, Agrees, Book, PurposeClass;
    c := Charge(row.lane, row.cpu, row.note, row.note, row.purpose);
    var u := Book(t, row.lane, Controller, Amount(row.cpu, 0.0), 0);
    BookSpends(t, row.lane, Controller, Amount(row.cpu, 0.0), 0);
    BookKeepsOpen(t, row.lane, Controller, Amount(row.cpu, 0.0), 0);
    ChargeAgrees(t, b, row.lane, Controller, Amount(row.cpu, 0.0), u, Step(b, c));
  }

  lemma {:induction false} RowExplained(t: Tape, b: Books, rho: map<int, int>, row: JournalRow)
    returns (c: Command, longer: map<int, int>)
    requires BInv(b) && Mirrors(t, b, rho) && WellFormedRow(row)
    requires ReplayRow(t, row, |b.journal| + 1, AsLimits(b.env), 0.0).Ok?
    ensures Explains(b, c, RenameRow(row, longer))
    ensures var u := ReplayRow(t, row, |b.journal| + 1, AsLimits(b.env), 0.0).value;
            Mirrors(u, Step(b, c), longer) && KnownRow(row, u.used) && t.used <= u.used
    ensures forall id | id in rho :: id in longer && longer[id] == rho[id]
  {
    hide BInv, Explains, WellFormedRow, Step, AsLimits, Agrees, PurposeClass, CloseTo, NonNegative, Room, ParseSource;
    longer := rho;
    match row
    case ReserveRow(_, _, _, _, _, _) =>
      c := ReserveExplained(t, b, rho, row);
      longer := rho[row.id := b.nextId];
    case SettleRow(_, _, _, _, _, _, _, _, _) => c := SettleExplained(t, b, rho, row);
    case ReleaseRow(_, _, _, _, _, _) => c := ReleaseExplained(t, b, rho, row);
    case ChargeRow(_, _, _, _, _) => c := ChargeExplained(t, b, rho, row);
  }

  lemma {:induction false} RenamedGrows(journal: seq<JournalRow>, used: set<int>, rho: map<int, int>,
      longer: map<int, int>)
    requires forall i | 0 <= i < |journal| :: KnownRow(journal[i], used)
    requires rho.Keys == used && forall id | id in rho :: id in longer && longer[id] == rho[id]
    ensures Renamed(journal, longer) == Renamed(journal, rho)
  {
    forall i | 0 <= i < |journal| ensures RenameRow(journal[i], longer) == RenameRow(journal[i], rho) {
      assert KnownRow(journal[i], used);
    }
  }

  /** The constructed run reproduces the journal up to the renaming and mirrors the tape. */
  ghost predicate Reproduces(env: Envelope, cs: seq<Command>, journal: seq<JournalRow>, rho: map<int, int>, t: Tape) {
    var b := Run(Opening(env), cs);
    && GenuineRun(Opening(env), cs) && EachAccepted(Opening(env), cs)
    && b.env == env && b.journal == Renamed(journal, rho)
    && Mirrors(t, b, rho)
    && (forall i | 0 <= i < |journal| :: KnownRow(journal[i], t.used))
  }

  lemma {:induction false} OpeningMirrors(env: Envelope)
    ensures Reproduces(env, [], [], map[], BLANK)
  {
    hide Agrees;
    OpeningFollows(env);
    assert Run(Opening(env), []) == Opening(env);
  }

  lemma {:induction false} ExtendRun(env: Envelope, cs: seq<Command>, c: Command)
    requires GenuineRun(Opening(env), cs) && EachAccepted(Opening(env), cs)
    requires Genuine(Run(Opening(env), cs), c) && Check(Run(Opening(env), cs), c) == None
    ensures GenuineRun(Opening(env), cs + [c]) && EachAccepted(Opening(env), cs + [c])
    ensures Run(Opening(env), cs + [c]) == Step(Run(Opening(env), cs), c)
  {
    hide Step, Genuine, Check;
    assert (cs + [c])[..|cs|] == cs;
  }

  /** Every journal the replayer accepts exactly is, up to renaming reservations, the journal of a ledger run. */
  lemma {:induction false} AcceptedIsARun(env: Envelope, journal: seq<JournalRow>)
      returns (cs: seq<Command>, rho: map<int, int>)
    requires ValidEnvelope(env) && forall i | 0 <= i < |journal| :: WellFormedRow(journal[i])
    requires Fold(journal, AsLimits(env), 0.0).Ok?
    ensures Reproduces(env, cs, journal, rho, Fold(journal, AsLimits(env), 0.0).value)
  {
    hide Step, Genuine, Check, BInv, AsLimits, Mirrors, WellFormedRow;
    hide KnownRow, ReplayRow, RenameRow, ValidEnvelope, Run, GenuineRun, EachAccepted;
    if |journal| == 0 {
      cs, rho := [], map[];
      OpeningMirrors(env);
    } else {
      var front, row := journal[..|journal| - 1], journal[|journal| - 1];
      var before, short := AcceptedIsARun(env, front);
      var b, t := Run(Opening(env), before), Fold(front, AsLimits(env), 0.0).value;
      OpeningKeeps(env);
      RunKeepsBooks(Opening(env), before);
      var c;
      c, rho := RowExplained(t, b, short, row);
      cs := before + [c];
      ExtendRun(env, before, c);
      JournalGrows(b, c);
      MirrorsKeys(t, b, short);
      RenamedGrows(front, t.used, short, rho);
      var u := ReplayRow(t, row, |journal|, AsLimits(env), 0.0).value;
      forall i | 0 <= i < |journal| ensures KnownRow(journal[i], u.used) {
        if i < |front| {
          assert journal[i] == front[i];
          KnownGrows(front[i], t.used, u.used);
        }
      }
      assert Renamed(journal, rho) == Renamed(front, rho) + [RenameRow(row, rho)];
    }
  }

  lemma {:induction false} KnownGrows(row: JournalRow, used: set<int>, more: set<int>)
    requires KnownRow(row, used) && used <= more
    ensures KnownRow(row, more)
  {
  }

  lemma {:induction false} MirrorsKeys(t: Tape, b: Books, rho: map<int, int>)
    requires Mirrors(t, b, rho)
    ensures rho.Keys == t.used && Injective(rho) && Agrees(t, b)
  {
  }

  /** The converse of replay: the run behind an accepted journal ends in the accounts the replayer reports. */
  lemma {:induction false} AcceptedEndsAlike(env: Envelope, journal: seq<JournalRow>)
      returns (cs: seq<Command>, rho: map<int, int>)
    requires ValidEnvelope(env) && forall i | 0 <= i < |journal| :: WellFormedRow(journal[i])
    requires Replay.Replay(journal, AsLimits(env), 0.0).Ok?
    ensures GenuineRun(Opening(env), cs) && EachAccepted(Opening(env), cs)
    ensures Run(Opening(env), cs).journal == Renamed(journal, rho) && Injective(rho)
    ensures forall i | 0 <= i < |journal| :: KnownRow(journal[i], rho.Keys)
    ensures Reports(Replay.Replay(journal, AsLimits(env), 0.0).value, Run(Opening(env), cs), 0.0)
  {
    hide Step, Genuine, Check, BInv, AsLimits, Mirrors, WellFormedRow, KnownRow, ReplayRow, RenameRow;
    hide ValidEnvelope, Run, GenuineRun, EachAccepted, Fold, Summary, Reports, GoodLimits, Renamed;
    cs, rho := AcceptedIsARun(env, journal);
    OpeningKeeps(env);
    RunKeepsBooks(Opening(env), cs);
    var t := Fold(journal, AsLimits(env), 0.0).value;
    MirrorsKeys(t, Run(Opening(env), cs), rho);
    AgreementReports(t, Run(Opening(env), cs), 0.0);
  }

  // ---------------------------------------------------------------- a run whose journal is refused

  lemma {:induction false} ZeroAlwaysFits(b: Books, lane: string, purpose: string, zero: Amount, none: Provenance)
    requires lane != "" && PurposeClass(purpose).Some? && Is(zero, 0.0) && none == Provenance(None, None, None)
    ensures CheckReserve(b, lane, purpose, zero, none) == None
  {
    hide Headroom, PurposeClass, Clamp;
    ClampCovers(Headroom(b, PurposeClass(purpose).value));
  }

  lemma {:induction false} OverrunAmount(z: Amount, claim: Amount, spend: Amount, tol: real)
    requires Is(z, 0.0) && Is(claim, 10.0) && Is(spend, 11.0 + tol)
    ensures Is(Plus(Plus(z, claim), Minus(spend, claim)), 11.0 + tol)
  {
    hide Plus, Minus;
    PlusFromZero(z, claim);
    PlusBack(claim, spend);
  }

  lemma {:induction false} PlusBack(a: Amount, b: Amount)
    ensures Plus(a, Minus(b, a)) == b
  {
  }

  lemma {:induction false} Positive(a: Amount, x: real)
    requires Is(a, x) && x >= 0.0
    ensures NonNegative(a)
  {
  }

  /** Claim ten, settle at eleven plus the tolerance: the books are then over by more than the tolerance. */
  lemma {:induction false} Overrun(e: Envelope, lane: string, purpose: string, claim: Amount, spend: Amount,
                                   none: Provenance, src: string, tol: real)
    requires IsTen(e) && lane != "" && PurposeClass(purpose) == Some(Solver) && none == Provenance(None, None, None)
    requires tol >= 0.0 && Is(claim, 10.0) && Is(spend, 11.0 + tol) && ParseSource(src).Some?
    ensures var o, r := Opening(e), Reservation(1, lane, purpose, claim, none);
            var b := DoReserve(o, lane, purpose, Solver, claim, none);
            var d := DoSettle(b, r, Solver, spend, src, src);
            && b.open == map[1 := r] && d.env == e
            && Headroom(d, Solver).cpu < -tol
  {
    hide PurposeClass, Cap, Whole, Clamp, Plus, Minus, Min, Committed, BInv, Claimed, CheckReserve, NonNegative;
    hide Settled, Closes, ParseSource, Headroom;
    var o, r := Opening(e), Reservation(1, lane, purpose, claim, none);
    TenCaps(e);
    OpeningKeeps(e);
    OpeningOffers(e, lane, purpose, claim, none);
    ReserveKeeps(o, lane, purpose, claim, none);
    ReserveCommits(o, lane, purpose, claim, none);
    var b := DoReserve(o, lane, purpose, Solver, claim, none);
    OverrunAmount(ZERO, claim, spend, tol);
    Positive(spend, 11.0 + tol);
    var d := DoSettle(b, r, Solver, spend, src, src);
    SettleCloses(b, r, spend, src, src);
    StoredIsHarmless(b, r);
    CloseKeeps(b, d, r, spend);
    OverHeadroom(d, e, 11.0 + tol);
  }

  lemma {:induction false} OverHeadroom(d: Books, e: Envelope, x: real)
    requires IsTen(e) && d.env == e && Is(Committed(d), x)
    ensures Headroom(d, Solver).cpu <= 10.0 - x
  {
    hide Cap, Whole, Plus, Minus, Min, Committed, Clamp;
    TenCaps(e);
    HeadroomOf(Cap(e, Solver), Whole(e), GroupCommitted(d, Solver), Committed(d), Headroom(d, Solver), x);
  }

  lemma {:induction false} SettleStep(b: Books, r: Reservation, spend: Amount, src: string)
    requires r.id in b.open && b.open[r.id] == r && NonNegative(spend) && ParseSource(src).Some?
    requires r.lane != "" && PurposeClass(r.purpose) == Some(Solver)
    ensures var c := Settle(r, Some(spend.cpu), Some(spend.gpu), Some(src), Some(src));
            Genuine(b, c) && Check(b, c) == None && Step(b, c) == DoSettle(b, r, Solver, spend, src, src)
  {
    hide DoSettle, ParseSource, PurposeClass;
  }

  lemma {:induction false} RunStart(b: Books)
    ensures Run(b, []) == b && GenuineRun(b, []) && EachAccepted(b, [])
  {
  }

  lemma {:induction false} NotReplayable(b: Books, cs: seq<Command>, c: Command, tol: real)
    requires Check(Run(b, cs), c) == None && !Replayable(Run(b, cs), c, tol)
    ensures !ReplayableRun(b, cs + [c], tol)
  {
    hide Check, Replayable, Run;
    assert (cs + [c])[..|cs|] == cs;
  }

  lemma {:induction false} ZeroClaimUnguarded(b: Books, lane: string, purpose: string, zero: Amount,
      none: Provenance, tol: real)
    requires Is(zero, 0.0) && GroupOf(purpose) == Solver && Headroom(b, Solver).cpu < -tol
    ensures !Replayable(b, Reserve(lane, purpose, zero, none), tol)
  {
    hide Headroom, GroupOf;
  }

  /**
   The replayer does not accept every journal the ledger writes: after a settlement overruns the envelope the
   ledger still admits a zero-size reservation, and the replayer refuses it whatever its tolerance.
   */
  lemma {:induction false} ZeroClaimAfterOverrunRefused(e: Envelope, lane: string, purpose: string,
      src: string, tol: real) returns (cs: seq<Command>)
    requires IsTen(e) && lane != "" && PurposeClass(purpose) == Some(Solver) && ParseSource(src).Some? && tol >= 0.0
    ensures ValidEnvelope(e) && GenuineRun(Opening(e), cs) && EachAccepted(Opening(e), cs)
    ensures Replay.Replay(Run(Opening(e), cs).journal, AsLimits(e), tol).Err?
  {
    hide PurposeClass, Committed, BInv, Plus, Minus, Cap, AsLimits, Headroom, CheckReserve, ReplayableRun;
    hide GenuineRun, EachAccepted, Run, ValidEnvelope, DoReserve, DoSettle, Fold, Summary, GoodLimits;
    hide Replayable, IsTen, ParseSource;
    var none := Provenance(None, None, None);
    var claim, spend, zero := Amount(10.0, 0.0), Amount(11.0 + tol, 0.0), Amount(0.0, 0.0);
    var o, r := Opening(e), Reservation(1, lane, purpose, claim, none);
    var b := DoReserve(o, lane, purpose, Solver, claim, none);
    var d := DoSettle(b, r, Solver, spend, src, src);
    TenCaps(e);
    OpeningOffers(e, lane, purpose, claim, none);
    Overrun(e, lane, purpose, claim, spend, none, src, tol);
    Positive(spend, 11.0 + tol);
    var c1 := Reserve(lane, purpose, claim, none);
    var c2 := Settle(r, Some(spend.cpu), Some(spend.gpu), Some(src), Some(src));
    var c3 := Reserve(lane, purpose, zero, none);
    RunStart(o);
    ExtendRun(e, [], c1);
    SettleStep(b, r, spend, src);
    ExtendRun(e, [] + [c1], c2);
    ZeroAlwaysFits(d, lane, purpose, zero, none);
    ExtendRun(e, [] + [c1] + [c2], c3);
    cs := [] + [c1] + [c2] + [c3];
    ZeroClaimUnguarded(d, lane, purpose, zero, none, tol);
    NotReplayable(o, [] + [c1] + [c2], c3, tol);
    UnguardedRefused(e, cs, tol);
  }

  /**
   Nor does it accept a charge that the ledger takes for any purpose but the controller's own: under every valid
   envelope that single command is accepted and its journal refused.
   */
  lemma {:induction false} OtherChargeRefused(e: Envelope, lane: string, purpose: string, cpu: real, note: string,
      tally: string, tol: real) returns (cs: seq<Command>)
    requires ValidEnvelope(e) && lane != "" && cpu >= 0.0 && tol >= 0.0
    requires PurposeClass(purpose).Some? && purpose != "controller"
    ensures cs == [Charge(lane, cpu, note, tally, purpose)]
    ensures GenuineRun(Opening(e), cs) && EachAccepted(Opening(e), cs)
    ensures Replay.Replay(Run(Opening(e), cs).journal, AsLimits(e), tol).Err?
  {
    hide PurposeClass, AsLimits, ReplayableRun, GenuineRun, EachAccepted, Run, ValidEnvelope, Fold, Summary;
    hide GoodLimits, Step;
    var c := Charge(lane, cpu, note, tally, purpose);
    RunStart(Opening(e));
    ExtendRun(e, [], c);
    cs := [] + [c];
    NotReplayable(Opening(e), [], c, tol);
    UnguardedRefused(e, cs, tol);
  }
}
