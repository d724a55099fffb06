/** What the budget operations book, in plain numbers, and what is then available, told from the journal. */
module BudgetAccounts {
  import opened Wrappers
  import opened Amounts
  import opened Budget
  import opened BudgetInvariant

  // ---------------------------------------------------------------- settlements

  /** Component by component: what was measured, or else what was declared. */
  predicate Booked(before: real, after: real, given: Option<real>, declared: real) {
    && (given == None ==> after == before + declared)
    && (given.Some? ==> after == before + given.value)
  }

  predicate BookedBoth(before: Amount, after: Amount, cpu: Option<real>, gpu: Option<real>, declared: Amount) {
    Booked(before.cpu, after.cpu, cpu, declared.cpu) && Booked(before.gpu, after.gpu, gpu, declared.gpu)
  }

  /** Settling the stored reservation spends, on its lane and group only, what was measured or else declared. */
  lemma {:induction false} SettleSpends(b: Books, c: Command)
    requires BInv(b) && c.Settle? && Genuine(b, c) && Check(b, c) == None
    ensures var r, d := c.r, Step(b, c);
            && BookedBoth(Account(b.lanes, r.lane).spent, Account(d.lanes, r.lane).spent, c.cpu, c.gpu, r.amount)
            && BookedBoth(Get(b.spent, GroupOf(r.purpose)), Get(d.spent, GroupOf(r.purpose)), c.cpu, c.gpu, r.amount)
            && (forall l | l != r.lane :: Account(d.lanes, l) == Account(b.lanes, l))
            && (forall g | g != GroupOf(r.purpose) :: Get(d.spent, g) == Get(b.spent, g))
  {
    hide BInv, GroupOf, ParseSource, CheckFields, Attributed;
    AttributedSpent(c);
  }

  lemma {:induction false} AttributedSpent(c: Command)
    ensures forall a: LaneAccount, spend: Amount, x: Source, y: Source ::
              Attributed(a, spend, x, y).spent == a.spent && Attributed(a, spend, x, y).declared == a.declared
              && Attributed(a, spend, x, y).reserved == a.reserved
  {
  }

  lemma {:induction false} CommittedGrows(b: Books, c: Command)
    requires BInv(b) && c.Settle? && Genuine(b, c) && Check(b, c) == None
    ensures Committed(Step(b, c)) == Plus(Committed(b), Minus(Spend(c.r, c.cpu, c.gpu), c.r.amount))
  {
    hide BInv, DoSettle, Closes, CheckFields, Harmless, Committed, ParseSource, GroupOf;
    hide Plus, Minus, NonNegative, Spend;
    StoredIsHarmless(b, c.r);
    SettledSpend(b, c.r, c.cpu, c.gpu);
    SettleCloses(b, c.r, Spend(c.r, c.cpu, c.gpu), SourceName(c.cpuSource, c.cpu), SourceName(c.gpuSource, c.gpu));
    CloseKeeps(b, Step(b, c), c.r, Spend(c.r, c.cpu, c.gpu));
  }

  /** The total moves by exactly what was measured beyond, or short of, the declaration; unmeasured, not at all. */
  predicate Moves(before: real, after: real, given: Option<real>, declared: real) {
    && (given == None ==> after == before)
    && (given.Some? ==> after == before + (given.value - declared))
  }

  predicate MovesBoth(before: Amount, after: Amount, cpu: Option<real>, gpu: Option<real>, declared: Amount) {
    Moves(before.cpu, after.cpu, cpu, declared.cpu) && Moves(before.gpu, after.gpu, gpu, declared.gpu)
  }

  lemma {:induction false} SpendMoves(before: Amount, after: Amount, r: Reservation, cpu: Option<real>,
      gpu: Option<real>)
    requires after == Plus(before, Minus(Spend(r, cpu, gpu), r.amount))
    ensures MovesBoth(before, after, cpu, gpu, r.amount)
  {
  }

  lemma {:induction false} GroupMoves(b: Books, c: Command, g: Group)
    requires BInv(b) && c.Settle? && Genuine(b, c) && Check(b, c) == None
    ensures var r, d := c.r, Step(b, c);
            if g == GroupOf(r.purpose)
            then MovesBoth(GroupCommitted(b, g), GroupCommitted(d, g), c.cpu, c.gpu, r.amount)
            else GroupCommitted(d, g) == GroupCommitted(b, g)
  {
    hide BInv, GroupOf, ParseSource, CheckFields, Settled, Clamp, Plus, Minus, Claimed, MovesBoth, Spend, SourceName;
    ClampNeverBites(b, c.r);
    var spend := Spend(c.r, c.cpu, c.gpu);
    Regroup(Get(b.reserved, g), c.r.amount, Get(b.spent, g), spend);
    if g == GroupOf(c.r.purpose) {
      SpendMoves(GroupCommitted(b, g), GroupCommitted(Step(b, c), g), c.r, c.cpu, c.gpu);
    }
  }

  lemma {:induction false} Regroup(reserved: Amount, amount: Amount, spent: Amount, spend: Amount)
    ensures Plus(Minus(reserved, amount), Plus(spent, spend)) == Plus(Plus(reserved, spent), Minus(spend, amount))
  {
  }

  /** A settlement moves the committed total, and its group's, by what was measured less what was declared. */
  lemma {:induction false} SettleCommits(b: Books, c: Command)
    requires BInv(b) && c.Settle? && Genuine(b, c) && Check(b, c) == None
    ensures var r, d := c.r, Step(b, c);
            var mine := GroupOf(r.purpose);
            && MovesBoth(Committed(b), Committed(d), c.cpu, c.gpu, r.amount)
            && MovesBoth(GroupCommitted(b, mine), GroupCommitted(d, mine), c.cpu, c.gpu, r.amount)
            && (forall g | g != mine :: GroupCommitted(d, g) == GroupCommitted(b, g))
  {
    hide BInv, GroupOf, Step, Check, Genuine, GroupCommitted, MovesBoth, Committed;
    CommittedGrows(b, c);
    SpendMoves(Committed(b), Committed(Step(b, c)), c.r, c.cpu, c.gpu);
    forall g ensures if g == GroupOf(c.r.purpose)
                     then MovesBoth(GroupCommitted(b, g), GroupCommitted(Step(b, c), g), c.cpu, c.gpu, c.r.amount)
                     else GroupCommitted(Step(b, c), g) == GroupCommitted(b, g) {
      GroupMoves(b, c, g);
    }
  }

  /** With nothing measured a settlement frees nothing: what is available to every group stays as it was. */
  lemma {:induction false} UnmeasuredFreesNothing(b: Books, c: Command, g: Group)
    requires BInv(b) && c.Settle? && Genuine(b, c) && Check(b, c) == None && c.cpu == c.gpu == None
    ensures Committed(Step(b, c)) == Committed(b) && Available(Step(b, c), g) == Available(b, g)
  {
    hide BInv, GroupOf, Check, Genuine, GroupCommitted, Committed, Cap, Whole, DoSettle, ParseSource, Clamp, Min, Minus;
    SettleCommits(b, c);
    SameAmount(Committed(b), Committed(Step(b, c)), c.r.amount);
    if g == GroupOf(c.r.purpose) {
      SameAmount(GroupCommitted(b, g), GroupCommitted(Step(b, c), g), c.r.amount);
    }
    StepEnv(b, c);
  }

  lemma {:induction false} SameAmount(before: Amount, after: Amount, declared: Amount)
    requires MovesBoth(before, after, None, None, declared)
    ensures before == after
  {
  }

  lemma {:induction false} StepEnv(b: Books, c: Command)
    ensures Step(b, c).env == b.env
  {
    hide CheckReserve, ParseSource, GroupOf, CheckCharge, Settled, Clamp, Plus, Minus, NonNegative, Available;
  }

  // ---------------------------------------------------------------- where a settlement is attributed

  /** The name under which a component was settled: the caller's, or the one that goes with what was measured. */
  predicate NamedAs(given: Option<string>, actual: Option<real>, name: string) {
    match given
    case Some(n) => n == name
    case None => name == (if actual == None then "declared_fallback" else "estimated_fallback")
  }

  predicate Gains(before: real, after: real, mine: bool, spent: real) {
    after == before + (if mine then spent else 0.0)
  }

  /** One component of an account: the spend lands under its source's name and nowhere else. */
  predicate Attribution(given: Option<string>, actual: Option<real>, spent: real, measured: (real, real),
      estimated: (real, real), fallback: (real, real)) {
    && Gains(measured.0, measured.1, NamedAs(given, actual, "measured"), spent)
    && Gains(estimated.0, estimated.1, NamedAs(given, actual, "estimated_fallback"), spent)
    && Gains(fallback.0, fallback.1, NamedAs(given, actual, "declared_fallback"), spent)
  }

  function Actual(given: Option<real>, declared: real): real {
    match given case Some(x) => x case None => declared
  }

  predicate CountsOne(before: nat, after: nat, mine: bool) { after == before + (if mine then 1 else 0) }

  lemma {:induction false} SourceTexts(s: string)
    ensures ParseSource(s) == Some(Measured) <==> s == "measured"
    ensures ParseSource(s) == Some(Estimated) <==> s == "estimated_fallback"
    ensures ParseSource(s) == Some(Fallback) <==> s == "declared_fallback"
    ensures ParseSource(s) == None <==> s !in {"measured", "estimated_fallback", "declared_fallback"}
  {
    assert "measured"[0] != "estimated_fallback"[0] && "measured"[0] != "declared_fallback"[0];
    assert "estimated_fallback"[0] != "declared_fallback"[0];
  }

  lemma {:induction false} AttributedParts(a: LaneAccount, spend: Amount, x: Source, y: Source)
    ensures var n := Attributed(a, spend, x, y);
            && Gains(a.measured.cpu, n.measured.cpu, x == Measured, spend.cpu)
            && Gains(a.estimated.cpu, n.estimated.cpu, x == Estimated, spend.cpu)
            && Gains(a.fallback.cpu, n.fallback.cpu, x == Fallback, spend.cpu)
            && Gains(a.measured.gpu, n.measured.gpu, y == Measured, spend.gpu)
            && Gains(a.estimated.gpu, n.estimated.gpu, y == Estimated, spend.gpu)
            && Gains(a.fallback.gpu, n.fallback.gpu, y == Fallback, spend.gpu)
            && CountsOne(a.measuredSettlements, n.measuredSettlements, x == Measured)
            && CountsOne(a.estimatedSettlements, n.estimatedSettlements, x == Estimated)
            && CountsOne(a.fallbackSettlements, n.fallbackSettlements, x == Fallback)
            && n.settlements == a.settlements && n.work == a.work && n.declared == a.declared
  {
  }

  /** A settlement is attributed, component by component, to the source named for it; the CPU's source is counted. */
  lemma {:induction false} SettleAttributes(b: Books, c: Command)
    requires BInv(b) && c.Settle? && Genuine(b, c) && Check(b, c) == None
    ensures var a, n := Account(b.lanes, c.r.lane), Account(Step(b, c).lanes, c.r.lane);
            && Attribution(c.cpuSource, c.cpu, Actual(c.cpu, c.r.amount.cpu), (a.measured.cpu, n.measured.cpu),
                           (a.estimated.cpu, n.estimated.cpu), (a.fallback.cpu, n.fallback.cpu))
            && Attribution(c.gpuSource, c.gpu, Actual(c.gpu, c.r.amount.gpu), (a.measured.gpu, n.measured.gpu),
                           (a.estimated.gpu, n.estimated.gpu), (a.fallback.gpu, n.fallback.gpu))
            && CountsOne(a.measuredSettlements, n.measuredSettlements, NamedAs(c.cpuSource, c.cpu, "measured"))
            && CountsOne(a.estimatedSettlements, n.estimatedSettlements,
                         NamedAs(c.cpuSource, c.cpu, "estimated_fallback"))
            && CountsOne(a.fallbackSettlements, n.fallbackSettlements,
                         NamedAs(c.cpuSource, c.cpu, "declared_fallback"))
            && n.settlements == a.settlements + 1 && n.work == a.work
            && n.declared.cpu == a.declared.cpu + c.r.amount.cpu && n.declared.gpu == a.declared.gpu + c.r.amount.gpu
  {
    hide BInv, GroupOf, ParseSource, CheckFields, Attributed, Gains, CountsOne;
    var r := c.r;
    var a := Account(b.lanes, r.lane);
    var x, y := SourceName(c.cpuSource, c.cpu), SourceName(c.gpuSource, c.gpu);
    SourceTexts(x);
    SourceTexts(y);
    var mid := a.(reserved := Clamp(Minus(a.reserved, r.amount)), declared := Plus(a.declared, r.amount),
                  spent := Plus(a.spent, Spend(r, c.cpu, c.gpu)), settlements := a.settlements + 1);
    AttributedParts(mid, Spend(r, c.cpu, c.gpu), ParseSource(x).value, ParseSource(y).value);
  }

  /** The journal keeps what was declared, what was spent and under which names. */
  lemma {:induction false} SettleJournals(b: Books, c: Command)
    requires c.Settle? && Check(b, c) == None
    ensures var r, d := c.r, Step(b, c);
            && |d.journal| == |b.journal| + 1 && d.journal[..|b.journal|] == b.journal
            && var row := d.journal[|b.journal|];
               && row.SettleRow? && row.sequence == |d.journal|
               && row.id == r.id && row.lane == r.lane && row.purpose == r.purpose && row.prov == r.prov
               && row.declared == r.amount
               && row.actual == Amount(Actual(c.cpu, r.amount.cpu), Actual(c.gpu, r.amount.gpu))
               && NamedAs(c.cpuSource, c.cpu, row.cpuSource) && NamedAs(c.gpuSource, c.gpu, row.gpuSource)
  {
    hide GroupOf, ParseSource, CheckFields, Settled, Clamp, Plus, Minus;
  }

  /** When a settlement is accepted, for any object. */
  lemma {:induction false} SettleIff(b: Books, c: Command)
    requires c.Settle?
    ensures Check(b, c) == None <==>
              && (c.cpu.Some? ==> c.cpu.value >= 0.0) && (c.gpu.Some? ==> c.gpu.value >= 0.0)
              && (c.cpuSource.Some? ==> c.cpuSource.value in {"measured", "estimated_fallback", "declared_fallback"})
              && (c.gpuSource.Some? ==> c.gpuSource.value in {"measured", "estimated_fallback", "declared_fallback"})
              && c.r.id in b.open && c.r.lane != ""
              && c.r.purpose in {"solver", "anchor", "verify", "refine", "controller"}
  {
    hide ParseSource;
    SourceTexts(SourceName(c.cpuSource, c.cpu));
    SourceTexts(SourceName(c.gpuSource, c.gpu));
  }

  /** A release is accepted for any object that is not open, or names a lane and a known purpose. */
  lemma {:induction false} ReleaseIff(b: Books, r: Reservation)
    ensures Check(b, Release(r)) == None <==>
              r.id !in b.open || (r.lane != "" && r.purpose in {"solver", "anchor", "verify", "refine", "controller"})
  {
  }

  /** A charge is accepted exactly for a non-negative time, a known purpose and a named lane. */
  lemma {:induction false} ChargeIff(b: Books, c: Command)
    requires c.Charge?
    ensures Check(b, c) == None <==>
              && c.chargeCpu >= 0.0 && c.lane != ""
              && c.purpose in {"solver", "anchor", "verify", "refine", "controller"}
  {
  }

  /** A charge spends its CPU time on its own lane and group, reserves and frees nothing, and is journalled. */
  lemma {:induction false} ChargeSpends(b: Books, c: Command, lane: string, g: Group)
    requires c.Charge? && Check(b, c) == None
    ensures var d := Step(b, c);
            var before, after := Account(b.lanes, lane), Account(d.lanes, lane);
            && Gains(before.spent.cpu, after.spent.cpu, lane == c.lane, c.chargeCpu)
            && Gains(Get(b.spent, g).cpu, Get(d.spent, g).cpu, g == GroupOf(c.purpose), c.chargeCpu)
            && after.spent.gpu == before.spent.gpu && Get(d.spent, g).gpu == Get(b.spent, g).gpu
            && after.reserved == before.reserved && after.settlements == before.settlements
            && d.open == b.open && d.reserved == b.reserved && d.denials == b.denials
            && d.journal == b.journal + [ChargeRow(|b.journal| + 1, c.lane, c.purpose, c.chargeCpu, c.note)]
  {
    hide PurposeClass, Tally;
  }

  // ---------------------------------------------------------------- reservations

  predicate IsHex64(s: string) {
    |s| == 64 && forall i | 0 <= i < 64 :: '0' <= s[i] <= '9' || 'a' <= s[i] <= 'f'
  }

  lemma {:induction false} DigestIsHex(s: string)
    ensures IsDigest(s) <==> IsHex64(s)
  {
    forall c: char ensures c in "0123456789abcdef" <==> '0' <= c <= '9' || 'a' <= c <= 'f' { HexDigit(c); }
  }

  lemma {:induction false} HexDigit(c: char)
    ensures c in "0123456789abcdef" <==> '0' <= c <= '9' || 'a' <= c <= 'f'
  {
    var h := "0123456789abcdef";
    if '0' <= c <= '9' { assert h[c as int - '0' as int] == c; }
    if 'a' <= c <= 'f' { assert h[10 + c as int - 'a' as int] == c; }
  }

  predicate NoProvenance(p: Provenance) { p.grant == p.profile == p.digest == None }

  predicate FullProvenance(p: Provenance) {
    && p.grant.Some? && IsHex64(p.grant.value) && p.profile.Some? && p.profile.value != ""
    && p.digest.Some? && IsHex64(p.digest.value)
  }

  /** When a reservation is accepted. */
  lemma {:induction false} ReserveIff(b: Books, c: Command)
    requires c.Reserve?
    ensures Check(b, c) == None <==>
              && c.want.cpu >= 0.0 && c.want.gpu >= 0.0 && (NoProvenance(c.prov) || FullProvenance(c.prov))
              && c.lane != "" && c.purpose in {"solver", "anchor", "verify", "refine", "controller"}
              && c.want.cpu <= Available(b, GroupOf(c.purpose)).cpu
              && c.want.gpu <= Available(b, GroupOf(c.purpose)).gpu
  {
    hide Available, IsDigest, IsHex64;
    if c.prov.grant.Some? { DigestIsHex(c.prov.grant.value); }
    if c.prov.digest.Some? { DigestIsHex(c.prov.digest.value); }
  }

  /** A refused reservation leaves a denial exactly when capacity is what was short, whatever the lane. */
  lemma {:induction false} DenialIff(b: Books, c: Command)
    requires c.Reserve? && Check(b, c).Some?
    ensures var room, d := Available(b, GroupOf(c.purpose)), Step(b, c);
            var sound := c.want.cpu >= 0.0 && c.want.gpu >= 0.0 && (NoProvenance(c.prov) || FullProvenance(c.prov))
                         && c.purpose in {"solver", "anchor", "verify", "refine", "controller"};
            && d == b.(denials := d.denials)
            && d.denials ==
               if sound && c.want.cpu > room.cpu then
                 b.denials + [Denial(c.lane, c.purpose, c.want.cpu, room.cpu, false)]
               else if sound && c.want.gpu > room.gpu then
                 b.denials + [Denial(c.lane, c.purpose, c.want.gpu, room.gpu, true)]
               else b.denials
  {
    hide Available, IsDigest, IsHex64;
    if c.prov.grant.Some? { DigestIsHex(c.prov.grant.value); }
    if c.prov.digest.Some? { DigestIsHex(c.prov.digest.value); }
  }

  ghost predicate SameMoney(b: Books, d: Books) {
    && d.open == b.open && d.env == b.env && d.denials == b.denials
    && (forall g :: Get(d.reserved, g) == Get(b.reserved, g) && Get(d.spent, g) == Get(b.spent, g))
    && (forall l :: Account(d.lanes, l) == Account(b.lanes, l))
  }

  lemma {:induction false} ReserveOpensIt(b: Books, c: Command)
    requires BInv(b) && c.Reserve? && Check(b, c) == None
    ensures var d, r := Step(b, c), Reservation(b.nextId, c.lane, c.purpose, c.want, c.prov);
            var a := Account(b.lanes, c.lane);
            && b.nextId !in b.open && d.open == b.open[b.nextId := r] && d.nextId == b.nextId + 1 && d.env == b.env
            && d.denials == b.denials && d.spent == b.spent
            && d.reserved == b.reserved[GroupOf(c.purpose) := Plus(Get(b.reserved, GroupOf(c.purpose)), c.want)]
            && d.lanes == b.lanes[c.lane := a.(reserved := Plus(a.reserved, c.want))]
            && NonNegative(c.want)
  {
    hide CheckProvenance, Available, PurposeClass, Plus, AccountOk, GroupOk, ValidEnvelope, Committed, Claimed;
    assert b.nextId in b.open ==> ReservationOk(b, b.nextId);
  }

  lemma {:induction false} PlusMinus(a: Amount, x: Amount)
    ensures Minus(Plus(a, x), x) == a
  {
  }

  /** Releasing what was just reserved puts every account, claim and capacity back. */
  lemma {:induction false} ReleaseUndoesReserve(b: Books, c: Command)
    requires BInv(b) && c.Reserve? && Check(b, c) == None
    ensures var d, r := Step(b, c), Reservation(b.nextId, c.lane, c.purpose, c.want, c.prov);
            && r.id in d.open && d.open[r.id] == r && Check(d, Release(r)) == None
            && SameMoney(b, Step(d, Release(r)))
  {
    hide BInv, Clamp, Plus, Minus, CheckReserve, DoReserve, CheckFields, PurposeClass, GroupOf, Claimed;
    var d, r := Step(b, c), Reservation(b.nextId, c.lane, c.purpose, c.want, c.prov);
    ReserveOpensIt(b, c);
    StepKeepsBooks(b, c);
    StoredFieldsPass(d, r);
    ClampNeverBites(d, r);
    PlusMinus(Account(b.lanes, c.lane).reserved, c.want);
    PlusMinus(Get(b.reserved, GroupOf(c.purpose)), c.want);
    assert d.open - {r.id} == b.open;
  }

  // ---------------------------------------------------------------- native-work counters

  function Counter(work: map<string, real>, name: string): real { if name in work then work[name] else 0.0 }

  /** What the accepted charges of a run credit to one counter of one lane. */
  ghost function Credited(b: Books, cs: seq<Command>, lane: string, name: string): real {
    if |cs| == 0 then 0.0
    else
      var c := cs[|cs| - 1];
      Credited(b, cs[..|cs| - 1], lane, name)
      + (if c.Charge? && c.lane == lane && c.tally == name && Check(Run(b, cs[..|cs| - 1]), c) == None
         then c.chargeCpu else 0.0)
  }

  /** A counter holds what was charged to it, and nothing else moves it. */
  lemma {:induction false} CountersAddUp(b: Books, cs: seq<Command>, lane: string, name: string)
    requires name != ""
    ensures Counter(Account(Run(b, cs).lanes, lane).work, name) ==
            Counter(Account(b.lanes, lane).work, name) + Credited(b, cs, lane, name)
  {
    hide Step, Check;
    if |cs| > 0 {
      CountersAddUp(b, cs[..|cs| - 1], lane, name);
      StepCounts(Run(b, cs[..|cs| - 1]), cs[|cs| - 1], lane, name);
    }
  }

  lemma {:induction false} StepCounts(b: Books, c: Command, lane: string, name: string)
    requires name != ""
    ensures Counter(Account(Step(b, c).lanes, lane).work, name) ==
            Counter(Account(b.lanes, lane).work, name)
            + (if c.Charge? && c.lane == lane && c.tally == name && Check(b, c) == None then c.chargeCpu else 0.0)
  {
    hide CheckReserve, CheckFields, PurposeClass, ParseSource, GroupOf, Clamp, Plus, Minus, Available;
    if c.Settle? && Check(b, c) == None { AttributedWork(b, c); }
  }

  lemma {:induction false} AttributedWork(b: Books, c: Command)
    requires c.Settle? && Check(b, c) == None
    ensures forall l :: Account(Step(b, c).lanes, l).work == Account(b.lanes, l).work
  {
    hide CheckFields, PurposeClass, ParseSource, GroupOf, Clamp, Plus, Minus;
  }
}
