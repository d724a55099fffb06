/** What every accepted clock plan guarantees, over one move and over a whole game. */
module ClockSafety {
  import opened Wrappers
  import opened Position
  import opened Budget
  import opened Envelopes
  import opened TimePlan
  import Amounts

  // ---------------------------------------------------------------- one plan

  /** The parts of a plan add up inside the clock it was offered. */
  ghost predicate SafePlan(p: Plan, s: Settings) {
    && p.soft >= 1
    && p.soft + s.stopGrace + s.outputMargin == p.hard
    && p.hard + p.offer.reserve <= p.offer.available
    && p.hard <= s.maxMove && p.hard as real <= p.declared.wall
    && 0 <= p.prepare <= s.prepareBudget && 4 * p.prepare <= p.soft
    && p.settings == s
  }

  lemma {:induction false} FloorBelow(x: real)
    ensures x.Floor as real <= x < x.Floor as real + 1.0
  {
  }

  lemma {:induction false} PlanIsSafe(side: string, o: Offer, roots: seq<string>, s: Settings, e: Envelope,
      received: real)
    requires ValidSettings(s) && ValidEnvelope(e) && Budgeted(side, o, roots, s, e, received).Ok?
    ensures var p := Budgeted(side, o, roots, s, e, received).value;
            && SafePlan(p, s) && p.offer == o && p.roots == roots && p.anchor == AnchorCommand(p.soft, roots)
            && p.hard == Hard(o, s, e.wall)
            && BoundedForMove(e, p.hard, s.cpuParallelism) == Ok(p.envelope)
            && ValidEnvelope(p.envelope) && PositiveCpuOnly(p.envelope) && p.envelope.wall == p.hard as real
            && p.envelope.cpu == Amounts.Min(e.cpu, Spread(p.hard as real, s.cpuParallelism as real))
  {
    hide ValidEnvelope, BoundedForMove, Spread, AnchorCommand, PositiveCpuOnly;
    var p := Budgeted(side, o, roots, s, e, received).value;
    FloorBelow(e.wall);
    BoundedAccepted(e, p.hard, s.cpuParallelism);
  }

  /**
   An offer becomes a plan exactly when it, the settings' cap and the envelope each leave at least one whole
   millisecond of search beside the stop and output margins, on a CPU-only envelope.
   */
  lemma {:induction false} AcceptedIff(side: string, values: map<string, int>, roots: seq<string>, s: Settings,
      e: Envelope, received: real)
    requires ValidSettings(s) && ValidEnvelope(e) && Offered(side, values, s).Ok?
    ensures var o, margins := Offered(side, values, s).value, s.stopGrace + s.outputMargin;
            Budgeted(side, o, roots, s, e, received).Ok? <==>
              && o.available - o.reserve > margins
              && (o.kind == Clock ==>
                    Share(IntMax(0, o.available - o.reserve), Horizon(o.movesToGo, s), s.incrementFraction,
                          o.increment) >= 1)
              && e.wall.Floor > margins
              && e.cpu > 0.0 && e.gpu == 0.0
  {
    hide ValidEnvelope, BoundedForMove, Spread, AnchorCommand, Share, OnlyMovetime, BothClocks;
    var o := Offered(side, values, s).value;
    var hard := Hard(o, s, e.wall);
    FloorBelow(e.wall);
    if hard > s.stopGrace + s.outputMargin {
      BoundedAccepted(e, hard, s.cpuParallelism);
      PositiveProduct(hard as real, s.cpuParallelism as real);
    }
  }

  // ---------------------------------------------------------------- more time never hurts

  lemma {:induction false} FloorGrows(x: real, y: real)
    requires x <= y
    ensures x.Floor <= y.Floor
  {
  }

  lemma {:induction false} DivideGrows(a: real, b: real, h: real)
    requires a <= b && h > 0.0
    ensures a / h <= b / h
  {
    Scale(a, b, 1.0 / h);
    assert a * (1.0 / h) == a / h && b * (1.0 / h) == b / h;
  }

  lemma {:induction false} ShareGrows(a: int, b: int, horizon: int, fraction: real, increment: int)
    requires a <= b && horizon > 0
    ensures Share(a, horizon, fraction, increment) <= Share(b, horizon, fraction, increment)
  {
    DivideGrows(a as real, b as real, horizon as real);
    FloorGrows(a as real / horizon as real + fraction * increment as real,
               b as real / horizon as real + fraction * increment as real);
  }

  /** The limit that holds the time this move may draw on. */
  function OwnTime(side: string, values: map<string, int>): string {
    if OnlyMovetime(values) then "movetime" else ClockOf(side)
  }

  lemma {:induction false} MoreIsOffered(side: string, values: map<string, int>, more: int, s: Settings)
    requires ValidSettings(s) && Offered(side, values, s).Ok?
    requires OwnTime(side, values) in values && more >= values[OwnTime(side, values)]
    ensures var o, richer := Offered(side, values, s).value, Offered(side, values[OwnTime(side, values) := more], s);
            && richer.Ok? && richer.value.kind == o.kind && richer.value.reserve == o.reserve
            && richer.value.available == more >= o.available && richer.value.desired >= o.desired
  {
    hide Share;
    var own := OwnTime(side, values);
    var values' := values[own := more];
    assert values'.Keys == values.Keys;
    if OnlyMovetime(values) {
    } else {
      var o := Offered(side, values, s).value;
      ShareGrows(IntMax(0, o.available - s.networkReserve), IntMax(0, more - s.networkReserve), Horizon(o.movesToGo, s),
                 s.incrementFraction, o.increment);
    }
  }

  /** With more time on the clock an accepted request stays accepted and its hard budget does not shrink. */
  lemma {:induction false} MoreClockNeverHurts(command: string, richer: string, position: PositionRequest,
      generation: int,
                                               s: Settings, e: Envelope, received: real, cpuStarted: int)
    requires ValidSettings(s) && ValidEnvelope(e)
    requires MakePlan(command, position, generation, s, e, received, cpuStarted).Ok?
    requires ReadLimits(command).Ok? && ReadLimits(richer).Ok? && SideToMove(position).Some?
    requires var values := ReadLimits(command).value.values;
             var own := OwnTime(SideToMove(position).value, values);
             own in values && own in ReadLimits(richer).value.values
             && ReadLimits(richer).value.values[own] >= values[own]
             && ReadLimits(richer).value.values == values[own := ReadLimits(richer).value.values[own]]
    ensures MakePlan(richer, position, generation, s, e, received, cpuStarted).Ok?
    ensures MakePlan(richer, position, generation, s, e, received, cpuStarted).value.hard
            >= MakePlan(command, position, generation, s, e, received, cpuStarted).value.hard
  {
    hide ReadLimits, SideToMove, ValidEnvelope, Budgeted, Offered, OwnTime;
    var side := SideToMove(position).value;
    var limits, limits' := ReadLimits(command).value, ReadLimits(richer).value;
    MoreIsOffered(side, limits.values, limits'.values[OwnTime(side, limits.values)], s);
    BiggerOffer(side, Offered(side, limits.values, s).value, Offered(side, limits'.values, s).value,
                limits.roots, limits'.roots, s, e, received);
  }

  lemma {:induction false} BiggerOffer(side: string, o: Offer, o': Offer, roots: seq<string>,
      roots': seq<string>, s: Settings, e: Envelope, received: real)
    requires ValidSettings(s) && ValidEnvelope(e) && Budgeted(side, o, roots, s, e, received).Ok?
    requires o'.reserve == o.reserve && o'.available >= o.available && o'.desired >= o.desired
    ensures Budgeted(side, o', roots', s, e, received).Ok?
    ensures Budgeted(side, o', roots', s, e, received).value.hard >= Budgeted(side, o, roots, s, e, received).value.hard
  {
    hide ValidEnvelope, BoundedForMove, Spread, AnchorCommand;
    var hard' := Hard(o', s, e.wall);
    BoundedAccepted(e, hard', s.cpuParallelism);
    PositiveProduct(hard' as real, s.cpuParallelism as real);
  }

  // ---------------------------------------------------------------- the whole game

  /** One move on the clock: what was asked, how much was used, and what was credited afterwards. */
  datatype Turn = Turn(command: string, position: PositionRequest, generation: int, envelope: Envelope,
                       received: real, cpuStarted: int, used: int, credited: nat)

  /** The move was planned from the clock as it stood and used at most the hard budget and the network reserve. */
  ghost predicate OnClock(t: Turn, clock: int, s: Settings)
    requires ValidSettings(s)
  {
    && ValidEnvelope(t.envelope)
    && var r := MakePlan(t.command, t.position, t.generation, s, t.envelope, t.received, t.cpuStarted);
    && r.Ok? && r.value.offer.kind == Clock && r.value.offer.available == clock
    && 0 <= t.used <= r.value.hard + r.value.offer.reserve
  }

  function ClockAfter(clock: int, turns: seq<Turn>): int {
    if |turns| == 0 then clock
    else ClockAfter(clock, turns[..|turns| - 1]) - turns[|turns| - 1].used + turns[|turns| - 1].credited
  }

  ghost predicate Played(clock: int, turns: seq<Turn>, s: Settings)
    requires ValidSettings(s)
  {
    |turns| > 0 ==>
      && Played(clock, turns[..|turns| - 1], s)
      && OnClock(turns[|turns| - 1], ClockAfter(clock, turns[..|turns| - 1]), s)
  }

  lemma {:induction false} TurnKeepsTime(t: Turn, clock: int, s: Settings)
    requires ValidSettings(s) && OnClock(t, clock, s)
    ensures clock - t.used >= 0
  {
    hide ReadLimits, SideToMove, ValidEnvelope, Budgeted, Offered, SafePlan;
    var side := SideToMove(t.position).value;
    var limits := ReadLimits(t.command).value;
    var o := Offered(side, limits.values, s).value;
    PlanIsSafe(side, o, limits.roots, s, t.envelope, t.received);
    PlanSpends(Budgeted(side, o, limits.roots, s, t.envelope, t.received).value, s);
  }

  lemma {:induction false} PlanSpends(p: Plan, s: Settings)
    requires SafePlan(p, s)
    ensures p.hard + p.offer.reserve <= p.offer.available
  {
  }

  /** However many moves are played within their plans, the flag never falls, not even before the increment arrives. */
  lemma {:induction false} FlagNeverFalls(clock: int, turns: seq<Turn>, s: Settings, k: nat)
    requires ValidSettings(s) && clock >= 0 && Played(clock, turns, s) && k <= |turns|
    ensures ClockAfter(clock, turns[..k]) >= 0
    ensures k < |turns| ==> ClockAfter(clock, turns[..k]) - turns[k].used >= 0
    decreases |turns|, k
  {
    hide OnClock;
    assert turns[..|turns|] == turns;
    if k < |turns| {
      if k < |turns| - 1 {
        FlagNeverFalls(clock, turns[..|turns| - 1], s, k);
        assert turns[..|turns| - 1][..k] == turns[..k];
      } else {
        TurnKeepsTime(turns[k], ClockAfter(clock, turns[..k]), s);
        EarlierClock(clock, turns, s);
      }
    } else {
      EarlierClock(clock, turns, s);
    }
  }

  lemma {:induction false} EarlierClock(clock: int, turns: seq<Turn>, s: Settings)
    requires ValidSettings(s) && clock >= 0 && Played(clock, turns, s)
    ensures ClockAfter(clock, turns) >= 0
    ensures |turns| > 0 ==> ClockAfter(clock, turns[..|turns| - 1]) >= 0
  {
    hide OnClock;
    if |turns| > 0 {
      EarlierClock(clock, turns[..|turns| - 1], s);
      TurnKeepsTime(turns[|turns| - 1], ClockAfter(clock, turns[..|turns| - 1]), s);
    }
  }
}
