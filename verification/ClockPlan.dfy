/** The plan of a printed clock request in its own terms: the mover's clock, the horizon, and each budget exactly. */
module ClockPlan {
  import opened Wrappers
  import opened Text
  import opened GoRequest
  import opened Position
  import PositionRoundTrip
  import opened Budget
  import opened Envelopes
  import opened TimePlan
  import opened ClockSafety
  import opened ClockRequest

  // ---------------------------------------------------------------- the side to move

  /** The base position is a six-field FEN that names a side. */
  predicate NamesSide(fen: string) {
    |Words(fen)| == 6 && (Words(fen)[1] == "w" || Words(fen)[1] == "b")
  }

  /** White is to move: the FEN names White after an even number of moves, or Black after an odd number. */
  predicate WhiteMoves(p: PositionRequest)
    requires NamesSide(p.baseFen)
  {
    if |p.moves| % 2 == 0 then Words(p.baseFen)[1] == "w" else Words(p.baseFen)[1] == "b"
  }

  lemma {:induction false} SideIsKnown(p: PositionRequest)
    ensures SideToMove(p).Some? <==> NamesSide(p.baseFen)
    ensures NamesSide(p.baseFen) ==> SideToMove(p) == Some(if WhiteMoves(p) then "w" else "b")
  {
    hide Words;
    assert "w"[0] != "b"[0];
  }

  lemma {:induction false} FirstWord(w: string, rest: string)
    requires IsWord(w)
    ensures Words(w + [' '] + rest) == [w] + Words(rest)
    ensures Words(w) == [w]
  {
    WordLengthOf(w, [' '] + rest);
    assert w + ([' '] + rest) == w + [' '] + rest;
    assert (w + [' '] + rest)[|w|..] == [' '] + rest && ([' '] + rest)[1..] == rest;
    WordLengthOf(w, "");
    assert w + "" == w && w[|w|..] == "";
  }

  lemma {:induction false} Castling()
    ensures Words("KQkq - 0 1") == ["KQkq", "-", "0", "1"]
  {
    hide Words;
    FirstWord("0", "1");
    FirstWord("1", "");
    FirstWord("-", "0 1");
    FirstWord("KQkq", "- 0 1");
    assert "0" + [' '] + "1" == "0 1" && "-" + [' '] + "0 1" == "- 0 1" && "KQkq" + [' '] + "- 0 1" == "KQkq - 0 1";
  }

  lemma {:induction false} StartFields()
    ensures Words(STARTPOS) == ["rnbqkbnr/pppppppp/8/8/8/8/PPPPPPPP/RNBQKBNR", "w", "KQkq", "-", "0", "1"]
  {
    hide Words;
    var board := "rnbqkbnr/pppppppp/8/8/8/8/PPPPPPPP/RNBQKBNR";
    Castling();
    FirstWord("w", "KQkq - 0 1");
    assert "w" + [' '] + "KQkq - 0 1" == "w KQkq - 0 1";
    FirstWord(board, "w KQkq - 0 1");
    assert board + [' '] + "w KQkq - 0 1" == STARTPOS;
  }

  /** White moves first: the start position, read with any canonical moves, has White to move after an even number. */
  lemma {:induction false} StartposSide(moves: seq<string>, variant: string)
    requires KnownVariant(variant) && AllMoves(moves)
    ensures var r := ParsePosition(Position.Command(PositionRequest(STARTPOS, moves, variant)), variant);
            && r.Ok? && r.value.moves == moves
            && SideToMove(r.value) == Some(if |moves| % 2 == 0 then "w" else "b")
  {
    hide Words, ParsePosition, Position.Command;
    var p := PositionRequest(STARTPOS, moves, variant);
    PositionRoundTrip.PrintThenParse(p);
    StartFields();
    assert "w"[0] != "b"[0];
    SideIsKnown(p);
  }

  lemma {:induction false} BareStartpos()
    ensures ParsePosition("position startpos", "standard").Ok?
    ensures SideToMove(ParsePosition("position startpos", "standard").value) == Some("w")
  {
    hide Words, ParsePosition, SideToMove;
    assert Position.Command(PositionRequest(STARTPOS, [], "standard")) == "position startpos";
    StartposSide([], "standard");
  }

  // ---------------------------------------------------------------- the horizon and the share

  /** The declared horizon, or the moves to the next time control when there are fewer. */
  function MovesAhead(values: map<string, int>, s: Settings): int {
    if "movestogo" in values && values["movestogo"] < s.movesHorizon then values["movestogo"] else s.movesHorizon
  }

  function Number(values: map<string, int>, n: string): int { if n in values then values[n] else 0 }

  /** What the increment hint adds to each move. */
  function Credit(fraction: real, increment: int): real { fraction * increment as real }

  /** k is the largest whole number of milliseconds affordable on each of h moves. */
  ghost predicate Affords(left: int, h: int, credit: real, k: int) {
    Times(h as real, k as real) <= left as real + Times(h as real, credit) < Times(h as real, (k + 1) as real)
  }

  /** n is the largest whole number within the four bounds. */
  ghost predicate LargestWithin(n: int, a: int, b: int, c: int, wall: real) {
    && n <= a && n <= b && n <= c && n as real <= wall
    && (n == a || n == b || n == c || (n + 1) as real > wall)
  }

  /** A fixed time for the move and nothing else. */
  predicate FixedLimit(values: map<string, int>) { values.Keys == {"movetime"} }

  /** Both clocks, and at most their increments and a positive number of moves beside them. */
  predicate GameLimits(values: map<string, int>) {
    && {"wtime", "btime"} <= values.Keys <= {"wtime", "btime", "winc", "binc", "movestogo"}
    && ("movestogo" in values ==> values["movestogo"] >= 1)
  }

  lemma {:induction false} ShareAffords(left: int, h: int, fraction: real, increment: int)
    requires h > 0
    ensures Affords(left, h, Credit(fraction, increment), Share(left, h, fraction, increment))
  {
    hide Times, Share;
    ShareIsSustainable(left, h, fraction, increment);
    var k := Share(left, h, fraction, increment);
    assert (k + 1) as real == k as real + 1.0;
  }

  /** The offer of a game clock, entry by entry. */
  lemma {:induction false} GameOffer(values: map<string, int>, side: string, s: Settings)
    requires ValidSettings(s) && (side == "w" || side == "b") && GameLimits(values)
    ensures Offered(side, values, s).Ok?
    ensures var o := Offered(side, values, s).value;
            var k := o.desired - s.stopGrace - s.outputMargin;
            var left := o.available - s.networkReserve;
            && o.kind == Clock && o.reserve == s.networkReserve
            && o.available == Number(values, if side == "w" then "wtime" else "btime")
            && o.increment == Number(values, if side == "w" then "winc" else "binc")
            && o.movesToGo == (if "movestogo" in values then Some(values["movestogo"]) else None)
            && Affords(if left > 0 then left else 0, MovesAhead(values, s), Credit(s.incrementFraction, o.increment), k)
  {
    hide Affords, Share, Credit;
    assert "w"[0] != "b"[0];
    OneNameOnly(values);
    var o := Offered(side, values, s).value;
    var left := IntMax(0, o.available - s.networkReserve);
    var h := MovesAhead(values, s);
    assert Horizon(o.movesToGo, s) == h;
    var k := Share(left, h, s.incrementFraction, o.increment);
    ShareAffords(left, h, s.incrementFraction, o.increment);
    assert k == o.desired - s.stopGrace - s.outputMargin;
  }

  lemma {:induction false} OneNameOnly(values: map<string, int>)
    ensures "wtime" in values ==> !OnlyMovetime(values)
    ensures values.Keys == {"movetime"} ==> OnlyMovetime(values) && !BothClocks(values)
  {
    assert "wtime"[0] != "movetime"[0];
  }

  lemma {:induction false} FixedOffer(values: map<string, int>, side: string, s: Settings)
    requires FixedLimit(values) && s.movesHorizon > 0
    ensures var m := values["movetime"]; Offered(side, values, s) == Ok(Offer(Movetime, m, 0, None, 0, m))
    ensures !GameLimits(values)
  {
    assert "wtime"[0] != "movetime"[0];
    assert "wtime" !in values;
  }

  /** Nothing is offered but a fixed time or a game clock. */
  lemma {:induction false} OfferedIff(values: map<string, int>, side: string, s: Settings)
    requires ValidSettings(s) && (side == "w" || side == "b")
    ensures Offered(side, values, s).Ok? <==> FixedLimit(values) || GameLimits(values)
  {
    hide Share;
    if FixedLimit(values) { FixedOffer(values, side, s); }
    if GameLimits(values) { GameOffer(values, side, s); }
  }

  lemma {:induction false} FloorIs(n: int, wall: real)
    requires n == wall.Floor
    ensures n as real <= wall < (n + 1) as real
  {
  }

  /** Every budget of an accepted plan is the largest its bounds allow. */
  ghost predicate BudgetsFit(p: Plan, o: Offer, s: Settings, e: Envelope) {
    && LargestWithin(p.hard, o.available - o.reserve, o.desired, s.maxMove, e.wall)
    && p.soft == p.hard - s.stopGrace - s.outputMargin >= 1
    && p.prepare <= s.prepareBudget && 4 * p.prepare <= p.soft
    && (p.prepare == s.prepareBudget || 4 * (p.prepare + 1) > p.soft)
  }

  lemma {:induction false} BudgetsExact(side: string, o: Offer, roots: seq<string>, s: Settings, e: Envelope,
      received: real)
    requires ValidSettings(s) && ValidEnvelope(e) && Budgeted(side, o, roots, s, e, received).Ok?
    ensures var p := Budgeted(side, o, roots, s, e, received).value;
            && p.side == side && p.offer == o && p.roots == roots && p.received == received && p.declared == e
            && p.settings == s && BudgetsFit(p, o, s, e)
  {
    hide ValidEnvelope, BoundedForMove, Spread, AnchorCommand, PositiveCpuOnly;
    FloorIs(e.wall.Floor, e.wall);
  }

  // ---------------------------------------------------------------- the plan of a command

  /** A plan on a game clock: the mover's clock and increment, the share over the moves ahead, the largest budgets. */
  ghost predicate GameTerms(p: Plan, values: map<string, int>, white: bool, s: Settings, e: Envelope) {
    var left := p.offer.available - s.networkReserve;
    && p.offer.available == Number(values, if white then "wtime" else "btime")
    && p.offer.increment == Number(values, if white then "winc" else "binc")
    && p.offer.reserve == s.networkReserve && left >= p.hard
    && Affords(left, MovesAhead(values, s), Credit(s.incrementFraction, p.offer.increment),
               p.offer.desired - s.stopGrace - s.outputMargin)
    && BudgetsFit(p, p.offer, s, e)
  }

  /** A plan for a fixed time: it is the whole budget, nothing is held back and no increment counts. */
  ghost predicate FixedTerms(p: Plan, values: map<string, int>, s: Settings, e: Envelope) {
    && p.offer.available == p.offer.desired == Number(values, "movetime")
    && p.offer.increment == p.offer.reserve == 0
    && BudgetsFit(p, p.offer, s, e)
  }

  lemma {:induction false} BudgetLeaves(p: Plan, o: Offer, s: Settings, e: Envelope)
    requires BudgetsFit(p, o, s, e) && ValidSettings(s)
    ensures o.available - o.reserve >= p.hard > 0
  {
  }

  lemma {:induction false} GameTermsHold(side: string, values: map<string, int>, roots: seq<string>, s: Settings,
      e: Envelope, received: real)
    requires ValidSettings(s) && ValidEnvelope(e) && (side == "w" || side == "b") && GameLimits(values)
    requires Offered(side, values, s).Ok? && Budgeted(side, Offered(side, values, s).value, roots, s, e, received).Ok?
    ensures GameTerms(Budgeted(side, Offered(side, values, s).value, roots, s, e, received).value, values, side == "w",
                      s, e)
  {
    hide Budgeted, Offered, ValidEnvelope, Affords, Credit, BudgetsFit, GameLimits;
    GameOffer(values, side, s);
    var o := Offered(side, values, s).value;
    BudgetsExact(side, o, roots, s, e, received);
    BudgetLeaves(Budgeted(side, o, roots, s, e, received).value, o, s, e);
  }

  lemma {:induction false} FixedTermsHold(side: string, values: map<string, int>, roots: seq<string>, s: Settings,
      e: Envelope, received: real)
    requires ValidSettings(s) && ValidEnvelope(e) && FixedLimit(values)
    requires Offered(side, values, s).Ok? && Budgeted(side, Offered(side, values, s).value, roots, s, e, received).Ok?
    ensures FixedTerms(Budgeted(side, Offered(side, values, s).value, roots, s, e, received).value, values, s, e)
  {
    hide Budgeted, Offered, ValidEnvelope, BudgetsFit;
    FixedOffer(values, side, s);
    BudgetsExact(side, Offered(side, values, s).value, roots, s, e, received);
  }

  /** The plan of any accepted command: the side the FEN and the number of moves give, and the terms of its limits. */
  lemma {:induction false} CommandPlan(command: string, position: PositionRequest, generation: int, s: Settings,
      e: Envelope, received: real, cpuStarted: int)
    requires ValidSettings(s) && ValidEnvelope(e)
    requires MakePlan(command, position, generation, s, e, received, cpuStarted).Ok?
    ensures NamesSide(position.baseFen) && ReadLimits(command).Ok?
    ensures var p, read := MakePlan(command, position, generation, s, e, received, cpuStarted).value,
              ReadLimits(command).value;
            && p.side == (if WhiteMoves(position) then "w" else "b")
            && p.roots == read.roots && p.received == received && p.declared == e && p.settings == s
            && (FixedLimit(read.values) || GameLimits(read.values))
            && (FixedLimit(read.values) ==> FixedTerms(p, read.values, s, e))
            && (GameLimits(read.values) ==> GameTerms(p, read.values, WhiteMoves(position), s, e))
  {
    hide ReadLimits, SideToMove, ValidEnvelope, Budgeted, WhiteMoves, NamesSide, Offered, BudgetsFit, GameTerms;
    hide FixedTerms, FixedLimit, GameLimits;
    SideIsKnown(position);
    assert "w"[0] != "b"[0];
    var side, read := SideToMove(position).value, ReadLimits(command).value;
    OfferedIff(read.values, side, s);
    BudgetsExact(side, Offered(side, read.values, s).value, read.roots, s, e, received);
    if FixedLimit(read.values) { FixedTermsHold(side, read.values, read.roots, s, e, received); }
    if GameLimits(read.values) { GameTermsHold(side, read.values, read.roots, s, e, received); }
  }

  // ---------------------------------------------------------------- when there is a plan

  lemma {:induction false} OneAffordable(left: int, h: int, credit: real, k: int)
    requires h > 0 && Affords(left, h, credit, k)
    ensures k >= 1 <==> h as real <= left as real + Times(h as real, credit)
  {
    hide Times;
    TimesOne(h as real);
    if k >= 1 {
      TimesLess(h as real, 1.0, k as real);
    } else {
      TimesLess(h as real, (k + 1) as real, 1.0);
    }
  }

  lemma {:induction false} TimesOne(h: real)
    ensures Times(h, 1.0) == h
  {
  }

  /** The clock, less the reserve, leaves more than the margins, and at least a millisecond for each move ahead. */
  ghost predicate ClockSuffices(values: map<string, int>, white: bool, s: Settings) {
    var left := Number(values, if white then "wtime" else "btime") - s.networkReserve;
    var credit := Credit(s.incrementFraction, Number(values, if white then "winc" else "binc"));
    var h := MovesAhead(values, s);
    left > s.stopGrace + s.outputMargin && h as real <= left as real + Times(h as real, credit)
  }

  /** The envelope leaves more wall time than the margins and some CPU time, and asks for no GPU. */
  predicate EnvelopeSuffices(e: Envelope, s: Settings) {
    e.wall.Floor > s.stopGrace + s.outputMargin && e.cpu > 0.0 && e.gpu == 0.0
  }

  lemma {:induction false} GameAccepted(values: map<string, int>, side: string, roots: seq<string>, s: Settings,
      e: Envelope, received: real)
    requires ValidSettings(s) && ValidEnvelope(e) && (side == "w" || side == "b") && GameLimits(values)
    ensures Offered(side, values, s).Ok?
    ensures Budgeted(side, Offered(side, values, s).value, roots, s, e, received).Ok? <==>
              ClockSuffices(values, side == "w", s) && EnvelopeSuffices(e, s)
  {
    hide Affords, Times, Share, Credit, Budgeted, Offered, ValidEnvelope;
    GameOffer(values, side, s);
    AcceptedIff(side, values, roots, s, e, received);
    OfferShare(values, side, s);
    var o := Offered(side, values, s).value;
    var left := o.available - s.networkReserve;
    if left > s.stopGrace + s.outputMargin {
      OneAffordable(left, MovesAhead(values, s), Credit(s.incrementFraction, o.increment),
                    o.desired - s.stopGrace - s.outputMargin);
    }
  }

  lemma {:induction false} OfferShare(values: map<string, int>, side: string, s: Settings)
    requires s.movesHorizon > 0 && Offered(side, values, s).Ok?
    requires Offered(side, values, s).value.kind == Clock
    ensures var o := Offered(side, values, s).value;
            Share(IntMax(0, o.available - o.reserve), Horizon(o.movesToGo, s), s.incrementFraction, o.increment)
            == o.desired - s.stopGrace - s.outputMargin
  {
    hide Share, OnlyMovetime, BothClocks;
  }

  lemma {:induction false} FixedAccepted(values: map<string, int>, side: string, roots: seq<string>, s: Settings,
      e: Envelope, received: real)
    requires ValidSettings(s) && ValidEnvelope(e) && FixedLimit(values)
    ensures Offered(side, values, s).Ok?
    ensures Budgeted(side, Offered(side, values, s).value, roots, s, e, received).Ok? <==>
              values["movetime"] > s.stopGrace + s.outputMargin && EnvelopeSuffices(e, s)
  {
    hide Budgeted, Offered, ValidEnvelope, Share;
    FixedOffer(values, side, s);
    AcceptedIff(side, values, roots, s, e, received);
  }

  /** The limits read leave enough time for the side to move. */
  ghost predicate TimeSuffices(values: map<string, int>, white: bool, s: Settings) {
    if FixedLimit(values) then values["movetime"] > s.stopGrace + s.outputMargin
    else GameLimits(values) && ClockSuffices(values, white, s)
  }

  lemma {:induction false} TimeAccepted(values: map<string, int>, side: string, roots: seq<string>, s: Settings,
      e: Envelope, received: real)
    requires ValidSettings(s) && ValidEnvelope(e) && (side == "w" || side == "b")
    ensures s.movesHorizon > 0
    ensures (Offered(side, values, s).Ok? && Budgeted(side, Offered(side, values, s).value, roots, s, e, received).Ok?)
              <==> TimeSuffices(values, side == "w", s) && EnvelopeSuffices(e, s)
  {
    hide ValidEnvelope, Budgeted, Offered, ClockSuffices, EnvelopeSuffices;
    OfferedIff(values, side, s);
    if FixedLimit(values) {
      FixedAccepted(values, side, roots, s, e, received);
    } else if GameLimits(values) {
      GameAccepted(values, side, roots, s, e, received);
    }
  }

  /** When a command becomes a plan. */
  lemma {:induction false} PlannedIff(command: string, position: PositionRequest, generation: int, s: Settings,
      e: Envelope, received: real, cpuStarted: int)
    requires ValidSettings(s) && ValidEnvelope(e)
    ensures MakePlan(command, position, generation, s, e, received, cpuStarted).Ok? <==>
              && 1 <= generation <= 2147483647 && 0 <= cpuStarted <= 9223372036854775807
              && position.variant == "standard" && NamesSide(position.baseFen)
              && ReadLimits(command).Ok? && TimeSuffices(ReadLimits(command).value.values, WhiteMoves(position), s)
              && EnvelopeSuffices(e, s)
  {
    hide ReadLimits, SideToMove, ValidEnvelope, Budgeted, WhiteMoves, NamesSide, Offered, TimeSuffices;
    hide EnvelopeSuffices;
    SideIsKnown(position);
    assert "w"[0] != "b"[0];
    if NamesSide(position.baseFen) && ReadLimits(command).Ok? {
      var read := ReadLimits(command).value;
      TimeAccepted(read.values, SideToMove(position).value, read.roots, s, e, received);
    }
  }

  /** The plan of a printed clock request draws on the clock and increment it was printed with for the side to move. */
  lemma {:induction false} PlanUsesMoversClock(limit: map<string, LimitValue>, names: seq<string>,
      searchmoves: Option<seq<string>>, position: PositionRequest, generation: int, s: Settings, e: Envelope,
      received: real, cpuStarted: int)
    requires ValidSettings(s) && ValidEnvelope(e) && ClockLimits(limit) && SortedKeys(limit, names)
    requires BuiltFrom(limit, names, searchmoves).Ok? && "wtime" in limit && "btime" in limit
    requires MakePlan(BuiltFrom(limit, names, searchmoves).value, position, generation, s, e, received, cpuStarted).Ok?
    ensures NamesSide(position.baseFen)
    ensures var command := BuiltFrom(limit, names, searchmoves).value;
            var p := MakePlan(command, position, generation, s, e, received, cpuStarted).value;
            var white := WhiteMoves(position);
            && SideToMove(position) == Some(p.side) && p.side == (if white then "w" else "b")
            && p.offer.available == (if white then limit["wtime"].n else limit["btime"].n)
            && p.offer.increment == (if white then (if "winc" in limit then limit["winc"].n else 0)
                                              else (if "binc" in limit then limit["binc"].n else 0))
            && p.hard + s.networkReserve <= p.offer.available
            && GameTerms(p, ValuesOf(limit), white, s, e)
            && p.roots == RootsGiven(searchmoves)
  {
    hide ReadLimits, ValidEnvelope, MakePlan, BuiltFrom, Ascending, WhiteMoves, NamesSide, BudgetsFit, Affords, Credit;
    hide SideToMove;
    var command := BuiltFrom(limit, names, searchmoves).value;
    BuiltClockReads(limit, names, searchmoves);
    CommandPlan(command, position, generation, s, e, received, cpuStarted);
    SideIsKnown(position);
    assert ValuesOf(limit).Keys == limit.Keys;
    OneNameOnly(ValuesOf(limit));
  }
}
