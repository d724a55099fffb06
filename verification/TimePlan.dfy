/** The clock plan of one move: how a go request, a position and the settings become soft and hard budgets. */
module TimePlan {
  import opened Wrappers
  import opened Text
  import opened GoRequest
  import opened Position
  import opened Budget
  import opened Envelopes
  import Amounts

  const MAX_UCI_TIME := 2147483647
  const MAX_CPU_START := 9223372036854775807

  datatype Settings = Settings(
    policyKnown: bool, movesHorizon: int, incrementFraction: real, maxMove: int, networkReserve: int,
    stopGrace: int, outputMargin: int, prepareBudget: int, quiesceBudget: int, cpuParallelism: int)

  predicate Between(n: int, low: int, high: int) { low <= n <= high }

  /** The field checks made when settings are constructed. */
  predicate ValidSettings(s: Settings) {
    && s.policyKnown
    && Between(s.movesHorizon, 1, 200) && Between(s.cpuParallelism, 1, 1024)
    && Between(s.maxMove, 1, 60000) && Between(s.stopGrace, 1, 60000) && Between(s.outputMargin, 1, 60000)
    && Between(s.prepareBudget, 1, 60000) && Between(s.quiesceBudget, 1, 60000)
    && Between(s.networkReserve, 0, 60000)
    && 0.0 <= s.incrementFraction <= 1.0
    && s.maxMove > s.stopGrace + s.outputMargin
  }

  datatype TimeError =
    | BadGeneration | BadCpuStart | VariantUnsupported | NoSideToMove
    | NotGo | UnknownTokens | DuplicateLimit(name: string) | BadLimitValue(name: string)
    | BadRestriction | DuplicateRoots | RootsNotCanonical
    | BadMovesToGo | Mixture | InsufficientClock | NotCpuOnly | EnvelopeRefused(cause: EnvelopeError)

  /** Side after replaying the history, from a six-field FEN. */
  function SideToMove(p: PositionRequest): Option<string> {
    var fields := Words(p.baseFen);
    if |fields| != 6 || (fields[1] != "w" && fields[1] != "b") then None
    else if |p.moves| % 2 == 0 then Some(fields[1])
    else Some(if fields[1] == "w" then "b" else "w")
  }

  // ---------------------------------------------------------------- the limits of a clock request

  datatype Limits = Limits(values: map<string, int>, roots: seq<string>)

  /** Enter limits from the k-th on. */
  function Entered(limits: seq<Limit>, k: nat, values: map<string, int>): Result<map<string, int>, TimeError>
    requires k <= |limits|
    decreases |limits| - k
  {
    if k == |limits| then Ok(values)
    else
      var l := limits[k];
      if l.name in values then Err(DuplicateLimit(l.name))
      else if l.Flag? || l.value > MAX_UCI_TIME then Err(BadLimitValue(l.name))
      else Entered(limits, k + 1, values[l.name := l.value])
  }

  function CountOf(tokens: seq<string>, word: string): nat {
    if |tokens| == 0 then 0 else (if tokens[0] == word then 1 else 0) + CountOf(tokens[1..], word)
  }

  function CheckRoots(tokens: seq<string>, roots: seq<string>): Option<TimeError> {
    if CountOf(tokens, SEARCHMOVES) > 1 || (SEARCHMOVES in tokens && roots == []) then Some(BadRestriction)
    else if !Distinct(roots) then Some(DuplicateRoots)
    else if exists i :: 0 <= i < |roots| && roots[i] !in tokens then Some(RootsNotCanonical)
    else None
  }

  /** The limits and root moves of a go command, or why the clock mode refuses it. */
  function ReadLimits(command: string): Result<Limits, TimeError> {
    match Parsed(command)
    case None => Err(NotGo)
    case Some(request) =>
      if request.unknown != [] then Err(UnknownTokens)
      else match Entered(request.limits, 0, map[])
        case Err(e) => Err(e)
        case Ok(values) =>
          match CheckRoots(Words(command), request.rootMoves)
          case Some(e) => Err(e)
          case None => Ok(Limits(values, request.rootMoves))
  }

  method TakeLimits(command: string) returns (r: Result<Limits, TimeError>)
    ensures r == ReadLimits(command)
  {
    hide Parsed, CheckRoots, Words;
    var request := ParseGo(command);
    if request.None? { return Err(NotGo); }
    if request.value.unknown != [] { return Err(UnknownTokens); }
    var values: map<string, int> := map[];
    var items := request.value.limits;
    for k := 0 to |items|
      invariant Entered(items, 0, map[]) == Entered(items, k, values)
    {
      var item := items[k];
      if item.name in values { return Err(DuplicateLimit(item.name)); }
      if item.Flag? || item.value > MAX_UCI_TIME { return Err(BadLimitValue(item.name)); }
      values := values[item.name := item.value];
    }
    var refusal := CheckRoots(Words(command), request.value.rootMoves);
    if refusal.Some? { return Err(refusal.value); }
    r := Ok(Limits(values, request.value.rootMoves));
  }

  // ---------------------------------------------------------------- budgets

  datatype RequestClass = Movetime | Clock

  /** What the request offers: the clock, the hint for it, and what to hold back. */
  datatype Offer = Offer(kind: RequestClass, available: int, increment: int, movesToGo: Option<int>, reserve: int,
      desired: int)

  function IntMin(a: int, b: int): int { if a <= b then a else b }
  function IntMax(a: int, b: int): int { if a >= b then a else b }

  predicate OnlyMovetime(values: map<string, int>) { values.Keys == {"movetime"} }

  predicate BothClocks(values: map<string, int>) {
    {"wtime", "btime"} <= values.Keys <= {"wtime", "btime", "winc", "binc", "movestogo"}
  }

  function ClockOf(side: string): string { if side == "w" then "wtime" else "btime" }

  function IncrementOf(side: string): string { if side == "w" then "winc" else "binc" }

  function Horizon(movesToGo: Option<int>, s: Settings): int {
    if movesToGo.Some? && movesToGo.value != 0 then IntMin(movesToGo.value, s.movesHorizon) else s.movesHorizon
  }

  /** The share of the clock plus the increment hint, truncated to whole milliseconds. */
  function Share(clock: int, horizon: int, fraction: real, increment: int): int
    requires horizon > 0
  {
    (clock as real / horizon as real + fraction * increment as real).Floor
  }

  function Offered(side: string, values: map<string, int>, s: Settings): Result<Offer, TimeError>
    requires s.movesHorizon > 0
  {
    if OnlyMovetime(values) then
      var available := values["movetime"];
      Ok(Offer(Movetime, available, 0, None, 0, available))
    else if BothClocks(values) then
      var available := values[ClockOf(side)];
      var increment := if IncrementOf(side) in values then values[IncrementOf(side)] else 0;
      var movesToGo := if "movestogo" in values then Some(values["movestogo"]) else None;
      if movesToGo.Some? && movesToGo.value < 1 then Err(BadMovesToGo)
      else
        var desired := Share(IntMax(0, available - s.networkReserve), Horizon(movesToGo, s), s.incrementFraction,
                             increment);
        Ok(Offer(Clock, available, increment, movesToGo, s.networkReserve, desired + s.stopGrace + s.outputMargin))
    else Err(Mixture)
  }

  function Hard(o: Offer, s: Settings, wall: real): int {
    IntMin(IntMin(IntMin(o.available - o.reserve, o.desired), s.maxMove), wall.Floor)
  }

  datatype Plan = Plan(
    side: string, offer: Offer, roots: seq<string>, anchor: string,
    soft: int, hard: int, prepare: int, received: real, envelope: Envelope, declared: Envelope, settings: Settings)

  /** The bounded request sent to the anchor engine. */
  function AnchorCommand(soft: nat, roots: seq<string>): string {
    var command := "go movetime " + Decimal(soft);
    if roots == [] then command else command + (" searchmoves " + Join(roots, ' '))
  }

  function Budgeted(side: string, o: Offer, roots: seq<string>, s: Settings, e: Envelope,
      received: real): Result<Plan, TimeError> {
    var hard := Hard(o, s, e.wall);
    if hard <= s.stopGrace + s.outputMargin then Err(InsufficientClock)
    else
      var soft := hard - s.stopGrace - s.outputMargin;
      var cpu := Amounts.Min(e.cpu, Spread(hard as real, s.cpuParallelism as real));
      if e.wall <= 0.0 || e.cpu <= 0.0 || cpu <= 0.0 || e.gpu != 0.0 then Err(NotCpuOnly)
      else match BoundedForMove(e, hard, s.cpuParallelism)
        case Err(x) => Err(EnvelopeRefused(x))
        case Ok(bounded) =>
          Ok(Plan(side, o, roots, AnchorCommand(soft, roots), soft, hard, IntMin(s.prepareBudget, IntMax(0, soft / 4)),
                  received, bounded, e, s))
  }

  function MakePlan(command: string, position: PositionRequest, generation: int, s: Settings, e: Envelope,
                    received: real, cpuStarted: int): Result<Plan, TimeError>
    requires ValidSettings(s)
  {
    if !Between(generation, 1, MAX_UCI_TIME) then Err(BadGeneration)
    else if !Between(cpuStarted, 0, MAX_CPU_START) then Err(BadCpuStart)
    else if position.variant != "standard" then Err(VariantUnsupported)
    else match SideToMove(position)
      case None => Err(NoSideToMove)
      case Some(side) =>
        match ReadLimits(command)
        case Err(x) => Err(x)
        case Ok(limits) =>
          match Offered(side, limits.values, s)
          case Err(x) => Err(x)
          case Ok(o) => Budgeted(side, o, limits.roots, s, e, received)
  }
}
