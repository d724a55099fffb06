/** The "go" command of the Universal Chess Interface: what parsing makes of its tokens, and what building prints. */
module GoRequest {
  import opened Wrappers
  import opened Text

  const NUMERIC := ["wtime", "btime", "winc", "binc", "movestogo", "depth", "nodes", "mate", "movetime"]
  const FLAGS := ["infinite", "ponder"]
  const SEARCHMOVES := "searchmoves"

  predicate IsNumeric(name: string) { name in NUMERIC }
  predicate IsFlag(name: string) { name in FLAGS }
  predicate IsKeyword(name: string) { name == SEARCHMOVES }

  /** int(text) on canonical decimal spellings. */
  function ParseInt(text: string): Option<int> {
    if |text| > 0 && AllDigits(text) then Some(NumberOf(text))
    else if |text| > 1 && text[0] == '-' && AllDigits(text[1..]) then
      var n: int := NumberOf(text[1..]);
      Some(-n)
    else None
  }

  datatype Limit = Numeric(name: string, value: nat) | Flag(name: string)

  datatype Request = Request(limits: seq<Limit>, rootMoves: seq<string>, unknown: seq<string>)

  // ---------------------------------------------------------------- how the tokens are consumed

  /** One bite of the token list, keeping the tokens it consumed. */
  datatype Bite =
    | NumericBite(name: string, text: string, value: nat)
    | FlagBite(name: string)
    | MovesBite(keyword: string, moves: seq<string>)
    | UnknownBite(tokens: seq<string>)

  /** The length of the leading run of tokens that are moves once lower-cased. */
  function MoveRun(tokens: seq<string>): (k: nat)
    ensures k <= |tokens|
    ensures forall i | 0 <= i < k :: IsMove(Lower(tokens[i]))
    ensures k < |tokens| ==> !IsMove(Lower(tokens[k]))
  {
    if |tokens| == 0 || !IsMove(Lower(tokens[0])) then 0 else 1 + MoveRun(tokens[1..])
  }

  function FirstBite(tokens: seq<string>): (b: Bite)
    requires |tokens| > 0
    ensures 0 < |Consumed(b)| <= |tokens| && Consumed(b) == tokens[..|Consumed(b)|]
  {
    var t := tokens[0];
    if IsNumeric(t) then
      if |tokens| == 1 then UnknownBite([t])
      else match ParseInt(tokens[1])
        case Some(v) => if v >= 0 then NumericBite(t, tokens[1], v) else UnknownBite(tokens[..2])
        case None => UnknownBite(tokens[..2])
    else if IsFlag(t) then FlagBite(t)
    else if IsKeyword(t) then MovesBite(t, tokens[1..][..MoveRun(tokens[1..])])
    else UnknownBite([t])
  }

  /** The tokens a bite stands for. */
  function Consumed(b: Bite): seq<string> {
    match b
    case NumericBite(name, text, _) => [name, text]
    case FlagBite(name) => [name]
    case MovesBite(keyword, moves) => [keyword] + moves
    case UnknownBite(tokens) => tokens
  }

  function Bites(tokens: seq<string>): seq<Bite> {
    if |tokens| == 0 then [] else [FirstBite(tokens)] + Bites(tokens[|Consumed(FirstBite(tokens))|..])
  }

  function LimitOf(b: Bite): seq<Limit> {
    match b case NumericBite(name, _, v) => [Numeric(name, v)] case FlagBite(name) => [Flag(name)] case _ => []
  }

  function RootsOf(b: Bite): seq<string> { if b.MovesBite? then LowerAll(b.moves) else [] }

  function UnknownOf(b: Bite): seq<string> { if b.UnknownBite? then b.tokens else [] }

  function Add(r: Request, b: Bite): Request {
    Request(r.limits + LimitOf(b), r.rootMoves + RootsOf(b), r.unknown + UnknownOf(b))
  }

  function Gather(r: Request, bs: seq<Bite>): Request
    decreases |bs|
  {
    if |bs| == 0 then r else Gather(Add(r, bs[0]), bs[1..])
  }

  const NOTHING := Request([], [], [])

  predicate IsGo(command: string) { command == "go" || "go " <= command }

  /** What parsing a go command returns, or none for another command. */
  function Parsed(command: string): Option<Request> {
    if !IsGo(command) || Words(command) == [] then None
    else Some(Gather(NOTHING, Bites(Words(command)[1..])))
  }

  /** Collect the run of root moves that starts at index. */
  method TakeMoves(tokens: seq<string>, start: nat) returns (moves: seq<string>, index: nat)
    requires start <= |tokens|
    ensures index == start + MoveRun(tokens[start..]) <= |tokens|
    ensures moves == LowerAll(tokens[start..index])
  {
    hide IsMove, Lower;
    moves, index := [], start;
    while index < |tokens| && IsMove(Lower(tokens[index]))
      invariant start <= index <= |tokens|
      invariant moves == LowerAll(tokens[start..index])
      invariant MoveRun(tokens[start..]) == index - start + MoveRun(tokens[index..])
    {
      assert tokens[start..index + 1] == tokens[start..index] + [tokens[index]];
      assert tokens[index..][1..] == tokens[index + 1..];
      moves := moves + [Lower(tokens[index])];
      index := index + 1;
    }
    assert index < |tokens| ==> tokens[index..][0] == tokens[index];
  }

  /** Consume the tokens of one bite. */
  method TakeBite(tokens: seq<string>, index: nat, before: Request) returns (r: Request, next: nat)
    requires index < |tokens|
    ensures r == Add(before, FirstBite(tokens[index..]))
    ensures next == index + |Consumed(FirstBite(tokens[index..]))| <= |tokens|
  {
    hide IsNumeric, IsFlag, IsKeyword, ParseInt, IsMove, Lower, LowerAll, Add;
    ghost var rest := tokens[index..];
    AddIs(before, FirstBite(rest));
    var token := tokens[index];
    assert rest[0] == token && (|rest| > 1 ==> rest[1] == tokens[index + 1]);
    if IsNumeric(token) {
      if index + 1 >= |tokens| {
        return before.(unknown := before.unknown + [token]), index + 1;
      }
      assert rest[..2] == tokens[index..index + 2];
      var value := ParseInt(tokens[index + 1]);
      if value == None || value.value < 0 {
        r := before.(unknown := before.unknown + tokens[index..index + 2]);
      } else {
        r := before.(limits := before.limits + [Numeric(token, value.value)]);
      }
      next := index + 2;
    } else if IsFlag(token) {
      r := before.(limits := before.limits + [Flag(token)]);
      next := index + 1;
    } else if IsKeyword(token) {
      assert rest[1..] == tokens[index + 1..];
      var moves;
      moves, next := TakeMoves(tokens, index + 1);
      assert rest[1..][..MoveRun(rest[1..])] == tokens[index + 1..next];
      r := before.(rootMoves := before.rootMoves + moves);
    } else {
      r := before.(unknown := before.unknown + [token]);
      next := index + 1;
    }
  }

  /** Walk the tokens with an index, collecting limits, root moves and unknown tokens. */
  method ParseTokens(tokens: seq<string>) returns (r: Request)
    ensures r == Gather(NOTHING, Bites(tokens))
  {
    hide FirstBite, Bites, Gather, Add, Consumed;
    r := NOTHING;
    var index := 0;
    assert tokens[0..] == tokens;
    while index < |tokens|
      invariant 0 <= index <= |tokens|
      invariant Gather(r, Bites(tokens[index..])) == Gather(NOTHING, Bites(tokens))
      decreases |tokens| - index
    {
      BiteStep(r, tokens[index..]);
      ghost var k := |Consumed(FirstBite(tokens[index..]))|;
      assert tokens[index..][k..] == tokens[index + k..];
      r, index := TakeBite(tokens, index, r);
    }
    assert tokens[index..] == [];
    GatherNone(r);
  }

  lemma {:induction false} AddIs(r: Request, b: Bite)
    ensures Add(r, b) == match b
              case NumericBite(name, _, v) => r.(limits := r.limits + [Numeric(name, v)])
              case FlagBite(name) => r.(limits := r.limits + [Flag(name)])
              case MovesBite(_, moves) => r.(rootMoves := r.rootMoves + LowerAll(moves))
              case UnknownBite(tokens) => r.(unknown := r.unknown + tokens)
  {
    assert r.limits + [] == r.limits && r.rootMoves + [] == r.rootMoves && r.unknown + [] == r.unknown;
  }

  lemma {:induction false} GatherNone(r: Request)
    ensures Gather(r, Bites([])) == r
  {
  }

  lemma {:induction false} BiteStep(r: Request, tokens: seq<string>)
    requires |tokens| > 0
    ensures Gather(r, Bites(tokens)) ==
            Gather(Add(r, FirstBite(tokens)), Bites(tokens[|Consumed(FirstBite(tokens))|..]))
  {
    hide Add, FirstBite;
    var b := FirstBite(tokens);
    assert Bites(tokens)[0] == b && Bites(tokens)[1..] == Bites(tokens[|Consumed(b)|..]);
  }

  method ParseGo(command: string) returns (r: Option<Request>)
    ensures r == Parsed(command)
  {
    if !IsGo(command) { return None; }
    var tokens := Words(command);
    if tokens == [] { return None; }
    var request := ParseTokens(tokens[1..]);
    r := Some(request);
  }

  // ---------------------------------------------------------------- every token is accounted for

  function Flatten(bs: seq<Bite>): seq<string> {
    if |bs| == 0 then [] else Consumed(bs[0]) + Flatten(bs[1..])
  }

  /** The bites, in order, are exactly the tokens. */
  lemma {:induction false} TokensConserved(tokens: seq<string>)
    ensures Flatten(Bites(tokens)) == tokens
  {
    if |tokens| > 0 {
      var b := FirstBite(tokens);
      TokensConserved(tokens[|Consumed(b)|..]);
      assert Bites(tokens)[1..] == Bites(tokens[|Consumed(b)|..]);
      assert tokens == tokens[..|Consumed(b)|] + tokens[|Consumed(b)|..];
    }
  }

  function NumericCount(ls: seq<Limit>): nat {
    if |ls| == 0 then 0 else NumericCount(ls[..|ls| - 1]) + (if ls[|ls| - 1].Numeric? then 1 else 0)
  }

  function Keywords(bs: seq<Bite>): nat {
    if |bs| == 0 then 0 else (if bs[0].MovesBite? then 1 else 0) + Keywords(bs[1..])
  }

  /** Tokens = limits (numeric ones twice) + root moves + unknown tokens + searchmoves keywords. */
  function Weight(r: Request): nat {
    |r.limits| + NumericCount(r.limits) + |r.rootMoves| + |r.unknown|
  }

  lemma {:induction false} AddWeighs(r: Request, b: Bite)
    ensures Weight(Add(r, b)) + (if b.MovesBite? then 1 else 0) == Weight(r) + |Consumed(b)|
  {
    match b
    case NumericBite(name, _, v) => assert (r.limits + [Numeric(name, v)])[..|r.limits|] == r.limits;
    case FlagBite(name) => assert (r.limits + [Flag(name)])[..|r.limits|] == r.limits;
    case MovesBite(_, _) => assert r.limits + [] == r.limits;
    case UnknownBite(_) => assert r.limits + [] == r.limits;
  }

  lemma {:induction false} GatherWeighs(r: Request, bs: seq<Bite>)
    ensures Weight(Gather(r, bs)) + Keywords(bs) == Weight(r) + |Flatten(bs)|
    decreases |bs|
  {
    if |bs| > 0 {
      AddWeighs(r, bs[0]);
      GatherWeighs(Add(r, bs[0]), bs[1..]);
    }
  }

  /** Every token of the input is accounted for exactly once. */
  lemma {:induction false} EveryTokenCounted(tokens: seq<string>)
    ensures Weight(Gather(NOTHING, Bites(tokens))) + Keywords(Bites(tokens)) == |tokens|
  {
    GatherWeighs(NOTHING, Bites(tokens));
    TokensConserved(tokens);
  }

  // ---------------------------------------------------------------- building

  /** A value in a limit dictionary; of one that is neither integer nor boolean only its truth is ever looked at. */
  datatype LimitValue = IntValue(n: int) | BoolValue(b: bool) | OtherValue(truthy: bool)

  datatype BuildError = UnsupportedLimit(name: string) | BadLimit(name: string)
    | EmptyMoves | InvalidMove(move: string) | DuplicateMove(move: string) | Unlimited

  /** A flag value that is printed. */
  predicate Truthy(v: LimitValue) {
    match v case IntValue(n) => n != 0 case BoolValue(b) => b case OtherValue(truthy) => truthy
  }

  ghost predicate Ascending(names: seq<string>) {
    forall i, j | 0 <= i < j < |names| :: names[i] != names[j] && TextLe(names[i], names[j])
  }

  /** names is sorted(limit). */
  ghost predicate SortedKeys(limit: map<string, LimitValue>, names: seq<string>) {
    Ascending(names) && forall n :: n in names <==> n in limit
  }

  function CheckLimits(limit: map<string, LimitValue>, names: seq<string>): Option<BuildError>
    requires forall n | n in names :: n in limit
  {
    if |names| == 0 then None
    else
      var n := names[0];
      if IsFlag(n) then CheckLimits(limit, names[1..])
      else if !IsNumeric(n) then Some(UnsupportedLimit(n))
      else if !limit[n].IntValue? || limit[n].n < 1 then Some(BadLimit(n))
      else CheckLimits(limit, names[1..])
  }

  /** The tokens printed for one limit. */
  function LimitTokens(limit: map<string, LimitValue>, n: string): seq<string>
    requires n in limit
  {
    if IsFlag(n) then (if Truthy(limit[n]) then [n] else [])
    else if limit[n].IntValue? && limit[n].n >= 1 then [n, Decimal(limit[n].n)]
    else []
  }

  function AllLimitTokens(limit: map<string, LimitValue>, names: seq<string>): seq<string>
    requires forall n | n in names :: n in limit
  {
    if |names| == 0 then [] else LimitTokens(limit, names[0]) + AllLimitTokens(limit, names[1..])
  }

  function FirstBadMove(moves: seq<string>, k: nat): Option<BuildError>
    requires k <= |moves|
    decreases |moves| - k
  {
    if k == |moves| then None
    else if !IsMove(Lower(moves[k])) then Some(InvalidMove(moves[k]))
    else if Lower(moves[k]) in LowerAll(moves[..k]) then Some(DuplicateMove(moves[k]))
    else FirstBadMove(moves, k + 1)
  }

  function CheckMoves(searchmoves: Option<seq<string>>): Option<BuildError> {
    match searchmoves
    case None => None
    case Some(moves) => if moves == [] then Some(EmptyMoves) else FirstBadMove(moves, 0)
  }

  function MoveTokens(searchmoves: Option<seq<string>>): seq<string> {
    match searchmoves case None => [] case Some(moves) => [SEARCHMOVES] + LowerAll(moves)
  }

  function BuiltFrom(limit: map<string, LimitValue>, names: seq<string>,
      searchmoves: Option<seq<string>>): Result<string, BuildError>
    requires forall n | n in names :: n in limit
  {
    if CheckLimits(limit, names).Some? then Err(CheckLimits(limit, names).value)
    else if CheckMoves(searchmoves).Some? then Err(CheckMoves(searchmoves).value)
    else
      var parts := ["go"] + AllLimitTokens(limit, names) + MoveTokens(searchmoves);
      if |parts| == 1 then Err(Unlimited) else Ok(Join(parts, ' '))
  }

  /** The limit tokens, or the first objection to a limit. */
  method LimitParts(limit: map<string, LimitValue>, names: seq<string>)
      returns (e: Option<BuildError>, parts: seq<string>)
    requires forall n | n in names :: n in limit
    ensures e == CheckLimits(limit, names)
    ensures e == None ==> parts == AllLimitTokens(limit, names)
  {
    hide IsNumeric, IsFlag, Truthy, Decimal, CheckLimits, AllLimitTokens;
    parts := [];
    assert names[0..] == names;
    for i := 0 to |names|
      invariant CheckLimits(limit, names) == CheckLimits(limit, names[i..])
      invariant parts + AllLimitTokens(limit, names[i..]) == AllLimitTokens(limit, names)
    {
      var name := names[i];
      LimitsStep(limit, names, i);
      if IsFlag(name) {
        if Truthy(limit[name]) { parts := parts + [name]; }
        continue;
      }
      if !IsNumeric(name) { return Some(UnsupportedLimit(name)), []; }
      if !limit[name].IntValue? || limit[name].n < 1 { return Some(BadLimit(name)), []; }
      parts := parts + [name, Decimal(limit[name].n)];
    }
    LimitsEnd(limit, names[|names|..]);
    e := None;
  }

  lemma {:induction false} LimitsStep(limit: map<string, LimitValue>, names: seq<string>, i: nat)
    requires (forall n | n in names :: n in limit) && i < |names|
    ensures var n, rest := names[i], names[i + 1..];
            && CheckLimits(limit, names[i..]) ==
               (if !IsFlag(n) && !IsNumeric(n) then Some(UnsupportedLimit(n))
                else if !IsFlag(n) && (!limit[n].IntValue? || limit[n].n < 1) then Some(BadLimit(n))
                else CheckLimits(limit, rest))
            && AllLimitTokens(limit, names[i..]) == LimitTokens(limit, n) + AllLimitTokens(limit, rest)
  {
    hide IsNumeric, IsFlag, Decimal, Truthy;
    assert names[i..][0] == names[i] && names[i..][1..] == names[i + 1..];
  }

  lemma {:induction false} LimitsEnd(limit: map<string, LimitValue>, names: seq<string>)
    requires names == []
    ensures CheckLimits(limit, names) == None && AllLimitTokens(limit, names) == []
  {
  }

  /** The searchmoves region, lower-cased, or the first objection to it. */
  method MoveParts(moves: seq<string>) returns (e: Option<BuildError>)
    ensures e == CheckMoves(Some(moves))
  {
    hide IsMove, Lower;
    if moves == [] { return Some(EmptyMoves); }
    var seen: set<string> := {};
    for k := 0 to |moves|
      invariant FirstBadMove(moves, 0) == FirstBadMove(moves, k)
      invariant forall m :: m in seen <==> m in LowerAll(moves[..k])
    {
      var lowered := Lower(moves[k]);
      if !IsMove(lowered) { return Some(InvalidMove(moves[k])); }
      if lowered in seen { return Some(DuplicateMove(moves[k])); }
      seen := seen + {lowered};
      assert LowerAll(moves[..k + 1]) == LowerAll(moves[..k]) + [lowered];
    }
    e := None;
  }

  /** Insert a new name at its place. */
  method InsertName(names: seq<string>, name: string) returns (r: seq<string>)
    requires Ascending(names) && name !in names
    ensures Ascending(r) && forall n :: n in r <==> n in names || n == name
  {
    var k := |names|;
    while k > 0 && !TextLe(names[k - 1], name)
      invariant 0 <= k <= |names|
      invariant forall i | k <= i < |names| :: TextLe(name, names[i])
    {
      TextOrder(names[k - 1], name);
      k := k - 1;
    }
    r := names[..k] + [name] + names[k..];
    forall i | 0 <= i < k ensures TextLe(names[i], name) {
      if i < k - 1 { TextTrans(names[i], names[k - 1], name); }
    }
    forall i, j | 0 <= i < j < |r| ensures r[i] != r[j] && TextLe(r[i], r[j]) {
      assert r[i] == if i < k then names[i] else if i == k then name else names[i - 1];
      assert r[j] == if j < k then names[j] else if j == k then name else names[j - 1];
    }
    assert names == names[..k] + names[k..];
  }

  /** sorted(limit) */
  method SortNames(limit: map<string, LimitValue>) returns (names: seq<string>)
    ensures SortedKeys(limit, names)
  {
    names := [];
    var todo := limit.Keys;
    while todo != {}
      invariant todo <= limit.Keys
      invariant Ascending(names) && forall n :: n in names <==> n in limit && n !in todo
      decreases todo
    {
      var n :| n in todo;
      names := InsertName(names, n);
      todo := todo - {n};
    }
  }

  lemma {:induction false} LastIsGreatest(a: seq<string>, b: seq<string>)
    requires Ascending(a) && Ascending(b) && |a| > 0 && |b| > 0 && forall n :: n in a <==> n in b
    ensures a[|a| - 1] == b[|b| - 1]
  {
    hide TextLe;
    var x, y := a[|a| - 1], b[|b| - 1];
    assert x in a && y in b;
    var i :| 0 <= i < |b| && b[i] == x;
    var j :| 0 <= j < |a| && a[j] == y;
    TextOrder(x, y);
  }

  lemma {:induction false} FrontNames(a: seq<string>, n: string)
    requires Ascending(a) && |a| > 0
    ensures n in a[..|a| - 1] <==> n in a && n != a[|a| - 1]
  {
    hide TextLe;
    assert a == a[..|a| - 1] + [a[|a| - 1]];
  }

  /** A dictionary has only one sorted list of its names. */
  lemma {:induction false} SortedUnique(a: seq<string>, b: seq<string>)
    requires Ascending(a) && Ascending(b) && forall n :: n in a <==> n in b
    ensures a == b
    decreases |a|
  {
    hide TextLe;
    FirstIn(a);
    FirstIn(b);
    if |a| > 0 {
      LastIsGreatest(a, b);
      var a', b' := a[..|a| - 1], b[..|b| - 1];
      forall n ensures n in a' <==> n in b' {
        FrontNames(a, n);
        FrontNames(b, n);
      }
      SortedUnique(a', b');
      assert a == a' + [a[|a| - 1]] && b == b' + [b[|b| - 1]];
    }
  }

  /** Print one canonical token order: limits by name, then the searchmoves region. */
  method BuildGo(limit: map<string, LimitValue>, searchmoves: Option<seq<string>>)
      returns (r: Result<string, BuildError>)
    ensures forall names | SortedKeys(limit, names) :: r == BuiltFrom(limit, names, searchmoves)
  {
    hide CheckLimits, AllLimitTokens, FirstBadMove, Join;
    var names := SortNames(limit);
    forall other | SortedKeys(limit, other) ensures other == names { SortedUnique(other, names); }
    var parts := ["go"];
    var e, limitParts := LimitParts(limit, names);
    if e.Some? { return Err(e.value); }
    parts := parts + limitParts;
    if searchmoves.Some? {
      e := MoveParts(searchmoves.value);
      if e.Some? { return Err(e.value); }
      parts := parts + ([SEARCHMOVES] + LowerAll(searchmoves.value));
    } else {
      assert parts + [] == parts;
    }
    if |parts| == 1 { return Err(Unlimited); }
    r := Ok(Join(parts, ' '));
  }
}
