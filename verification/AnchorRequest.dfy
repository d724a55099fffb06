/** The bounded request of a clock plan is itself a canonical fixed-time request over the same root moves. */
module AnchorRequest {
  import opened Wrappers
  import opened Text
  import opened GoRequest
  import opened GoRoundTrip
  import DispatchAlgebra
  import opened Position
  import opened Budget
  import opened Envelopes
  import opened TimePlan
  import ClockSafety

  // ---------------------------------------------------------------- parsed root moves are canonical

  ghost predicate GoodBites(bs: seq<Bite>) { forall i | 0 <= i < |bs| :: AllMoves(RootsOf(bs[i])) }

  lemma {:induction false} RootsAreMoves(tokens: seq<string>)
    requires |tokens| > 0
    ensures AllMoves(RootsOf(FirstBite(tokens)))
  {
    hide IsMove, Lower, IsNumeric, IsFlag, IsKeyword, ParseInt;
  }

  lemma {:induction false} BitesAreGood(tokens: seq<string>)
    ensures GoodBites(Bites(tokens))
  {
    hide AllMoves, FirstBite, RootsOf;
    if |tokens| > 0 {
      RootsAreMoves(tokens);
      BitesAreGood(tokens[|Consumed(FirstBite(tokens))|..]);
    }
  }

  lemma {:induction false} GatheredRoots(r: Request, bs: seq<Bite>)
    requires AllMoves(r.rootMoves) && GoodBites(bs)
    ensures AllMoves(Gather(r, bs).rootMoves)
    decreases |bs|
  {
    hide IsMove, RootsOf;
    if |bs| > 0 { GatheredRoots(Add(r, bs[0]), bs[1..]); }
  }

  /** Whatever a go command's tokens, the root moves collected from it are canonical. */
  lemma {:induction false} ParsedRootsAreMoves(command: string)
    ensures Parsed(command).Some? ==> AllMoves(Parsed(command).value.rootMoves)
  {
    hide Words, IsGo, Bites, AllMoves, Gather;
    if Parsed(command).Some? {
      BitesAreGood(Words(command)[1..]);
      NoMoves();
      GatheredRoots(NOTHING, Bites(Words(command)[1..]));
    }
  }

  lemma {:induction false} NoMoves()
    ensures AllMoves(NOTHING.rootMoves)
  {
  }

  lemma {:induction false} AcceptedRoots(command: string)
    requires ReadLimits(command).Ok?
    ensures AllMoves(ReadLimits(command).value.roots) && Distinct(ReadLimits(command).value.roots)
  {
    hide Parsed, Entered, Words, AllMoves;
    ParsedRootsAreMoves(command);
  }

  // ---------------------------------------------------------------- the anchor request

  function OneLimit(soft: nat): map<string, LimitValue> { map["movetime" := IntValue(soft)] }

  function Restriction(roots: seq<string>): Option<seq<string>> { if roots == [] then None else Some(roots) }

  function AnchorTokens(soft: nat, roots: seq<string>): seq<string> {
    ["go", "movetime", Decimal(soft)] + if roots == [] then [] else [SEARCHMOVES] + roots
  }

  lemma {:induction false} JoinPair(a: string, ws: seq<string>, sep: char)
    requires |ws| > 0
    ensures Join([a] + ws, sep) == a + [sep] + Join(ws, sep)
  {
    assert ([a] + ws)[1..] == ws;
  }

  lemma {:induction false} AnchorText(soft: nat, roots: seq<string>)
    ensures AnchorCommand(soft, roots) == Join(AnchorTokens(soft, roots), ' ')
  {
    hide Join, Decimal;
    var d := Decimal(soft);
    var last := if roots == [] then [d] else [d] + ([SEARCHMOVES] + roots);
    assert AnchorTokens(soft, roots) == ["go"] + (["movetime"] + last);
    JoinPair("go", ["movetime"] + last, ' ');
    JoinPair("movetime", last, ' ');
    if roots == [] {
      JoinOne(d);
    } else {
      JoinPair(d, [SEARCHMOVES] + roots, ' ');
      JoinPair(SEARCHMOVES, roots, ' ');
    }
    Spelled(d, Join(roots, ' '));
  }

  lemma {:induction false} JoinOne(w: string)
    ensures Join([w], ' ') == w
  {
  }

  lemma {:induction false} Spelled(d: string, roots: string)
    ensures "go " + ("movetime " + d) == "go" + [' '] + ("movetime" + [' '] + d)
    ensures "go movetime " + d == "go " + ("movetime " + d)
    ensures ("go movetime " + d) + (" searchmoves " + roots)
            == "go" + [' '] + ("movetime" + [' '] + (d + [' '] + (SEARCHMOVES + [' '] + roots)))
  {
    assert "go movetime " == "go " + "movetime ";
    assert " searchmoves " == [' '] + "searchmoves" + [' '];
    assert "go " == "go" + [' '] && "movetime " == "movetime" + [' '];
  }

  lemma {:induction false} OnlyName()
    ensures Ascending(["movetime"]) && IsNumeric("movetime") && !IsFlag("movetime")
  {
    assert NUMERIC[8] == "movetime";
  }

  lemma {:induction false} OneLimitPrints(limit: map<string, LimitValue>, n: string, v: nat)
    requires IsNumeric(n) && !IsFlag(n) && v >= 1 && limit == map[n := IntValue(v)]
    ensures CheckLimits(limit, [n]) == None
    ensures AllLimitTokens(limit, [n]) == [n, Decimal(v)]
    ensures PrintedLimits(limit, [n]) == [Numeric(n, v)]
  {
    hide IsNumeric, IsFlag, Decimal;
    assert [n][1..] == [];
    assert CheckLimits(limit, []) == None && AllLimitTokens(limit, []) == [] && PrintedLimits(limit, []) == [];
  }

  /** The anchor request is what building the single limit with the same root moves prints. */
  lemma {:induction false} AnchorIsBuilt(soft: nat, roots: seq<string>)
    requires soft >= 1 && AllMoves(roots) && Distinct(roots)
    ensures SortedKeys(OneLimit(soft), ["movetime"])
    ensures BuiltFrom(OneLimit(soft), ["movetime"], Restriction(roots)) == Ok(AnchorCommand(soft, roots))
    ensures Expected(OneLimit(soft), ["movetime"], Restriction(roots)) ==
            Request([Numeric("movetime", soft)], roots, [])
  {
    hide Join, Decimal, IsMove, IsNumeric, IsFlag;
    hide Lower, AnchorCommand, Ascending, CheckLimits, AllLimitTokens, PrintedLimits;
    OnlyName();
    OneLimitPrints(OneLimit(soft), "movetime", soft);
    AnchorText(soft, roots);
    DispatchAlgebra.DistinctMovesPass(roots, 0);
    DispatchAlgebra.LowerCanonical(roots);
    assert ["go"] + AllLimitTokens(OneLimit(soft), ["movetime"]) + MoveTokens(Restriction(roots)) ==
           AnchorTokens(soft, roots);
  }

  lemma {:induction false} NotTheKeyword(w: string)
    requires w == "go" || w == "movetime" || AllDigits(w) || IsMove(w)
    ensures w != SEARCHMOVES
  {
    assert SEARCHMOVES[0] == 's';
  }

  lemma {:induction false} NoKeyword(ws: seq<string>)
    requires forall i | 0 <= i < |ws| :: ws[i] != SEARCHMOVES
    ensures CountOf(ws, SEARCHMOVES) == 0
  {
    if |ws| > 0 { NoKeyword(ws[1..]); }
  }

  lemma {:induction false} CountAppend(a: seq<string>, b: seq<string>, w: string)
    ensures CountOf(a + b, w) == CountOf(a, w) + CountOf(b, w)
  {
    if |a| == 0 {
      assert a + b == b;
    } else {
      CountAppend(a[1..], b, w);
      assert (a + b)[1..] == a[1..] + b;
    }
  }

  lemma {:induction false} AnchorRootsPass(soft: nat, roots: seq<string>)
    requires AllMoves(roots) && Distinct(roots)
    ensures CheckRoots(AnchorTokens(soft, roots), roots) == None
  {
    hide IsMove, Decimal, AllDigits;
    var head := ["go", "movetime", Decimal(soft)];
    forall i | 0 <= i < 3 ensures head[i] != SEARCHMOVES { NotTheKeyword(head[i]); }
    forall i | 0 <= i < |roots| ensures roots[i] != SEARCHMOVES { NotTheKeyword(roots[i]); }
    NoKeyword(head);
    NoKeyword(roots);
    var tokens := AnchorTokens(soft, roots);
    if roots == [] {
      assert tokens == head;
    } else {
      CountAppend(head, [SEARCHMOVES] + roots, SEARCHMOVES);
      CountAppend([SEARCHMOVES], roots, SEARCHMOVES);
      forall i | 0 <= i < |roots| ensures roots[i] in tokens { assert tokens[4 + i] == roots[i]; }
    }
  }

  lemma {:induction false} AnchorWords(soft: nat, roots: seq<string>)
    requires AllMoves(roots)
    ensures Words(AnchorCommand(soft, roots)) == AnchorTokens(soft, roots)
  {
    hide Join, Decimal, IsMove, Words, AnchorCommand, IsWord;
    AnchorText(soft, roots);
    OnlyName();
    GoIsWord();
    NumericWords("movetime");
    KeywordWord(SEARCHMOVES);
    DecimalWord(soft);
    forall i | 0 <= i < |roots| ensures IsWord(roots[i]) { MoveIsLower(roots[i]); }
    WordsOfJoin(AnchorTokens(soft, roots));
  }

  /**
   The request sent to the anchor parses to exactly one movetime limit and the accepted root moves, in order, and the
   clock mode itself would read it as that fixed budget.
   */
  lemma {:induction false} AnchorReadsBack(soft: nat, roots: seq<string>)
    requires 1 <= soft <= MAX_UCI_TIME && AllMoves(roots) && Distinct(roots)
    ensures Parsed(AnchorCommand(soft, roots)) == Some(Request([Numeric("movetime", soft)], roots, []))
    ensures ReadLimits(AnchorCommand(soft, roots)) == Ok(Limits(map["movetime" := soft], roots))
  {
    hide Parsed, BuiltFrom, AnchorCommand, AllMoves, CheckRoots, Words, Distinct, Expected, SortedKeys;
    AnchorIsBuilt(soft, roots);
    BuildThenParse(OneLimit(soft), ["movetime"], Restriction(roots));
    AnchorWords(soft, roots);
    AnchorRootsPass(soft, roots);
    var limits := [Numeric("movetime", soft)];
    assert Entered(limits, 1, map["movetime" := soft]) == Ok(map["movetime" := soft]);
    assert map[]["movetime" := soft] == map["movetime" := soft];
  }

  // ---------------------------------------------------------------- everything a plan promises

  /**
   Every accepted plan: its parts fit the clock, its envelope is the declared one clamped to the move, its anchor
   request is a canonical fixed-time request for the soft budget over the caller's root moves, and the adaptive
   selection beneath it cannot fail.
   */
  lemma {:induction false} PlanPromises(command: string, position: PositionRequest, generation: int,
      s: Settings, e: Envelope,
                                        received: real, cpuStarted: int, host: Option<Host>, c: Composition)
    requires ValidSettings(s) && ValidEnvelope(e)
    requires MakePlan(command, position, generation, s, e, received, cpuStarted).Ok?
    ensures var p := MakePlan(command, position, generation, s, e, received, cpuStarted).value;
            && ClockSafety.SafePlan(p, s)
            && ReadLimits(command).Ok? && p.roots == ReadLimits(command).value.roots
            && ReadLimits(p.anchor) == Ok(Limits(map["movetime" := p.soft], p.roots))
            && p.envelope.wall == p.hard as real && BoundedForMove(e, p.hard, s.cpuParallelism) == Ok(p.envelope)
            && Planned(p.envelope, s.cpuParallelism, host, c).Ok?
  {
    hide ReadLimits, SideToMove, ValidEnvelope, Budgeted, Offered, Planned, BoundedForMove, AnchorCommand, AllMoves;
    var side := SideToMove(position).value;
    var roots := ReadLimits(command).value.roots;
    var o := Offered(side, ReadLimits(command).value.values, s).value;
    ClockSafety.PlanIsSafe(side, o, roots, s, e, received);
    var p := Budgeted(side, o, roots, s, e, received).value;
    AcceptedRoots(command);
    AnchorReadsBack(p.soft, roots);
    PlanNeverFails(e, p.hard, s.cpuParallelism, host, c);
  }
}
