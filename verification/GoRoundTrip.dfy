/** Parsing a built go command gives back exactly what was built. */
module GoRoundTrip {
  import opened Wrappers
  import opened Text
  import opened GoRequest

  // ---------------------------------------------------------------- the vocabulary

  lemma {:induction false} NumericWords(name: string)
    requires IsNumeric(name)
    ensures IsWord(name) && !IsFlag(name) && !IsKeyword(name)
  {
  }

  lemma {:induction false} FlagWords(name: string)
    requires IsFlag(name)
    ensures IsWord(name) && !IsNumeric(name) && !IsKeyword(name)
  {
  }

  lemma {:induction false} KeywordWord(name: string)
    requires IsKeyword(name)
    ensures IsWord(name) && !IsNumeric(name) && !IsFlag(name)
  {
  }

  lemma {:induction false} DecimalWord(n: nat)
    ensures IsWord(Decimal(n)) && ParseInt(Decimal(n)) == Some(n)
  {
    DecimalRoundTrip(n);
    forall i | 0 <= i < |Decimal(n)| ensures !IsSpace(Decimal(n)[i]) {
      assert IsDigit(Decimal(n)[i]);
    }
  }

  lemma {:induction false} LowerIdempotent(s: string)
    ensures Lower(Lower(s)) == Lower(s)
  {
  }

  /** The limits a dictionary prints, in name order and without its false flags. */
  function PrintedLimits(limit: map<string, LimitValue>, names: seq<string>): seq<Limit>
    requires forall n | n in names :: n in limit
  {
    if |names| == 0 then []
    else PrintedLimit(limit, names[0]) + PrintedLimits(limit, names[1..])
  }

  function PrintedLimit(limit: map<string, LimitValue>, n: string): seq<Limit>
    requires n in limit
  {
    if IsFlag(n) then (if Truthy(limit[n]) then [Flag(n)] else [])
    else if limit[n].IntValue? && limit[n].n >= 1 then [Numeric(n, limit[n].n)]
    else []
  }

  // ---------------------------------------------------------------- tokens of a built command

  lemma {:induction false} LimitTokensAreWords(limit: map<string, LimitValue>, names: seq<string>)
    requires (forall n | n in names :: n in limit) && CheckLimits(limit, names) == None
    ensures AllWords(AllLimitTokens(limit, names))
  {
    hide IsNumeric, IsFlag, Decimal, IsWord, Truthy;
    if |names| > 0 {
      var n := names[0];
      if IsFlag(n) { FlagWords(n); } else { NumericWords(n); DecimalWord(limit[n].n); }
      LimitTokensAreWords(limit, names[1..]);
      WordsAppend(LimitTokens(limit, n), AllLimitTokens(limit, names[1..]));
    }
  }

  lemma {:induction false} WordsAppend(a: seq<string>, b: seq<string>)
    requires AllWords(a) && AllWords(b)
    ensures AllWords(a + b)
  {
    hide IsWord;
  }

  lemma {:induction false} GoodMoves(moves: seq<string>, k: nat)
    requires k <= |moves| && FirstBadMove(moves, k) == None
    ensures forall i | k <= i < |moves| :: IsMove(Lower(moves[i]))
    decreases |moves| - k
  {
    hide IsMove, Lower;
    if k < |moves| { GoodMoves(moves, k + 1); }
  }

  lemma {:induction false} MoveTokensAreWords(moves: seq<string>)
    requires FirstBadMove(moves, 0) == None
    ensures AllWords(LowerAll(moves)) && forall i | 0 <= i < |moves| :: IsMove(LowerAll(moves)[i])
  {
    hide IsMove, Lower, IsWord;
    GoodMoves(moves, 0);
    forall i | 0 <= i < |moves| ensures IsWord(LowerAll(moves)[i]) && IsMove(LowerAll(moves)[i]) {
      MoveIsLower(LowerAll(moves)[i]);
    }
  }

  // ---------------------------------------------------------------- reading them back

  /** Reading the tokens of one limit adds that limit. */
  lemma {:induction false} ReadsLimit(limit: map<string, LimitValue>, n: string, r: Request, rest: seq<string>)
    requires n in limit && (IsFlag(n) || (IsNumeric(n) && limit[n].IntValue? && limit[n].n >= 1))
    ensures Gather(r, Bites(LimitTokens(limit, n) + rest))
            == Gather(r.(limits := r.limits + PrintedLimit(limit, n)), Bites(rest))
  {
    hide IsNumeric, IsFlag, IsKeyword, ParseInt, Decimal, Truthy, Bites, Gather, Add;
    var tokens := LimitTokens(limit, n) + rest;
    if IsFlag(n) {
      FlagWords(n);
      if Truthy(limit[n]) {
        assert tokens[0] == n;
        assert FirstBite(tokens) == FlagBite(n);
        BiteStep(r, tokens);
        AddIs(r, FlagBite(n));
        assert tokens[1..] == rest;
      } else {
        assert tokens == rest && r.limits + [] == r.limits;
      }
    } else {
      DecimalWord(limit[n].n);
      assert tokens[0] == n && tokens[1] == Decimal(limit[n].n);
      var b := NumericBite(n, tokens[1], limit[n].n);
      assert FirstBite(tokens) == b;
      BiteStep(r, tokens);
      AddIs(r, b);
      assert tokens[2..] == rest;
    }
  }

  lemma {:induction false} ReadsLimits(limit: map<string, LimitValue>, names: seq<string>, r: Request,
      rest: seq<string>)
    requires (forall n | n in names :: n in limit) && CheckLimits(limit, names) == None
    ensures Gather(r, Bites(AllLimitTokens(limit, names) + rest))
            == Gather(r.(limits := r.limits + PrintedLimits(limit, names)), Bites(rest))
    decreases |names|
  {
    hide IsNumeric, IsFlag, Bites, Gather, LimitTokens, PrintedLimit;
    if |names| == 0 {
      assert [] + rest == rest && r.limits + [] == r.limits;
    } else {
      var n := names[0];
      var tail := AllLimitTokens(limit, names[1..]) + rest;
      ReadsLimit(limit, n, r, tail);
      assert AllLimitTokens(limit, names) + rest == LimitTokens(limit, n) + tail;
      var mid := r.(limits := r.limits + PrintedLimit(limit, n));
      ReadsLimits(limit, names[1..], mid, rest);
      assert mid.limits + PrintedLimits(limit, names[1..]) == r.limits + PrintedLimits(limit, names);
    }
  }

  lemma {:induction false} WholeRun(moves: seq<string>)
    requires forall i | 0 <= i < |moves| :: IsMove(Lower(moves[i]))
    ensures MoveRun(moves) == |moves|
  {
  }

  lemma {:induction false} ReadsMoves(moves: seq<string>, r: Request)
    requires FirstBadMove(moves, 0) == None
    ensures Gather(r, Bites([SEARCHMOVES] + LowerAll(moves))) == r.(rootMoves := r.rootMoves + LowerAll(moves))
  {
    hide IsNumeric, IsFlag, IsMove, Lower, Bites, Gather, Add, FirstBadMove;
    var lowered := LowerAll(moves);
    var tokens := [SEARCHMOVES] + lowered;
    KeywordWord(SEARCHMOVES);
    GoodMoves(moves, 0);
    forall i | 0 <= i < |lowered| ensures Lower(lowered[i]) == lowered[i] && IsMove(Lower(lowered[i])) {
      LowerIdempotent(moves[i]);
    }
    WholeRun(lowered);
    assert tokens[1..] == lowered && lowered[..|lowered|] == lowered;
    var b := MovesBite(SEARCHMOVES, lowered);
    assert FirstBite(tokens) == b;
    BiteStep(r, tokens);
    AddIs(r, b);
    assert LowerAll(lowered) == lowered;
    assert tokens[|Consumed(b)|..] == [];
    GatherNone(Add(r, b));
  }

  /** What the parser should return for a built command. */
  function Expected(limit: map<string, LimitValue>, names: seq<string>, searchmoves: Option<seq<string>>): Request
    requires forall n | n in names :: n in limit
  {
    Request(PrintedLimits(limit, names), match searchmoves case None => [] case Some(ms) => LowerAll(ms), [])
  }

  lemma {:induction false} ReadsAll(limit: map<string, LimitValue>, names: seq<string>,
      searchmoves: Option<seq<string>>)
    requires (forall n | n in names :: n in limit) && CheckLimits(limit, names) == None
             && CheckMoves(searchmoves) == None
    ensures Gather(NOTHING, Bites(AllLimitTokens(limit, names) + MoveTokens(searchmoves))) ==
            Expected(limit, names, searchmoves)
  {
    hide Bites, Gather, FirstBadMove, LowerAll, CheckLimits, AllLimitTokens, PrintedLimits;
    ReadsLimits(limit, names, NOTHING, MoveTokens(searchmoves));
    var r := NOTHING.(limits := [] + PrintedLimits(limit, names));
    assert [] + PrintedLimits(limit, names) == PrintedLimits(limit, names);
    match searchmoves
    case None => GatherNone(r);
    case Some(ms) =>
      ReadsMoves(ms, r);
      assert [] + LowerAll(ms) == LowerAll(ms);
  }

  lemma {:induction false} PartsAreWords(limit: map<string, LimitValue>, names: seq<string>,
      searchmoves: Option<seq<string>>)
    requires (forall n | n in names :: n in limit) && CheckLimits(limit, names) == None
             && CheckMoves(searchmoves) == None
    ensures AllWords(["go"] + AllLimitTokens(limit, names) + MoveTokens(searchmoves))
  {
    hide IsWord, FirstBadMove, LowerAll, CheckLimits, AllLimitTokens;
    LimitTokensAreWords(limit, names);
    assert IsWord("go") by { GoIsWord(); }
    WordsAppend(["go"], AllLimitTokens(limit, names));
    match searchmoves
    case None => WordsAppend(["go"] + AllLimitTokens(limit, names), []);
    case Some(ms) =>
      MoveTokensAreWords(ms);
      KeywordWord(SEARCHMOVES);
      WordsAppend([SEARCHMOVES], LowerAll(ms));
      WordsAppend(["go"] + AllLimitTokens(limit, names), [SEARCHMOVES] + LowerAll(ms));
  }

  lemma {:induction false} GoIsWord()
    ensures IsWord("go")
  {
  }

  lemma {:induction false} StartsWithGo(parts: seq<string>)
    requires |parts| > 1 && parts[0] == "go"
    ensures IsGo(Join(parts, ' '))
  {
    var s := Join(parts, ' ');
    assert s == "go" + [' '] + Join(parts[1..], ' ');
    assert "go " == "go" + [' '];
    assert s[..3] == "go ";
  }

  /** Building then parsing returns the sorted limits without false flags, the moves in order, and nothing unknown. */
  lemma {:induction false} BuildThenParse(limit: map<string, LimitValue>, names: seq<string>,
      searchmoves: Option<seq<string>>)
    requires SortedKeys(limit, names) && BuiltFrom(limit, names, searchmoves).Ok?
    ensures Parsed(BuiltFrom(limit, names, searchmoves).value) == Some(Expected(limit, names, searchmoves))
  {
    hide IsGo, Bites, Gather, Expected, Words, Join, AllLimitTokens, MoveTokens, CheckLimits, CheckMoves;
    var tokens := AllLimitTokens(limit, names) + MoveTokens(searchmoves);
    var parts := ["go"] + AllLimitTokens(limit, names) + MoveTokens(searchmoves);
    assert parts == ["go"] + tokens;
    PartsAreWords(limit, names, searchmoves);
    WordsOfJoin(parts);
    StartsWithGo(parts);
    assert parts[1..] == tokens;
    ReadsAll(limit, names, searchmoves);
  }
}
