/** From a printed clock request to the plan of the side that is to move. */
module ClockRequest {
  import opened Wrappers
  import opened Text
  import opened GoRequest
  import opened GoRoundTrip
  import opened Position
  import opened TimePlan
  import AnchorRequest
  import ClockSafety

  // ---------------------------------------------------------------- the share of the clock

  function Times(a: real, b: real): real { a * b }

  lemma {:induction false} TimesQuotient(h: real, c: real, x: real)
    requires h > 0.0
    ensures Times(h, c / h + x) == c + Times(h, x)
  {
  }

  lemma {:induction false} TimesLess(h: real, x: real, y: real)
    requires h > 0.0 && x <= y
    ensures Times(h, x) <= Times(h, y) && (x < y ==> Times(h, x) < Times(h, y))
  {
    if x < y { assert h * (y - x) > 0.0; }
  }

  lemma {:induction false} Sustained(h: real, c: real, x: real, k: real, y: real)
    requires h > 0.0 && y == c / h + x && k <= y < k + 1.0
    ensures Times(h, k) <= c + Times(h, x) < Times(h, k + 1.0)
  {
    hide Times;
    TimesQuotient(h, c, x);
    TimesLess(h, k, y);
    TimesLess(h, y, k + 1.0);
  }

  /**
   The share is the largest whole number of milliseconds that the clock, with the hinted increments, can pay for on
   every move of the horizon.
   */
  lemma {:induction false} ShareIsSustainable(clock: int, horizon: int, fraction: real, increment: int)
    requires horizon > 0
    ensures var h, k := horizon as real, Share(clock, horizon, fraction, increment) as real;
            Times(h, k) <= clock as real + Times(h, fraction * increment as real) < Times(h, k + 1.0)
  {
    hide Times;
    var h, c, x := horizon as real, clock as real, fraction * increment as real;
    ClockSafety.FloorBelow(c / h + x);
    Sustained(h, c, x, (c / h + x).Floor as real, c / h + x);
  }

  // ---------------------------------------------------------------- whose move it is

  /** Each further move of the history passes the turn. */
  lemma {:induction false} SideAlternates(p: PositionRequest, move: string)
    ensures SideToMove(p).Some? <==> SideToMove(p.(moves := p.moves + [move])).Some?
    ensures SideToMove(p).Some? ==>
              var a, b := SideToMove(p).value, SideToMove(p.(moves := p.moves + [move])).value;
              (a == "w" && b == "b") || (a == "b" && b == "w")
  {
    hide Words;
  }

  // ---------------------------------------------------------------- reading a built clock request

  /** A dictionary of plain numeric limits within the range of the protocol. */
  predicate ClockLimits(limit: map<string, LimitValue>) {
    forall n | n in limit :: IsNumeric(n) && !IsFlag(n) && limit[n].IntValue? && 1 <= limit[n].n <= MAX_UCI_TIME
  }

  function ValuesOf(limit: map<string, LimitValue>): map<string, int> {
    map n | n in limit && limit[n].IntValue? :: limit[n].n
  }

  lemma {:induction false} PrintedAre(limit: map<string, LimitValue>, names: seq<string>)
    requires ClockLimits(limit) && forall n | n in names :: n in limit
    ensures |PrintedLimits(limit, names)| == |names|
    ensures forall k | 0 <= k < |names| :: PrintedLimits(limit, names)[k] == Numeric(names[k], limit[names[k]].n)
  {
    hide IsNumeric, IsFlag;
    if |names| > 0 { PrintedAre(limit, names[1..]); }
  }

  /** What has been entered before the k-th limit. */
  function Before(limit: map<string, LimitValue>, names: seq<string>, k: nat): map<string, int>
    requires k <= |names|
  {
    map n | n in names[..k] && n in limit && limit[n].IntValue? :: limit[n].n
  }

  lemma {:induction false} AllEntered(limit: map<string, LimitValue>, names: seq<string>, k: nat)
    requires ClockLimits(limit) && SortedKeys(limit, names) && k <= |names| == |PrintedLimits(limit, names)|
    ensures Entered(PrintedLimits(limit, names), 0, map[]) ==
            Entered(PrintedLimits(limit, names), k, Before(limit, names, k))
    ensures k == |names| ==> Entered(PrintedLimits(limit, names), 0, map[]) == Ok(ValuesOf(limit))
  {
    hide ClockLimits, PrintedLimits, Ascending, Before, ValuesOf, Entered;
    PrintedAre(limit, names);
    if k == 0 {
      NothingBefore(limit, names);
    } else {
      AllEntered(limit, names, k - 1);
      EnteredNext(limit, names, k - 1);
    }
    if k == |names| { EverythingBefore(limit, names); }
  }

  lemma {:induction false} NothingBefore(limit: map<string, LimitValue>, names: seq<string>)
    ensures Before(limit, names, 0) == map[]
  {
  }

  lemma {:induction false} EverythingBefore(limit: map<string, LimitValue>, names: seq<string>)
    requires ClockLimits(limit) && SortedKeys(limit, names) && |PrintedLimits(limit, names)| == |names|
    ensures Entered(PrintedLimits(limit, names), |names|, Before(limit, names, |names|)) == Ok(ValuesOf(limit))
  {
    hide ClockLimits, PrintedLimits, Ascending;
    assert names[..|names|] == names;
    assert Before(limit, names, |names|) == ValuesOf(limit);
  }

  lemma {:induction false} EnteredNext(limit: map<string, LimitValue>, names: seq<string>, k: nat)
    requires ClockLimits(limit) && SortedKeys(limit, names) && k < |names|
    requires |PrintedLimits(limit, names)| == |names|
        && PrintedLimits(limit, names)[k] == Numeric(names[k], limit[names[k]].n)
    ensures Entered(PrintedLimits(limit, names), k, Before(limit, names, k))
            == Entered(PrintedLimits(limit, names), k + 1, Before(limit, names, k + 1))
  {
    hide IsNumeric, IsFlag, PrintedLimits, TextLe;
    assert names[..k + 1] == names[..k] + [names[k]];
    assert Before(limit, names, k + 1) == Before(limit, names, k)[names[k] := limit[names[k]].n];
    assert names[k] !in names[..k];
  }

  lemma {:induction false} NumericIsNoKeyword(n: string)
    requires IsNumeric(n)
    ensures n != SEARCHMOVES
  {
    KeywordWord(SEARCHMOVES);
  }

  lemma {:induction false} LimitTokensAvoidKeyword(limit: map<string, LimitValue>, names: seq<string>)
    requires ClockLimits(limit) && forall n | n in names :: n in limit
    ensures forall i | 0 <= i < |AllLimitTokens(limit, names)| :: AllLimitTokens(limit, names)[i] != SEARCHMOVES
  {
    hide IsNumeric, IsFlag, Decimal, AllDigits;
    if |names| > 0 {
      var n := names[0];
      NumericIsNoKeyword(n);
      AnchorRequest.NotTheKeyword(Decimal(limit[n].n));
      LimitTokensAvoidKeyword(limit, names[1..]);
    }
  }

  lemma {:induction false} GoodMovesDiffer(moves: seq<string>, k: nat)
    requires k <= |moves| && FirstBadMove(moves, k) == None
    ensures forall i, j | 0 <= i < j < |moves| && k <= j :: LowerAll(moves)[i] != LowerAll(moves)[j]
    decreases |moves| - k
  {
    hide IsMove, Lower;
    if k < |moves| {
      GoodMovesDiffer(moves, k + 1);
      forall i | 0 <= i < k ensures LowerAll(moves)[i] != LowerAll(moves)[k] {
        assert LowerAll(moves[..k])[i] == LowerAll(moves)[i];
      }
    }
  }

  function RootsGiven(searchmoves: Option<seq<string>>): seq<string> {
    match searchmoves case None => [] case Some(ms) => LowerAll(ms)
  }

  lemma {:induction false} RootsPass(head: seq<string>, searchmoves: Option<seq<string>>)
    requires CheckMoves(searchmoves) == None && forall i | 0 <= i < |head| :: head[i] != SEARCHMOVES
    ensures CheckRoots(head + MoveTokens(searchmoves), RootsGiven(searchmoves)) == None
  {
    hide FirstBadMove, LowerAll;
    AnchorRequest.NoKeyword(head);
    match searchmoves
    case None =>
      assert head + [] == head;
    case Some(ms) =>
      var roots := LowerAll(ms);
      var tokens := head + ([SEARCHMOVES] + roots);
      RootsAreCanonical(ms);
      AnchorRequest.NoKeyword(roots);
      AnchorRequest.CountAppend(head, [SEARCHMOVES] + roots, SEARCHMOVES);
      AnchorRequest.CountAppend([SEARCHMOVES], roots, SEARCHMOVES);
      forall i | 0 <= i < |roots| ensures roots[i] in tokens { assert tokens[|head| + 1 + i] == roots[i]; }
  }

  lemma {:induction false} RootsAreCanonical(ms: seq<string>)
    requires ms != [] && FirstBadMove(ms, 0) == None
    ensures LowerAll(ms) != [] && Distinct(LowerAll(ms)) && AllMoves(LowerAll(ms))
    ensures forall i | 0 <= i < |LowerAll(ms)| :: LowerAll(ms)[i] != SEARCHMOVES
  {
    hide IsMove, Lower;
    GoodMovesDiffer(ms, 0);
    MoveTokensAreWords(ms);
    forall i | 0 <= i < |LowerAll(ms)| ensures LowerAll(ms)[i] != SEARCHMOVES {
      AnchorRequest.NotTheKeyword(LowerAll(ms)[i]);
    }
  }

  /** A built request with plain numeric limits is read back as exactly those limits and its lower-cased root moves. */
  lemma {:induction false} BuiltClockReads(limit: map<string, LimitValue>, names: seq<string>,
      searchmoves: Option<seq<string>>)
    requires ClockLimits(limit) && SortedKeys(limit, names) && BuiltFrom(limit, names, searchmoves).Ok?
    ensures ReadLimits(BuiltFrom(limit, names, searchmoves).value) ==
            Ok(Limits(ValuesOf(limit), RootsGiven(searchmoves)))
  {
    hide Parsed, Words, Join, CheckLimits, AllLimitTokens, PrintedLimits;
    hide FirstBadMove, CheckRoots, Entered, LowerAll, ClockLimits, Ascending, IsWord;
    BuildThenParse(limit, names, searchmoves);
    PrintedAre(limit, names);
    AllEntered(limit, names, |names|);
    PartsAreWords(limit, names, searchmoves);
    var head := ["go"] + AllLimitTokens(limit, names);
    WordsOfJoin(head + MoveTokens(searchmoves));
    LimitTokensAvoidKeyword(limit, names);
    AnchorRequest.NotTheKeyword("go");
    RootsPass(head, searchmoves);
  }
}
