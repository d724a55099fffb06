/** The "position" command: printing a request and reading it back. */
module Position {
  import opened Wrappers
  import opened Text

  const STARTPOS := "rnbqkbnr/pppppppp/8/8/8/8/PPPPPPPP/RNBQKBNR w KQkq - 0 1"

  datatype PositionRequest = PositionRequest(baseFen: string, moves: seq<string>, variant: string)

  datatype PositionError = NotPosition | UnsupportedVariant | MissingFen | UnsupportedCommand | TrailingMaterial
      | BadMove(token: string)

  /** The command text of a request. */
  function Command(p: PositionRequest): string {
    var head := if p.baseFen == STARTPOS then "position startpos" else "position fen " + p.baseFen;
    if p.moves == [] then head else head + (" moves " + Join(p.moves, ' '))
  }

  predicate KnownVariant(v: string) { v == "standard" || v == "chess960" }

  /** pat occurs in s at position i. */
  predicate OccursAt(s: string, pat: string, i: nat) {
    i + |pat| <= |s| && s[i..i + |pat|] == pat
  }

  /** The first occurrence of pat in s at or after i, or the length of s. */
  function Find(s: string, pat: string, i: nat): (k: nat)
    requires i <= |s|
    ensures i <= k <= |s|
    ensures forall j | i <= j < k :: !OccursAt(s, pat, j)
    ensures k < |s| ==> OccursAt(s, pat, k)
    decreases |s| - i
  {
    if i == |s| || OccursAt(s, pat, i) then i else Find(s, pat, i + 1)
  }

  const MOVES := " moves"

  predicate Contains(s: string, pat: string) { Find(s, pat, 0) < |s| }

  function FirstBadToken(tokens: seq<string>): Option<string> {
    if |tokens| == 0 then None
    else if !IsMove(Lower(tokens[0])) then Some(tokens[0])
    else FirstBadToken(tokens[1..])
  }

  /** Read the optional moves section that follows the base position. */
  function ParseMoves(fen: string, rest: string, variant: string): Result<PositionRequest, PositionError> {
    if rest == "" then Ok(PositionRequest(fen, [], variant))
    else if rest != "moves" && !("moves " <= rest) then Err(TrailingMaterial)
    else
      var words := Words(rest);
      if |words| == 0 then Err(TrailingMaterial)
      else match FirstBadToken(words[1..])
        case Some(t) => Err(BadMove(t))
        case None => Ok(PositionRequest(fen, LowerAll(words[1..]), variant))
  }

  /** Read the part of a command that follows "fen ". */
  function ParseFenBody(body: string, variant: string): Result<PositionRequest, PositionError> {
    var k := Find(body, MOVES, 0);
    var fen := Strip(body[..k]);
    if fen == "" then Err(MissingFen)
    else ParseMoves(fen, if k < |body| then Strip("moves" + body[k + 6..]) else "", variant)
  }

  function ParsePosition(command: string, variant: string): Result<PositionRequest, PositionError> {
    if !("position " <= command) then Err(NotPosition)
    else if !KnownVariant(variant) then Err(UnsupportedVariant)
    else
      var rest := Strip(command[9..]);
      if rest == "startpos" || "startpos " <= rest then ParseMoves(STARTPOS, Strip(rest[8..]), variant)
      else if "fen " <= rest then ParseFenBody(Strip(rest[4..]), variant)
      else Err(UnsupportedCommand)
  }

  /** Read the moves section: every token, lower-cased, must be a move. */
  method TakeMoveSection(fen: string, rest: string, variant: string) returns (r: Result<PositionRequest, PositionError>)
    ensures r == ParseMoves(fen, rest, variant)
  {
    hide IsMove, Lower, Words, FirstBadToken;
    var moves: seq<string> := [];
    if rest != "" {
      if rest != "moves" && !("moves " <= rest) { return Err(TrailingMaterial); }
      SectionHasWord(rest);
      var tokens := Words(rest)[1..];
      for i := 0 to |tokens|
        invariant moves == LowerAll(tokens[..i])
        invariant FirstBadToken(tokens) == FirstBadToken(tokens[i..])
      {
        var lowered := Lower(tokens[i]);
        NextToken(tokens, i);
        if !IsMove(lowered) { return Err(BadMove(tokens[i])); }
        moves := moves + [lowered];
      }
      assert tokens[..|tokens|] == tokens && tokens[|tokens|..] == [];
      NoTokens();
    }
    r := Ok(PositionRequest(fen, moves, variant));
  }

  lemma {:induction false} NextToken(tokens: seq<string>, i: nat)
    requires i < |tokens|
    ensures LowerAll(tokens[..i + 1]) == LowerAll(tokens[..i]) + [Lower(tokens[i])]
    ensures FirstBadToken(tokens[i..]) ==
            if IsMove(Lower(tokens[i])) then FirstBadToken(tokens[i + 1..]) else Some(tokens[i])
  {
    assert tokens[i..][1..] == tokens[i + 1..];
  }

  lemma {:induction false} NoTokens()
    ensures FirstBadToken([]) == None && LowerAll([]) == []
  {
  }

  lemma {:induction false} SectionHasWord(rest: string)
    requires "m" <= rest
    ensures |Words(rest)| > 0
  {
  }

  /** Rebuild a request from the text of a position command. */
  method ParsePositionCommand(command: string, variant: string) returns (r: Result<PositionRequest, PositionError>)
    ensures r == ParsePosition(command, variant)
  {
    hide ParseMoves, Strip, Find;
    if !("position " <= command) { return Err(NotPosition); }
    if !KnownVariant(variant) { return Err(UnsupportedVariant); }
    var rest := Strip(command[9..]);
    var fen;
    if rest == "startpos" || "startpos " <= rest {
      fen := STARTPOS;
      rest := Strip(rest[8..]);
    } else if "fen " <= rest {
      rest := Strip(rest[4..]);
      var k := Find(rest, MOVES, 0);
      fen := Strip(rest[..k]);
      rest := if k < |rest| then Strip("moves" + rest[k + 6..]) else "";
      if fen == "" { return Err(MissingFen); }
    } else {
      return Err(UnsupportedCommand);
    }
    r := TakeMoveSection(fen, rest, variant);
  }

  // ---------------------------------------------------------------- which requests survive printing

  /** A FEN field that printing keeps recognisable. */
  predicate GoodFen(fen: string) { Trimmed(fen) && fen != "" && !Contains(fen, MOVES) }

  predicate Printable(p: PositionRequest) {
    KnownVariant(p.variant) && AllMoves(p.moves) && (p.baseFen == STARTPOS || GoodFen(p.baseFen))
  }
}
