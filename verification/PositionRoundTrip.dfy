/** Exactly which position requests are read back as they were printed. */
module PositionRoundTrip {
  import opened Wrappers
  import opened Text
  import opened Position

  // ---------------------------------------------------------------- parsed requests are printable

  lemma {:induction false} TokensLowerToMoves(tokens: seq<string>)
    requires FirstBadToken(tokens) == None
    ensures AllMoves(LowerAll(tokens))
  {
    hide IsMove, Lower;
    if |tokens| > 0 {
      TokensLowerToMoves(tokens[1..]);
      assert forall i | 1 <= i < |tokens| :: LowerAll(tokens)[i] == LowerAll(tokens[1..])[i - 1];
    }
  }

  /** Stripping yields a slice. */
  lemma {:induction false} StripSlices(s: string) returns (a: nat, b: nat)
    ensures a <= b <= |s| && Strip(s) == s[a..b]
  {
    var t := TrimLeft(s);
    a := |s| - |t|;
    b := a + |Strip(s)|;
    assert Strip(s) == t[..|Strip(s)|];
  }

  lemma {:induction false} SliceOfSlice(s: string, a: nat, b: nat, i: nat, j: nat)
    requires a <= b <= |s| && i <= j <= b - a
    ensures s[a..b][i..j] == s[a + i..a + j]
  {
    assert forall k | 0 <= k < j - i :: s[a..b][i..j][k] == s[a + i..a + j][k];
  }

  lemma {:induction false} NotInSlice(s: string, pat: string, a: nat, b: nat, j: nat)
    requires a <= b <= |s| && OccursAt(s[a..b], pat, j)
    ensures OccursAt(s, pat, a + j)
  {
    SliceOfSlice(s, a, b, j, j + |pat|);
  }

  /** A slice of the text before the first occurrence does not contain the pattern. */
  lemma {:induction false} SliceBeforeFind(s: string, pat: string, k: nat, a: nat, b: nat)
    requires k <= |s| && (forall j | 0 <= j < k :: !OccursAt(s, pat, j)) && a <= b <= k
    ensures !Contains(s[a..b], pat)
  {
    hide OccursAt;
    var j := Find(s[a..b], pat, 0);
    if j < b - a { NotInSlice(s, pat, a, b, j); }
  }

  lemma {:induction false} FieldBefore(body: string, pat: string, k: nat)
    requires k == Find(body, pat, 0)
    ensures Trimmed(Strip(body[..k])) && !Contains(Strip(body[..k]), pat)
  {
    hide Find, Contains, Strip, Trimmed, OccursAt;
    StripTrims(body[..k]);
    var a, b := StripSlices(body[..k]);
    SliceOfSlice(body, 0, k, a, b);
    SliceBeforeFind(body, pat, k, a, b);
  }

  lemma {:induction false} ParsedMoves(fen: string, rest: string, variant: string)
    ensures ParseMoves(fen, rest, variant).Ok? ==>
              var r := ParseMoves(fen, rest, variant).value;
              r.baseFen == fen && r.variant == variant && AllMoves(r.moves)
  {
    hide IsMove, Lower, Words, LowerAll;
    if ParseMoves(fen, rest, variant).Ok? && rest != "" {
      TokensLowerToMoves(Words(rest)[1..]);
    }
  }

  /** Whatever parsing returns could have been printed. */
  lemma {:induction false} ParsedIsPrintable(command: string, variant: string)
    requires ParsePosition(command, variant).Ok?
    ensures Printable(ParsePosition(command, variant).value)
  {
    hide ParseMoves, Find, Contains, Strip, AllMoves;
    var rest := Strip(command[9..]);
    if rest == "startpos" || "startpos " <= rest {
      ParsedMoves(STARTPOS, Strip(rest[8..]), variant);
    } else {
      var body := Strip(rest[4..]);
      var k := Find(body, MOVES, 0);
      FieldBefore(body, MOVES, k);
      ParsedMoves(Strip(body[..k]), if k < |body| then Strip("moves" + body[k + 6..]) else "", variant);
    }
  }

  // ---------------------------------------------------------------- printed requests are parsed back

  function Tail(moves: seq<string>): string { if moves == [] then "" else " moves " + Join(moves, ' ') }

  /** Tokens that are moves in upper or lower case. */
  predicate Movelike(tokens: seq<string>) { forall i | 0 <= i < |tokens| :: IsMove(Lower(tokens[i])) }

  lemma {:induction false} NoTail(head: string)
    ensures head + Tail([]) == head
  {
  }

  lemma {:induction false} MovesAreMovelike(moves: seq<string>)
    requires AllMoves(moves)
    ensures Movelike(moves) && LowerAll(moves) == moves
  {
    hide IsMove, Lower;
    forall i | 0 <= i < |moves| ensures Lower(moves[i]) == moves[i] { MoveIsLower(moves[i]); }
  }

  lemma {:induction false} NoBadToken(tokens: seq<string>)
    requires Movelike(tokens)
    ensures FirstBadToken(tokens) == None
  {
    hide IsMove, Lower;
    if |tokens| > 0 { NoBadToken(tokens[1..]); }
  }

  lemma {:induction false} LowersToWord(token: string)
    requires IsMove(Lower(token))
    ensures IsWord(token)
  {
    assert forall i | 0 <= i < |token| :: Lower(token)[i] == LowerChar(token[i]);
  }

  lemma {:induction false} MovelikeWords(tokens: seq<string>)
    requires Movelike(tokens)
    ensures AllWords(tokens) && FirstBadToken(tokens) == None
  {
    hide IsMove, IsWord, Lower, FirstBadToken;
    NoBadToken(tokens);
    forall i | 0 <= i < |tokens| ensures IsWord(tokens[i]) { LowersToWord(tokens[i]); }
  }

  lemma {:induction false} JoinEnds(ws: seq<string>)
    requires |ws| > 0 && AllWords(ws)
    ensures |Join(ws, ' ')| > 0 && Trimmed(Join(ws, ' '))
  {
    assert IsWord(ws[0]);
    if |ws| > 1 {
      JoinEnds(ws[1..]);
      var rest := Join(ws[1..], ' ');
      var s := Join(ws, ' ');
      assert s == ws[0] + [' '] + rest;
      assert s[|s| - 1] == rest[|rest| - 1] && s[0] == ws[0][0];
    }
  }

  /** A move section reads back as its moves. */
  lemma {:induction false} MoveSection(fen: string, tokens: seq<string>, variant: string)
    requires Movelike(tokens)
    ensures tokens != [] ==>
              && Trimmed("moves " + Join(tokens, ' '))
              && Strip("moves " + Join(tokens, ' ')) == "moves " + Join(tokens, ' ')
    ensures tokens != [] ==>
              ParseMoves(fen, "moves " + Join(tokens, ' '), variant)
              == Ok(PositionRequest(fen, LowerAll(tokens), variant))
    ensures tokens == [] ==> ParseMoves(fen, "", variant) == Ok(PositionRequest(fen, LowerAll(tokens), variant))
  {
    hide IsMove, IsWord, Words, FirstBadToken, Movelike;
    if tokens != [] {
      MovelikeWords(tokens);
      var ws := ["moves"] + tokens;
      MovesWord();
      assert AllWords(ws);
      assert ws[1..] == tokens;
      var s := "moves " + Join(tokens, ' ');
      assert "moves " == "moves" + [' '];
      assert s == Join(ws, ' ');
      WordsOfJoin(ws);
      JoinEnds(ws);
      StripTrims(s);
      assert s[..6] == "moves ";
    } else {
      assert LowerAll(tokens) == [];
    }
  }

  lemma {:induction false} MovesWord()
    ensures IsWord("moves")
  {
  }

  /** How the marker and the moves behind it split. */
  lemma {:induction false} MarkerText(m: string)
    ensures (" moves " + m)[..6] == MOVES && (" moves " + m)[6..] == " " + m
    ensures " moves " + m == " " + ("moves " + m) && "moves" + (" " + m) == "moves " + m
  {
    assert " moves " == MOVES + " ";
    assert " moves " + m == MOVES + (" " + m);
  }

  lemma {:induction false} TailEnds(moves: seq<string>)
    requires Movelike(moves) && moves != []
    ensures |Tail(moves)| > 6 && !IsSpace(Tail(moves)[|Tail(moves)| - 1]) && Tail(moves)[..6] == MOVES
    ensures Tail(moves)[6..] == " " + Join(moves, ' ') && Strip(Tail(moves)) == "moves " + Join(moves, ' ')
  {
    hide IsMove, IsWord, Movelike, Join, Strip, IsSpace, ParseMoves;
    MovelikeWords(moves);
    JoinEnds(moves);
    MarkerText(Join(moves, ' '));
    MoveSection("", moves, "");
    SkipSpace("moves " + Join(moves, ' '));
  }

  lemma {:induction false} SkipSpace(s: string)
    ensures Strip(" " + s) == Strip(s)
  {
    assert (" " + s)[1..] == s;
  }

  lemma {:induction false} TrimmedJoin(a: string, b: string)
    requires |a| > 0 && !IsSpace(a[0]) && (if |b| > 0 then !IsSpace(b[|b| - 1]) else !IsSpace(a[|a| - 1]))
    ensures Trimmed(a + b) && Strip(a + b) == a + b
  {
    StripTrims(a + b);
  }

  lemma {:induction false} StartReads(tokens: seq<string>, variant: string)
    requires KnownVariant(variant) && Movelike(tokens)
    ensures ParsePosition("position startpos" + Tail(tokens), variant)
            == Ok(PositionRequest(STARTPOS, LowerAll(tokens), variant))
  {
    hide IsMove, Movelike, ParseMoves, Strip, Trimmed, Join, KnownVariant;
    var t := Tail(tokens);
    var c := "position startpos" + t;
    assert c == "position " + ("startpos" + t);
    assert c[..9] == "position " && c[9..] == "startpos" + t;
    if tokens != [] { TailEnds(tokens); }
    TrimmedJoin("startpos", t);
    var rest := "startpos" + t;
    assert rest[8..] == t;
    assert tokens != [] ==> rest[..9] == "startpos ";
    MoveSection(STARTPOS, tokens, variant);
    StripEmpty();
  }

  lemma {:induction false} StripEmpty()
    ensures Strip("") == ""
  {
  }

  /** The first occurrence is where it first occurs. */
  lemma {:induction false} FindIs(s: string, pat: string, k: nat)
    requires k <= |s| && (k < |s| ==> OccursAt(s, pat, k)) && forall j | 0 <= j < k :: !OccursAt(s, pat, j)
    ensures Find(s, pat, 0) == k
  {
    hide OccursAt;
  }

  /** The marker does not occur before the end of a field that does not contain it. */
  lemma {:induction false} NotBefore(fen: string, tail: string, j: nat)
    requires !OccursAt(fen, MOVES, j) && j < |fen| && (tail == "" || tail[0] == ' ')
    ensures !OccursAt(fen + tail, MOVES, j)
  {
    var s := fen + tail;
    if j + 6 <= |fen| {
      assert s[j..j + 6] == fen[j..j + 6];
    } else if j + 6 <= |s| {
      assert s[|fen|] == tail[0];
      OverlapImpossible(s, |fen|, j);
    }
  }

  /** The section marker is found right after a FEN field that does not contain it. */
  lemma {:induction false} FindsSection(fen: string, moves: seq<string>)
    requires Movelike(moves) && !Contains(fen, MOVES)
    ensures Find(fen + Tail(moves), MOVES, 0) == |fen|
  {
    hide IsMove, AllMoves, Find, OccursAt;
    var s := fen + Tail(moves);
    forall j | 0 <= j < |fen| ensures !OccursAt(s, MOVES, j) {
      NotBefore(fen, Tail(moves), j);
    }
    if moves != [] { MarkerAt(fen, Join(moves, ' ')); }
    FindIs(s, MOVES, |fen|);
  }

  lemma {:induction false} MarkerAt(fen: string, m: string)
    ensures OccursAt(fen + (" moves " + m), MOVES, |fen|)
  {
    MarkerText(m);
    var t := " moves " + m;
    assert (fen + t)[|fen|..|fen| + 6] == t[..6];
  }

  /** An occurrence cannot straddle a blank other than its first character. */
  lemma {:induction false} OverlapImpossible(s: string, n: nat, j: nat)
    requires j < n < j + 6 <= |s| && s[n] == ' '
    ensures s[j..j + 6] != MOVES
  {
    assert s[j..j + 6][n - j] == ' ';
    assert MOVES[1] == 'm' && MOVES[2] == 'o' && MOVES[3] == 'v' && MOVES[4] == 'e' && MOVES[5] == 's';
  }

  lemma {:induction false} FenText(f: string, t: string)
    ensures ("position fen " + f) + t == "position " + ("fen " + (f + t))
    ensures ("position " + ("fen " + (f + t)))[9..] == "fen " + (f + t)
        && "position " <= "position " + ("fen " + (f + t))
    ensures ("fen " + (f + t))[4..] == f + t && "fen " <= "fen " + (f + t)
    ensures "fen " + (f + t) != "startpos" && !("startpos " <= "fen " + (f + t))
    ensures (f + t)[..|f|] == f && (f + t)[|f|..] == t
  {
    assert "position fen " == "position " + "fen ";
    assert ("fen " + (f + t))[0] == 'f';
  }

  /** Reading the body of a printed FEN request. */
  lemma {:induction false} BodyReads(f: string, tokens: seq<string>, variant: string)
    requires Movelike(tokens) && GoodFen(f)
    ensures ParseFenBody(f + Tail(tokens), variant) == Ok(PositionRequest(f, LowerAll(tokens), variant))
  {
    hide IsMove, Movelike, ParseMoves, Strip, Join, Find, Contains;
    var t := Tail(tokens);
    FindsSection(f, tokens);
    assert (f + t)[..|f|] == f;
    StripTrims(f);
    MoveSection(f, tokens, variant);
    if tokens != [] {
      TailEnds(tokens);
      assert (f + t)[|f| + 6..] == t[6..];
      MarkerText(Join(tokens, ' '));
    }
  }

  lemma {:induction false} FenReads(f: string, tokens: seq<string>, variant: string)
    requires KnownVariant(variant) && Movelike(tokens) && GoodFen(f)
    ensures ParsePosition("position fen " + f + Tail(tokens), variant)
            == Ok(PositionRequest(f, LowerAll(tokens), variant))
  {
    hide IsMove, Movelike, ParseMoves, Strip, Join, KnownVariant, GoodFen, ParseFenBody, IsSpace;
    FenText(f, Tail(tokens));
    BodyReads(f, tokens, variant);
    BodyEnds(f, tokens);
  }

  /** Stripping leaves the parts of a printed FEN request alone. */
  lemma {:induction false} BodyEnds(f: string, moves: seq<string>)
    requires Movelike(moves) && GoodFen(f)
    ensures Strip(f + Tail(moves)) == f + Tail(moves) && Strip("fen " + (f + Tail(moves))) == "fen " + (f + Tail(moves))
  {
    hide IsMove, Movelike, Strip, Join, Contains;
    if moves != [] { TailEnds(moves); }
    TrimmedJoin(f, Tail(moves));
    TrimmedJoin("fen ", f + Tail(moves));
  }

  /**
   Parsing a printed request returns it exactly when its variant is known, its moves are canonical and its FEN
   is the start position or a trimmed, non-empty field free of the section marker.
   */
  lemma {:induction false} PrintThenParse(p: PositionRequest)
    ensures ParsePosition(Command(p), p.variant) == Ok(p) <==> Printable(p)
  {
    hide ParsePosition, AllMoves, GoodFen, KnownVariant, Join;
    if Printable(p) {
      MovesAreMovelike(p.moves);
      if p.baseFen == STARTPOS { StartReads(p.moves, p.variant); } else { FenReads(p.baseFen, p.moves, p.variant); }
      NoTail(if p.baseFen == STARTPOS then "position startpos" else "position fen " + p.baseFen);
    } else if ParsePosition(Command(p), p.variant) == Ok(p) {
      ParsedIsPrintable(Command(p), p.variant);
    }
  }
}
