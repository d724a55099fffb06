/** Reading a "position" command: nothing of it is ignored, and letter case does not matter. */
module PositionReading {
  import opened Wrappers
  import opened Text
  import opened Position
  import opened PositionRoundTrip

  // ---------------------------------------------------------------- which tokens are moves

  /** Two squares and an optional promotion piece, in either case. */
  predicate MoveInAnyCase(s: string) {
    && |s| in {4, 5}
    && s[0] in "abcdefghABCDEFGH" && s[1] in "12345678"
    && s[2] in "abcdefghABCDEFGH" && s[3] in "12345678"
    && (|s| == 5 ==> s[4] in "qrbnQRBN")
  }

  lemma {:induction false} FileIff(c: char)
    ensures c in "abcdefghABCDEFGH" <==> 'a' <= LowerChar(c) <= 'h'
  {
  }

  lemma {:induction false} RankIff(c: char)
    ensures c in "12345678" <==> '1' <= LowerChar(c) <= '8'
  {
  }

  lemma {:induction false} PieceIff(c: char)
    ensures c in "qrbnQRBN" <==> LowerChar(c) in "qrbn"
  {
  }

  /** Exactly the moves in either case become canonical when lower-cased; no letter but its case is lost. */
  lemma {:induction false} LowersToMove(s: string)
    ensures IsMove(Lower(s)) <==> MoveInAnyCase(s)
    ensures forall i | 0 <= i < |s| :: Lower(s)[i] == s[i] || ('A' <= s[i] <= 'Z' && Lower(s)[i] == s[i] + ' ')
  {
    if |s| in {4, 5} {
      FileIff(s[0]);
      RankIff(s[1]);
      FileIff(s[2]);
      RankIff(s[3]);
      if |s| == 5 { PieceIff(s[4]); }
    }
  }

  // ---------------------------------------------------------------- splitting

  lemma {:induction false} SplitAtSpace(a: string, b: string)
    requires b == "" || IsSpace(b[0])
    ensures Words(a + b) == Words(a) + Words(b)
    decreases |a|
  {
    hide IsSpace;
    var s := a + b;
    if a == "" {
      assert s == b;
    } else if IsSpace(a[0]) {
      assert s[1..] == a[1..] + b;
      SplitAtSpace(a[1..], b);
    } else {
      var k := WordLength(a);
      SameLength(a, b);
      assert s[..k] == a[..k] && s[k..] == a[k..] + b;
      SplitAtSpace(a[k..], b);
    }
  }

  lemma {:induction false} SameLength(a: string, b: string)
    requires b == "" || IsSpace(b[0])
    ensures WordLength(a + b) == WordLength(a)
  {
    hide IsSpace;
    var j, k := WordLength(a + b), WordLength(a);
    assert j < |a| ==> (a + b)[j] == a[j];
    assert k < |a| ==> (a + b)[k] == a[k];
    assert b != "" ==> (a + b)[|a|] == b[0];
  }

  lemma {:induction false} LeftTrimmed(s: string)
    ensures Words(TrimLeft(s)) == Words(s)
  {
    hide IsSpace;
    if |s| > 0 && IsSpace(s[0]) { LeftTrimmed(s[1..]); }
  }

  lemma {:induction false} RightTrimmed(s: string)
    ensures Words(TrimRight(s)) == Words(s)
  {
    hide IsSpace, Words;
    if |s| > 0 && IsSpace(s[|s| - 1]) {
      var front, last := s[..|s| - 1], s[|s| - 1..];
      assert s == front + last;
      SplitAtSpace(front, last);
      OnlySpace(last);
      RightTrimmed(front);
    }
  }

  lemma {:induction false} OnlySpace(s: string)
    requires |s| == 1 && IsSpace(s[0])
    ensures Words(s) == []
  {
  }

  /** Stripping keeps the words. */
  lemma {:induction false} StripKeepsWords(s: string)
    ensures Words(Strip(s)) == Words(s)
  {
    LeftTrimmed(s);
    RightTrimmed(TrimLeft(s));
  }

  lemma {:induction false} BlankIsSpace()
    ensures IsSpace(' ')
  {
  }

  lemma {:induction false} WordFirst(w: string, rest: string)
    requires IsWord(w) && (rest == "" || rest[0] == ' ')
    ensures Words(w + rest) == [w] + Words(rest)
  {
    hide IsSpace;
    BlankIsSpace();
    SplitAtSpace(w, rest);
    WordLengthOf(w, "");
    assert w + "" == w && w[|w|..] == "" && w[..|w|] == w;
  }

  // ---------------------------------------------------------------- nothing is ignored

  /** The words of a command are its base position and its moves, and nothing else. */
  ghost predicate Accounts(words: seq<string>, p: PositionRequest, tokens: seq<string>) {
    && p.moves == LowerAll(tokens)
    && exists base | Base(base, p.baseFen) ::
         words == ["position"] + base + ["moves"] + tokens || (tokens == [] && words == ["position"] + base)
  }

  predicate Base(words: seq<string>, fen: string) {
    words == ["fen"] + Words(fen) || (fen == STARTPOS && words == ["startpos"])
  }

  /** What the move section contributes. */
  ghost predicate Section(words: seq<string>, tokens: seq<string>) {
    words == ["moves"] + tokens || words == tokens == []
  }

  lemma {:induction false} SectionRead(fen: string, rest: string, variant: string) returns (tokens: seq<string>)
    requires ParseMoves(fen, rest, variant).Ok?
    ensures Section(Words(rest), tokens)
    ensures ParseMoves(fen, rest, variant) == Ok(PositionRequest(fen, LowerAll(tokens), variant))
  {
    hide IsMove, FirstBadToken;
    if rest == "" {
      tokens := [];
      assert LowerAll([]) == [];
    } else {
      assert rest == "moves" + rest[5..];
      MovesWord();
      assert rest != "moves" ==> rest[5] == "moves "[5];
      WordFirst("moves", rest[5..]);
      tokens := Words(rest)[1..];
    }
  }

  lemma {:induction false} BodyRead(body: string, variant: string) returns (tokens: seq<string>, fen: string)
    requires ParseFenBody(body, variant).Ok?
    ensures ParseFenBody(body, variant) == Ok(PositionRequest(fen, LowerAll(tokens), variant))
    ensures Words(body) == Words(fen) + ["moves"] + tokens || (tokens == [] && Words(body) == Words(fen))
  {
    hide Find, Words, Strip, ParseMoves, LowerAll, IsSpace;
    var k := Find(body, MOVES, 0);
    fen := Strip(body[..k]);
    StripKeepsWords(body[..k]);
    if k < |body| {
      var tail := "moves" + body[k + 6..];
      assert MOVES == " " + "moves";
      assert body[k..] == " " + tail && body == body[..k] + body[k..];
      BlankIsSpace();
      SplitAtSpace(body[..k], body[k..]);
      SpaceFirst(tail);
      StripKeepsWords(tail);
      tokens := SectionRead(fen, Strip(tail), variant);
    } else {
      assert body[..k] == body;
      tokens := SectionRead(fen, "", variant);
      NoWords();
    }
  }

  lemma {:induction false} SpaceFirst(s: string)
    ensures Words(" " + s) == Words(s)
  {
    assert (" " + s)[1..] == s;
  }

  lemma {:induction false} NoWords()
    ensures Words("") == []
  {
  }

  lemma {:induction false} KeyWords()
    ensures IsWord("position") && IsWord("startpos") && IsWord("fen")
  {
  }

  lemma {:induction false} StartRead(rest: string, variant: string) returns (tokens: seq<string>)
    requires rest == "startpos" || "startpos " <= rest
    requires ParseMoves(STARTPOS, Strip(rest[8..]), variant).Ok?
    ensures ParseMoves(STARTPOS, Strip(rest[8..]), variant) == Ok(PositionRequest(STARTPOS, LowerAll(tokens), variant))
    ensures Words(rest) == ["startpos", "moves"] + tokens || (tokens == [] && Words(rest) == ["startpos"])
  {
    hide Words, Strip, ParseMoves, LowerAll, IsSpace;
    assert rest == "startpos" + rest[8..];
    assert rest != "startpos" ==> rest[8] == "startpos "[8];
    KeyWords();
    WordFirst("startpos", rest[8..]);
    StripKeepsWords(rest[8..]);
    tokens := SectionRead(STARTPOS, Strip(rest[8..]), variant);
  }

  lemma {:induction false} FenRead(rest: string, variant: string) returns (tokens: seq<string>, fen: string)
    requires "fen " <= rest && ParseFenBody(Strip(rest[4..]), variant).Ok?
    ensures ParseFenBody(Strip(rest[4..]), variant) == Ok(PositionRequest(fen, LowerAll(tokens), variant))
    ensures Words(rest) == ["fen"] + Words(fen) + ["moves"] + tokens
            || (tokens == [] && Words(rest) == ["fen"] + Words(fen))
  {
    hide Words, Strip, ParseFenBody, LowerAll, IsSpace;
    assert "fen " == "fen" + " ";
    assert rest == "fen" + (" " + rest[4..]);
    KeyWords();
    WordFirst("fen", " " + rest[4..]);
    SpaceFirst(rest[4..]);
    StripKeepsWords(rest[4..]);
    tokens, fen := BodyRead(Strip(rest[4..]), variant);
  }

  lemma {:induction false} CommandWords(command: string)
    requires "position " <= command
    ensures Words(command) == ["position"] + Words(Strip(command[9..]))
  {
    hide Words, Strip, IsSpace;
    assert "position " == "position" + " ";
    assert command == "position" + (" " + command[9..]);
    KeyWords();
    WordFirst("position", " " + command[9..]);
    SpaceFirst(command[9..]);
    StripKeepsWords(command[9..]);
  }

  /** An accepted command says its base position and its moves, word for word up to letter case, and nothing more. */
  lemma {:induction false} NothingIgnored(command: string, variant: string) returns (tokens: seq<string>)
    requires ParsePosition(command, variant).Ok?
    ensures Accounts(Words(command), ParsePosition(command, variant).value, tokens)
    ensures ParsePosition(command, variant).value.variant == variant && variant in {"standard", "chess960"}
  {
    hide Words, Strip, ParseMoves, ParseFenBody, LowerAll, IsSpace;
    CommandWords(command);
    var rest := Strip(command[9..]);
    if rest == "startpos" || "startpos " <= rest {
      tokens := StartRead(rest, variant);
      assert Base(["startpos"], STARTPOS);
    } else {
      var fen;
      tokens, fen := FenRead(rest, variant);
      assert Base(["fen"] + Words(fen), fen);
      assert ["position"] + (["fen"] + Words(fen) + ["moves"] + tokens)
          == ["position"] + (["fen"] + Words(fen)) + ["moves"] + tokens;
    }
  }

  /** A canonical text of any variant, with its moves in any case, is accepted exactly for the two known variants. */
  lemma {:induction false} AnyCaseReads(fen: string, tokens: seq<string>, variant: string)
    requires (fen == STARTPOS || GoodFen(fen)) && forall t | t in tokens :: MoveInAnyCase(t)
    ensures var head := if fen == STARTPOS then "position startpos" else "position fen " + fen;
            var tail := if tokens == [] then "" else " moves " + Join(tokens, ' ');
            ParsePosition(head + tail, variant) ==
              if variant in {"standard", "chess960"} then Ok(PositionRequest(fen, LowerAll(tokens), variant))
              else Err(UnsupportedVariant)
  {
    hide Strip, ParseMoves, ParseFenBody, LowerAll, GoodFen, MoveInAnyCase, IsMove, Lower, Join;
    forall i | 0 <= i < |tokens| ensures IsMove(Lower(tokens[i])) { LowersToMove(tokens[i]); }
    var head := if fen == STARTPOS then "position startpos" else "position fen " + fen;
    assert "position startpos"[..9] == "position " == "position fen "[..9];
    assert (head + Tail(tokens))[..9] == "position ";
    if variant in {"standard", "chess960"} {
      if fen == STARTPOS { StartReads(tokens, variant); } else { FenReads(fen, tokens, variant); }
    }
  }

  /** Which texts are no position command at all. */
  lemma {:induction false} RefusedAtOnce(command: string, variant: string)
    ensures ParsePosition(command, variant) == Err(NotPosition) <==> !("position " <= command)
    ensures ParsePosition(command, variant) == Err(UnsupportedVariant) <==>
              "position " <= command && variant !in {"standard", "chess960"}
  {
    hide Strip, Words, FirstBadToken, Find;
  }
}
