/** The grammar of the "go" command, on its own terms: which readings of the tokens there are, and what is built. */
module GoGrammar {
  import opened Wrappers
  import opened Text
  import opened GoRequest

  // ---------------------------------------------------------------- numbers

  /** The number in decimal behind k zeros; or a minus sign before k + 1 zeros. */
  predicate SpellsBehind(text: string, v: nat, k: nat) {
    text == Zeros(k) + Decimal(v) || (v == 0 && text == "-" + Zeros(k + 1))
  }

  ghost predicate Spells(text: string, v: nat) { exists k: nat :: SpellsBehind(text, v, k) }

  lemma {:induction false} DecimalDigit(d: nat)
    requires d < 10
    ensures Decimal(d) == [Digit(d)] && Decimal(0) == "0"
  {
  }

  lemma {:induction false} OneMoreDigit(v: nat, d: nat)
    requires 0 < v && d < 10
    ensures Decimal(10 * v + d) == Decimal(v) + [Digit(d)]
  {
    assert (10 * v + d) / 10 == v && (10 * v + d) % 10 == d;
  }

  lemma {:induction false} DigitsSpell(s: string) returns (k: nat)
    requires |s| > 0 && AllDigits(s)
    ensures s == Zeros(k) + Decimal(NumberOf(s))
  {
    hide Decimal;
    var front, d := s[..|s| - 1], DigitValue(s[|s| - 1]);
    assert s == front + [Digit(d)];
    DecimalDigit(d);
    if front == "" {
      assert NumberOf(s) == d;
      k := 0;
    } else {
      var j := DigitsSpell(front);
      var v := NumberOf(front);
      assert NumberOf(s) == 10 * v + d;
      if v == 0 {
        k := j + 1;
      } else {
        k := j;
        OneMoreDigit(v, d);
      }
    }
  }

  lemma {:induction false} SpeltIsNumber(k: nat, v: nat)
    ensures ParseInt(Zeros(k) + Decimal(v)) == Some(v)
    ensures ParseInt("-" + Zeros(k + 1)) == Some(0)
  {
    hide Decimal, NumberOf;
    LeadingZeros(k, Decimal(v));
    DecimalRoundTrip(v);
    LeadingZeros(k + 1, "");
    EmptyNumber();
    var text := "-" + Zeros(k + 1);
    assert text[1..] == Zeros(k + 1) == Zeros(k + 1) + "";
    assert !IsDigit(text[0]);
  }

  lemma {:induction false} EmptyNumber()
    ensures NumberOf("") == 0
  {
  }

  lemma {:induction false} ReadsSpelling(text: string, v: nat)
    requires ParseInt(text) == Some(v)
    ensures Spells(text, v)
  {
    hide Decimal, NumberOf;
    if text[0] == '-' {
      var k := DigitsSpell(text[1..]);
      DecimalDigit(0);
      assert text == "-" + text[1..];
      assert SpellsBehind(text, v, k);
    } else {
      var k := DigitsSpell(text);
      assert SpellsBehind(text, v, k);
    }
  }

  /** Exactly the spellings of a natural number are read as that number. */
  lemma {:induction false} NaturalIff(text: string, v: nat)
    ensures ParseInt(text) == Some(v) <==> Spells(text, v)
  {
    hide ParseInt, Decimal, Zeros;
    if Spells(text, v) {
      var k: nat :| SpellsBehind(text, v, k);
      SpeltIsNumber(k, v);
    }
    if ParseInt(text) == Some(v) { ReadsSpelling(text, v); }
  }

  // ---------------------------------------------------------------- readings

  /** The bite is a phrase of the grammar, given the tokens after it. */
  ghost predicate Fits(b: Bite, rest: seq<string>) {
    match b
    case NumericBite(name, text, v) => name in NUMERIC && Spells(text, v)
    case FlagBite(name) => name in FLAGS
    case MovesBite(keyword, moves) =>
      && keyword == "searchmoves" && (forall m | m in moves :: IsMove(Lower(m)))
      && (rest != [] ==> !IsMove(Lower(rest[0])))
    case UnknownBite(tokens) =>
      || (|tokens| == 1 && tokens[0] !in FLAGS && tokens[0] != "searchmoves" && (tokens[0] in NUMERIC ==> rest == []))
      || (|tokens| == 2 && tokens[0] in NUMERIC && forall v: nat :: !Spells(tokens[1], v))
  }

  ghost predicate Grammatical(bs: seq<Bite>) {
    bs != [] ==> Fits(bs[0], Flatten(bs[1..])) && Grammatical(bs[1..])
  }

  lemma {:induction false} NumberOrNone(text: string)
    ensures (exists v: nat :: Spells(text, v)) <==> ParseInt(text).Some? && ParseInt(text).value >= 0
  {
    hide ParseInt, Spells;
    if ParseInt(text).Some? && ParseInt(text).value >= 0 { NaturalIff(text, ParseInt(text).value); }
    forall v: nat | Spells(text, v) ensures ParseInt(text) == Some(v) { NaturalIff(text, v); }
  }

  lemma {:induction false} NamesApart(t: string)
    ensures t in NUMERIC ==> t !in FLAGS && t != "searchmoves"
    ensures t in FLAGS ==> t != "searchmoves"
  {
    assert forall i | 0 <= i < |NUMERIC| :: NUMERIC[i][0] in "wbmdn";
    assert forall i | 0 <= i < |FLAGS| :: FLAGS[i][0] in "ip";
    assert "searchmoves"[0] == 's';
  }

  lemma {:induction false} FirstFits(tokens: seq<string>)
    requires |tokens| > 0
    ensures Fits(FirstBite(tokens), tokens[|Consumed(FirstBite(tokens))|..])
  {
    hide ParseInt, Spells, IsMove, Lower;
    NamesApart(tokens[0]);
    if |tokens| > 1 {
      NumberOrNone(tokens[1]);
      var number := ParseInt(tokens[1]);
      if number.Some? && number.value >= 0 { NaturalIff(tokens[1], number.value); }
    }
    if IsKeyword(tokens[0]) {
      var k := MoveRun(tokens[1..]);
      assert tokens[1 + k..] == tokens[1..][k..];
    }
  }

  lemma {:induction false} FullRun(moves: seq<string>, rest: seq<string>)
    requires (forall m | m in moves :: IsMove(Lower(m))) && (rest != [] ==> !IsMove(Lower(rest[0])))
    ensures MoveRun(moves + rest) == |moves|
  {
    hide IsMove, Lower;
    var all := moves + rest;
    assert forall i | 0 <= i < |moves| :: all[i] == moves[i];
    assert rest != [] ==> all[|moves|] == rest[0];
  }

  lemma {:induction false} NumericFirst(b: Bite, rest: seq<string>)
    requires Fits(b, rest) && (b.NumericBite? || (b.UnknownBite? && |b.tokens| == 2))
    ensures FirstBite(Consumed(b) + rest) == b
  {
    hide ParseInt, Spells, IsMove, Lower;
    var tokens := Consumed(b) + rest;
    NamesApart(tokens[0]);
    assert tokens[..2] == Consumed(b);
    NumberOrNone(tokens[1]);
    if b.NumericBite? { NaturalIff(tokens[1], b.value); }
  }

  lemma {:induction false} MovesFirst(b: Bite, rest: seq<string>)
    requires Fits(b, rest) && b.MovesBite?
    ensures FirstBite(Consumed(b) + rest) == b
  {
    hide IsMove, Lower, MoveRun;
    var tokens := Consumed(b) + rest;
    FullRun(b.moves, rest);
    NamesApart("searchmoves");
    assert tokens[1..] == b.moves + rest && (b.moves + rest)[..|b.moves|] == b.moves;
  }

  lemma {:induction false} WordFirst(b: Bite, rest: seq<string>)
    requires Fits(b, rest) && (b.FlagBite? || (b.UnknownBite? && |b.tokens| == 1))
    ensures FirstBite(Consumed(b) + rest) == b
  {
    hide ParseInt, Spells, IsMove, Lower;
    NamesApart((Consumed(b) + rest)[0]);
  }

  lemma {:induction false} FitIsFirst(b: Bite, rest: seq<string>)
    requires Fits(b, rest)
    ensures Consumed(b) != [] && FirstBite(Consumed(b) + rest) == b
  {
    hide FirstBite, Spells, IsMove, Lower;
    if b.MovesBite? {
      MovesFirst(b, rest);
    } else if b.NumericBite? || (b.UnknownBite? && |b.tokens| == 2) {
      NumericFirst(b, rest);
    } else {
      WordFirst(b, rest);
    }
  }

  lemma {:induction false} BitesFit(tokens: seq<string>)
    ensures Grammatical(Bites(tokens))
  {
    hide FirstBite, Fits;
    if |tokens| > 0 {
      var b := FirstBite(tokens);
      var rest := tokens[|Consumed(b)|..];
      FirstFits(tokens);
      BitesFit(rest);
      TokensConserved(rest);
      assert Bites(tokens)[0] == b && Bites(tokens)[1..] == Bites(rest);
    }
  }

  lemma {:induction false} GrammaticalIsBites(bs: seq<Bite>)
    requires Grammatical(bs)
    ensures Bites(Flatten(bs)) == bs
  {
    hide FirstBite, Fits;
    if bs != [] {
      var rest := Flatten(bs[1..]);
      FitIsFirst(bs[0], rest);
      GrammaticalIsBites(bs[1..]);
      assert (Consumed(bs[0]) + rest)[|Consumed(bs[0])|..] == rest;
      assert bs == [bs[0]] + bs[1..];
    }
  }

  /** Every token list has exactly one reading by the grammar, and it is the one the parser makes. */
  lemma {:induction false} OnlyReading(tokens: seq<string>, bs: seq<Bite>)
    ensures bs == Bites(tokens) <==> Flatten(bs) == tokens && Grammatical(bs)
  {
    hide Bites, Flatten, Grammatical;
    TokensConserved(tokens);
    BitesFit(tokens);
    if Grammatical(bs) { GrammaticalIsBites(bs); }
  }

  /** Which commands are read at all. */
  lemma {:induction false} ReadIff(command: string)
    ensures Parsed(command).Some? <==> command == "go" || "go " <= command
  {
    hide Bites, Gather, WordLength;
    if command == "go" || "go " <= command {
      assert command[0] == 'g';
      assert Words(command) != [];
    }
  }

  // ---------------------------------------------------------------- what is built

  /** A value that switches a flag on. */
  predicate On(v: LimitValue) { v != IntValue(0) && v != BoolValue(false) && v != OtherValue(false) }

  /** Every limit is a flag, or a numeric limit with a positive integer. */
  ghost predicate GoodLimits(limit: map<string, LimitValue>) {
    forall n | n in limit :: n in FLAGS || (n in NUMERIC && limit[n].IntValue? && limit[n].n >= 1)
  }

  ghost predicate GoodRoots(searchmoves: Option<seq<string>>) {
    searchmoves.Some? ==>
      && searchmoves.value != [] && (forall m | m in searchmoves.value :: IsMove(Lower(m)))
      && Distinct(LowerAll(searchmoves.value))
  }

  lemma {:induction false} LimitsGood(limit: map<string, LimitValue>, names: seq<string>)
    requires forall n | n in names :: n in limit
    ensures CheckLimits(limit, names) == None <==>
              forall n | n in names :: n in FLAGS || (n in NUMERIC && limit[n].IntValue? && limit[n].n >= 1)
    ensures CheckLimits(limit, names) == None ==>
              (AllLimitTokens(limit, names) == [] <==> forall n | n in names :: n in FLAGS && !On(limit[n]))
  {
    hide Decimal;
    if |names| > 0 {
      var n := names[0];
      LimitsGood(limit, names[1..]);
      NamesApart(n);
      assert forall m :: m in names <==> m == n || m in names[1..];
    }
  }

  lemma {:induction false} MovesGood(moves: seq<string>, k: nat)
    requires k <= |moves| && (forall i | 0 <= i < k :: IsMove(Lower(moves[i]))) && Distinct(LowerAll(moves[..k]))
    ensures FirstBadMove(moves, k) == None <==>
              (forall i | 0 <= i < |moves| :: IsMove(Lower(moves[i]))) && Distinct(LowerAll(moves))
    decreases |moves| - k
  {
    hide IsMove, Lower;
    var lowered := LowerAll(moves);
    assert LowerAll(moves[..k]) == lowered[..k];
    if k < |moves| {
      assert lowered[k] in lowered[..k] <==> !Distinct(lowered[..k + 1]) by { OneMore(lowered, k); }
      assert LowerAll(moves[..k + 1]) == lowered[..k + 1];
      if IsMove(Lower(moves[k])) && lowered[k] !in lowered[..k] {
        MovesGood(moves, k + 1);
      } else if Distinct(lowered) {
        assert Distinct(lowered[..k + 1]);
      }
    } else {
      assert moves[..k] == moves;
    }
  }

  lemma {:induction false} OneMore(xs: seq<string>, k: nat)
    requires k < |xs| && Distinct(xs[..k])
    ensures xs[k] in xs[..k] <==> !Distinct(xs[..k + 1])
  {
    var more := xs[..k + 1];
    if xs[k] in xs[..k] {
      var i :| 0 <= i < k && xs[i] == xs[k];
      assert more[i] == more[k];
    } else {
      assert forall i, j | 0 <= i < j < k :: xs[..k][i] != xs[..k][j];
      assert forall i | 0 <= i < k :: xs[..k][i] == more[i] != xs[k];
    }
  }

  lemma {:induction false} RootsGood(searchmoves: Option<seq<string>>)
    ensures CheckMoves(searchmoves) == None <==> GoodRoots(searchmoves)
  {
    hide IsMove, Lower;
    if searchmoves.Some? { MovesGood(searchmoves.value, 0); }
  }

  /** A command is built exactly from good limits and roots that between them print something. */
  lemma {:induction false} BuiltIff(limit: map<string, LimitValue>, names: seq<string>,
      searchmoves: Option<seq<string>>)
    requires SortedKeys(limit, names)
    ensures BuiltFrom(limit, names, searchmoves).Ok? <==>
              && GoodLimits(limit) && GoodRoots(searchmoves)
              && (searchmoves.Some? || exists n :: n in limit && (n in NUMERIC || On(limit[n])))
  {
    hide Ascending, CheckLimits, CheckMoves, AllLimitTokens, Join, GoodRoots;
    LimitsGood(limit, names);
    RootsGood(searchmoves);
    forall n ensures n in NUMERIC ==> n !in FLAGS { NamesApart(n); }
  }
}
