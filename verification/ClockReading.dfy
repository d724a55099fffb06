/** Which go commands clock mode reads, and what it reads from them, told by tokens and parsed entries. */
module ClockReading {
  import opened Wrappers
  import opened Text
  import opened GoRequest
  import opened TimePlan

  /** Every limit is a number of the protocol's range, and none is given twice. */
  ghost predicate PlainLimits(limits: seq<Limit>) {
    && (forall i | 0 <= i < |limits| :: limits[i].Numeric? && limits[i].value <= 2147483647)
    && (forall i, j | 0 <= i < j < |limits| :: limits[i].name != limits[j].name)
  }

  /** At most one restriction, not an empty one, to different moves that stand in the command as they were read. */
  ghost predicate PlainRoots(words: seq<string>, roots: seq<string>) {
    && (forall i, j | 0 <= i < j < |words| :: !(words[i] == words[j] == "searchmoves"))
    && ("searchmoves" in words ==> roots != [])
    && (forall i, j | 0 <= i < j < |roots| :: roots[i] != roots[j])
    && (forall r | r in roots :: r in words)
  }

  /** The values are those of the limits, by name. */
  ghost predicate ValuesAre(limits: seq<Limit>, values: map<string, int>) {
    && (forall i | 0 <= i < |limits| && limits[i].Numeric? ::
         limits[i].name in values && values[limits[i].name] == limits[i].value)
    && (forall n | n in values :: exists i | 0 <= i < |limits| :: limits[i].name == n)
  }

  /** Entering from the k-th limit on, after exactly the names before it. */
  lemma {:induction false} EnteredIff(limits: seq<Limit>, k: nat, values: map<string, int>)
    requires k <= |limits| && PlainLimits(limits[..k]) && ValuesAre(limits[..k], values)
    ensures Entered(limits, k, values).Ok? <==> PlainLimits(limits)
    ensures Entered(limits, k, values).Ok? ==> ValuesAre(limits, Entered(limits, k, values).value)
    decreases |limits| - k
  {
    if k == |limits| {
      assert limits[..k] == limits;
    } else {
      var l := limits[k];
      assert limits[..k + 1] == limits[..k] + [l];
      var known := l.name in values;
      NameKnown(limits, k, values);
      if !known && l.Numeric? && l.value <= MAX_UCI_TIME {
        ValuesGrow(limits[..k], l, values);
        LimitsGrow(limits[..k], l);
        EnteredIff(limits, k + 1, values[l.name := l.value]);
      } else {
        NotPlain(limits, k);
      }
    }
  }

  lemma {:induction false} NameKnown(limits: seq<Limit>, k: nat, values: map<string, int>)
    requires k < |limits| && PlainLimits(limits[..k]) && ValuesAre(limits[..k], values)
    ensures limits[k].name in values <==> exists i | 0 <= i < k :: limits[i].name == limits[k].name
  {
    assert forall i | 0 <= i < k :: limits[..k][i] == limits[i];
  }

  lemma {:induction false} NotPlain(limits: seq<Limit>, k: nat)
    requires k < |limits|
    requires (exists i | 0 <= i < k :: limits[i].name == limits[k].name)
             || limits[k].Flag? || limits[k].value > 2147483647
    ensures !PlainLimits(limits)
  {
  }

  lemma {:induction false} LimitsGrow(front: seq<Limit>, l: Limit)
    requires PlainLimits(front) && l.Numeric? && l.value <= 2147483647
    requires forall i | 0 <= i < |front| :: front[i].name != l.name
    ensures PlainLimits(front + [l])
  {
  }

  lemma {:induction false} ValuesGrow(front: seq<Limit>, l: Limit, values: map<string, int>)
    requires ValuesAre(front, values) && l.Numeric? && l.name !in values
    ensures ValuesAre(front + [l], values[l.name := l.value])
    ensures forall i | 0 <= i < |front| && front[i].Numeric? :: front[i].name != l.name
  {
    var all := front + [l];
    assert all[|front|] == l && forall i | 0 <= i < |front| :: all[i] == front[i];
  }

  lemma {:induction false} CountNone(tokens: seq<string>, word: string)
    ensures CountOf(tokens, word) == 0 <==> word !in tokens
  {
    if |tokens| > 0 { CountNone(tokens[1..], word); }
  }

  /** A word occurs at most once exactly when no two places hold it. */
  lemma {:induction false} CountOne(tokens: seq<string>, word: string)
    ensures CountOf(tokens, word) <= 1 <==> forall i, j | 0 <= i < j < |tokens| :: !(tokens[i] == tokens[j] == word)
  {
    if |tokens| > 0 {
      var rest := tokens[1..];
      CountNone(rest, word);
      CountOne(rest, word);
      assert forall i | 0 < i < |tokens| :: tokens[i] == rest[i - 1];
      if tokens[0] == word && word in rest {
        var j :| 0 <= j < |rest| && rest[j] == word;
        assert tokens[0] == tokens[j + 1] == word;
      }
      if CountOf(rest, word) > 1 {
        var i, j :| 0 <= i < j < |rest| && rest[i] == rest[j] == word;
        assert tokens[i + 1] == tokens[j + 1] == word;
      }
    }
  }

  lemma {:induction false} RootsIff(words: seq<string>, roots: seq<string>)
    ensures CheckRoots(words, roots) == None <==> PlainRoots(words, roots)
  {
    CountOne(words, "searchmoves");
  }

  /** Exactly the commands with plain limits, plain roots and nothing unknown are read, and this is what is read. */
  lemma {:induction false} ReadIff(command: string)
    ensures ReadLimits(command).Ok? <==>
              && Parsed(command).Some? && Parsed(command).value.unknown == []
              && PlainLimits(Parsed(command).value.limits)
              && PlainRoots(Words(command), Parsed(command).value.rootMoves)
    ensures ReadLimits(command).Ok? ==>
              && ValuesAre(Parsed(command).value.limits, ReadLimits(command).value.values)
              && ReadLimits(command).value.roots == Parsed(command).value.rootMoves
  {
    hide Parsed, Words, PlainLimits, PlainRoots, ValuesAre, CheckRoots, Entered;
    if Parsed(command).Some? {
      var request := Parsed(command).value;
      NoneYet(request.limits);
      EnteredIff(request.limits, 0, map[]);
      RootsIff(Words(command), request.rootMoves);
    }
  }

  lemma {:induction false} NoneYet(limits: seq<Limit>)
    ensures PlainLimits(limits[..0]) && ValuesAre(limits[..0], map[])
  {
  }
}
