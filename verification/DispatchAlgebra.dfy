/** What the compiled requests mean for the games they search, and how they meet the shard frontier. */
module DispatchAlgebra {
  import opened Wrappers
  import opened Text
  import opened Position
  import PositionRoundTrip
  import opened GoRequest
  import GoRoundTrip
  import opened PrefixDispatch
  import opened PrefixShards
  import opened ShardInvariant
  import opened ShardSplit
  import opened ShardTheorems

  // ---------------------------------------------------------------- descending in two steps

  function Shifted(e: DispatchError, n: nat): DispatchError {
    if e.NotCanonical? then NotCanonical(e.index + n, e.move) else e
  }

  lemma {:induction false} CanonicalIff(moves: seq<string>)
    ensures Canonical(moves) == None <==> AllMoves(moves)
  {
    hide IsMove;
  }

  /** The first refused index only depends on which moves are canonical. */
  lemma {:induction false} CanonicalAppend(p: seq<string>, q: seq<string>)
    ensures Canonical(p + q) == match Canonical(p)
              case Some(e) => Some(e)
              case None => (match Canonical(q) case None => None case Some(e) => Some(Shifted(e, |p|)))
  {
    hide IsMove;
    var a, b, c := FirstNotCanonical(p, 0), FirstNotCanonical(q, 0), FirstNotCanonical(p + q, 0);
    assert forall i | 0 <= i < |p| :: (p + q)[i] == p[i];
    assert forall i | 0 <= i < |q| :: (p + q)[|p| + i] == q[i];
    assert a.Some? ==> (p + q)[a.value] == p[a.value];
    assert b.Some? ==> (p + q)[|p| + b.value] == q[b.value];
  }

  /** Descending through p + q is descending through p and then through q, refusals included. */
  lemma {:induction false} DescendantComposes(base: PositionRequest, p: seq<string>, q: seq<string>)
    ensures Descendant(base, p + q) == match Descendant(base, p)
              case Err(e) => Err(e)
              case Ok(mid) => (match Descendant(mid, q) case Ok(r) => Ok(r) case Err(e) => Err(Shifted(e, |p|)))
  {
    hide Canonical;
    CanonicalAppend(p, q);
    assert base.moves + (p + q) == (base.moves + p) + q;
  }

  // ---------------------------------------------------------------- what a dispatch searches

  lemma {:induction false} LowerCanonical(moves: seq<string>)
    requires AllMoves(moves)
    ensures LowerAll(moves) == moves
  {
    hide IsMove, Lower;
    forall i | 0 <= i < |moves| ensures Lower(moves[i]) == moves[i] { MoveIsLower(moves[i]); }
  }

  lemma {:induction false} DistinctMovesPass(moves: seq<string>, k: nat)
    requires k <= |moves| && AllMoves(moves) && Distinct(moves)
    ensures FirstBadMove(moves, k) == None && FirstBadChild(moves, k) == None
    decreases |moves| - k
  {
    hide IsMove, Lower;
    if k < |moves| {
      MoveIsLower(moves[k]);
      LowerCanonical(moves[..k]);
      DistinctMovesPass(moves, k + 1);
    }
  }

  lemma {:induction false} PassedChildren(children: seq<string>, k: nat)
    requires k <= |children| && FirstBadChild(children, k) == None
    ensures forall i | k <= i < |children| :: IsMove(children[i]) && children[i] !in children[..i]
    decreases |children| - k
  {
    hide IsMove;
    if k < |children| { PassedChildren(children, k + 1); }
  }

  lemma {:induction false} ChildrenPassIff(children: seq<string>)
    ensures FirstBadChild(children, 0) == None <==> AllMoves(children) && Distinct(children)
  {
    hide IsMove;
    if FirstBadChild(children, 0) == None {
      PassedChildren(children, 0);
      forall i, j | 0 <= i < j < |children| ensures children[i] != children[j] {
        assert children[..j][i] == children[i];
      }
    } else if AllMoves(children) && Distinct(children) {
      DistinctMovesPass(children, 0);
    }
  }

  /** With canonical, unique root moves only the limits can stop the go command from being built. */
  lemma {:induction false} GoBuilds(limit: map<string, LimitValue>, names: seq<string>, moves: seq<string>)
    requires SortedKeys(limit, names) && moves != [] && AllMoves(moves) && Distinct(moves)
    ensures CheckLimits(limit, names) == None ==> BuiltFrom(limit, names, Some(moves)).Ok?
    ensures CheckLimits(limit, names).Some? ==>
            BuiltFrom(limit, names, Some(moves)) == Err(CheckLimits(limit, names).value)
  {
    hide CheckLimits, AllLimitTokens, Join, IsMove, SortedKeys;
    DistinctMovesPass(moves, 0);
  }

  /** A region compiles exactly for a canonical parent, unique canonical children and printable limits. */
  lemma {:induction false} RegionCompilesIff(base: PositionRequest, parent: seq<string>, children: seq<string>,
                                             limit: map<string, LimitValue>, names: seq<string>)
    requires SortedKeys(limit, names)
    ensures Region(base, parent, children, limit, names).Ok? <==>
              AllMoves(parent) && GoodChildren(children) && CheckLimits(limit, names) == None
  {
    hide CheckLimits, BuiltFrom, SortedKeys, Canonical, FirstBadChild, AllMoves, Distinct;
    CanonicalIff(parent);
    ChildrenPassIff(children);
    if children != [] && AllMoves(children) && Distinct(children) { GoBuilds(limit, names, children); }
  }

  lemma {:induction false} SplitLast(prefix: seq<string>)
    requires |prefix| > 0
    ensures var n := |prefix| - 1; prefix == prefix[..n] + [prefix[n]]
    ensures AllMoves(prefix) <==> AllMoves(prefix[..|prefix| - 1]) && AllMoves([prefix[|prefix| - 1]])
  {
    hide IsMove;
    var n := |prefix| - 1;
    assert AllMoves([prefix[n]]) ==> IsMove([prefix[n]][0]);
  }

  lemma {:induction false} CompilesIff(base: PositionRequest, prefix: seq<string>,
      limit: map<string, LimitValue>, names: seq<string>)
    requires SortedKeys(limit, names)
    ensures Compiled(base, prefix, limit, names).Ok? <==>
            prefix != [] && AllMoves(prefix) && CheckLimits(limit, names) == None
  {
    hide CheckLimits, BuiltFrom, SortedKeys, Canonical, AllMoves;
    CanonicalIff(prefix);
    if prefix != [] && AllMoves(prefix) {
      SplitLast(prefix);
      GoBuilds(limit, names, [prefix[|prefix| - 1]]);
    }
  }

  /**
   A compiled prefix keeps the game history: its moves followed by its single root move are the history followed by
   the whole prefix, its go command reads back as the declared limits over exactly that root move, and a printable
   base position stays printable.
   */
  lemma {:induction false} PrefixExtendsHistory(base: PositionRequest, prefix: seq<string>,
      limit: map<string, LimitValue>, names: seq<string>)
    requires SortedKeys(limit, names) && Compiled(base, prefix, limit, names).Ok?
    ensures var d := Compiled(base, prefix, limit, names).value;
            && d.prefix == prefix && |d.searchmoves| == 1 && d.position.moves + d.searchmoves == base.moves + prefix
            && d.position.baseFen == base.baseFen && d.position.variant == base.variant
            && Parsed(d.goCommand) == Some(Request(GoRoundTrip.PrintedLimits(limit, names), d.searchmoves, []))
            && (Printable(base) ==> ParsePosition(Position.Command(d.position), base.variant) == Ok(d.position))
  {
    hide CheckLimits, BuiltFrom, Canonical, Parsed, GoRoundTrip.PrintedLimits;
    hide ParsePosition, Position.Command, GoodFen, KnownVariant, IsMove;
    CompilesIff(base, prefix, limit, names);
    SplitLast(prefix);
    var n := |prefix| - 1;
    var d := Compiled(base, prefix, limit, names).value;
    assert base.moves + prefix == (base.moves + prefix[..n]) + [prefix[n]];
    LowerCanonical([prefix[n]]);
    GoRoundTrip.BuildThenParse(limit, names, Some([prefix[n]]));
    if Printable(base) {
      assert AllMoves(d.position.moves);
      PositionRoundTrip.PrintThenParse(d.position);
    }
  }

  /** A region of one child is the request of the prefix one move deeper. */
  lemma {:induction false} OneChildRegion(base: PositionRequest, parent: seq<string>, move: string,
                                          limit: map<string, LimitValue>, names: seq<string>)
    requires SortedKeys(limit, names)
    ensures var r, d := Region(base, parent, [move], limit, names), Compiled(base, parent + [move], limit, names);
            && r.Ok? == d.Ok?
            && (r.Ok? ==> && r.value.position == d.value.position && r.value.searchmoves == d.value.searchmoves
                          && r.value.goCommand == d.value.goCommand)
  {
    hide CheckLimits, BuiltFrom, SortedKeys, Canonical, FirstBadChild, AllMoves;
    var prefix := parent + [move];
    RegionCompilesIff(base, parent, [move], limit, names);
    CompilesIff(base, prefix, limit, names);
    SplitLast(prefix);
    assert prefix[..|prefix| - 1] == parent;
  }

  /** The games a dispatch is responsible for: its position, then one of its root moves, then anything. */
  predicate Continues(d: Dispatch, game: seq<string>) {
    var n := |d.position.moves|;
    |game| > n && game[..n] == d.position.moves && game[n] in d.searchmoves
  }

  /** A region searches exactly what the one-child prefixes below its parent search between them. */
  lemma {:induction false} RegionIsUnion(base: PositionRequest, parent: seq<string>, children: seq<string>,
                                         limit: map<string, LimitValue>, names: seq<string>, game: seq<string>)
    requires SortedKeys(limit, names) && Region(base, parent, children, limit, names).Ok?
    ensures forall m | m in children :: Compiled(base, parent + [m], limit, names).Ok?
    ensures Continues(Region(base, parent, children, limit, names).value, game) <==>
              exists m ::
                && m in children && Compiled(base, parent + [m], limit, names).Ok?
                && Continues(Compiled(base, parent + [m], limit, names).value, game)
  {
    hide CheckLimits, BuiltFrom, SortedKeys, Canonical, FirstBadChild, Compiled, IsMove;
    RegionCompilesIff(base, parent, children, limit, names);
    forall m | m in children
      ensures Compiled(base, parent + [m], limit, names).Ok?
      ensures Compiled(base, parent + [m], limit, names).value.position == Advanced(base, parent)
      ensures Compiled(base, parent + [m], limit, names).value.searchmoves == [m]
    {
      assert AllMoves([m]) && Distinct([m]);
      RegionCompilesIff(base, parent, [m], limit, names);
      OneChildRegion(base, parent, m, limit, names);
    }
    var n := |base.moves + parent|;
    if Continues(Region(base, parent, children, limit, names).value, game) {
      assert game[n] in children && Continues(Compiled(base, parent + [game[n]], limit, names).value, game);
    }
  }

  // ---------------------------------------------------------------- the frontier, compiled

  lemma {:induction false} ContinuesIff(base: PositionRequest, prefix: seq<string>, limit: map<string, LimitValue>,
                                        names: seq<string>, game: seq<string>)
    requires SortedKeys(limit, names) && Compiled(base, prefix, limit, names).Ok?
    ensures Continues(Compiled(base, prefix, limit, names).value, game) <==> base.moves + prefix <= game
  {
    hide CheckLimits, BuiltFrom, SortedKeys, Canonical;
    var n, whole := |prefix| - 1, base.moves + prefix;
    assert whole == (base.moves + prefix[..n]) + [prefix[n]];
    if |game| >= |whole| { assert game[..|whole|] == game[..|whole| - 1] + [game[|whole| - 1]]; }
  }

  lemma {:induction false} CommonGame(history: seq<string>, p: seq<string>, q: seq<string>, game: seq<string>)
    requires history + p <= game && history + q <= game
    ensures p == q || StrictPrefix(p, q) || StrictPrefix(q, p)
  {
    var h := |history|;
    assert p == game[h..h + |p|] && q == game[h..h + |q|];
    assert |p| <= |q| ==> q[..|p|] == p;
    assert |q| <= |p| ==> p[..|q|] == q;
  }

  /** Different frontier shards never search a common game. */
  lemma {:induction false} FrontierDisjoint(s: State, x: string, y: string, base: PositionRequest,
                                            limit: map<string, LimitValue>, names: seq<string>, game: seq<string>)
    requires Inv(s) && IsFrontier(s, x) && IsFrontier(s, y) && x != y && SortedKeys(limit, names)
    requires Compiled(base, s.byId[x].prefix, limit, names).Ok? && Compiled(base, s.byId[y].prefix, limit, names).Ok?
    ensures !(Continues(Compiled(base, s.byId[x].prefix, limit, names).value, game)
           && Continues(Compiled(base, s.byId[y].prefix, limit, names).value, game))
  {
    hide SortedKeys, Compiled, Inv, Continues;
    ContinuesIff(base, s.byId[x].prefix, limit, names, game);
    ContinuesIff(base, s.byId[y].prefix, limit, names, game);
    FrontierUnrelated(s, x, y);
    FrontierUnrelated(s, y, x);
    if base.moves + s.byId[x].prefix <= game && base.moves + s.byId[y].prefix <= game {
      CommonGame(base.moves, s.byId[x].prefix, s.byId[y].prefix, game);
      SamePrefixSameRow(s, x, y);
    }
  }

  /** The dispatch of a frontier shard is responsible for a game. */
  ghost predicate Serves(s: State, x: string, base: PositionRequest, limit: map<string, LimitValue>,
      names: seq<string>, game: seq<string>)
    requires SortedKeys(limit, names)
  {
    && IsFrontier(s, x) && Compiled(base, s.byId[x].prefix, limit, names).Ok?
    && Continues(Compiled(base, s.byId[x].prefix, limit, names).value, game)
  }

  /**
   Every line of play that follows the declared children, appended to any history, is searched by exactly one
   frontier shard's dispatch.
   */
  lemma {:induction false} FrontierCoversOnce(s: State, line: seq<string>, base: PositionRequest,
                                              limit: map<string, LimitValue>, names: seq<string>)
    requires Inv(s) && Follows(s, line) && Exhausts(s, line)
    requires SortedKeys(limit, names) && CheckLimits(limit, names) == None
    ensures exists x :: Serves(s, x, base, limit, names, base.moves + line)
    ensures forall x, y | Serves(s, x, base, limit, names, base.moves + line)
        && Serves(s, y, base, limit, names, base.moves + line) :: x == y
  {
    hide SortedKeys, Compiled, Continues, Follows, Exhausts, CheckLimits, IdFor;
    var game := base.moves + line;
    LineMeetsFrontier(s, line);
    var k: nat :| Meets(s, line, k);
    var x := s.byPrefix[line[..k]];
    assert Indexed(s, line[..k]) && RowOk(s, x);
    CompilesIff(base, line[..k], limit, names);
    ContinuesIff(base, line[..k], limit, names, game);
    assert game == (base.moves + line[..k]) + line[k..];
    assert Serves(s, x, base, limit, names, game);
    forall a, b | Serves(s, a, base, limit, names, game) && Serves(s, b, base, limit, names, game) ensures a == b {
      if a != b { FrontierDisjoint(s, a, b, base, limit, names, game); }
    }
  }
}
