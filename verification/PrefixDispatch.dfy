/** Compiling a move prefix, or a set of sibling children below one, into position and go requests. */
module PrefixDispatch {
  import opened Wrappers
  import opened Text
  import opened Position
  import opened GoRequest

  datatype Dispatch = Dispatch(prefix: seq<string>, position: PositionRequest, searchmoves: seq<string>,
      goCommand: string)

  datatype DispatchError =
    | NoPrefix | NoChildren | NotCanonical(index: nat, move: string)
    | ChildNotCanonical(index: nat, move: string) | RepeatedChild(move: string) | Unbuildable(cause: BuildError)

  /** The first move at or after k that is not canonical. */
  function FirstNotCanonical(moves: seq<string>, k: nat): (r: Option<nat>)
    requires k <= |moves|
    ensures r.Some? ==> k <= r.value < |moves| && !IsMove(moves[r.value])
    ensures forall i | k <= i < (if r.Some? then r.value else |moves|) :: IsMove(moves[i])
    decreases |moves| - k
  {
    if k == |moves| then None else if !IsMove(moves[k]) then Some(k) else FirstNotCanonical(moves, k + 1)
  }

  function Canonical(moves: seq<string>): Option<DispatchError> {
    match FirstNotCanonical(moves, 0) case None => None case Some(k) => Some(NotCanonical(k, moves[k]))
  }

  function FirstBadChild(children: seq<string>, k: nat): Option<DispatchError>
    requires k <= |children|
    decreases |children| - k
  {
    if k == |children| then None
    else if !IsMove(children[k]) then Some(ChildNotCanonical(k, children[k]))
    else if children[k] in children[..k] then Some(RepeatedChild(children[k]))
    else FirstBadChild(children, k + 1)
  }

  function Advanced(base: PositionRequest, moves: seq<string>): PositionRequest {
    base.(moves := base.moves + moves)
  }

  /** The position after the complete prefix. */
  function Descendant(base: PositionRequest, prefix: seq<string>): Result<PositionRequest, DispatchError> {
    match Canonical(prefix) case Some(e) => Err(e) case None => Ok(Advanced(base, prefix))
  }

  /** Attach the go command to a compiled position. */
  function Finished(prefix: seq<string>, position: PositionRequest, searchmoves: seq<string>,
                    limit: map<string, LimitValue>, names: seq<string>): Result<Dispatch, DispatchError>
    requires SortedKeys(limit, names)
  {
    match BuiltFrom(limit, names, Some(searchmoves))
    case Err(e) => Err(Unbuildable(e))
    case Ok(go) => Ok(Dispatch(prefix, position, searchmoves, go))
  }

  function Compiled(base: PositionRequest, prefix: seq<string>, limit: map<string, LimitValue>,
      names: seq<string>): Result<Dispatch, DispatchError>
    requires SortedKeys(limit, names)
  {
    if prefix == [] then Err(NoPrefix)
    else match Canonical(prefix)
      case Some(e) => Err(e)
      case None =>
        var n := |prefix| - 1;
        Finished(prefix, Advanced(base, prefix[..n]), [prefix[n]], limit, names)
  }

  function Region(base: PositionRequest, parent: seq<string>, children: seq<string>,
                  limit: map<string, LimitValue>, names: seq<string>): Result<Dispatch, DispatchError>
    requires SortedKeys(limit, names)
  {
    if children == [] then Err(NoChildren)
    else if Canonical(parent).Some? then Err(Canonical(parent).value)
    else match FirstBadChild(children, 0)
      case Some(e) => Err(e)
      case None => Finished(parent, Advanced(base, parent), children, limit, names)
  }

  // ---------------------------------------------------------------- the compilers

  /** Copy a prefix move by move, refusing the first move that is not canonical. */
  method TakePrefix(prefix: seq<string>) returns (r: Result<seq<string>, DispatchError>)
    ensures r == match Canonical(prefix) case Some(e) => Err(e) case None => Ok(prefix)
  {
    hide IsMove;
    var moves: seq<string> := [];
    for index := 0 to |prefix|
      invariant moves == prefix[..index]
      invariant FirstNotCanonical(prefix, 0) == FirstNotCanonical(prefix, index)
    {
      if !IsMove(prefix[index]) { return Err(NotCanonical(index, prefix[index])); }
      moves := moves + [prefix[index]];
    }
    assert prefix[..|prefix|] == prefix;
    r := Ok(moves);
  }

  method DescendantPosition(base: PositionRequest, prefix: seq<string>)
      returns (r: Result<PositionRequest, DispatchError>)
    ensures r == Descendant(base, prefix)
  {
    var moves := TakePrefix(prefix);
    if moves.Err? { return Err(moves.error); }
    r := Ok(PositionRequest(base.baseFen, base.moves + moves.value, base.variant));
  }

  method CompilePrefixDispatch(base: PositionRequest, prefix: seq<string>, limit: map<string, LimitValue>)
    returns (r: Result<Dispatch, DispatchError>)
    ensures forall names | SortedKeys(limit, names) :: r == Compiled(base, prefix, limit, names)
  {
    hide Canonical, BuiltFrom, SortedKeys;
    if prefix == [] { return Err(NoPrefix); }
    var taken := TakePrefix(prefix);
    if taken.Err? { return Err(taken.error); }
    var moves := taken.value;
    var position := PositionRequest(base.baseFen, base.moves + moves[..|moves| - 1], base.variant);
    var searchmoves := [moves[|moves| - 1]];
    var go := BuildGo(limit, Some(searchmoves));
    if go.Err? { return Err(Unbuildable(go.error)); }
    r := Ok(Dispatch(moves, position, searchmoves, go.value));
  }

  method TakeChildren(childMoves: seq<string>) returns (r: Result<seq<string>, DispatchError>)
    ensures r == match FirstBadChild(childMoves, 0) case Some(e) => Err(e) case None => Ok(childMoves)
  {
    hide IsMove;
    var children: seq<string> := [];
    var seen: set<string> := {};
    for index := 0 to |childMoves|
      invariant children == childMoves[..index]
      invariant forall m :: m in seen <==> m in children
      invariant FirstBadChild(childMoves, 0) == FirstBadChild(childMoves, index)
    {
      var raw := childMoves[index];
      if !IsMove(raw) { return Err(ChildNotCanonical(index, raw)); }
      if raw in seen { return Err(RepeatedChild(raw)); }
      seen := seen + {raw};
      children := children + [raw];
    }
    assert childMoves[..|childMoves|] == childMoves;
    r := Ok(children);
  }

  method CompileDescendantRegion(base: PositionRequest, parentPrefix: seq<string>, childMoves: seq<string>,
      limit: map<string, LimitValue>)
    returns (r: Result<Dispatch, DispatchError>)
    ensures forall names | SortedKeys(limit, names) :: r == Region(base, parentPrefix, childMoves, limit, names)
  {
    hide Canonical, BuiltFrom, SortedKeys, FirstBadChild;
    if childMoves == [] { return Err(NoChildren); }
    var parent := TakePrefix(parentPrefix);
    if parent.Err? { return Err(parent.error); }
    var children := TakeChildren(childMoves);
    if children.Err? { return Err(children.error); }
    var position := DescendantPosition(base, parent.value);
    assert position.Ok?;  // the second look at the parent prefix finds nothing new
    var go := BuildGo(limit, Some(children.value));
    if go.Err? { return Err(Unbuildable(go.error)); }
    r := Ok(Dispatch(parent.value, position.value, children.value, go.value));
  }
}
