/**
 The abstract state of the recursive prefix-shard ledger, the checks each operation makes in
 order, and the state each accepted operation leaves behind.
 */
module PrefixShards {
  import opened Wrappers
  import opened Text

  type Prefix = seq<string>

  datatype ShardState = Unassigned | Leased | Active | Sealed | Retired

  /** One shard as the ledger's snapshots show it. */
  datatype Row = Row(
    id: string, generation: nat, prefix: Prefix, depth: nat, rootOrdinal: nat,
    siblingOrdinal: Option<nat>, parentId: Option<string>,
    childIds: seq<string>, owner: Option<string>, state: ShardState)

  datatype State = State(
    generation: nat, owners: seq<string>, roots: seq<string>,
    partitioned: bool, revision: nat,
    byId: map<string, Row>, byPrefix: map<Prefix, string>, rootIds: seq<string>)

  datatype LedgerError =
    | BadGeneration | NoOwners | EmptyOwner | DuplicateOwner
    | NonCanonicalMove(move: string) | DuplicateRoot(move: string)
    | AlreadyAssigned | PartitionKeys
    | DuplicateInOwner(owner: string, move: string) | UnknownRoot(owner: string, move: string)
    | AssignedTwice(move: string, first: string, second: string) | Uncovered | CoverageMismatch
    | UnknownOwner(owner: string) | UnknownShard(id: string) | NotFrontier(id: string)
    | WrongOwner(id: string) | WrongState(id: string, state: ShardState)
    | AlreadySplit | NoChildren | DuplicateChild(move: string)
    | RecreatesPrefix(prefix: Prefix) | BreaksFrontier
    | SameOwner | NoShardIds | DuplicateShardIds
    | BadPrefixMove(index: nat, move: string) | EmptyPrefix | UnknownPrefix(prefix: Prefix)
    | InvariantBroken

  /** The identifier text "g000001:d002:e2e4.e7e5". */
  function IdFor(generation: nat, prefix: Prefix): string {
    "g" + Padded(generation, 6) + (":d" + Padded(|prefix|, 3) + (":" + Join(prefix, '.')))
  }

  predicate StrictPrefix(left: Prefix, right: Prefix) {
    |left| < |right| && right[..|left|] == left
  }

  // ---------------------------------------------------------------- construction

  function FirstBadRoot(roots: seq<string>, k: nat): Option<LedgerError>
    requires k <= |roots|
    decreases |roots| - k
  {
    if k == |roots| then None
    else if !IsMove(roots[k]) then Some(NonCanonicalMove(roots[k]))
    else if roots[k] in roots[..k] then Some(DuplicateRoot(roots[k]))
    else FirstBadRoot(roots, k + 1)
  }

  function CheckCreate(roots: seq<string>, owners: seq<string>, generation: int): Option<LedgerError> {
    if generation < 1 then Some(BadGeneration)
    else if owners == [] then Some(NoOwners)
    else if "" in owners then Some(EmptyOwner)
    else if !Distinct(owners) then Some(DuplicateOwner)
    else FirstBadRoot(roots, 0)
  }

  function RootRow(generation: nat, roots: seq<string>, k: nat): Row
    requires k < |roots|
  {
    Row(IdFor(generation, [roots[k]]), generation, [roots[k]], 1, k, None, None, [], None, Unassigned)
  }

  /** The ledger after the first k candidate roots have been entered. */
  function Rooted(roots: seq<string>, owners: seq<string>, generation: nat, k: nat): State
    requires k <= |roots|
  {
    if k == 0 then State(generation, owners, roots, false, 0, map[], map[], [])
    else
      var s := Rooted(roots, owners, generation, k - 1);
      var r := RootRow(generation, roots, k - 1);
      s.(byId := s.byId[r.id := r], byPrefix := s.byPrefix[r.prefix := r.id], rootIds := s.rootIds + [r.id])
  }

  function Created(roots: seq<string>, owners: seq<string>, generation: nat): State {
    Rooted(roots, owners, generation, |roots|)
  }

  // ---------------------------------------------------------------- the invariant

  ghost predicate Config(s: State) {
    && s.generation >= 1
    && s.owners != [] && "" !in s.owners && Distinct(s.owners)
    && AllMoves(s.roots) && Distinct(s.roots)
    && |s.rootIds| == |s.roots|
    && forall k | 0 <= k < |s.roots| ::
         && s.rootIds[k] == IdFor(s.generation, [s.roots[k]])
         && [s.roots[k]] in s.byPrefix
  }

  ghost predicate Identified(s: State, id: string)
    requires id in s.byId
  {
    var r := s.byId[id];
    && r.id == id == IdFor(s.generation, r.prefix)
    && r.generation == s.generation
    && r.depth == |r.prefix| >= 1 && AllMoves(r.prefix)
    && r.prefix in s.byPrefix && s.byPrefix[r.prefix] == id
  }

  /** A root sits at its ordinal; any other shard sits at its ordinal among its parent's children. */
  ghost predicate LinkedUp(s: State, r: Row) {
    if |r.prefix| == 1 then
      && r.parentId == None && r.siblingOrdinal == None
      && r.rootOrdinal < |s.roots| && s.roots[r.rootOrdinal] == r.prefix[0]
    else
      && |r.prefix| > 1
      && r.parentId.Some? && r.siblingOrdinal.Some? && r.parentId.value in s.byId
      && var p, k := s.byId[r.parentId.value], r.siblingOrdinal.value;
      && p.prefix == r.prefix[..|r.prefix| - 1]
      && p.rootOrdinal == r.rootOrdinal
      && k < |p.childIds| && p.childIds[k] == r.id
  }

  ghost predicate LinkedDown(s: State, r: Row) {
    forall k | 0 <= k < |r.childIds| ::
      && r.childIds[k] in s.byId
      && s.byId[r.childIds[k]].parentId == Some(r.id)
      && s.byId[r.childIds[k]].siblingOrdinal == Some(k)
  }

  ghost predicate Owned(s: State, r: Row) {
    && (r.state == Retired <==> r.childIds != [])
    && (r.owner == None <==> r.state == Unassigned)
    && (r.state == Unassigned <==> !s.partitioned)
    && (r.owner.Some? ==> r.owner.value in s.owners)
  }

  ghost predicate RowOk(s: State, id: string)
    requires id in s.byId
  {
    Identified(s, id) && LinkedUp(s, s.byId[id]) && LinkedDown(s, s.byId[id]) && Owned(s, s.byId[id])
  }

  ghost predicate Indexed(s: State, p: Prefix)
    requires p in s.byPrefix
  {
    s.byPrefix[p] in s.byId && s.byId[s.byPrefix[p]].prefix == p
  }

  ghost predicate Core(s: State) {
    && Config(s)
    && (forall id {:trigger RowOk(s, id)} | id in s.byId :: RowOk(s, id))
    && (forall p {:trigger Indexed(s, p)} | p in s.byPrefix :: Indexed(s, p))
  }

  /** Every listed child is a shard one move below its parent, so the recursive walk ends. */
  ghost predicate Walks(s: State, id: string)
    requires id in s.byId
  {
    var r := s.byId[id];
    && r.prefix in s.byPrefix
    && forall k | 0 <= k < |r.childIds| ::
         && r.childIds[k] in s.byId
         && |s.byId[r.childIds[k]].prefix| == |r.prefix| + 1
         && s.byId[r.childIds[k]].prefix[..|r.prefix|] == r.prefix
  }

  ghost predicate Walkable(s: State) {
    && (forall k | 0 <= k < |s.rootIds| :: s.rootIds[k] in s.byId)
    && (forall id {:trigger Walks(s, id)} | id in s.byId :: Walks(s, id))
  }

  /** What every operation keeps; stronger than the check the program repeats after each mutation. */
  ghost predicate Inv(s: State) {
    Core(s) && Walkable(s)
  }

  lemma {:induction false} CoreWalks(s: State)
    requires Core(s)
    ensures Walkable(s)
  {
    forall k | 0 <= k < |s.rootIds| ensures s.rootIds[k] in s.byId {
      assert Indexed(s, [s.roots[k]]) && RowOk(s, s.byPrefix[[s.roots[k]]]);
    }
    forall id | id in s.byId ensures Walks(s, id) {
      assert RowOk(s, id);
      var r := s.byId[id];
      forall k | 0 <= k < |r.childIds|
        ensures r.childIds[k] in s.byId && |s.byId[r.childIds[k]].prefix| == |r.prefix| + 1
             && s.byId[r.childIds[k]].prefix[..|r.prefix|] == r.prefix
      {
        assert RowOk(s, r.childIds[k]);
      }
    }
  }

  /** The row at a prefix. */
  ghost function At(s: State, p: Prefix): Row
    requires Inv(s) && p in s.byPrefix
  {
    assert Indexed(s, p);
    s.byId[s.byPrefix[p]]
  }

  // ---------------------------------------------------------------- preorder and frontier

  /** The prefixes in the ledger at or below p; the measure by which the recursive walk ends. */
  ghost function Below(s: State, p: Prefix): set<Prefix> {
    set q | q in s.byPrefix && p <= q
  }

  lemma {:induction false} BelowShrinks(s: State, p: Prefix, q: Prefix)
    requires p in s.byPrefix && StrictPrefix(p, q)
    ensures Below(s, q) < Below(s, p)
  {
    assert p in Below(s, p) && p !in Below(s, q);
    forall r | r in Below(s, q) ensures r in Below(s, p) {
      assert r[..|p|] == r[..|q|][..|p|];
    }
  }

  lemma {:induction false} ChildBelow(s: State, id: string, k: nat)
    requires Walkable(s) && id in s.byId && k < |s.byId[id].childIds|
    ensures s.byId[id].childIds[k] in s.byId
    ensures var c := s.byId[s.byId[id].childIds[k]];
            |c.prefix| == |s.byId[id].prefix| + 1 && c.prefix[..|s.byId[id].prefix|] == s.byId[id].prefix
    ensures Below(s, s.byId[s.byId[id].childIds[k]].prefix) < Below(s, s.byId[id].prefix)
  {
    var r := s.byId[id];
    assert Walks(s, id);
    BelowShrinks(s, r.prefix, s.byId[r.childIds[k]].prefix);
  }

  /** A shard before its children, children in list order. */
  ghost function Preorder(s: State, id: string): seq<string>
    requires Walkable(s) && id in s.byId
    decreases Below(s, s.byId[id].prefix), |s.byId[id].childIds| + 1
  {
    [id] + PreorderFrom(s, id, 0)
  }

  ghost function PreorderFrom(s: State, id: string, k: nat): seq<string>
    requires Walkable(s) && id in s.byId && k <= |s.byId[id].childIds|
    decreases Below(s, s.byId[id].prefix), |s.byId[id].childIds| - k
  {
    if k == |s.byId[id].childIds| then []
    else
      ChildBelow(s, id, k);
      Preorder(s, s.byId[id].childIds[k]) + PreorderFrom(s, id, k + 1)
  }

  ghost function OrderedFrom(s: State, k: nat): seq<string>
    requires Walkable(s) && k <= |s.rootIds|
    decreases |s.rootIds| - k
  {
    if k == |s.rootIds| then []
    else Preorder(s, s.rootIds[k]) + OrderedFrom(s, k + 1)
  }

  ghost function Ordered(s: State): seq<string>
    requires Walkable(s)
  {
    OrderedFrom(s, 0)
  }

  /** Dispatchable: no children and not retired. */
  predicate IsFrontier(s: State, id: string) {
    id in s.byId && s.byId[id].childIds == [] && s.byId[id].state != Retired
  }

  function Filter(s: State, ids: seq<string>): (r: seq<string>)
    ensures forall id :: id in r <==> id in ids && IsFrontier(s, id)
    ensures forall i | 0 <= i < |r| :: r[i] in s.byId
  {
    if |ids| == 0 then []
    else Filter(s, ids[..|ids| - 1]) + (if IsFrontier(s, ids[|ids| - 1]) then [ids[|ids| - 1]] else [])
  }

  ghost function Frontier(s: State): seq<string>
    requires Walkable(s)
  {
    Filter(s, Ordered(s))
  }

  // ---------------------------------------------------------------- root assignment

  type Partition = map<string, seq<string>>

  function ScanMoves(s: State, owner: string, moves: seq<string>, j: nat, taken: map<string, string>)
    : Result<map<string, string>, LedgerError>
    requires j <= |moves|
    decreases |moves| - j
  {
    if j == |moves| then Ok(taken)
    else if !IsMove(moves[j]) then Err(NonCanonicalMove(moves[j]))
    else if moves[j] in moves[..j] then Err(DuplicateInOwner(owner, moves[j]))
    else if [moves[j]] !in s.byPrefix then Err(UnknownRoot(owner, moves[j]))
    else if moves[j] in taken then Err(AssignedTwice(moves[j], taken[moves[j]], owner))
    else ScanMoves(s, owner, moves, j + 1, taken[moves[j] := owner])
  }

  function ScanOwners(s: State, partition: Partition, i: nat, taken: map<string, string>)
    : Result<map<string, string>, LedgerError>
    requires i <= |s.owners| && (forall o | o in s.owners :: o in partition)
    decreases |s.owners| - i
  {
    if i == |s.owners| then Ok(taken)
    else match ScanMoves(s, s.owners[i], partition[s.owners[i]], 0, taken)
      case Err(e) => Err(e)
      case Ok(next) => ScanOwners(s, partition, i + 1, next)
  }

  /** Either the first objection to a root partition or the owner it gives each root. */
  function Assignment(s: State, partition: Partition): Result<map<string, string>, LedgerError> {
    if s.partitioned then Err(AlreadyAssigned)
    else if partition.Keys != (set o | o in s.owners) then Err(PartitionKeys)
    else match ScanOwners(s, partition, 0, map[])
      case Err(e) => Err(e)
      case Ok(taken) =>
        if exists k | 0 <= k < |s.roots| :: s.roots[k] !in taken then Err(Uncovered)
        else if |taken| != |s.roots| then Err(CoverageMismatch)
        else Ok(taken)
  }

  function Leasing(r: Row, taken: map<string, string>): Row {
    if |r.prefix| == 1 && r.prefix[0] in taken
    then r.(owner := Some(taken[r.prefix[0]]), state := Leased)
    else r
  }

  function DoAssign(s: State, taken: map<string, string>): State {
    s.(byId := map id | id in s.byId :: Leasing(s.byId[id], taken),
       partitioned := true, revision := s.revision + 1)
  }

  // ---------------------------------------------------------------- activate and seal

  /** activate moves Leased to Active, seal moves Active to Sealed; the checks are the same. */
  function CheckAdvance(s: State, id: string, owner: string, from: ShardState): Option<LedgerError> {
    if owner !in s.owners then Some(UnknownOwner(owner))
    else if id !in s.byId then Some(UnknownShard(id))
    else if s.byId[id].childIds != [] then Some(NotFrontier(id))
    else if s.byId[id].owner != Some(owner) then Some(WrongOwner(id))
    else if s.byId[id].state != from then Some(WrongState(id, s.byId[id].state))
    else None
  }

  function DoAdvance(s: State, id: string, to: ShardState): State
    requires id in s.byId
  {
    s.(byId := s.byId[id := s.byId[id].(state := to)], revision := s.revision + 1)
  }

  // ---------------------------------------------------------------- split

  function ScanChildren(s: State, parent: Prefix, moves: seq<string>, k: nat): Option<LedgerError>
    requires k <= |moves|
    decreases |moves| - k
  {
    if k == |moves| then None
    else if !IsMove(moves[k]) then Some(NonCanonicalMove(moves[k]))
    else if moves[k] in moves[..k] then Some(DuplicateChild(moves[k]))
    else if parent + [moves[k]] in s.byPrefix then Some(RecreatesPrefix(parent + [moves[k]]))
    else ScanChildren(s, parent, moves, k + 1)
  }

  /** Some proposed child is strictly above or below another frontier shard. */
  ghost predicate Collides(s: State, id: string, moves: seq<string>)
    requires Inv(s) && id in s.byId
  {
    exists k, other | 0 <= k < |moves| && other in Frontier(s) && other != id ::
      Related(s.byId[id].prefix + [moves[k]], s.byId[other].prefix)
  }

  predicate Related(left: Prefix, right: Prefix) {
    StrictPrefix(left, right) || StrictPrefix(right, left)
  }

  ghost function CheckSplit(s: State, id: string, moves: seq<string>, owner: string): Option<LedgerError>
    requires Inv(s)
  {
    if owner !in s.owners then Some(UnknownOwner(owner))
    else if id !in s.byId then Some(UnknownShard(id))
    else if s.byId[id].owner != Some(owner) then Some(WrongOwner(id))
    else if s.byId[id].state != Sealed then Some(WrongState(id, s.byId[id].state))
    else if s.byId[id].childIds != [] then Some(AlreadySplit)
    else if moves == [] then Some(NoChildren)
    else match ScanChildren(s, s.byId[id].prefix, moves, 0)
      case Some(e) => Some(e)
      case None => if Collides(s, id, moves) then Some(BreaksFrontier) else None
  }

  function ChildRow(s: State, parent: Row, moves: seq<string>, k: nat, owner: string): Row
    requires k < |moves|
  {
    var prefix := parent.prefix + [moves[k]];
    Row(IdFor(s.generation, prefix), s.generation, prefix, |prefix|, parent.rootOrdinal,
        Some(k), Some(parent.id), [], Some(owner), Leased)
  }

  function ChildIds(s: State, parent: Prefix, moves: seq<string>): seq<string>
  {
    seq(|moves|, k requires 0 <= k < |moves| => IdFor(s.generation, parent + [moves[k]]))
  }

  /** The first k proposed children entered into both indexes. */
  function Adopt(s: State, parent: Row, moves: seq<string>, k: nat, owner: string): State
    requires k <= |moves|
  {
    if k == 0 then s
    else
      var t := Adopt(s, parent, moves, k - 1, owner);
      var c := ChildRow(s, parent, moves, k - 1, owner);
      t.(byId := t.byId[c.id := c], byPrefix := t.byPrefix[c.prefix := c.id])
  }

  function Retire(s: State, id: string, moves: seq<string>): State
    requires id in s.byId
  {
    var p := s.byId[id];
    s.(byId := s.byId[id := p.(state := Retired, childIds := ChildIds(s, p.prefix, moves))])
  }

  function DoSplit(s: State, id: string, moves: seq<string>, owner: string): State
    requires id in s.byId
  {
    Adopt(Retire(s, id, moves), s.byId[id], moves, |moves|, owner).(revision := s.revision + 1)
  }

  // ---------------------------------------------------------------- transfer

  function ScanTransfer(s: State, ids: seq<string>, k: nat, from: string): Option<LedgerError>
    requires k <= |ids|
    decreases |ids| - k
  {
    if k == |ids| then None
    else if ids[k] !in s.byId then Some(UnknownShard(ids[k]))
    else if s.byId[ids[k]].childIds != [] then Some(NotFrontier(ids[k]))
    else if s.byId[ids[k]].state != Leased then Some(WrongState(ids[k], s.byId[ids[k]].state))
    else if s.byId[ids[k]].owner != Some(from) then Some(WrongOwner(ids[k]))
    else ScanTransfer(s, ids, k + 1, from)
  }

  function CheckTransfer(s: State, ids: seq<string>, from: string, to: string): Option<LedgerError> {
    if from !in s.owners then Some(UnknownOwner(from))
    else if to !in s.owners then Some(UnknownOwner(to))
    else if from == to then Some(SameOwner)
    else if ids == [] then Some(NoShardIds)
    else if !Distinct(ids) then Some(DuplicateShardIds)
    else ScanTransfer(s, ids, 0, from)
  }

  function DoTransfer(s: State, ids: seq<string>, to: string): State {
    s.(byId := map id | id in s.byId ::
                 if id in ids then s.byId[id].(owner := Some(to)) else s.byId[id],
       revision := s.revision + 1)
  }

  // ---------------------------------------------------------------- commands and runs

  datatype Command =
    | Assign(partition: Partition)
    | Activate(id: string, owner: string)
    | Seal(id: string, owner: string)
    | Split(id: string, moves: seq<string>, owner: string)
    | Transfer(ids: seq<string>, from: string, to: string)

  /** The error a command is refused with, if any. */
  ghost function Check(s: State, c: Command): Option<LedgerError>
    requires Inv(s)
  {
    match c
    case Assign(partition) => (match Assignment(s, partition) case Err(e) => Some(e) case Ok(_) => None)
    case Activate(id, owner) => CheckAdvance(s, id, owner, Leased)
    case Seal(id, owner) => CheckAdvance(s, id, owner, Active)
    case Split(id, moves, owner) => CheckSplit(s, id, moves, owner)
    case Transfer(ids, from, to) => CheckTransfer(s, ids, from, to)
  }

  /** The state after a command; a refused command changes nothing. */
  ghost function Step(s: State, c: Command): State
    requires Inv(s)
  {
    if Check(s, c).Some? then s
    else match c
      case Assign(partition) => DoAssign(s, Assignment(s, partition).value)
      case Activate(id, _) => DoAdvance(s, id, Active)
      case Seal(id, _) => DoAdvance(s, id, Sealed)
      case Split(id, moves, owner) => DoSplit(s, id, moves, owner)
      case Transfer(ids, _, to) => DoTransfer(s, ids, to)
  }

  // ---------------------------------------------------------------- the runtime check

  ghost predicate RootsAccepted(s: State) {
    && |s.rootIds| == |s.roots|
    && |s.byId| == |s.byPrefix|
    && forall k | 0 <= k < |s.rootIds| ::
         && s.rootIds[k] in s.byId
         && s.byId[s.rootIds[k]].prefix == [s.roots[k]]
         && s.byId[s.rootIds[k]].parentId == None
  }

  ghost predicate RowAccepted(s: State, id: string)
    requires id in s.byId
  {
    var r := s.byId[id];
    && r.id == id && r.generation == s.generation
    && r.depth == |r.prefix| >= 1 && AllMoves(r.prefix)
    && IdFor(s.generation, r.prefix) == r.id
    && r.prefix in s.byPrefix && s.byPrefix[r.prefix] == r.id
    && (r.owner.Some? ==> r.owner.value in s.owners)
    && (match r.parentId
        case None => r.depth == 1
        case Some(pid) =>
          && pid in s.byId
          && r.prefix[..|r.prefix| - 1] == s.byId[pid].prefix
          && r.id in s.byId[pid].childIds)
    && (if r.childIds != [] then
          && r.state == Retired
          && Distinct(r.childIds)
          && forall k | 0 <= k < |r.childIds| ::
               r.childIds[k] in s.byId && s.byId[r.childIds[k]].parentId == Some(r.id)
        else r.state != Retired)
  }

  ghost predicate FrontierAccepted(s: State)
    requires Walkable(s)
  {
    forall i, j | 0 <= i < j < |Frontier(s)| ::
      !Related(s.byId[Frontier(s)[i]].prefix, s.byId[Frontier(s)[j]].prefix)
  }

  ghost predicate OwnersAccepted(s: State) {
    forall k | 0 <= k < |s.rootIds| ::
      s.rootIds[k] in s.byId && (s.byId[s.rootIds[k]].owner.Some? <==> s.partitioned)
  }

  /**
   Everything the post-mutation validator tests. That the recursive walk and the walk up the parents
   end follows from the tests on the rows (AcceptedRowsWalk), so they are not tests of their own.
   */
  ghost predicate Accepted(s: State) {
    && RootsAccepted(s)
    && RowsAccepted(s)
    && Walkable(s)
    && FrontierAccepted(s)
    && OwnersAccepted(s)
  }

  ghost predicate RowsAccepted(s: State) {
    forall id {:trigger RowAccepted(s, id)} | id in s.byId :: RowAccepted(s, id)
  }

  lemma {:induction false} AcceptedRowsWalk(s: State)
    requires RootsAccepted(s) && RowsAccepted(s)
    ensures Walkable(s)
  {
    forall id | id in s.byId ensures Walks(s, id) {
      assert RowAccepted(s, id);
      var r := s.byId[id];
      forall k | 0 <= k < |r.childIds|
        ensures r.childIds[k] in s.byId && |s.byId[r.childIds[k]].prefix| == |r.prefix| + 1
             && s.byId[r.childIds[k]].prefix[..|r.prefix|] == r.prefix
      {
        assert RowAccepted(s, r.childIds[k]);
      }
    }
  }
}
