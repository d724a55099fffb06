/** Exactly when each shard command is accepted, and exactly what it changes. */
module ShardCommands {
  import opened Wrappers
  import opened Text
  import opened PrefixShards
  import opened ShardInvariant
  import opened ShardSplit
  import opened ShardTheorems
  import opened ShardRuns

  // ---------------------------------------------------------------- acceptance

  /** The shard can be dispatched, is in the given state and belongs to the owner. */
  predicate Ready(s: State, id: string, owner: string, state: ShardState) {
    IsFrontier(s, id) && s.byId[id].owner == Some(owner) && s.byId[id].state == state
  }

  lemma {:induction false} OwnerListed(s: State, id: string)
    requires Inv(s) && id in s.byId
    ensures s.byId[id].owner.Some? ==> s.byId[id].owner.value in s.owners
    ensures s.byId[id].childIds == [] <==> s.byId[id].state != Retired
    ensures s.byId[id].owner == None <==> s.byId[id].state == Unassigned
    ensures s.byId[id].state == Unassigned <==> !s.partitioned
  {
    hide IdFor, Walkable, Config, LinkedUp, LinkedDown, Identified;
    assert RowOk(s, id);
  }

  /** An owner activates exactly its own leased frontier shards. */
  lemma {:induction false} ActivateIff(s: State, id: string, owner: string)
    requires Inv(s)
    ensures Check(s, Activate(id, owner)) == None <==> Ready(s, id, owner, Leased)
  {
    hide Inv;
    if id in s.byId { OwnerListed(s, id); }
  }

  /** An owner seals exactly its own active frontier shards. */
  lemma {:induction false} SealIff(s: State, id: string, owner: string)
    requires Inv(s)
    ensures Check(s, Seal(id, owner)) == None <==> Ready(s, id, owner, Active)
  {
    hide Inv;
    if id in s.byId { OwnerListed(s, id); }
  }

  lemma {:induction false} ScanIff(s: State, ids: seq<string>, k: nat, from: string)
    requires Inv(s) && k <= |ids|
    ensures ScanTransfer(s, ids, k, from) == None <==> forall i | k <= i < |ids| :: Ready(s, ids[i], from, Leased)
    decreases |ids| - k
  {
    hide Inv;
    if k < |ids| { ScanIff(s, ids, k + 1, from); }
  }

  /** A transfer is accepted exactly between different owners and for distinct leased frontier shards of the first. */
  lemma {:induction false} TransferIff(s: State, ids: seq<string>, from: string, to: string)
    requires Inv(s)
    ensures Check(s, Transfer(ids, from, to)) == None <==>
              && to in s.owners && from != to && ids != []
              && (forall i, j | 0 <= i < j < |ids| :: ids[i] != ids[j])
              && forall i | 0 <= i < |ids| :: Ready(s, ids[i], from, Leased)
  {
    hide Inv, Ready;
    ScanIff(s, ids, 0, from);
    if ids != [] && Ready(s, ids[0], from, Leased) { ReadyOwner(s, ids[0], from); }
  }

  lemma {:induction false} ReadyOwner(s: State, id: string, owner: string)
    requires Inv(s) && Ready(s, id, owner, Leased)
    ensures owner in s.owners
  {
    hide Inv;
    OwnerListed(s, id);
  }

  // ---------------------------------------------------------------- effect

  /** The accepted command moves the shard id on, by its owner's hand. */
  ghost predicate Advances(s: State, c: Command, id: string)
    requires Inv(s)
  {
    && Check(s, c) == None && id in s.byId
    && match c
       case Activate(x, owner) => x == id && s.byId[id].owner == Some(owner) && s.byId[id].state == Leased
       case Seal(x, owner) => x == id && s.byId[id].owner == Some(owner) && s.byId[id].state == Active
       case Split(x, _, owner) => x == id && s.byId[id].owner == Some(owner) && s.byId[id].state == Sealed
       case _ => false
  }

  function Successor(state: ShardState): ShardState {
    match state
    case Unassigned => Leased
    case Leased => Active
    case Active => Sealed
    case Sealed => Retired
    case Retired => Retired
  }

  /**
   After the assignment a shard's state changes only by an accepted command that names that shard and its current
   owner, and then exactly to the next state.
   */
  lemma {:induction false} StateChanges(s: State, c: Command, id: string)
    requires Inv(s) && s.partitioned && id in s.byId
    ensures id in Step(s, c).byId
    ensures Step(s, c).byId[id].state == if Advances(s, c, id) then Successor(s.byId[id].state) else s.byId[id].state
    ensures Step(s, c).partitioned
  {
    hide Inv, IdFor, CheckSplit, DoSplit, CheckTransfer, Assignment;
    StepPersists(s, c, id);
    if Check(s, c) == None {
      match c
      case Assign(partition) => NotTwice(s, partition);
      case Activate(x, owner) => ActivateIff(s, x, owner);
      case Seal(x, owner) => SealIff(s, x, owner);
      case Split(x, moves, owner) => SplitMoves(s, x, moves, owner, id);
      case Transfer(ids, _, to) => assert DoTransfer(s, ids, to).byId[id].state == s.byId[id].state;
    }
  }

  /** After the assignment a shard changes hands only by an accepted transfer that lists it, to its receiver. */
  lemma {:induction false} OwnerChanges(s: State, c: Command, id: string)
    requires Inv(s) && s.partitioned && id in s.byId
    ensures id in Step(s, c).byId
    ensures Step(s, c).byId[id].owner ==
            if c.Transfer? && Check(s, c) == None && id in c.ids then Some(c.to) else s.byId[id].owner
    ensures c.Transfer? && Check(s, c) == None && id in c.ids ==> s.byId[id].owner == Some(c.from)
  {
    hide Inv, IdFor, CheckSplit, DoSplit, Assignment, CheckAdvance;
    StepPersists(s, c, id);
    if Check(s, c) == None {
      match c
      case Assign(partition) => NotTwice(s, partition);
      case Activate(_, _) =>
      case Seal(_, _) =>
      case Split(x, moves, owner) => SplitOwner(s, x, moves, owner, id);
      case Transfer(ids, from, to) => TransferIff(s, ids, from, to);
    }
  }

  lemma {:induction false} SplitOwner(s: State, x: string, moves: seq<string>, owner: string, id: string)
    requires Inv(s) && CheckSplit(s, x, moves, owner) == None && id in s.byId
    ensures var t := DoSplit(s, x, moves, owner); id in t.byId && t.byId[id].owner == s.byId[id].owner
  {
    hide IdFor, CheckSplit, DoSplit;
    SplitIff(s, x, moves, owner);
    SplitResult(s, x, moves, owner);
    var t := DoSplit(s, x, moves, owner).(revision := s.revision);
    if id == x {
      SplitParentRow(s, x, moves, owner, t);
    } else {
      SplitOldRow(s, x, moves, owner, t, id);
    }
  }

  /** An accepted assignment leases each shard, a root then, to the one owner whose list names its move. */
  lemma {:induction false} AssignGives(s: State, partition: Partition, id: string)
    requires Inv(s) && Check(s, Assign(partition)) == None && id in s.byId
    ensures var t, r := Step(s, Assign(partition)), s.byId[id];
            && t.partitioned && t.byId.Keys == s.byId.Keys && |r.prefix| == 1
            && t.byId[id] == r.(owner := t.byId[id].owner, state := Leased)
            && (forall o | o in s.owners :: t.byId[id].owner == Some(o) <==> r.prefix[0] in partition[o])
  {
    hide IdFor, Walkable, LinkedDown, Assignment;
    AcceptedAssignment(s, partition);
    assert RowOk(s, id);
    UnassignedAreRoots(s, id);
    var m, taken := s.byId[id].prefix[0], Assignment(s, partition).value;
    RootPrefix(s, m);
    assert m in taken;
    forall o | o in s.owners && m in partition[o] ensures o == taken[m] { OnlyOwner(s, partition, m, o, taken[m]); }
  }

  lemma {:induction false} OnlyOwner(s: State, partition: Partition, m: string, o: string, p: string)
    requires ExactPartition(s, partition) && o in s.owners && p in s.owners && m in partition[o] && m in partition[p]
    ensures o == p
  {
    var i :| 0 <= i < |s.owners| && s.owners[i] == o;
    var j :| 0 <= j < |s.owners| && s.owners[j] == p;
  }

  lemma {:induction false} NotTwice(s: State, partition: Partition)
    requires Inv(s) && s.partitioned
    ensures Assignment(s, partition).Err?
  {
  }

  lemma {:induction false} SplitMoves(s: State, x: string, moves: seq<string>, owner: string, id: string)
    requires Inv(s) && CheckSplit(s, x, moves, owner) == None && id in s.byId
    ensures var t := DoSplit(s, x, moves, owner);
            && id in t.byId && t.partitioned == s.partitioned
            && t.byId[id].state == (if id == x then Retired else s.byId[id].state)
            && s.byId[x].owner == Some(owner) && s.byId[x].state == Sealed
  {
    hide IdFor, CheckSplit, DoSplit;
    SplitIff(s, x, moves, owner);
    SplitResult(s, x, moves, owner);
    var t := DoSplit(s, x, moves, owner).(revision := s.revision);
    if id == x {
      SplitParentRow(s, x, moves, owner, t);
    } else {
      SplitOldRow(s, x, moves, owner, t, id);
    }
  }

  /** How often a run moves the shard on. */
  ghost function AdvanceCount(s: State, cs: seq<Command>, id: string): nat
    requires Inv(s)
  {
    if |cs| == 0 then 0
    else
      AdvanceCount(s, cs[..|cs| - 1], id)
      + (if Advances(Run(s, cs[..|cs| - 1]), cs[|cs| - 1], id) then 1 else 0)
  }

  /** Over any run after the assignment a shard's place in its life is the number of commands that moved it on. */
  lemma {:induction false} RunAdvances(s: State, cs: seq<Command>, id: string)
    requires Inv(s) && s.partitioned && id in s.byId
    ensures var t := Run(s, cs);
            && id in t.byId && t.partitioned
            && ShardRuns.Rank(t.byId[id].state) == ShardRuns.Rank(s.byId[id].state) + AdvanceCount(s, cs, id)
  {
    hide Inv, Step, Check;
    if |cs| > 0 {
      RunAdvances(s, cs[..|cs| - 1], id);
      StateChanges(Run(s, cs[..|cs| - 1]), cs[|cs| - 1], id);
      StepPersists(Run(s, cs[..|cs| - 1]), cs[|cs| - 1], id);
      if Advances(Run(s, cs[..|cs| - 1]), cs[|cs| - 1], id) {
        AdvanceRank(Run(s, cs[..|cs| - 1]), cs[|cs| - 1], id);
      }
    }
  }

  lemma {:induction false} AdvanceRank(s: State, c: Command, id: string)
    requires Inv(s) && Advances(s, c, id)
    ensures ShardRuns.Rank(Successor(s.byId[id].state)) == ShardRuns.Rank(s.byId[id].state) + 1
  {
    hide Check, Inv;
  }

  // ---------------------------------------------------------------- construction

  /** A ledger is created exactly from a positive generation, distinct named owners and distinct canonical roots. */
  lemma {:induction false} CreateIff(roots: seq<string>, owners: seq<string>, generation: int)
    ensures CheckCreate(roots, owners, generation) == None <==>
              && generation >= 1
              && owners != [] && (forall i | 0 <= i < |owners| :: owners[i] != "")
              && (forall i, j | 0 <= i < j < |owners| :: owners[i] != owners[j])
              && (forall i | 0 <= i < |roots| :: IsMove(roots[i]))
              && (forall i, j | 0 <= i < j < |roots| :: roots[i] != roots[j])
  {
    hide IsMove;
    RootsIff(roots, 0);
  }

  lemma {:induction false} RootsIff(roots: seq<string>, k: nat)
    requires k <= |roots|
    ensures FirstBadRoot(roots, k) == None <==>
              && (forall i | k <= i < |roots| :: IsMove(roots[i]))
              && (forall i, j | 0 <= i < j < |roots| && k <= j :: roots[i] != roots[j])
    decreases |roots| - k
  {
    hide IsMove;
    if k < |roots| { RootsIff(roots, k + 1); }
  }

  /** A new ledger holds one unassigned, childless shard for each root, at the root's position, and nothing else. */
  lemma {:induction false} CreatedRows(roots: seq<string>, owners: seq<string>, g: nat, id: string)
    requires AllMoves(roots) && Distinct(roots)
    ensures var s := Created(roots, owners, g);
            && s.generation == g && s.owners == owners && s.roots == roots && !s.partitioned && s.revision == 0
            && |s.rootIds| == |roots|
            && (forall k | 0 <= k < |roots| :: s.rootIds[k] == IdFor(g, [roots[k]]))
            && (id in s.byId <==> exists k :: 0 <= k < |roots| && id == IdFor(g, [roots[k]]))
            && (id in s.byId ==>
                  var r := s.byId[id];
                  && r.rootOrdinal < |roots| && r.prefix == [roots[r.rootOrdinal]] && r.depth == 1
                  && r.id == id && r.generation == g && r.siblingOrdinal == None && r.parentId == None
                  && r.childIds == [] && r.owner == None && r.state == Unassigned)
  {
    hide IdFor;
    RootedHolds(roots, owners, g, |roots|);
    var s := Created(roots, owners, g);
    forall k | 0 <= k < |roots| ensures s.rootIds[k] == IdFor(g, [roots[k]]) && s.rootIds[k] in s.byId {
      assert RootAt(s, roots, k) && Indexed(s, [roots[k]]);
    }
    if id in s.byId { assert IsRootRow(s, roots, |roots|, id); }
  }
}
