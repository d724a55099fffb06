/** Counting, permanence and frontier accounting over runs of shard-ledger commands. */
module ShardRuns {
  import opened Wrappers
  import opened Text
  import opened PrefixShards
  import opened ShardInvariant
  import opened ShardSplit
  import opened ShardTheorems

  // ---------------------------------------------------------------- what one command changes

  /** The five states in the order a shard passes through them. */
  function Rank(st: ShardState): nat {
    match st
    case Unassigned => 0
    case Leased => 1
    case Active => 2
    case Sealed => 3
    case Retired => 4
  }

  /** The shard keeps its identity and place; its state only advances; once retired it is fixed. */
  ghost predicate Persists(s: State, t: State, id: string)
    requires id in s.byId
  {
    && id in t.byId
    && var a, b := s.byId[id], t.byId[id];
    && b == a.(owner := b.owner, state := b.state, childIds := b.childIds)
    && Rank(a.state) <= Rank(b.state)
    && (a.state == Retired ==> a == b)
    && (a.owner.Some? ==> b.owner.Some?)
    && (a.owner.Some? && a.owner != b.owner ==> a.state == Leased && b.state == Leased)
  }

  lemma {:induction false} TransferPersists(s: State, ids: seq<string>, from: string, to: string, id: string)
    requires Inv(s) && CheckTransfer(s, ids, from, to) == None && id in s.byId
    ensures Persists(s, DoTransfer(s, ids, to), id)
  {
    hide Core;
    ScannedTransfer(s, ids, 0, from);
  }

  lemma {:induction false} AssignPersists(s: State, partition: Partition, id: string)
    requires Inv(s) && Assignment(s, partition).Ok? && id in s.byId
    ensures Persists(s, DoAssign(s, Assignment(s, partition).value), id)
  {
    hide IdFor;
    AcceptedAssignment(s, partition);
    UnassignedAreRoots(s, id);
    assert RowOk(s, id);
    assert DoAssign(s, Assignment(s, partition).value).byId[id] == Leasing(s.byId[id], Assignment(s, partition).value);
  }

  lemma {:induction false} SplitPersists(s: State, id: string, moves: seq<string>, owner: string, x: string)
    requires Inv(s) && CheckSplit(s, id, moves, owner) == None && x in s.byId
    ensures Persists(s, DoSplit(s, id, moves, owner), x)
    ensures x != id ==> DoSplit(s, id, moves, owner).byId[x] == s.byId[x]
  {
    hide IdFor, CheckSplit, DoSplit;
    SplitIff(s, id, moves, owner);
    SplitResult(s, id, moves, owner);
    var t := DoSplit(s, id, moves, owner).(revision := s.revision);
    if x == id {
      SplitParentRow(s, id, moves, owner, t);
    } else {
      SplitOldRow(s, id, moves, owner, t, x);
    }
  }

  lemma {:induction false} StepPersists(s: State, c: Command, id: string)
    requires Inv(s) && id in s.byId
    ensures Persists(s, Step(s, c), id)
  {
    hide Core, CheckSplit, CheckTransfer, DoSplit, DoTransfer, DoAssign, Assignment;
    if Check(s, c) == None {
      match c
      case Assign(partition) => AssignPersists(s, partition, id);
      case Activate(_, _) =>
      case Seal(_, _) =>
      case Split(p, moves, owner) => SplitPersists(s, p, moves, owner, id);
      case Transfer(ids, from, to) => TransferPersists(s, ids, from, to, id);
    }
  }

  /** Over any run no shard disappears, moves, goes back a state, or changes once retired. */
  lemma {:induction false} RunPersists(s: State, cs: seq<Command>, id: string)
    requires Inv(s) && id in s.byId
    ensures var t := Run(s, cs);
            && id in t.byId
            && t.byId[id] ==
               s.byId[id].(owner := t.byId[id].owner, state := t.byId[id].state, childIds := t.byId[id].childIds)
            && Rank(s.byId[id].state) <= Rank(t.byId[id].state)
            && (s.byId[id].state == Retired ==> t.byId[id] == s.byId[id])
            && (s.byId[id].owner.Some? ==> t.byId[id].owner.Some?)
  {
    hide Core, Step;
    if |cs| > 0 {
      RunPersists(s, cs[..|cs| - 1], id);
      StepPersists(Run(s, cs[..|cs| - 1]), cs[|cs| - 1], id);
    }
  }

  // ---------------------------------------------------------------- counting

  ghost function RetiredIds(s: State): set<string> {
    set id | id in s.byId && s.byId[id].state == Retired
  }

  ghost function Splits(s: State, c: Command): nat
    requires Inv(s)
  {
    if Check(s, c) == None && c.Split? then 1 else 0
  }

  ghost function NewShards(s: State, c: Command): nat
    requires Inv(s)
  {
    if Check(s, c) == None && c.Split? then |c.moves| else 0
  }

  /** How many commands of the run were accepted, how many of those were splits, and how many children they declared. */
  ghost function Accepts(s: State, cs: seq<Command>): nat
    requires Inv(s)
  {
    if |cs| == 0 then 0
    else Accepts(s, cs[..|cs| - 1]) + (if Check(Run(s, cs[..|cs| - 1]), cs[|cs| - 1]) == None then 1 else 0)
  }

  ghost function SplitCount(s: State, cs: seq<Command>): nat
    requires Inv(s)
  {
    if |cs| == 0 then 0
    else SplitCount(s, cs[..|cs| - 1]) + Splits(Run(s, cs[..|cs| - 1]), cs[|cs| - 1])
  }

  ghost function ChildCount(s: State, cs: seq<Command>): nat
    requires Inv(s)
  {
    if |cs| == 0 then 0
    else ChildCount(s, cs[..|cs| - 1]) + NewShards(Run(s, cs[..|cs| - 1]), cs[|cs| - 1])
  }

  lemma {:induction false} SameRetired(s: State, t: State)
    requires t.byId.Keys == s.byId.Keys
    requires forall id | id in s.byId :: (t.byId[id].state == Retired <==> s.byId[id].state == Retired)
    ensures RetiredIds(t) == RetiredIds(s) && |t.byId| == |s.byId|
  {
    assert |t.byId.Keys| == |t.byId| && |s.byId.Keys| == |s.byId|;
  }

  lemma {:induction false} AssignCounts(s: State, partition: Partition)
    requires Inv(s) && Assignment(s, partition).Ok?
    ensures var t := DoAssign(s, Assignment(s, partition).value);
            RetiredIds(t) == RetiredIds(s) && |t.byId| == |s.byId|
  {
    hide IdFor, Assignment;
    AcceptedAssignment(s, partition);
    forall id | id in s.byId ensures s.byId[id].state == Unassigned {
      assert RowOk(s, id);
      UnassignedAreRoots(s, id);
    }
    SameRetired(s, DoAssign(s, Assignment(s, partition).value));
  }

  lemma {:induction false} TransferCounts(s: State, ids: seq<string>, from: string, to: string)
    requires CheckTransfer(s, ids, from, to) == None
    ensures RetiredIds(DoTransfer(s, ids, to)) == RetiredIds(s) && |DoTransfer(s, ids, to).byId| == |s.byId|
  {
    ScannedTransfer(s, ids, 0, from);
    SameRetired(s, DoTransfer(s, ids, to));
  }

  lemma {:induction false} AdvanceCounts(s: State, id: string, to: ShardState)
    requires id in s.byId && s.byId[id].state != Retired && to != Retired
    ensures RetiredIds(DoAdvance(s, id, to)) == RetiredIds(s) && |DoAdvance(s, id, to).byId| == |s.byId|
  {
    SameRetired(s, DoAdvance(s, id, to));
  }

  lemma {:induction false} RelabelCounts(s: State, c: Command)
    requires Inv(s) && Check(s, c) == None && !c.Split?
    ensures RetiredIds(Step(s, c)) == RetiredIds(s) && |Step(s, c).byId| == |s.byId|
    ensures Step(s, c).revision == s.revision + 1
  {
    hide Core, RetiredIds, Assignment, CheckTransfer;
    match c
    case Assign(partition) => AssignCounts(s, partition);
    case Activate(id, _) => AdvanceCounts(s, id, Active);
    case Seal(id, _) => AdvanceCounts(s, id, Sealed);
    case Transfer(ids, from, to) => TransferCounts(s, ids, from, to);
  }

  lemma {:induction false} SplitCounts(s: State, id: string, moves: seq<string>, owner: string)
    requires Inv(s) && CheckSplit(s, id, moves, owner) == None
    ensures var t := DoSplit(s, id, moves, owner);
            && t.revision == s.revision + 1 && |t.byId| == |s.byId| + |moves|
            && id !in RetiredIds(s) && RetiredIds(t) == RetiredIds(s) + {id}
  {
    hide IdFor, CheckSplit, DoSplit;
    SplitIff(s, id, moves, owner);
    SplitResult(s, id, moves, owner);
    var base, u := Retire(s, id, moves), DoSplit(s, id, moves, owner);
    var t := u.(revision := s.revision);
    assert base.byId.Keys == s.byId.Keys;
    assert |base.byId.Keys| == |base.byId| && |s.byId.Keys| == |s.byId|;
    SplitParentRow(s, id, moves, owner, t);
    forall x | x in t.byId ensures x in RetiredIds(t) <==> x in RetiredIds(s) || x == id {
      SplitRowIs(s, id, moves, owner, t, x);
    }
    assert RetiredIds(u) == RetiredIds(t);
    assert forall x | x in RetiredIds(s) :: x in base.byId && x in t.byId;
  }

  /** After a split a shard is an untouched old one, the retired parent, or a leased child. */
  lemma {:induction false} SplitRowIs(s: State, id: string, moves: seq<string>, owner: string, t: State, x: string)
    requires Inv(s) && Splittable(s, id, moves, owner) && x in t.byId
    requires Adopted(Retire(s, id, moves), t, s.byId[id], moves, |moves|, owner)
    ensures if x == id then t.byId[x].state == Retired && t.byId[x].childIds == ChildIds(s, s.byId[id].prefix, moves)
            else if x in s.byId then t.byId[x] == s.byId[x]
            else t.byId[x].state == Leased && t.byId[x].childIds == [] && x in ChildIds(s, s.byId[id].prefix, moves)
  {
    hide IdFor;
    if x == id {
      SplitParentRow(s, id, moves, owner, t);
    } else if x in s.byId {
      SplitOldRow(s, id, moves, owner, t, x);
    } else {
      assert Origin(Retire(s, id, moves), t, s.byId[id], moves, |moves|, owner, x);
      var k := t.byId[x].siblingOrdinal.value;
      assert ChildIds(s, s.byId[id].prefix, moves)[k] == x;
    }
  }

  /** Revision counts accepted commands, retired shards count splits, and shards are roots plus declared children. */
  lemma {:induction false} RunCounts(s: State, cs: seq<Command>)
    requires Inv(s)
    ensures var t := Run(s, cs);
            && t.revision == s.revision + Accepts(s, cs)
            && |RetiredIds(t)| == |RetiredIds(s)| + SplitCount(s, cs)
            && |t.byId| == |s.byId| + ChildCount(s, cs)
  {
    hide Core, CheckSplit, CheckTransfer, DoSplit, DoTransfer, DoAssign, Assignment, RetiredIds;
    if |cs| > 0 {
      RunCounts(s, cs[..|cs| - 1]);
      var t, c := Run(s, cs[..|cs| - 1]), cs[|cs| - 1];
      if Check(t, c) == None {
        if c.Split? {
          SplitCounts(t, c.id, c.moves, c.owner);
        } else {
          RelabelCounts(t, c);
        }
      }
    }
  }

  /** The same counts from the moment the ledger is created. */
  lemma {:induction false} CountsFromCreation(roots: seq<string>, owners: seq<string>, generation: int,
      cs: seq<Command>)
    requires CheckCreate(roots, owners, generation) == None
    ensures var s := Created(roots, owners, generation);
            && Inv(s)
            && var t := Run(s, cs);
            && t.revision == Accepts(s, cs)
            && |RetiredIds(t)| == SplitCount(s, cs)
            && |t.byId| == |roots| + ChildCount(s, cs)
  {
    hide IdFor, Run, Accepts, SplitCount, ChildCount;
    var s := Created(roots, owners, generation);
    CreatedKeeps(roots, owners, generation);
    GoodRoots(roots, 0);
    NoRepeats(roots);
    RootedHolds(roots, owners, generation, |roots|);
    RootedCount(roots, owners, generation, |roots|);
    forall id | id in s.byId ensures s.byId[id].state == Unassigned {
      assert RowOk(s, id);
    }
    assert RetiredIds(s) == {};
    RunCounts(s, cs);
  }

  lemma {:induction false} RootedCount(roots: seq<string>, owners: seq<string>, g: nat, k: nat)
    requires k <= |roots| && AllMoves(roots) && Distinct(roots)
    ensures |Rooted(roots, owners, g, k).byId| == k
  {
    hide IdFor, IsMove;
    if k > 0 {
      RootedCount(roots, owners, g, k - 1);
      NextRootIsNew(roots, owners, g, k - 1);
      var before, r := Rooted(roots, owners, g, k - 1).byId, RootRow(g, roots, k - 1);
      KeysGrow(before, r.id, r);
    }
  }

  lemma {:induction false} KeysGrow<K, V>(m: map<K, V>, k: K, v: V)
    requires k !in m
    ensures |m[k := v]| == |m| + 1
  {
    assert m[k := v].Keys == m.Keys + {k};
  }

  lemma {:induction false} NextRootIsNew(roots: seq<string>, owners: seq<string>, g: nat, k: nat)
    requires k < |roots| && AllMoves(roots) && Distinct(roots)
    ensures IdFor(g, [roots[k]]) !in Rooted(roots, owners, g, k).byId
  {
    hide IdFor, Rooted;
    RootedHolds(roots, owners, g, k);
    var t, id := Rooted(roots, owners, g, k), IdFor(g, [roots[k]]);
    if id in t.byId {
      assert IsRootRow(t, roots, k, id);
      var i := t.byId[id].rootOrdinal;
      assert [roots[i]][0] == roots[i] && [roots[k]][0] == roots[k];
      IdInjective(g, [roots[i]], g, [roots[k]]);
    }
  }

  // ---------------------------------------------------------------- the frontier

  /** A split replaces the parent on the frontier by exactly its children. */
  lemma {:induction false} SplitFrontier(s: State, id: string, moves: seq<string>, owner: string, x: string)
    requires Inv(s) && CheckSplit(s, id, moves, owner) == None
    ensures var t := DoSplit(s, id, moves, owner);
            IsFrontier(t, x) <==> (IsFrontier(s, x) && x != id) || x in ChildIds(s, s.byId[id].prefix, moves)
  {
    hide IdFor, CheckSplit, DoSplit;
    SplitIff(s, id, moves, owner);
    SplitResult(s, id, moves, owner);
    SplitFresh(s, id, moves, owner);
    var base := Retire(s, id, moves);
    var t := DoSplit(s, id, moves, owner).(revision := s.revision);
    if x in t.byId {
      SplitRowIs(s, id, moves, owner, t, x);
    }
    if x in ChildIds(s, s.byId[id].prefix, moves) {
      var k :| 0 <= k < |moves| && ChildIds(s, s.byId[id].prefix, moves)[k] == x;
      assert Added(base, t, s.byId[id], moves, k, owner);
      assert moves[k] == moves[k];
    }
    assert forall y | y in s.byId :: y in base.byId;
  }

  lemma {:induction false} LeasingKeepsFrontier(s: State, taken: map<string, string>, x: string)
    requires Inv(s)
    ensures IsFrontier(DoAssign(s, taken), x) <==> IsFrontier(s, x)
  {
    hide IdFor, Walkable, LinkedUp, LinkedDown, Config;
    assert x in s.byId ==> RowOk(s, x);
    var t := DoAssign(s, taken);
    assert x in s.byId ==> t.byId[x] == Leasing(s.byId[x], taken);
  }

  /** No other command changes which shards are on the frontier. */
  lemma {:induction false} OthersKeepFrontier(s: State, c: Command, x: string)
    requires Inv(s) && !c.Split?
    ensures IsFrontier(Step(s, c), x) <==> IsFrontier(s, x)
  {
    hide IdFor, Core, Walkable, Assignment, DoAssign;
    if Check(s, c) == None {
      match c
      case Assign(partition) => LeasingKeepsFrontier(s, Assignment(s, partition).value, x);
      case Activate(_, _) =>
      case Seal(_, _) =>
      case Transfer(ids, from, to) => ScannedTransfer(s, ids, 0, from);
    }
  }
}
