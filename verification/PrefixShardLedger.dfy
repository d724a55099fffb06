/**
 The shard ledger as the program keeps it: shard objects reachable from two indexes and updated in
 place. Every method is tied to the specification in PrefixShards through View.
 */
module PrefixShardLedger {
  import opened Wrappers
  import opened Text
  import opened PrefixShards
  import opened ShardInvariant
  import opened ShardSplit
  import opened ShardTheorems
  import opened ShardPaths

  class Shard {
    const id: string
    const generation: nat
    const prefix: Prefix
    const depth: nat
    const rootOrdinal: nat
    const siblingOrdinal: Option<nat>
    const parentId: Option<string>
    var childIds: seq<string>
    var owner: Option<string>
    var state: ShardState

    constructor (row: Row)
      ensures Snapshot() == row && id == row.id
    {
      id, generation, prefix, depth := row.id, row.generation, row.prefix, row.depth;
      rootOrdinal, siblingOrdinal, parentId := row.rootOrdinal, row.siblingOrdinal, row.parentId;
      childIds, owner, state := row.childIds, row.owner, row.state;
    }

    function Snapshot(): Row
      reads this
    {
      Row(id, generation, prefix, depth, rootOrdinal, siblingOrdinal, parentId, childIds, owner, state)
    }
  }

  class Ledger {
    const generation: nat
    const owners: seq<string>
    const candidateRoots: seq<string>
    var partitionAssigned: bool
    var revision: nat
    var byId: map<string, Shard>
    var byPrefix: map<Prefix, Shard>
    var rootIds: seq<string>

    /** The two indexes hold the same objects, filed by id under their own ids. */
    ghost predicate Linked()
      reads this, byId.Values
    {
      && (forall id | id in byId :: byId[id].id == id)
      && (forall p | p in byPrefix :: byPrefix[p].id in byId && byId[byPrefix[p].id] == byPrefix[p])
    }

    ghost function View(): State
      reads this, byId.Values
    {
      State(generation, owners, candidateRoots, partitionAssigned, revision,
            map id | id in byId :: byId[id].Snapshot(),
            map p | p in byPrefix :: byPrefix[p].id, rootIds)
    }

    ghost predicate Valid()
      reads this, byId.Values
    {
      Linked() && Inv(View())
    }

    // -------------------------------------------------------------- construction

    constructor Empty(roots: seq<string>, authorized: seq<string>, gen: nat)
      ensures Linked() && View() == Rooted(roots, authorized, gen, 0) && byId == map[]
    {
      generation, owners, candidateRoots := gen, authorized, roots;
      partitionAssigned, revision, byId, byPrefix, rootIds := false, 0, map[], map[], [];
    }

    /** Enter one shard in both indexes. */
    method Enter(shard: Shard)
      requires Linked() && shard.id !in byId && shard.prefix !in byPrefix
      modifies this
      ensures Linked() && byId == old(byId)[shard.id := shard] && byPrefix == old(byPrefix)[shard.prefix := shard]
      ensures rootIds == old(rootIds) && partitionAssigned == old(partitionAssigned) && revision == old(revision)
      ensures var s, r := old(View()), shard.Snapshot();
              View() == s.(byId := s.byId[r.id := r], byPrefix := s.byPrefix[r.prefix := r.id])
    {
      FileById(shard);
      FileByPrefix(shard);
    }

    method FileById(shard: Shard)
      requires Linked() && shard.id !in byId
      modifies this`byId
      ensures Linked() && byId == old(byId)[shard.id := shard]
      ensures View() == old(View()).(byId := old(View()).byId[shard.id := shard.Snapshot()])
    {
      byId := byId[shard.id := shard];
      assert View().byId == old(View()).byId[shard.id := shard.Snapshot()];
      assert View().byPrefix == old(View()).byPrefix;
    }

    method FileByPrefix(shard: Shard)
      requires Linked() && shard.id in byId && byId[shard.id] == shard && shard.prefix !in byPrefix
      modifies this`byPrefix
      ensures Linked() && byPrefix == old(byPrefix)[shard.prefix := shard]
      ensures View() == old(View()).(byPrefix := old(View()).byPrefix[shard.prefix := shard.id])
    {
      byPrefix := byPrefix[shard.prefix := shard];
      assert View().byId == old(View()).byId;
      assert View().byPrefix == old(View()).byPrefix[shard.prefix := shard.id];
    }

    method AppendRoot(id: string)
      requires Linked()
      modifies this`rootIds
      ensures Linked() && View() == old(View()).(rootIds := old(rootIds) + [id])
    {
      rootIds := rootIds + [id];
      assert View().byId == old(View()).byId && View().byPrefix == old(View()).byPrefix;
    }

    method EnterRoot(k: nat)
      requires k < |candidateRoots| && AllMoves(candidateRoots) && Distinct(candidateRoots)
      requires Linked() && View() == Rooted(candidateRoots, owners, generation, k)
      modifies this
      ensures Linked() && View() == Rooted(candidateRoots, owners, generation, k + 1)
      ensures fresh(byId.Values - old(byId.Values))
    {
      hide IdFor, Rooted, RootRow;
      RootNotEntered(candidateRoots, owners, generation, k);
      RootedNext(candidateRoots, owners, generation, k);
      var row := RootRow(generation, candidateRoots, k);
      RootRowIs(generation, candidateRoots, k);
      ghost var s := View();
      var shard := new Shard(row);
      assert View() == s && shard.prefix == row.prefix;
      Enter(shard);
      AppendRoot(shard.id);
    }

    static method CheckArguments(roots: seq<string>, authorized: seq<string>, gen: int)
      returns (e: Option<LedgerError>)
      ensures e == CheckCreate(roots, authorized, gen)
    {
      if gen < 1 { return Some(BadGeneration); }
      if authorized == [] { return Some(NoOwners); }
      if "" in authorized { return Some(EmptyOwner); }
      if !Distinct(authorized) { return Some(DuplicateOwner); }
      var seen: set<string> := {};
      for index := 0 to |roots|
        invariant FirstBadRoot(roots, 0) == FirstBadRoot(roots, index)
        invariant forall m :: m in seen <==> m in roots[..index]
      {
        var move := roots[index];
        if !IsMove(move) { return Some(NonCanonicalMove(move)); }
        if move in seen { return Some(DuplicateRoot(move)); }
        seen := seen + {move};
      }
      e := None;
    }

    static method Build(roots: seq<string>, authorized: seq<string>, gen: nat) returns (ledger: Ledger)
      requires AllMoves(roots) && Distinct(roots)
      ensures fresh(ledger) && fresh(ledger.byId.Values) && ledger.Linked()
      ensures ledger.View() == Created(roots, authorized, gen)
    {
      hide IdFor;
      ledger := new Ledger.Empty(roots, authorized, gen);
      for k := 0 to |roots|
        invariant ledger.Linked() && fresh(ledger) && fresh(ledger.byId.Values)
        invariant ledger.View() == Rooted(roots, authorized, gen, k)
      {
        ledger.EnterRoot(k);
      }
    }

    static method Create(roots: seq<string>, authorized: seq<string>, gen: int)
      returns (r: Result<Ledger, LedgerError>)
      ensures match r
              case Err(e) => CheckCreate(roots, authorized, gen) == Some(e)
              case Ok(l) =>
                && CheckCreate(roots, authorized, gen) == None
                && fresh(l) && fresh(l.byId.Values)
                && l.Valid() && l.View() == Created(roots, authorized, gen)
    {
      hide FirstBadRoot, Created, Core, Walkable, Accepted;
      var e := CheckArguments(roots, authorized, gen);
      if e.Some? { return Err(e.value); }
      GoodRoots(roots, 0);
      NoRepeats(roots);
      CreatedKeeps(roots, authorized, gen);
      var ledger := Build(roots, authorized, gen);
      ValidatorAccepts(ledger.View());
      var check := ledger.ValidateInvariants();
      r := match check case Pass => Ok(ledger) case Fail(broken) => Err(broken);
    }

    // -------------------------------------------------------------- the recursive walk

    method Visit(id: string, ordered: seq<string>) returns (out: seq<string>)
      requires Linked() && Walkable(View()) && id in byId
      ensures out == ordered + Preorder(View(), id)
      decreases Below(View(), byId[id].prefix), |byId[id].childIds| + 1
    {
      hide RowAccepted;
      out := ordered + [id];
      var shard := byId[id];
      assert View().byId[id] == shard.Snapshot();
      for k := 0 to |shard.childIds|
        invariant out + PreorderFrom(View(), id, k) == ordered + Preorder(View(), id)
      {
        ChildBelow(View(), id, k);
        out := Visit(shard.childIds[k], out);
      }
    }

    method OrderedIds() returns (ordered: seq<string>)
      requires Linked() && Walkable(View())
      ensures ordered == Ordered(View())
    {
      hide Preorder, Walkable;
      ghost var s := View();
      ordered := [];
      for k := 0 to |rootIds|
        invariant View() == s && ordered + OrderedFrom(s, k) == Ordered(s)
      {
        WalkableRoots(s, k);
        NextRoot(s, k, ordered);
        ordered := Visit(rootIds[k], ordered);
      }
    }

    method FrontierShards() returns (shards: seq<Shard>)
      requires Linked() && Walkable(View())
      ensures |shards| == |Frontier(View())|
      ensures forall i | 0 <= i < |shards| :: Frontier(View())[i] in byId && shards[i] == byId[Frontier(View())[i]]
    {
      hide Ordered, Walks;
      var ordered := OrderedIds();
      shards := [];
      for i := 0 to |ordered|
        invariant |shards| == |Filter(View(), ordered[..i])|
        invariant forall j | 0 <= j < |shards| ::
                    Filter(View(), ordered[..i])[j] in byId && shards[j] == byId[Filter(View(), ordered[..i])[j]]
      {
        assert ordered[..i + 1][..i] == ordered[..i];
        if ordered[i] in byId && byId[ordered[i]].childIds == [] && byId[ordered[i]].state != Retired {
          shards := shards + [byId[ordered[i]]];
        }
      }
      assert ordered[..|ordered|] == ordered;
    }

    // -------------------------------------------------------------- the validator

    method ValidateRoots() returns (ok: bool)
      requires Linked()
      ensures ok <==> RootsAccepted(View())
    {
      if |rootIds| != |candidateRoots| || |byId| != |byPrefix| {
        SizesAgree();
        return false;
      }
      SizesAgree();
      ok := true;
      for k := 0 to |rootIds|
        invariant ok <==> forall i | 0 <= i < k ::
                            && rootIds[i] in byId && byId[rootIds[i]].prefix == [candidateRoots[i]]
                            && byId[rootIds[i]].parentId == None
      {
        if rootIds[k] !in byId || byId[rootIds[k]].prefix != [candidateRoots[k]] || byId[rootIds[k]].parentId != None {
          ok := false;
        }
      }
    }

    lemma {:induction false} SizesAgree()
      ensures |View().byId| == |byId| && |View().byPrefix| == |byPrefix|
    {
      assert View().byId.Keys == byId.Keys && View().byPrefix.Keys == byPrefix.Keys;
      assert |byId.Keys| == |byId| && |View().byId.Keys| == |View().byId|;
      assert |byPrefix.Keys| == |byPrefix| && |View().byPrefix.Keys| == |View().byPrefix|;
    }

    method ValidateRow(shardId: string) returns (ok: bool)
      requires Linked() && shardId in byId
      ensures ok <==> RowAccepted(View(), shardId)
    {
      hide IdFor;
      var shard := byId[shardId];
      assert View().byId[shardId] == shard.Snapshot();
      if shard.id != shardId || shard.generation != generation { return false; }
      if shard.depth != |shard.prefix| || shard.depth < 1 || !AllMoves(shard.prefix) { return false; }
      if IdFor(generation, shard.prefix) != shard.id { return false; }
      if shard.prefix !in byPrefix || byPrefix[shard.prefix] != shard { return false; }
      if shard.owner.Some? && shard.owner.value !in owners { return false; }
      match shard.parentId {
        case None =>
          if shard.depth != 1 { return false; }
        case Some(pid) =>
          if pid !in byId { return false; }
          if shard.prefix[..|shard.prefix| - 1] != byId[pid].prefix || shard.id !in byId[pid].childIds { return false; }
      }
      if shard.childIds == [] {
        return shard.state != Retired;
      }
      if shard.state != Retired { return false; }
      var seen: set<string> := {};
      for k := 0 to |shard.childIds|
        invariant forall c :: c in seen <==> c in shard.childIds[..k]
        invariant Distinct(shard.childIds[..k])
        invariant forall i | 0 <= i < k ::
                  shard.childIds[i] in byId && byId[shard.childIds[i]].parentId == Some(shard.id)
      {
        var c := shard.childIds[k];
        if c in seen {
          var i :| 0 <= i < k && shard.childIds[..k][i] == c;
          return false;
        }
        seen := seen + {c};
        if c !in byId || byId[c].parentId != Some(shard.id) { return false; }
      }
      assert shard.childIds[..|shard.childIds|] == shard.childIds;
      ok := true;
    }

    /** Follow the parent links up from a shard; true if an id repeats on the way. */
    method FindsCycle(start: string) returns (cyclic: bool)
      requires Linked() && start in byId && RowsAccepted(View())
      ensures !cyclic
    {
      hide IdFor;
      cyclic := false;
      var seen: set<string> := {};
      var cursor := byId[start];
      while cursor.parentId != None
        invariant cursor.id in byId && byId[cursor.id] == cursor && !cyclic
        invariant forall x | x in seen :: x in byId && |byId[x].prefix| > |cursor.prefix|
        decreases |cursor.prefix|
      {
        assert RowAccepted(View(), cursor.id);
        cyclic := cyclic || cursor.id in seen;
        seen := seen + {cursor.id};
        cursor := byId[cursor.parentId.value];
      }
    }

    method ValidateFrontier() returns (ok: bool)
      requires Linked() && Walkable(View())
      ensures ok <==> FrontierAccepted(View())
    {
      hide RowAccepted;
      var frontier := FrontierShards();
      ghost var ids := Frontier(View());
      ok := true;
      for i := 0 to |frontier|
        invariant ok <==> forall a, b | 0 <= a < i && a < b < |frontier| ::
                            !Related(frontier[a].prefix, frontier[b].prefix)
      {
        for j := i + 1 to |frontier|
          invariant ok <==> && (forall a, b | 0 <= a < i && a < b < |frontier| ::
                                  !Related(frontier[a].prefix, frontier[b].prefix))
                            && (forall b | i < b < j :: !Related(frontier[i].prefix, frontier[b].prefix))
        {
          if Related(frontier[i].prefix, frontier[j].prefix) { ok := false; }
        }
      }
      assert forall a | 0 <= a < |frontier| :: View().byId[ids[a]].prefix == frontier[a].prefix;
    }

    method ValidateOwners() returns (ok: bool)
      requires Linked() && RootsAccepted(View())
      ensures ok <==> OwnersAccepted(View())
    {
      ok := true;
      for k := 0 to |rootIds|
        invariant ok <==> forall i | 0 <= i < k ::
                  rootIds[i] in byId && (byId[rootIds[i]].owner.Some? <==> partitionAssigned)
      {
        if byId[rootIds[k]].owner.Some? != partitionAssigned { ok := false; }
      }
    }

    method ValidateRows() returns (ok: bool)
      requires Linked() && RootsAccepted(View())
      ensures ok <==> RowsAccepted(View())
    {
      hide RowAccepted, RootsAccepted;
      ok := true;
      var todo := byId.Keys;
      while todo != {}
        invariant todo <= byId.Keys
        invariant ok <==> forall id | id in byId && id !in todo :: RowAccepted(View(), id)
        decreases todo
      {
        var id :| id in todo;
        var good := ValidateRow(id);
        ok := ok && good;
        todo := todo - {id};
      }
    }

    method AnyCycle() returns (cyclic: bool)
      requires Linked() && RowsAccepted(View())
      ensures !cyclic
    {
      hide RowAccepted;
      cyclic := false;
      var todo := byId.Keys;
      while todo != {}
        invariant todo <= byId.Keys && !cyclic
        decreases todo
      {
        var id :| id in todo;
        var found := FindsCycle(id);
        cyclic := cyclic || found;
        todo := todo - {id};
      }
    }

    method ValidateTree() returns (ok: bool)
      requires Linked()
      ensures ok <==> RootsAccepted(View()) && RowsAccepted(View())
      ensures ok ==> Walkable(View())
    {
      hide RowsAccepted, RootsAccepted, Walkable;
      ok := ValidateRoots();
      if !ok { return; }
      ok := ValidateRows();
      if ok { AcceptedRowsWalk(View()); }
    }

    /** The check repeated after every mutation; it passes exactly on the accepted states. */
    method ValidateInvariants() returns (r: Outcome<LedgerError>)
      requires Linked()
      ensures r == if Accepted(View()) then Pass else Fail(InvariantBroken)
    {
      hide RowsAccepted, RootsAccepted, FrontierAccepted, OwnersAccepted, Walkable;
      var ok := ValidateTree();
      if !ok { return Fail(InvariantBroken); }
      var cyclic := AnyCycle();
      ok := ValidateFrontier();
      if cyclic || !ok { return Fail(InvariantBroken); }
      ok := ValidateOwners();
      if !ok { return Fail(InvariantBroken); }
      r := Pass;
    }

    // -------------------------------------------------------------- activate and seal

    method Activate(shardId: string, owner: string) returns (r: Outcome<LedgerError>)
      requires Valid()
      modifies this`revision, byId.Values
      ensures Valid() && byId == old(byId)
      ensures r == Report(Check(old(View()), PrefixShards.Activate(shardId, owner)))
      ensures View() == Step(old(View()), PrefixShards.Activate(shardId, owner))
    {
      hide Core, Walkable, Accepted;
      if owner !in owners { return Fail(UnknownOwner(owner)); }
      if shardId !in byId { return Fail(UnknownShard(shardId)); }
      var shard := byId[shardId];
      assert View().byId[shardId] == shard.Snapshot();
      if shard.childIds != [] { return Fail(NotFrontier(shardId)); }
      if shard.owner != Some(owner) { return Fail(WrongOwner(shardId)); }
      if shard.state != Leased { return Fail(WrongState(shardId, shard.state)); }
      AdvanceKeeps(View(), shardId, owner, Leased, Active);
      MoveOn(shardId, Active);
      ValidatorAccepts(View());
      r := ValidateInvariants();
    }

    method Seal(shardId: string, owner: string) returns (r: Outcome<LedgerError>)
      requires Valid()
      modifies this`revision, byId.Values
      ensures Valid() && byId == old(byId)
      ensures r == Report(Check(old(View()), PrefixShards.Seal(shardId, owner)))
      ensures View() == Step(old(View()), PrefixShards.Seal(shardId, owner))
    {
      hide Core, Walkable, Accepted;
      if owner !in owners { return Fail(UnknownOwner(owner)); }
      if shardId !in byId { return Fail(UnknownShard(shardId)); }
      var shard := byId[shardId];
      assert View().byId[shardId] == shard.Snapshot();
      if shard.childIds != [] { return Fail(NotFrontier(shardId)); }
      if shard.owner != Some(owner) { return Fail(WrongOwner(shardId)); }
      if shard.state != Active { return Fail(WrongState(shardId, shard.state)); }
      AdvanceKeeps(View(), shardId, owner, Active, Sealed);
      MoveOn(shardId, Sealed);
      ValidatorAccepts(View());
      r := ValidateInvariants();
    }

    /** Write the new state of one shard and count the mutation. */
    method MoveOn(shardId: string, to: ShardState)
      requires Linked() && shardId in byId
      modifies this`revision, byId[shardId]
      ensures Linked() && byId == old(byId) && byPrefix == old(byPrefix)
      ensures View() == DoAdvance(old(View()), shardId, to)
    {
      byId[shardId].state := to;
      revision := revision + 1;
      assert View().byId == DoAdvance(old(View()), shardId, to).byId;
    }

    // -------------------------------------------------------------- split

    method ScanMoveList(parent: Prefix, moves: seq<string>) returns (e: Option<LedgerError>)
      requires Linked()
      ensures e == ScanChildren(View(), parent, moves, 0)
    {
      var seen: set<string> := {};
      for k := 0 to |moves|
        invariant ScanChildren(View(), parent, moves, 0) == ScanChildren(View(), parent, moves, k)
        invariant forall m :: m in seen <==> m in moves[..k]
      {
        var move := moves[k];
        if !IsMove(move) { return Some(NonCanonicalMove(move)); }
        if move in seen { return Some(DuplicateChild(move)); }
        seen := seen + {move};
        if parent + [move] in byPrefix { return Some(RecreatesPrefix(parent + [move])); }
      }
      e := None;
    }

    method CollidesWithFrontier(shardId: string, moves: seq<string>) returns (hit: bool)
      requires Valid() && shardId in byId
      ensures hit <==> Collides(View(), shardId, moves)
    {
      hide Core, RowAccepted;
      var frontier := FrontierShards();
      ghost var ids, p := Frontier(View()), byId[shardId].prefix;
      hit := false;
      for k := 0 to |moves|
        invariant hit <==> exists a, i | 0 <= a < k && 0 <= i < |ids| && ids[i] != shardId ::
                             Related(p + [moves[a]], byId[ids[i]].prefix)
      {
        for i := 0 to |frontier|
          invariant hit <==> || (exists a, b | 0 <= a < k && 0 <= b < |ids| && ids[b] != shardId ::
                                   Related(p + [moves[a]], byId[ids[b]].prefix))
                             || (exists b | 0 <= b < i && ids[b] != shardId ::
                                 Related(p + [moves[k]], byId[ids[b]].prefix))
        {
          var proposed := byId[shardId].prefix + [moves[k]];
          if frontier[i].id != shardId && Related(proposed, frontier[i].prefix) { hit := true; }
        }
      }
      if hit {
        ghost var a, i :| 0 <= a < |moves| && 0 <= i < |ids| && ids[i] != shardId
            && Related(p + [moves[a]], byId[ids[i]].prefix);
        assert ids[i] in ids;
      }
      if Collides(View(), shardId, moves) {
        ghost var k, other :| 0 <= k < |moves| && other in ids && other != shardId
          && Related(View().byId[shardId].prefix + [moves[k]], View().byId[other].prefix);
        ghost var i :| 0 <= i < |ids| && ids[i] == other;
      }
    }

    method CheckSplitArguments(shardId: string, moves: seq<string>, owner: string) returns (e: Option<LedgerError>)
      requires Valid()
      ensures e == CheckSplit(View(), shardId, moves, owner)
    {
      hide Core, Walkable, Collides, ScanChildren;
      if owner !in owners { return Some(UnknownOwner(owner)); }
      if shardId !in byId { return Some(UnknownShard(shardId)); }
      var parent := byId[shardId];
      assert View().byId[shardId] == parent.Snapshot();
      if parent.owner != Some(owner) { return Some(WrongOwner(shardId)); }
      if parent.state != Sealed { return Some(WrongState(shardId, parent.state)); }
      if parent.childIds != [] { return Some(AlreadySplit); }
      if moves == [] { return Some(NoChildren); }
      e := ScanMoveList(parent.prefix, moves);
      if e == None {
        var hit := CollidesWithFrontier(shardId, moves);
        e := if hit then Some(BreaksFrontier) else None;
      }
    }

    method NewChildren(parent: Shard, moves: seq<string>, owner: string)
      returns (ids: seq<string>, children: seq<Shard>, ghost kids: set<Shard>)
      requires Linked()
      ensures ids == ChildIds(View(), parent.prefix, moves)
      ensures |children| == |moves| && fresh(kids)
      ensures forall k | 0 <= k < |moves| :: children[k] in kids
                && children[k].Snapshot() == ChildRow(View(), parent.Snapshot(), moves, k, owner)
    {
      hide IdFor;
      ids, children, kids := [], [], {};
      for k := 0 to |moves|
        invariant |ids| == |children| == k && fresh(kids)
        invariant forall i | 0 <= i < k :: ids[i] == IdFor(generation, parent.prefix + [moves[i]])
        invariant forall i | 0 <= i < k :: children[i] in kids
                    && children[i].Snapshot() == ChildRow(View(), parent.Snapshot(), moves, i, owner)
      {
        var prefix := parent.prefix + [moves[k]];
        var child := new Shard(Row(IdFor(generation, prefix), generation, prefix, |prefix|, parent.rootOrdinal,
                                   Some(k), Some(parent.id), [], Some(owner), Leased));
        ids, children, kids := ids + [child.id], children + [child], kids + {child};
      }
    }

    method RetireParent(shardId: string, moves: seq<string>, ids: seq<string>)
      requires Linked() && shardId in byId && ids == ChildIds(View(), byId[shardId].prefix, moves)
      modifies byId[shardId]
      ensures Linked() && View() == Retire(old(View()), shardId, moves)
    {
      hide IdFor;
      var parent := byId[shardId];
      parent.state := Retired;
      parent.childIds := ids;
      assert View().byId == Retire(old(View()), shardId, moves).byId;
    }

    method EnterChildren(ghost base: State, ghost parent: Row, children: seq<Shard>, moves: seq<string>, owner: string,
                         ghost kids: set<Shard>)
      requires Linked() && View() == base
      requires AllMoves(parent.prefix) && AllMoves(moves) && Distinct(moves)
      requires FreshChildren(base, parent.prefix, moves)
      requires |children| == |moves| && forall k | 0 <= k < |moves| :: children[k] in kids
      requires forall k | 0 <= k < |moves| :: children[k].Snapshot() == ChildRow(base, parent, moves, k, owner)
      modifies this
      ensures Linked() && View() == Adopt(base, parent, moves, |moves|, owner)
      ensures byId.Values <= old(byId.Values) + kids
    {
      hide IdFor, FreshChildren, AllMoves, Adopt, ChildRow;
      AdoptNone(base, parent, moves, owner);
      for k := 0 to |children|
        invariant Linked() && View() == Adopt(base, parent, moves, k, owner)
        invariant byId.Values <= old(byId.Values) + kids
      {
        AdoptNext(base, parent, moves, k, owner);
        Enter(children[k]);
      }
    }

    method CountMutation()
      requires Linked()
      modifies this`revision
      ensures Linked() && byId == old(byId) && View() == old(View()).(revision := old(revision) + 1)
    {
      revision := revision + 1;
      assert View().byId == old(View()).byId;
    }

    /** Retire the parent and enter its children in both indexes. */
    method GrowChildren(shardId: string, moves: seq<string>, owner: string) returns (ids: seq<string>)
      requires Valid() && Splittable(View(), shardId, moves, owner)
      modifies this, byId.Values
      ensures Linked() && fresh(byId.Values - old(byId.Values))
      ensures View() == Adopt(Retire(old(View()), shardId, moves), old(View()).byId[shardId], moves, |moves|, owner)
      ensures ids == ChildIds(old(View()), old(View()).byId[shardId].prefix, moves)
    {
      hide IdFor, Core, Walkable, Adopt, FreshChildren, ChildRow, ChildIds, Retire, AllMoves, Distinct;
      ghost var s := View();
      SplitFresh(s, shardId, moves, owner);
      RetireKeepsRows(s, shardId, moves, owner);
      var children;
      ghost var kids;
      ids, children, kids := NewChildren(byId[shardId], moves, owner);
      RetireParent(shardId, moves, ids);
      EnterChildren(View(), s.byId[shardId], children, moves, owner, kids);
    }

    method CommitSplit(shardId: string, moves: seq<string>, owner: string) returns (ids: seq<string>)
      requires Valid() && Splittable(View(), shardId, moves, owner)
      modifies this, byId.Values
      ensures Linked() && fresh(byId.Values - old(byId.Values))
      ensures View() == DoSplit(old(View()), shardId, moves, owner)
      ensures ids == ChildIds(old(View()), old(View()).byId[shardId].prefix, moves)
    {
      hide IdFor, Core, Walkable, Adopt, ChildIds, Retire, AllMoves, Distinct;
      ghost var s := View();
      ids := GrowChildren(shardId, moves, owner);
      RetireKeepsRows(s, shardId, moves, owner);
      AdoptRevision(Retire(s, shardId, moves), s.byId[shardId], moves, |moves|, owner);
      CountMutation();
    }

    /** Replace one sealed leaf by all of its declared children, or change nothing. */
    method Split(shardId: string, moves: seq<string>, owner: string) returns (r: Result<seq<string>, LedgerError>)
      requires Valid()
      modifies this, byId.Values
      ensures Valid() && fresh(byId.Values - old(byId.Values))
      ensures match Check(old(View()), PrefixShards.Split(shardId, moves, owner))
              case Some(e) => r == Err(e)
              case None => r == Ok(ChildIds(old(View()), old(View()).byId[shardId].prefix, moves))
      ensures View() == Step(old(View()), PrefixShards.Split(shardId, moves, owner))
    {
      hide IdFor, Core, Walkable, Accepted, CheckSplit, DoSplit;
      var e := CheckSplitArguments(shardId, moves, owner);
      if e.Some? { return Err(e.value); }
      SplitIff(View(), shardId, moves, owner);
      SplitKeeps(View(), shardId, moves, owner);
      var ids := CommitSplit(shardId, moves, owner);
      ValidatorAccepts(View());
      var check := ValidateInvariants();
      r := match check case Pass => Ok(ids) case Fail(broken) => Err(broken);
    }

    // -------------------------------------------------------------- transfer

    method CheckTransferArguments(ids: seq<string>, from: string, to: string)
      returns (e: Option<LedgerError>, shards: seq<Shard>)
      requires Linked()
      ensures e == CheckTransfer(View(), ids, from, to)
      ensures e == None ==>
                |shards| == |ids| && forall i | 0 <= i < |ids| :: ids[i] in byId && shards[i] == byId[ids[i]]
    {
      shards := [];
      if from !in owners { return Some(UnknownOwner(from)), []; }
      if to !in owners { return Some(UnknownOwner(to)), []; }
      if from == to { return Some(SameOwner), []; }
      if ids == [] { return Some(NoShardIds), []; }
      if !Distinct(ids) { return Some(DuplicateShardIds), []; }
      for k := 0 to |ids|
        invariant ScanTransfer(View(), ids, 0, from) == ScanTransfer(View(), ids, k, from)
        invariant |shards| == k && forall i | 0 <= i < k :: ids[i] in byId && shards[i] == byId[ids[i]]
      {
        if ids[k] !in byId { return Some(UnknownShard(ids[k])), []; }
        var shard := byId[ids[k]];
        assert View().byId[ids[k]] == shard.Snapshot();
        if shard.childIds != [] { return Some(NotFrontier(ids[k])), []; }
        if shard.state != Leased { return Some(WrongState(ids[k], shard.state)), []; }
        if shard.owner != Some(from) { return Some(WrongOwner(ids[k])), []; }
        shards := shards + [shard];
      }
      e := None;
    }

    method HandOver(ids: seq<string>, shards: seq<Shard>, to: string)
      requires Linked() && |shards| == |ids| && forall i | 0 <= i < |ids| :: ids[i] in byId && shards[i] == byId[ids[i]]
      modifies this`revision, byId.Values
      ensures Linked() && byId == old(byId) && View() == DoTransfer(old(View()), ids, to)
    {
      hide DoTransfer;
      for k := 0 to |shards|
        invariant Linked() && byId == old(byId) && byPrefix == old(byPrefix)
        invariant revision == old(revision)
        invariant forall id | id in byId :: byId[id].Snapshot() == Handed(old(byId[id].Snapshot()), id in ids[..k], to)
      {
        assert forall id | id in byId && byId[id] == shards[k] :: id == ids[k];
        assert ids[..k + 1] == ids[..k] + [ids[k]];
        shards[k].owner := Some(to);
      }
      assert ids[..|ids|] == ids;
      CountMutation();
      HandedOverIs(old(View()), View(), ids, to);
    }

    method Transfer(ids: seq<string>, from: string, to: string) returns (r: Outcome<LedgerError>)
      requires Valid()
      modifies this`revision, byId.Values
      ensures Valid() && byId == old(byId)
      ensures r == Report(Check(old(View()), PrefixShards.Transfer(ids, from, to)))
      ensures View() == Step(old(View()), PrefixShards.Transfer(ids, from, to))
    {
      hide Core, Walkable, Accepted, CheckTransfer, DoTransfer;
      var e, shards := CheckTransferArguments(ids, from, to);
      if e.Some? { return Fail(e.value); }
      TransferKeeps(View(), ids, from, to);
      HandOver(ids, shards, to);
      ValidatorAccepts(View());
      r := ValidateInvariants();
    }

    // -------------------------------------------------------------- root assignment

    method ScanOwnerMoves(owner: string, moves: seq<string>, taken: map<string, string>)
      returns (r: Result<map<string, string>, LedgerError>)
      requires Linked()
      ensures r == ScanMoves(View(), owner, moves, 0, taken)
    {
      var seenGlobal := taken;
      var seenOwner: set<string> := {};
      for j := 0 to |moves|
        invariant ScanMoves(View(), owner, moves, 0, taken) == ScanMoves(View(), owner, moves, j, seenGlobal)
        invariant forall m :: m in seenOwner <==> m in moves[..j]
      {
        var move := moves[j];
        if !IsMove(move) { return Err(NonCanonicalMove(move)); }
        if move in seenOwner { return Err(DuplicateInOwner(owner, move)); }
        seenOwner := seenOwner + {move};
        if [move] !in byPrefix { return Err(UnknownRoot(owner, move)); }
        if move in seenGlobal { return Err(AssignedTwice(move, seenGlobal[move], owner)); }
        seenGlobal := seenGlobal[move := owner];
      }
      r := Ok(seenGlobal);
    }

    method AnyMissing(taken: map<string, string>) returns (missing: bool)
      ensures missing <==> exists i | 0 <= i < |candidateRoots| :: candidateRoots[i] !in taken
    {
      missing := false;
      for k := 0 to |candidateRoots|
        invariant missing <==> exists i | 0 <= i < k :: candidateRoots[i] !in taken
      {
        if candidateRoots[k] !in taken { missing := true; }
      }
    }

    method CheckPartition(partition: Partition) returns (r: Result<map<string, string>, LedgerError>)
      requires Linked()
      ensures r == Assignment(View(), partition)
    {
      if partitionAssigned { return Err(AlreadyAssigned); }
      if partition.Keys != (set o | o in owners) { return Err(PartitionKeys); }
      var taken: map<string, string> := map[];
      for i := 0 to |owners|
        invariant ScanOwners(View(), partition, 0, map[]) == ScanOwners(View(), partition, i, taken)
      {
        var next := ScanOwnerMoves(owners[i], partition[owners[i]], taken);
        if next.Err? { return next; }
        taken := next.value;
      }
      var missing := AnyMissing(taken);
      if missing { return Err(Uncovered); }
      if |taken| != |candidateRoots| { return Err(CoverageMismatch); }
      r := Ok(taken);
    }

    /** The prefix index finds the shard filed under each id. */
    ghost predicate Filed()
      reads this
    {
      && (forall id | id in byId :: byId[id].prefix in byPrefix && byPrefix[byId[id].prefix] == byId[id])
      && (forall p | p in byPrefix :: byPrefix[p].prefix == p)
    }

    lemma {:induction false} ValidIsFiled()
      requires Valid()
      ensures Filed()
    {
      hide IdFor, Walkable;
      forall id | id in byId ensures byId[id].prefix in byPrefix && byPrefix[byId[id].prefix] == byId[id] {
        assert RowOk(View(), id) && View().byId[id] == byId[id].Snapshot();
      }
      forall p | p in byPrefix ensures byPrefix[p].prefix == p {
        assert Indexed(View(), p) && View().byId[byPrefix[p].id] == byPrefix[p].Snapshot();
      }
    }

    /** Lease every root of one owner's list. */
    method LeaseMoves(owner: string, moves: seq<string>)
      requires Linked() && Filed() && forall m | m in moves :: [m] in byPrefix
      modifies byId.Values
      ensures forall id | id in byId :: byId[id].Snapshot() == LeasedIn(old(byId[id].Snapshot()), owner, moves)
    {
      for j := 0 to |moves|
        invariant forall id | id in byId :: byId[id].Snapshot() == LeasedIn(old(byId[id].Snapshot()), owner, moves[..j])
      {
        assert moves[j] in moves;
        TakeOneMore(moves, j);
        var shard := byPrefix[[moves[j]]];
        forall id | id in byId && |byId[id].prefix| == 1 && byId[id].prefix[0] == moves[j] ensures byId[id] == shard {
          assert byId[id].prefix == [moves[j]];
        }
        shard.owner := Some(owner);
        shard.state := Leased;
      }
      assert moves[..|moves|] == moves;
    }

    method LeaseLists(partition: Partition)
      requires Linked() && Filed() && forall o | o in owners :: o in partition
      requires forall o | o in owners :: forall m | m in partition[o] :: [m] in byPrefix
      modifies byId.Values
      ensures forall id | id in byId ::
              byId[id].Snapshot() == LeasedBy(old(byId[id].Snapshot()), owners, partition, |owners|)
    {
      hide LeasedIn;
      for i := 0 to |owners|
        invariant forall id | id in byId ::
                  byId[id].Snapshot() == LeasedBy(old(byId[id].Snapshot()), owners, partition, i)
      {
        LeaseMoves(owners[i], partition[owners[i]]);
      }
    }

    method LeaseRoots(partition: Partition, ghost taken: map<string, string>)
      requires Valid() && Assignment(View(), partition) == Ok(taken)
      modifies this`partitionAssigned, this`revision, byId.Values
      ensures Linked() && byId == old(byId) && View() == DoAssign(old(View()), taken)
    {
      hide IdFor, Core, Walkable, LeasedBy, Leasing;
      ghost var s := View();
      ValidIsFiled();
      AssignedLists(s, partition);
      LeaseLists(partition);
      forall id | id in byId ensures byId[id].Snapshot() == Leasing(s.byId[id], taken) {
        LeasedByScan(s, s.byId[id], partition, taken);
      }
      MarkAssigned(s, taken);
    }

    method MarkAssigned(ghost s: State, ghost taken: map<string, string>)
      requires Linked() && byId.Keys == s.byId.Keys && View().(byId := s.byId) == s
      requires forall id | id in byId :: byId[id].Snapshot() == Leasing(s.byId[id], taken)
      modifies this`partitionAssigned, this`revision
      ensures Linked() && byId == old(byId) && View() == DoAssign(s, taken)
    {
      hide Leasing;
      partitionAssigned := true;
      revision := revision + 1;
      assert View().byId == DoAssign(s, taken).byId;
    }

    /** Lease the whole root universe, exactly once, or change nothing. */
    method AssignRootPartition(partition: Partition) returns (r: Outcome<LedgerError>)
      requires Valid()
      modifies this`partitionAssigned, this`revision, byId.Values
      ensures Valid() && byId == old(byId)
      ensures r == Report(Check(old(View()), PrefixShards.Assign(partition)))
      ensures View() == Step(old(View()), PrefixShards.Assign(partition))
    {
      hide IdFor, Core, Walkable, Accepted, Assignment, DoAssign;
      var taken := CheckPartition(partition);
      if taken.Err? { return Fail(taken.error); }
      AssignKeeps(View(), partition);
      LeaseRoots(partition, taken.value);
      ValidatorAccepts(View());
      r := ValidateInvariants();
    }

    // -------------------------------------------------------------- readers

    method GetByPrefix(prefix: Prefix) returns (r: Result<Row, LedgerError>)
      requires Valid()
      ensures r == if !AllMoves(prefix) then Err(BadPrefixMove(FirstBad(prefix), prefix[FirstBad(prefix)]))
                   else if prefix == [] then Err(EmptyPrefix)
                   else if prefix !in View().byPrefix then Err(UnknownPrefix(prefix))
                   else Ok(At(View(), prefix))
    {
      for i := 0 to |prefix|
        invariant forall j | 0 <= j < i :: IsMove(prefix[j])
      {
        if !IsMove(prefix[i]) { return Err(BadPrefixMove(i, prefix[i])); }
      }
      if prefix == [] { return Err(EmptyPrefix); }
      if prefix !in byPrefix { return Err(UnknownPrefix(prefix)); }
      r := Ok(byPrefix[prefix].Snapshot());
      assert View().byPrefix[prefix] == byPrefix[prefix].id;
    }

    method SealedFrontierLeaf(prefix: Prefix) returns (leaf: Option<Row>)
      requires Valid()
      ensures leaf == SealedLeaf(View(), prefix)
    {
      hide Core, RowAccepted;
      var found := GetByPrefix(prefix);
      if found.Err? { return None; }
      var snapshot := found.value;
      if snapshot.state != Sealed || snapshot.childIds != [] { return None; }
      var frontier := FrontierShards();
      ghost var ids := Frontier(View());
      var listed := false;
      for i := 0 to |frontier|
        invariant listed <==> snapshot.id in ids[..i]
      {
        if frontier[i].id == snapshot.id { listed := true; }
      }
      assert ids[..|ids|] == ids;
      leaf := if listed then Some(snapshot) else None;
    }

    method FrontierForOwner(owner: string) returns (r: Result<seq<Row>, LedgerError>)
      requires Valid()
      ensures r == if owner !in View().owners then Err(UnknownOwner(owner))
                   else Ok(OwnedRows(View(), Frontier(View()), owner))
    {
      hide Core, RowAccepted;
      if owner !in owners { return Err(UnknownOwner(owner)); }
      var frontier := FrontierShards();
      ghost var ids := Frontier(View());
      var rows: seq<Row> := [];
      for i := 0 to |frontier|
        invariant rows == OwnedRows(View(), ids[..i], owner)
      {
        assert ids[..i + 1][..i] == ids[..i] && View().byId[ids[i]] == frontier[i].Snapshot();
        if frontier[i].owner == Some(owner) { rows := rows + [frontier[i].Snapshot()]; }
      }
      assert ids[..|ids|] == ids;
      r := Ok(rows);
    }
  }

  lemma {:induction false} WalkableRoots(s: State, k: nat)
    requires Walkable(s) && k < |s.rootIds|
    ensures s.rootIds[k] in s.byId
  {
  }

  /** Appending one root's preorder to what is already listed takes it off what is still to come. */
  lemma {:induction false} NextRoot(s: State, k: nat, done: seq<string>)
    requires Walkable(s) && k < |s.rootIds| && s.rootIds[k] in s.byId
    ensures done + OrderedFrom(s, k) == (done + Preorder(s, s.rootIds[k])) + OrderedFrom(s, k + 1)
  {
    hide Preorder, Walkable;
  }

  /** The rows of the listed shards that one owner holds, in list order. */
  function OwnedRows(s: State, ids: seq<string>, owner: string): seq<Row>
    requires forall i | 0 <= i < |ids| :: ids[i] in s.byId
  {
    if |ids| == 0 then []
    else
      var r := s.byId[ids[|ids| - 1]];
      OwnedRows(s, ids[..|ids| - 1], owner) + (if r.owner == Some(owner) then [r] else [])
  }

  lemma {:induction false} OwnedRowsAre(s: State, ids: seq<string>, owner: string, row: Row)
    requires forall i | 0 <= i < |ids| :: ids[i] in s.byId
    ensures row in OwnedRows(s, ids, owner) <==>
            row.owner == Some(owner) && exists i :: 0 <= i < |ids| && s.byId[ids[i]] == row
  {
    if |ids| > 0 {
      OwnedRowsAre(s, ids[..|ids| - 1], owner, row);
    }
  }

  /** An owner's frontier is exactly its childless shards. */
  lemma {:induction false} OwnerFrontier(s: State, owner: string, row: Row)
    requires Inv(s)
    ensures row in OwnedRows(s, Frontier(s), owner) <==>
            row.owner == Some(owner) && row.childIds == [] && row.id in s.byId && s.byId[row.id] == row
  {
    hide IdFor;
    OwnedRowsAre(s, Frontier(s), owner, row);
    FrontierExact(s, row.id);
    if row in OwnedRows(s, Frontier(s), owner) {
      var i :| 0 <= i < |Frontier(s)| && s.byId[Frontier(s)[i]] == row;
      FrontierExact(s, Frontier(s)[i]);
      assert RowOk(s, Frontier(s)[i]);
    }
  }

  ghost predicate RowsAscend(s: State, rows: seq<Row>)
    requires Inv(s)
  {
    && (forall i | 0 <= i < |rows| :: rows[i].id in s.byId && s.byId[rows[i].id] == rows[i])
    && forall i, j | 0 <= i < j < |rows| :: Precedes(PathOf(s, rows[i].id), PathOf(s, rows[j].id))
  }

  lemma {:induction false} OwnedAscend(s: State, ids: seq<string>, owner: string)
    requires Inv(s) && AscendsFrom(s, ids)
    ensures RowsAscend(s, OwnedRows(s, ids, owner))
    ensures forall r | r in OwnedRows(s, ids, owner) :: r.id in ids
  {
    hide Core, Walkable, PathOf, Precedes;
    if |ids| > 0 {
      var front, last := ids[..|ids| - 1], ids[|ids| - 1];
      FrontOf(s, ids);
      OwnedAscend(s, front, owner);
      RowHasId(s, last);
      var rows, all := OwnedRows(s, front, owner), OwnedRows(s, ids, owner);
      forall i, j | 0 <= i < j < |all| ensures Precedes(PathOf(s, all[i].id), PathOf(s, all[j].id)) {
        if j == |rows| { assert rows[i] in rows && rows[i].id in front; }
      }
    }
  }

  lemma {:induction false} RowHasId(s: State, id: string)
    requires Inv(s) && id in s.byId
    ensures s.byId[id].id == id
  {
    hide IdFor, Walkable;
    assert RowOk(s, id);
  }

  /** An owner's frontier is listed ancestors first and siblings and roots as declared. */
  lemma {:induction false} OwnerFrontierInOrder(s: State, owner: string)
    requires Inv(s)
    ensures RowsAscend(s, OwnedRows(s, Frontier(s), owner))
  {
    hide Core, Walkable, PathOf, Precedes, OwnedRows, AscendsFrom, RowsAscend, Frontier;
    FrontierAscends(s);
    OwnedAscend(s, Frontier(s), owner);
  }

  function LeasedIn(r: Row, owner: string, moves: seq<string>): Row {
    if |r.prefix| == 1 && r.prefix[0] in moves then r.(owner := Some(owner), state := Leased) else r
  }

  /** A row after the first i owners have leased their lists in turn. */
  ghost function LeasedBy(r: Row, owners: seq<string>, partition: Partition, i: nat): Row
    requires i <= |owners| && forall o | o in owners :: o in partition
  {
    if i == 0 then r
    else LeasedIn(LeasedBy(r, owners, partition, i - 1), owners[i - 1], partition[owners[i - 1]])
  }

  lemma {:induction false} LeasedByLists(s: State, r: Row, partition: Partition, taken: map<string, string>, i: nat)
    requires i <= |s.owners| && (forall o | o in s.owners :: o in partition)
    requires Shares(s, partition, 0, map[], taken)
    ensures LeasedBy(r, s.owners, partition, i) ==
            if |r.prefix| == 1 && exists k | 0 <= k < i :: r.prefix[0] in partition[s.owners[k]]
            then r.(owner := Some(taken[r.prefix[0]]), state := Leased) else r
  {
    if i > 0 {
      LeasedByLists(s, r, partition, taken, i - 1);
    }
  }

  lemma {:induction false} AssignedLists(s: State, partition: Partition)
    requires Inv(s) && Assignment(s, partition).Ok?
    ensures forall o | o in s.owners :: o in partition
    ensures forall o | o in s.owners :: forall m | m in partition[o] :: [m] in s.byPrefix
  {
    hide Core, Walkable;
    AcceptedAssignment(s, partition);
    InvIndexesRoots(s);
    forall o | o in s.owners ensures forall m | m in partition[o] :: [m] in s.byPrefix {
      var k :| 0 <= k < |s.owners| && s.owners[k] == o;
    }
  }

  /** Leasing list by list gives every root the owner that the scan recorded for it. */
  lemma {:induction false} LeasedByScan(s: State, r: Row, partition: Partition, taken: map<string, string>)
    requires Inv(s) && Assignment(s, partition) == Ok(taken)
    requires forall o | o in s.owners :: o in partition
    ensures LeasedBy(r, s.owners, partition, |s.owners|) == Leasing(r, taken)
  {
    hide Core, Walkable, LeasedBy, Assignment;
    AcceptedAssignment(s, partition);
    LeasedByLists(s, r, partition, taken, |s.owners|);
  }

  lemma {:induction false} AdoptNone(base: State, parent: Row, moves: seq<string>, owner: string)
    ensures Adopt(base, parent, moves, 0, owner) == base
  {
  }

  lemma {:induction false} AdoptNext(base: State, parent: Row, moves: seq<string>, k: nat, owner: string)
    requires k < |moves|
    requires AllMoves(parent.prefix) && AllMoves(moves) && Distinct(moves)
    requires FreshChildren(base, parent.prefix, moves)
    ensures var t, c := Adopt(base, parent, moves, k, owner), ChildRow(base, parent, moves, k, owner);
            && c.id !in t.byId && c.prefix !in t.byPrefix
            && Adopt(base, parent, moves, k + 1, owner)
               == t.(byId := t.byId[c.id := c], byPrefix := t.byPrefix[c.prefix := c.id])
  {
    hide IdFor, Adopted;
    AdoptHolds(base, parent, moves, k, owner);
    NextChildFresh(base, Adopt(base, parent, moves, k, owner), parent, moves, k, owner);
  }

  lemma {:induction false} AdoptRevision(base: State, parent: Row, moves: seq<string>, k: nat, owner: string)
    requires k <= |moves|
    ensures Adopt(base, parent, moves, k, owner).revision == base.revision
  {
    if k > 0 { AdoptRevision(base, parent, moves, k - 1, owner); }
  }

  /** Retiring the parent changes neither the revision nor the rows its children will get. */
  lemma {:induction false} RetireKeepsRows(s: State, id: string, moves: seq<string>, owner: string)
    requires id in s.byId
    ensures Retire(s, id, moves).revision == s.revision
    ensures forall k | 0 <= k < |moves| ::
              ChildRow(Retire(s, id, moves), s.byId[id], moves, k, owner) == ChildRow(s, s.byId[id], moves, k, owner)
  {
    hide IdFor;
  }

  /** How a refusal is reported: the error, or success when there is none. */
  function Report(e: Option<LedgerError>): Outcome<LedgerError> {
    match e case None => Pass case Some(error) => Fail(error)
  }

  function Handed(r: Row, mine: bool, to: string): Row { if mine then r.(owner := Some(to)) else r }

  lemma {:induction false} HandedOverIs(s: State, t: State, ids: seq<string>, to: string)
    requires t.byId.Keys == s.byId.Keys && forall id | id in s.byId :: t.byId[id] == Handed(s.byId[id], id in ids, to)
    requires t == s.(byId := t.byId, revision := s.revision + 1)
    ensures t == DoTransfer(s, ids, to)
  {
    assert t.byId == DoTransfer(s, ids, to).byId;
  }

  lemma {:induction false} TakeOneMore(moves: seq<string>, j: nat)
    requires j < |moves|
    ensures forall m :: m in moves[..j + 1] <==> m in moves[..j] || m == moves[j]
  {
    assert moves[..j + 1] == moves[..j] + [moves[j]];
  }

  lemma {:induction false} RootRowIs(g: nat, roots: seq<string>, k: nat)
    requires k < |roots|
    ensures RootRow(g, roots, k).id == IdFor(g, [roots[k]]) && RootRow(g, roots, k).prefix == [roots[k]]
  {
    hide IdFor;
  }

  lemma {:induction false} RootedNext(roots: seq<string>, owners: seq<string>, g: nat, k: nat)
    requires k < |roots|
    ensures var s, r := Rooted(roots, owners, g, k), RootRow(g, roots, k);
            Rooted(roots, owners, g, k + 1)
            == s.(byId := s.byId[r.id := r], byPrefix := s.byPrefix[r.prefix := r.id], rootIds := s.rootIds + [r.id])
  {
  }

  /** The next candidate root is in neither index while the earlier ones are being entered. */
  lemma {:induction false} RootNotEntered(roots: seq<string>, owners: seq<string>, g: nat, k: nat)
    requires k < |roots| && AllMoves(roots) && Distinct(roots)
    ensures var s := Rooted(roots, owners, g, k);
            IdFor(g, [roots[k]]) !in s.byId && [roots[k]] !in s.byPrefix
  {
    hide IdFor;
    RootedHolds(roots, owners, g, k);
    var s := Rooted(roots, owners, g, k);
    assert forall i | 0 <= i < k :: [roots[i]][0] != [roots[k]][0];
    if IdFor(g, [roots[k]]) in s.byId {
      var id := IdFor(g, [roots[k]]);
      assert IsRootRow(s, roots, k, id);
      var i := s.byId[id].rootOrdinal;
      assert [roots[i]][0] == roots[i];
      IdInjective(g, [roots[i]], g, [roots[k]]);
    }
    assert [roots[k]] in s.byPrefix ==> Indexed(s, [roots[k]]);
    assert [roots[k]] in s.byPrefix && s.byPrefix[[roots[k]]] in s.byId ==>
        IsRootRow(s, roots, k, s.byPrefix[[roots[k]]]);
  }
}
