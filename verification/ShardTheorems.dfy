/** What holds of the shard ledger in every state and over every run of commands. */
module ShardTheorems {
  import opened Wrappers
  import opened Text
  import opened PrefixShards
  import opened ShardInvariant
  import opened ShardSplit

  // ---------------------------------------------------------------- runs

  /** Every command keeps the invariant. */
  lemma {:induction false} StepKeeps(s: State, c: Command)
    requires Inv(s)
    ensures Inv(Step(s, c))
  {
    hide Core;
    if Check(s, c) == None {
      match c
      case Assign(partition) => AssignKeeps(s, partition);
      case Activate(id, owner) => AdvanceKeeps(s, id, owner, Leased, Active);
      case Seal(id, owner) => AdvanceKeeps(s, id, owner, Active, Sealed);
      case Split(id, moves, owner) => SplitKeeps(s, id, moves, owner);
      case Transfer(ids, from, to) => TransferKeeps(s, ids, from, to);
    }
  }

  /** The state after a list of commands. */
  ghost function Run(s: State, cs: seq<Command>): (t: State)
    requires Inv(s)
    ensures Inv(t)
  {
    if |cs| == 0 then s
    else
      StepKeeps(Run(s, cs[..|cs| - 1]), cs[|cs| - 1]);
      Step(Run(s, cs[..|cs| - 1]), cs[|cs| - 1])
  }

  // ---------------------------------------------------------------- preorder

  /** x is id itself or one of its descendants. */
  ghost predicate Under(s: State, id: string, x: string) {
    id in s.byId && x in s.byId && s.byId[id].prefix <= s.byId[x].prefix
  }

  /** The position among id's children of the one that leads to the descendant x. */
  ghost function Branch(s: State, id: string, x: string): (k: nat)
    requires Inv(s) && Under(s, id, x) && x != id
    ensures k < |s.byId[id].childIds| && Under(s, s.byId[id].childIds[k], x)
  {
    BranchExists(s, id, x);
    At(s, s.byId[x].prefix[..|s.byId[id].prefix| + 1]).siblingOrdinal.value
  }

  lemma {:induction false} BranchExists(s: State, id: string, x: string)
    requires Inv(s) && Under(s, id, x) && x != id
    ensures StrictPrefix(s.byId[id].prefix, s.byId[x].prefix)
    ensures var d, q := |s.byId[id].prefix|, s.byId[x].prefix;
            && q[..d + 1] in s.byPrefix
            && var c := At(s, q[..d + 1]);
            && c.siblingOrdinal.Some? && c.siblingOrdinal.value < |s.byId[id].childIds|
            && s.byId[id].childIds[c.siblingOrdinal.value] == c.id && Under(s, c.id, x)
  {
    hide IdFor;
    var p, q := s.byId[id].prefix, s.byId[x].prefix;
    if p == q {
      SamePrefixSameRow(s, id, x);
    }
    assert RowOk(s, x) && RowOk(s, id);
    AncestorHasChild(s, p, q);
    var c := q[..|p| + 1];
    assert c[..|p|] == p;
    assert Indexed(s, c) && RowOk(s, s.byPrefix[c]);
    SamePrefixSameRow(s, At(s, c).parentId.value, id);
  }

  /** The children of one shard have disjoint subtrees. */
  lemma {:induction false} OneBranch(s: State, id: string, j: nat, x: string)
    requires Inv(s) && id in s.byId && j < |s.byId[id].childIds| && Under(s, s.byId[id].childIds[j], x)
    ensures Under(s, id, x) && x != id && Branch(s, id, x) == j
  {
    hide IdFor;
    assert RowOk(s, id);
    var cid := s.byId[id].childIds[j];
    assert RowOk(s, cid);
    var p, c, q := s.byId[id].prefix, s.byId[cid].prefix, s.byId[x].prefix;
    assert p == c[..|p|] == q[..|p|];
    assert c == q[..|p| + 1];
  }

  ghost predicate UnderFrom(s: State, id: string, k: nat, x: string)
    requires Inv(s)
  {
    Under(s, id, x) && x != id && Branch(s, id, x) >= k
  }

  lemma {:induction false} CountPreorder(s: State, id: string, x: string)
    requires Inv(s) && id in s.byId
    ensures multiset(Preorder(s, id))[x] == if Under(s, id, x) then 1 else 0
    decreases Below(s, s.byId[id].prefix), |s.byId[id].childIds| + 1
  {
    hide Core;
    CountPreorderFrom(s, id, 0, x);
    assert Preorder(s, id) == [id] + PreorderFrom(s, id, 0);
  }

  lemma {:induction false} CountPreorderFrom(s: State, id: string, k: nat, x: string)
    requires Inv(s) && id in s.byId && k <= |s.byId[id].childIds|
    ensures multiset(PreorderFrom(s, id, k))[x] == if UnderFrom(s, id, k, x) then 1 else 0
    decreases Below(s, s.byId[id].prefix), |s.byId[id].childIds| - k
  {
    hide Core;
    if k < |s.byId[id].childIds| {
      var c := s.byId[id].childIds[k];
      ChildBelow(s, id, k);
      CountPreorder(s, c, x);
      CountPreorderFrom(s, id, k + 1, x);
      if Under(s, c, x) {
        OneBranch(s, id, k, x);
      }
      assert PreorderFrom(s, id, k) == Preorder(s, c) + PreorderFrom(s, id, k + 1);
    }
  }

  /** The ordinal of the root above a shard. */
  ghost function RootOf(s: State, x: string): (k: nat)
    requires Inv(s) && x in s.byId
    ensures k < |s.rootIds| && Under(s, s.rootIds[k], x)
  {
    RootExists(s, x);
    At(s, s.byId[x].prefix[..1]).rootOrdinal
  }

  lemma {:induction false} RootExists(s: State, x: string)
    requires Inv(s) && x in s.byId
    ensures |s.byId[x].prefix| >= 1 && s.byId[x].prefix[..1] in s.byPrefix
    ensures var r := At(s, s.byId[x].prefix[..1]);
            r.rootOrdinal < |s.rootIds| && s.rootIds[r.rootOrdinal] == r.id && Under(s, r.id, x)
  {
    hide IdFor;
    assert RowOk(s, x);
    var q := s.byId[x].prefix;
    PrefixClosed(s, q, 1);
    assert Indexed(s, q[..1]) && RowOk(s, s.byPrefix[q[..1]]);
    var r := At(s, q[..1]);
    assert [s.roots[r.rootOrdinal]] == q[..1];
  }

  lemma {:induction false} OneRoot(s: State, k: nat, x: string)
    requires Inv(s) && k < |s.rootIds| && Under(s, s.rootIds[k], x)
    ensures RootOf(s, x) == k
  {
    hide IdFor;
    assert Indexed(s, [s.roots[k]]);
    var id := s.rootIds[k];
    assert RowOk(s, s.byPrefix[[s.roots[k]]]);
    RootExists(s, x);
    assert [s.roots[k]] == s.byId[x].prefix[..1];
    assert [s.roots[k]][0] == s.roots[k];
  }

  lemma {:induction false} CountOrdered(s: State, k: nat, x: string)
    requires Inv(s) && k <= |s.rootIds|
    ensures multiset(OrderedFrom(s, k))[x] == if x in s.byId && RootOf(s, x) >= k then 1 else 0
    decreases |s.rootIds| - k
  {
    hide Core, Preorder, Walks;
    if k < |s.rootIds| {
      var r := s.rootIds[k];
      assert r in s.byId by { RootRowExists(s, k); }
      CountPreorder(s, r, x);
      CountOrdered(s, k + 1, x);
      if Under(s, r, x) {
        OneRoot(s, k, x);
      }
      assert OrderedFrom(s, k) == Preorder(s, r) + OrderedFrom(s, k + 1);
    }
  }

  lemma {:induction false} RootRowExists(s: State, k: nat)
    requires Inv(s) && k < |s.rootIds|
    ensures s.rootIds[k] in s.byId && s.byId[s.rootIds[k]].prefix == [s.roots[k]]
    ensures s.byId[s.rootIds[k]].parentId == None && RowOk(s, s.rootIds[k])
  {
    hide IdFor;
    assert Indexed(s, [s.roots[k]]);
    assert RowOk(s, s.byPrefix[[s.roots[k]]]);
  }

  /** The recursive walk lists every shard exactly once. */
  lemma {:induction false} PreorderListsOnce(s: State)
    requires Inv(s)
    ensures multiset(Ordered(s)) == multiset(s.byId.Keys)
    ensures |Ordered(s)| == |s.byId|
  {
    hide Core, OrderedFrom;
    forall x ensures multiset(Ordered(s))[x] == multiset(s.byId.Keys)[x] {
      CountOrdered(s, 0, x);
    }
    assert multiset(Ordered(s)) == multiset(s.byId.Keys);
    assert |multiset(s.byId.Keys)| == |s.byId.Keys|;
    assert |multiset(Ordered(s))| == |Ordered(s)|;
  }

  lemma {:induction false} FilterCount(s: State, ids: seq<string>, x: string)
    ensures multiset(Filter(s, ids))[x] == if IsFrontier(s, x) then multiset(ids)[x] else 0
  {
    if |ids| > 0 {
      var init := ids[..|ids| - 1];
      FilterCount(s, init, x);
      assert ids == init + [ids[|ids| - 1]];
    }
  }

  /** The frontier is exactly the childless shards, each listed once. */
  lemma {:induction false} FrontierExact(s: State, x: string)
    requires Inv(s)
    ensures multiset(Frontier(s))[x] == if x in s.byId && s.byId[x].childIds == [] then 1 else 0
    ensures x in Frontier(s) <==> x in s.byId && s.byId[x].childIds == []
  {
    hide IdFor, OrderedFrom;
    if x in s.byId {
      assert RowOk(s, x);
    }
    FilterCount(s, Ordered(s), x);
    CountOrdered(s, 0, x);
    assert x in Frontier(s) <==> multiset(Frontier(s))[x] > 0;
  }

  // ---------------------------------------------------------------- the runtime check never fails

  lemma {:induction false} InjectiveCount<A, B>(m: map<A, B>, values: set<B>)
    requires forall a | a in m :: m[a] in values
    requires forall a, b | a in m && b in m && a != b :: m[a] != m[b]
    requires forall v | v in values :: exists a :: a in m && m[a] == v
    ensures |m| == |values|
    decreases |m|
  {
    if |m| == 0 {
      assert values == {};
    } else {
      var a :| a in m;
      var rest := m - {a};
      assert rest.Keys == m.Keys - {a};
      forall v | v in values - {m[a]} ensures exists b :: b in rest && rest[b] == v {
        var b :| b in m && m[b] == v;
        assert b in rest;
      }
      InjectiveCount(rest, values - {m[a]});
    }
  }

  lemma {:induction false} IndexesMatch(s: State)
    requires Inv(s)
    ensures |s.byId| == |s.byPrefix|
  {
    hide IdFor;
    forall p | p in s.byPrefix ensures s.byPrefix[p] in s.byId && s.byId[s.byPrefix[p]].prefix == p {
      assert Indexed(s, p);
    }
    forall id | id in s.byId ensures exists p :: p in s.byPrefix && s.byPrefix[p] == id {
      assert RowOk(s, id);
      assert s.byPrefix[s.byId[id].prefix] == id;
    }
    InjectiveCount(s.byPrefix, s.byId.Keys);
  }

  lemma {:induction false} RowPasses(s: State, id: string)
    requires Inv(s) && id in s.byId
    ensures RowAccepted(s, id)
  {
    hide IdFor;
    assert RowOk(s, id);
    var r := s.byId[id];
    if |r.prefix| > 1 {
      var p := s.byId[r.parentId.value];
      assert p.childIds[r.siblingOrdinal.value] == r.id;
    }
    assert Distinct(r.childIds) by {
      forall i, j | 0 <= i < j < |r.childIds| ensures r.childIds[i] != r.childIds[j] {
        assert s.byId[r.childIds[i]].siblingOrdinal == Some(i);
      }
    }
  }

  /** The validator repeated after every mutation accepts every state that satisfies the invariant. */
  lemma {:induction false} ValidatorAccepts(s: State)
    requires Inv(s)
    ensures Accepted(s)
  {
    hide Core, RowAccepted, Walkable;
    IndexesMatch(s);
    ConfigOf(s);
    hide IdFor;
    forall k | 0 <= k < |s.rootIds|
      ensures s.rootIds[k] in s.byId && s.byId[s.rootIds[k]].prefix == [s.roots[k]]
           && s.byId[s.rootIds[k]].parentId == None
           && (s.byId[s.rootIds[k]].owner.Some? <==> s.partitioned)
    {
      RootRowExists(s, k);
    }
    forall id | id in s.byId ensures RowAccepted(s, id) {
      RowPasses(s, id);
    }
    forall i, j | 0 <= i < j < |Frontier(s)|
      ensures !Related(s.byId[Frontier(s)[i]].prefix, s.byId[Frontier(s)[j]].prefix)
    {
      assert Frontier(s)[i] in Frontier(s) && Frontier(s)[j] in Frontier(s);
      FrontierUnrelated(s, Frontier(s)[i], Frontier(s)[j]);
      FrontierUnrelated(s, Frontier(s)[j], Frontier(s)[i]);
    }
  }

  lemma {:induction false} ConfigOf(s: State)
    requires Inv(s)
    ensures Config(s) && Walkable(s)
  {
  }

  /** Over any run from any accepted creation, the runtime check passes after every command. */
  lemma {:induction false} EveryRunValidates(roots: seq<string>, owners: seq<string>, generation: int, cs: seq<Command>)
    requires CheckCreate(roots, owners, generation) == None
    ensures Inv(Created(roots, owners, generation))
    ensures Accepted(Run(Created(roots, owners, generation), cs))
  {
    hide Core, Accepted, Created;
    CreatedKeeps(roots, owners, generation);
    ValidatorAccepts(Run(Created(roots, owners, generation), cs));
  }

  // ---------------------------------------------------------------- every line meets the frontier once

  /** The line starts at a candidate root and, at every split shard it meets, takes one of the declared children. */
  ghost predicate Follows(s: State, line: Prefix) {
    && |line| >= 1 && line[0] in s.roots
    && forall k {:trigger line[..k]} | 1 <= k < |line| && line[..k] in s.byPrefix && s.byPrefix[line[..k]] in s.byId
         && s.byId[s.byPrefix[line[..k]]].childIds != [] :: line[..k + 1] in s.byPrefix
  }

  /** Long enough: the line does not stop at a shard that was split. */
  ghost predicate Exhausts(s: State, line: Prefix)
    requires Inv(s)
  {
    line in s.byPrefix ==> At(s, line).childIds == []
  }

  ghost predicate Meets(s: State, line: Prefix, k: nat) {
    && 1 <= k <= |line| && line[..k] in s.byPrefix
    && IsFrontier(s, s.byPrefix[line[..k]])
  }

  lemma {:induction false} MeetsFrom(s: State, line: Prefix, k: nat) returns (n: nat)
    requires Inv(s) && Follows(s, line) && Exhausts(s, line)
    requires 1 <= k <= |line| && line[..k] in s.byPrefix
    ensures Meets(s, line, n)
    decreases |line| - k
  {
    hide IdFor;
    assert line[..|line|] == line;
    assert Indexed(s, line[..k]) && RowOk(s, s.byPrefix[line[..k]]);
    if s.byId[s.byPrefix[line[..k]]].childIds == [] {
      n := k;
    } else {
      n := MeetsFrom(s, line, k + 1);
    }
  }

  lemma {:induction false} MeetsOnce(s: State, line: Prefix, j: nat, k: nat)
    requires Inv(s) && Meets(s, line, j) && Meets(s, line, k)
    ensures j == k
  {
    hide IdFor;
    assert Indexed(s, line[..j]) && Indexed(s, line[..k]);
    if j < k {
      assert line[..k][..j] == line[..j];
      FrontierUnrelated(s, s.byPrefix[line[..j]], s.byPrefix[line[..k]]);
    } else if k < j {
      assert line[..j][..k] == line[..k];
      FrontierUnrelated(s, s.byPrefix[line[..k]], s.byPrefix[line[..j]]);
    }
  }

  /** A line that follows declared children meets a frontier shard exactly when it does not stop at a split shard. */
  lemma {:induction false} LineMeetsFrontier(s: State, line: Prefix)
    requires Inv(s) && Follows(s, line)
    ensures Exhausts(s, line) <==> exists k: nat :: Meets(s, line, k)
    ensures forall j: nat, k: nat | Meets(s, line, j) && Meets(s, line, k) :: j == k
  {
    hide Core;
    forall j: nat, k: nat | Meets(s, line, j) && Meets(s, line, k) ensures j == k {
      MeetsOnce(s, line, j, k);
    }
    if Exhausts(s, line) {
      RootPrefix(s, line[0]);
      assert line[..1] == [line[0]];
      var k := MeetsFrom(s, line, 1);
    } else {
      forall k: nat | Meets(s, line, k) ensures false {
        MeetsNotBelowSplit(s, line, k);
      }
    }
  }

  lemma {:induction false} MeetsNotBelowSplit(s: State, line: Prefix, k: nat)
    requires Inv(s) && Meets(s, line, k) && line in s.byPrefix
    ensures At(s, line).childIds == []
  {
    hide IdFor;
    assert Indexed(s, line) && Indexed(s, line[..k]);
    if k < |line| {
      FrontierUnrelated(s, s.byPrefix[line[..k]], s.byPrefix[line]);
    } else {
      assert line[..k] == line;
    }
  }

  /** After root assignment that frontier shard has exactly one owner, one of the authorized ones. */
  lemma {:induction false} LineHasOneOwner(s: State, line: Prefix)
    requires Inv(s) && s.partitioned && Follows(s, line) && Exhausts(s, line)
    ensures exists k: nat, owner ::
              && Meets(s, line, k) && owner in s.owners && s.byId[s.byPrefix[line[..k]]].owner == Some(owner)
              && forall j: nat | Meets(s, line, j) :: j == k
  {
    hide IdFor;
    LineMeetsFrontier(s, line);
    var k: nat :| Meets(s, line, k);
    var id := s.byPrefix[line[..k]];
    assert RowOk(s, id);
    assert Meets(s, line, k) && s.byId[id].owner.value in s.owners;
  }

  // ---------------------------------------------------------------- eligibility

  /** The snapshot returned for a sealed frontier leaf, or none. */
  ghost function SealedLeaf(s: State, prefix: Prefix): Option<Row>
    requires Inv(s)
  {
    if prefix == [] || !AllMoves(prefix) || prefix !in s.byPrefix then None
    else
      var r := At(s, prefix);
      if r.state != Sealed || r.childIds != [] || r.id !in Frontier(s) then None else Some(r)
  }

  /** A shard is eligible exactly when its owner may split it into precisely the good child lists. */
  lemma {:induction false} EligibleIffSplittable(s: State, prefix: Prefix)
    requires Inv(s)
    ensures prefix !in s.byPrefix ==> SealedLeaf(s, prefix) == None
    ensures prefix in s.byPrefix ==>
              (SealedLeaf(s, prefix).Some? <==>
               && At(s, prefix).owner.Some?
               && forall moves ::
                    CheckSplit(s, At(s, prefix).id, moves, At(s, prefix).owner.value) == None <==> GoodChildren(moves))
  {
    hide IdFor, CheckSplit;
    if prefix in s.byPrefix {
      assert Indexed(s, prefix) && RowOk(s, s.byPrefix[prefix]);
      var r := At(s, prefix);
      FrontierExact(s, r.id);
      if r.owner.Some? {
        forall moves
          ensures CheckSplit(s, r.id, moves, r.owner.value) == None <==> GoodChildren(moves) && r.state == Sealed
        {
          SplitIff(s, r.id, moves, r.owner.value);
        }
        assert GoodChildren(["e2e4"]) by { assert IsMove("e2e4"); }
      }
    }
  }
}
