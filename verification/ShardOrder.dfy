/** Where a subtree stands in the preorder walk, and what an owner's frontier is below one prefix. */
module ShardOrder {
  import opened Wrappers
  import opened PrefixShards
  import opened ShardTheorems

  // ---------------------------------------------------------------- subtrees are contiguous

  lemma {:induction false} FromHead(s: State, id: string, k: nat) returns (head: seq<string>)
    requires Inv(s) && id in s.byId && k <= |s.byId[id].childIds|
    ensures PreorderFrom(s, id, 0) == head + PreorderFrom(s, id, k)
  {
    hide Core, Walks;
    if k == 0 {
      head := [];
    } else {
      head := FromHead(s, id, k - 1);
      ChildBelow(s, id, k - 1);
      head := head + Preorder(s, s.byId[id].childIds[k - 1]);
    }
  }

  lemma {:induction false} RootsHead(s: State, k: nat) returns (head: seq<string>)
    requires Inv(s) && k <= |s.rootIds|
    ensures Ordered(s) == head + OrderedFrom(s, k)
  {
    hide Core, Walks, Preorder;
    if k == 0 {
      head := [];
    } else {
      head := RootsHead(s, k - 1);
      RootRowExists(s, k - 1);
      head := head + Preorder(s, s.rootIds[k - 1]);
    }
  }

  lemma {:induction false} InsideSubtree(s: State, y: string, id: string)
      returns (before: seq<string>, after: seq<string>)
    requires Inv(s) && Under(s, y, id)
    ensures Preorder(s, y) == before + Preorder(s, id) + after
    decreases |s.byId[id].prefix| - |s.byId[y].prefix|
  {
    hide Core, Walks;
    if y == id {
      before, after := [], [];
    } else {
      BranchExists(s, y, id);
      var k := Branch(s, y, id);
      var c := s.byId[y].childIds[k];
      ChildBelow(s, y, k);
      var head := FromHead(s, y, k);
      before, after := InsideSubtree(s, c, id);
      before, after := [y] + head + before, after + PreorderFrom(s, y, k + 1);
    }
  }

  /** The walk lists every subtree in one piece, and nothing of it anywhere else. */
  lemma {:induction false} SubtreeContiguous(s: State, id: string) returns (before: seq<string>, after: seq<string>)
    requires Inv(s) && id in s.byId
    ensures Ordered(s) == before + Preorder(s, id) + after
    ensures forall x | x in before || x in after :: !Under(s, id, x)
  {
    hide Core, Walks, Preorder, RootOf, Under, Ordered, OrderedFrom;
    before, after := InsideWalk(s, id);
    forall x | x in before || x in after ensures !Under(s, id, x) {
      CountPreorder(s, id, x);
      WalkedOnce(s, x);
      CountParts(before, Preorder(s, id), after, x);
    }
  }

  lemma {:induction false} InsideWalk(s: State, id: string) returns (before: seq<string>, after: seq<string>)
    requires Inv(s) && id in s.byId
    ensures Ordered(s) == before + Preorder(s, id) + after
  {
    hide Core, Walks, Preorder, Ordered;
    var k := RootOf(s, id);
    var head := RootsHead(s, k);
    before, after := InsideSubtree(s, s.rootIds[k], id);
    before, after := head + before, after + OrderedFrom(s, k + 1);
  }

  lemma {:induction false} WalkedOnce(s: State, x: string)
    requires Inv(s)
    ensures multiset(Ordered(s))[x] <= 1
  {
    hide Core, Walks, OrderedFrom, RootOf;
    CountOrdered(s, 0, x);
  }

  lemma {:induction false} CountParts(a: seq<string>, b: seq<string>, c: seq<string>, x: string)
    ensures multiset(a + b + c)[x] == multiset(a)[x] + multiset(b)[x] + multiset(c)[x]
    ensures x in a ==> multiset(a)[x] >= 1
    ensures x in c ==> multiset(c)[x] >= 1
  {
    assert multiset(a + b + c) == multiset(a) + multiset(b) + multiset(c);
  }

  lemma {:induction false} LeavesFrom(s: State, id: string, k: nat)
    requires Inv(s) && id in s.byId && k <= |s.byId[id].childIds|
    requires forall c | c in s.byId[id].childIds :: c in s.byId && s.byId[c].childIds == []
    ensures PreorderFrom(s, id, k) == s.byId[id].childIds[k..]
    decreases |s.byId[id].childIds| - k
  {
    hide Core, Walks;
    if k < |s.byId[id].childIds| {
      ChildBelow(s, id, k);
      LeavesFrom(s, id, k + 1);
      assert PreorderFrom(s, s.byId[id].childIds[k], 0) == [];
      assert Preorder(s, s.byId[id].childIds[k]) == [s.byId[id].childIds[k]];
    }
  }

  /** A shard whose children are leaves is walked as itself and its children in list order. */
  lemma {:induction false} LeavesPreorder(s: State, id: string)
    requires Inv(s) && id in s.byId
    requires forall c | c in s.byId[id].childIds :: c in s.byId && s.byId[c].childIds == []
    ensures Preorder(s, id) == [id] + s.byId[id].childIds
  {
    hide Core, Walks;
    LeavesFrom(s, id, 0);
  }

  // ---------------------------------------------------------------- an owner's shards below a prefix

  /** The listed shards at or below p that one owner holds, in list order. */
  function HeldBelow(s: State, ids: seq<string>, p: Prefix, owner: string): seq<string> {
    if |ids| == 0 then []
    else
      HeldBelow(s, ids[..|ids| - 1], p, owner)
      + (if Holds(s, ids[|ids| - 1], p, owner) then [ids[|ids| - 1]] else [])
  }

  predicate Holds(s: State, id: string, p: Prefix, owner: string) {
    id in s.byId && p <= s.byId[id].prefix && s.byId[id].owner == Some(owner)
  }

  lemma {:induction false} HeldAppend(s: State, a: seq<string>, b: seq<string>, p: Prefix, owner: string)
    ensures HeldBelow(s, a + b, p, owner) == HeldBelow(s, a, p, owner) + HeldBelow(s, b, p, owner)
  {
    if |b| == 0 {
      assert a + b == a;
    } else {
      HeldAppend(s, a, b[..|b| - 1], p, owner);
      assert (a + b)[..|a + b| - 1] == a + b[..|b| - 1];
    }
  }

  lemma {:induction false} HeldNowhere(s: State, ids: seq<string>, p: Prefix, owner: string)
    requires forall x | x in ids :: !Holds(s, x, p, owner)
    ensures HeldBelow(s, ids, p, owner) == []
  {
    hide Holds;
    if |ids| > 0 { HeldNowhere(s, ids[..|ids| - 1], p, owner); }
  }

  lemma {:induction false} FilterAppend(s: State, a: seq<string>, b: seq<string>)
    ensures Filter(s, a + b) == Filter(s, a) + Filter(s, b)
  {
    hide IsFrontier;
    if |b| == 0 {
      assert a + b == a;
    } else {
      var front, last := b[..|b| - 1], b[|b| - 1];
      FilterAppend(s, a, front);
      assert (a + b)[..|a + b| - 1] == a + front;
      var x := if IsFrontier(s, last) then [last] else [];
      assert Filter(s, a + b) == Filter(s, a + front) + x;
      assert Filter(s, b) == Filter(s, front) + x;
    }
  }

  lemma {:induction false} FilterAll(s: State, ids: seq<string>)
    requires forall x | x in ids :: IsFrontier(s, x)
    ensures Filter(s, ids) == ids
  {
    hide IsFrontier;
    if |ids| > 0 {
      FilterAll(s, ids[..|ids| - 1]);
      assert ids[|ids| - 1] in ids;
      assert ids == ids[..|ids| - 1] + [ids[|ids| - 1]];
    }
  }

  lemma {:induction false} OutsideHoldsNothing(s: State, ids: seq<string>, id: string, owner: string)
    requires id in s.byId && forall x | x in ids :: !Under(s, id, x)
    ensures HeldBelow(s, Filter(s, ids), s.byId[id].prefix, owner) == []
  {
    HeldNowhere(s, Filter(s, ids), s.byId[id].prefix, owner);
  }

  /** Below a split shard whose children are leaves, an owner's frontier is what it holds of the children, in order. */
  lemma {:induction false} FrontierBelow(s: State, id: string, owner: string)
    requires Inv(s) && id in s.byId && s.byId[id].childIds != []
    requires forall c | c in s.byId[id].childIds :: IsFrontier(s, c)
    ensures HeldBelow(s, Frontier(s), s.byId[id].prefix, owner) ==
            HeldBelow(s, s.byId[id].childIds, s.byId[id].prefix, owner)
  {
    hide Core, Walks, Ordered, HeldBelow, Filter, Preorder;
    var p, kids := s.byId[id].prefix, s.byId[id].childIds;
    var before, after := SubtreeContiguous(s, id);
    LeavesPreorder(s, id);
    FilterAppend(s, before + Preorder(s, id), after);
    FilterAppend(s, before, Preorder(s, id));
    FilterAppend(s, [id], kids);
    FilterAll(s, kids);
    OnlyFrontier(s, id);
    assert Filter(s, Preorder(s, id)) == kids;
    OutsideHoldsNothing(s, before, id, owner);
    OutsideHoldsNothing(s, after, id, owner);
    HeldAppend(s, Filter(s, before) + kids, Filter(s, after), p, owner);
    HeldAppend(s, Filter(s, before), kids, p, owner);
  }

  lemma {:induction false} OnlyFrontier(s: State, id: string)
    requires !IsFrontier(s, id)
    ensures Filter(s, [id]) == []
  {
    assert [id][..0] == [];
  }
}
