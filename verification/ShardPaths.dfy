/** The preorder walk in terms of ordinals: ancestors first, then siblings and roots in their declared order. */
module ShardPaths {
  import opened PrefixShards
  import opened ShardTheorems

  /** Left comes first: a proper prefix before its extensions, otherwise the smaller number at the first difference. */
  predicate Precedes(a: seq<nat>, b: seq<nat>) {
    if |b| == 0 then false
    else if |a| == 0 then true
    else if a[0] != b[0] then a[0] < b[0]
    else Precedes(a[1..], b[1..])
  }

  /** The ordinals on the way down to a shard: its root's, then each sibling's. */
  ghost function PathOf(s: State, id: string): (path: seq<nat>)
    requires Inv(s) && id in s.byId
    ensures |path| == |s.byId[id].prefix|
    decreases |s.byId[id].prefix|
  {
    ParentFacts(s, id);
    var r := s.byId[id];
    if |r.prefix| == 1 then [r.rootOrdinal] else PathOf(s, r.parentId.value) + [r.siblingOrdinal.value]
  }

  lemma {:induction false} ParentFacts(s: State, id: string)
    requires Inv(s) && id in s.byId
    ensures var r := s.byId[id];
            && |r.prefix| >= 1
            && (|r.prefix| > 1 ==>
                  && r.parentId.Some? && r.siblingOrdinal.Some? && r.parentId.value in s.byId
                  && s.byId[r.parentId.value].prefix == r.prefix[..|r.prefix| - 1])
  {
    hide IdFor;
    assert RowOk(s, id);
  }

  lemma {:induction false} ChildPath(s: State, id: string, k: nat)
    requires Inv(s) && id in s.byId && k < |s.byId[id].childIds|
    ensures s.byId[id].childIds[k] in s.byId
    ensures PathOf(s, s.byId[id].childIds[k]) == PathOf(s, id) + [k]
  {
    hide IdFor;
    assert RowOk(s, id);
    var c := s.byId[id].childIds[k];
    assert RowOk(s, c);
    ParentFacts(s, c);
  }

  lemma {:induction false} PrecedesAfter(p: seq<nat>, a: seq<nat>, b: seq<nat>)
    ensures Precedes(p + a, p + b) <==> Precedes(a, b)
  {
    if |p| == 0 {
      assert p + a == a && p + b == b;
    } else {
      PrecedesAfter(p[1..], a, b);
      assert (p + a)[1..] == p[1..] + a && (p + b)[1..] == p[1..] + b;
    }
  }

  /** The path to a descendant extends the path to its ancestor. */
  lemma {:induction false} PathBelow(s: State, id: string, x: string)
    requires Inv(s) && Under(s, id, x)
    ensures PathOf(s, id) <= PathOf(s, x)
    decreases |s.byId[x].prefix| - |s.byId[id].prefix|
  {
    hide Inv;
    if x != id {
      BranchExists(s, id, x);
      var k := Branch(s, id, x);
      var c := s.byId[id].childIds[k];
      ChildPath(s, id, k);
      ChildDeeper(s, id, k);
      PathBelow(s, c, x);
    }
  }

  lemma {:induction false} ChildDeeper(s: State, id: string, k: nat)
    requires Inv(s) && id in s.byId && k < |s.byId[id].childIds|
    ensures s.byId[id].childIds[k] in s.byId
    ensures |s.byId[s.byId[id].childIds[k]].prefix| == |s.byId[id].prefix| + 1
  {
    hide Core;
    ChildBelow(s, id, k);
  }

  ghost predicate AscendsFrom(s: State, ids: seq<string>)
    requires Inv(s)
  {
    && (forall i | 0 <= i < |ids| :: ids[i] in s.byId)
    && forall i, j | 0 <= i < j < |ids| :: Precedes(PathOf(s, ids[i]), PathOf(s, ids[j]))
  }

  /** Two ascending lists join when everything in the first precedes everything in the second. */
  lemma {:induction false} JoinAscends(s: State, a: seq<string>, b: seq<string>)
    requires Inv(s) && AscendsFrom(s, a) && AscendsFrom(s, b)
    requires forall x, y | x in a && y in b :: Precedes(PathOf(s, x), PathOf(s, y))
    ensures AscendsFrom(s, a + b)
  {
    hide Inv, PathOf, Precedes;
    var ab := a + b;
    forall i, j | 0 <= i < j < |ab| ensures Precedes(PathOf(s, ab[i]), PathOf(s, ab[j])) {
      if i < |a| && j >= |a| { assert ab[i] in a && ab[j] in b; }
    }
  }

  /** Everything under one child precedes everything under a later one. */
  lemma {:induction false} BranchesInOrder(s: State, id: string, j: nat, k: nat, x: string, y: string)
    requires Inv(s) && id in s.byId && j < k < |s.byId[id].childIds|
    requires Under(s, s.byId[id].childIds[j], x) && Under(s, s.byId[id].childIds[k], y)
    ensures Precedes(PathOf(s, x), PathOf(s, y))
  {
    hide Inv;
    ChildPath(s, id, j);
    ChildPath(s, id, k);
    PathBelow(s, s.byId[id].childIds[j], x);
    PathBelow(s, s.byId[id].childIds[k], y);
    var p, a, b := PathOf(s, id), PathOf(s, x), PathOf(s, y);
    TailOf(p, j, a);
    TailOf(p, k, b);
    PrecedesAfter(p, [j] + a[|p| + 1..], [k] + b[|p| + 1..]);
  }

  lemma {:induction false} TailOf(p: seq<nat>, k: nat, a: seq<nat>)
    requires p + [k] <= a
    ensures a == p + ([k] + a[|p| + 1..])
  {
  }

  lemma {:induction false} InPreorder(s: State, id: string, x: string)
    requires Inv(s) && id in s.byId
    ensures x in Preorder(s, id) <==> Under(s, id, x)
  {
    hide Core, Preorder;
    CountPreorder(s, id, x);
    assert x in Preorder(s, id) <==> multiset(Preorder(s, id))[x] > 0;
  }

  lemma {:induction false} InPreorderFrom(s: State, id: string, k: nat, x: string)
    requires Inv(s) && id in s.byId && k <= |s.byId[id].childIds|
    ensures x in PreorderFrom(s, id, k) <==> UnderFrom(s, id, k, x)
  {
    hide Core, PreorderFrom, UnderFrom;
    CountPreorderFrom(s, id, k, x);
    assert x in PreorderFrom(s, id, k) <==> multiset(PreorderFrom(s, id, k))[x] > 0;
  }

  lemma {:induction false} PreorderAscends(s: State, id: string)
    requires Inv(s) && id in s.byId
    ensures AscendsFrom(s, Preorder(s, id))
    decreases Below(s, s.byId[id].prefix), |s.byId[id].childIds| + 1
  {
    hide Core, Precedes, PathOf;
    PreorderFromAscends(s, id, 0);
    forall x, y | x in [id] && y in PreorderFrom(s, id, 0) ensures Precedes(PathOf(s, x), PathOf(s, y)) {
      InPreorderFrom(s, id, 0, y);
      AncestorFirst(s, id, y);
    }
    JoinAscends(s, [id], PreorderFrom(s, id, 0));
  }

  /** A shard precedes everything below it. */
  lemma {:induction false} AncestorFirst(s: State, id: string, x: string)
    requires Inv(s) && Under(s, id, x) && x != id
    ensures Precedes(PathOf(s, id), PathOf(s, x))
  {
    hide Core, PathOf;
    PathBelow(s, id, x);
    BranchExists(s, id, x);
    var p, a := PathOf(s, id), PathOf(s, x);
    assert p + [] == p && p + a[|p|..] == a;
    PrecedesAfter(p, [], a[|p|..]);
    assert |a| > |p|;
  }

  lemma {:induction false} PreorderFromAscends(s: State, id: string, k: nat)
    requires Inv(s) && id in s.byId && k <= |s.byId[id].childIds|
    ensures AscendsFrom(s, PreorderFrom(s, id, k))
    decreases Below(s, s.byId[id].prefix), |s.byId[id].childIds| - k
  {
    hide Core, Precedes, PathOf;
    if k < |s.byId[id].childIds| {
      var c := s.byId[id].childIds[k];
      ChildBelow(s, id, k);
      PreorderAscends(s, c);
      PreorderFromAscends(s, id, k + 1);
      forall x, y | x in Preorder(s, c) && y in PreorderFrom(s, id, k + 1)
        ensures Precedes(PathOf(s, x), PathOf(s, y))
      {
        InPreorder(s, c, x);
        InPreorderFrom(s, id, k + 1, y);
        BranchesInOrder(s, id, k, Branch(s, id, y), x, y);
      }
      JoinAscends(s, Preorder(s, c), PreorderFrom(s, id, k + 1));
    }
  }

  lemma {:induction false} RootPath(s: State, k: nat)
    requires Inv(s) && k < |s.rootIds|
    ensures s.rootIds[k] in s.byId && PathOf(s, s.rootIds[k]) == [k]
  {
    hide IdFor;
    RootRowExists(s, k);
    OneRoot(s, k, s.rootIds[k]);
    RootExists(s, s.rootIds[k]);
    assert s.byId[s.rootIds[k]].prefix[..1] == s.byId[s.rootIds[k]].prefix;
    assert Indexed(s, s.byId[s.rootIds[k]].prefix) && RowOk(s, s.rootIds[k]);
  }

  lemma {:induction false} RootsInOrder(s: State, j: nat, k: nat, x: string, y: string)
    requires Inv(s) && j < k < |s.rootIds| && Under(s, s.rootIds[j], x) && Under(s, s.rootIds[k], y)
    ensures Precedes(PathOf(s, x), PathOf(s, y))
  {
    hide Core, PathOf;
    RootPath(s, j);
    RootPath(s, k);
    PathBelow(s, s.rootIds[j], x);
    PathBelow(s, s.rootIds[k], y);
  }

  lemma {:induction false} OrderedFromAscends(s: State, k: nat)
    requires Inv(s) && k <= |s.rootIds|
    ensures AscendsFrom(s, OrderedFrom(s, k))
    decreases |s.rootIds| - k
  {
    hide Core, Precedes, PathOf, Preorder;
    if k < |s.rootIds| {
      var r := s.rootIds[k];
      RootRowExists(s, k);
      PreorderAscends(s, r);
      OrderedFromAscends(s, k + 1);
      forall x, y | x in Preorder(s, r) && y in OrderedFrom(s, k + 1) ensures Precedes(PathOf(s, x), PathOf(s, y)) {
        InPreorder(s, r, x);
        CountOrdered(s, k + 1, y);
        assert y in multiset(OrderedFrom(s, k + 1));
        RootsInOrder(s, k, RootOf(s, y), x, y);
      }
      JoinAscends(s, Preorder(s, r), OrderedFrom(s, k + 1));
    }
  }

  /** The walk lists the shards in ascending order of their paths: ancestors first, siblings and roots as declared. */
  lemma {:induction false} WalkAscends(s: State)
    requires Inv(s)
    ensures AscendsFrom(s, Ordered(s))
  {
    hide Core, OrderedFrom, AscendsFrom;
    OrderedFromAscends(s, 0);
  }

  lemma {:induction false} FrontOf(s: State, ids: seq<string>)
    requires Inv(s) && AscendsFrom(s, ids) && |ids| > 0
    ensures AscendsFrom(s, ids[..|ids| - 1])
    ensures forall x | x in ids[..|ids| - 1] :: Precedes(PathOf(s, x), PathOf(s, ids[|ids| - 1]))
  {
    hide Inv, PathOf, Precedes;
  }

  lemma {:induction false} FilterAscends(s: State, ids: seq<string>)
    requires Inv(s) && AscendsFrom(s, ids)
    ensures AscendsFrom(s, Filter(s, ids))
  {
    hide Inv, PathOf, Precedes, IsFrontier;
    if |ids| > 0 {
      var front, last := ids[..|ids| - 1], ids[|ids| - 1];
      FrontOf(s, ids);
      FilterAscends(s, front);
      if IsFrontier(s, last) { JoinAscends(s, Filter(s, front), [last]); }
    }
  }

  /** The frontier keeps that order. */
  lemma {:induction false} FrontierAscends(s: State)
    requires Inv(s)
    ensures AscendsFrom(s, Frontier(s))
  {
    hide Core, AscendsFrom, Ordered;
    WalkAscends(s);
    FilterAscends(s, Ordered(s));
  }
}
