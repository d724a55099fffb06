/** What the repeated run-time check of the shard ledger catches. */
module ShardValidator {
  import opened Wrappers
  import opened Text
  import opened PrefixShards
  import opened ShardInvariant
  import opened ShardTheorems

  // ---------------------------------------------------------------- one row replaced

  function Swap(s: State, id: string, r: Row): State { s.(byId := s.byId[id := r]) }

  /** The same entries, each once. */
  ghost predicate SameOnce(a: seq<string>, b: seq<string>) {
    Distinct(a) && (forall x :: x in a <==> x in b)
  }

  /** The row differs from q in nothing but its ordinals, the order of its children, a state or an authorized owner. */
  ghost predicate Passable(s: State, q: Row, r: Row) {
    && r.id == q.id && r.generation == q.generation && r.prefix == q.prefix && r.depth == q.depth
    && r.parentId == q.parentId && SameOnce(r.childIds, q.childIds)
    && (r.state == Retired <==> q.state == Retired)
    && (r.owner.Some? ==> r.owner.value in s.owners)
    && (q.parentId == None ==> (r.owner.Some? <==> s.partitioned))
  }

  lemma {:induction false} SameIdentity(s: State, id: string, r: Row)
    requires Inv(s) && id in s.byId && RowAccepted(Swap(s, id, r), id)
    ensures var q := s.byId[id];
            r.id == q.id && r.generation == q.generation && r.prefix == q.prefix && r.depth == q.depth
  {
    hide IdFor, LinkedUp, LinkedDown, Owned, Walkable;
    assert RowOk(s, id);
    IdInjective(s.generation, r.prefix, s.generation, s.byId[id].prefix);
  }

  lemma {:induction false} SameParent(s: State, id: string, r: Row)
    requires Inv(s) && id in s.byId && RowsAccepted(Swap(s, id, r))
    ensures r.parentId == s.byId[id].parentId
  {
    hide IdFor, LinkedDown, Owned, Walkable, Config;
    var t, q := Swap(s, id, r), s.byId[id];
    assert RowOk(s, id) && RowAccepted(t, id);
    SameIdentity(s, id, r);
    if r.parentId.Some? {
      var p := r.parentId.value;
      assert RowAccepted(t, p);
      assert |q.prefix| > 1;
      assert RowOk(s, p) && RowOk(s, q.parentId.value);
      SamePrefixSameRow(s, p, q.parentId.value);
    }
  }

  lemma {:induction false} SameChildren(s: State, id: string, r: Row)
    requires Inv(s) && id in s.byId && RowsAccepted(Swap(s, id, r))
    ensures SameOnce(r.childIds, s.byId[id].childIds)
  {
    hide IdFor, Walkable, Config;
    var t, q := Swap(s, id, r), s.byId[id];
    assert RowOk(s, id) && RowAccepted(t, id);
    SameIdentity(s, id, r);
    SameParent(s, id, r);
    forall x ensures x in r.childIds <==> x in q.childIds {
      if x in r.childIds {
        var k :| 0 <= k < |r.childIds| && r.childIds[k] == x;
        OwnParent(s, id);
        assert x != id && RowOk(s, x);
      }
      if x in q.childIds {
        var k :| 0 <= k < |q.childIds| && q.childIds[k] == x;
        OwnParent(s, id);
        assert x != id && RowOk(s, x) && RowAccepted(t, x);
      }
    }
  }

  lemma {:induction false} OwnParent(s: State, id: string)
    requires Inv(s) && id in s.byId
    ensures s.byId[id].parentId != Some(id)
  {
    hide IdFor, Walkable, Config, LinkedDown, Owned;
    assert RowOk(s, id);
  }

  lemma {:induction false} RootOwner(s: State, id: string, r: Row)
    requires Inv(s) && id in s.byId && s.byId[id].parentId == None && OwnersAccepted(Swap(s, id, r))
    ensures r.owner.Some? <==> s.partitioned
  {
    hide IdFor, LinkedDown, Owned, Walkable;
    assert RowOk(s, id);
    var k := s.byId[id].rootOrdinal;
    assert s.rootIds[k] == IdFor(s.generation, [s.roots[k]]);
    assert s.byId[id].prefix == [s.roots[k]];
    assert s.rootIds[k] == id;
  }

  /** Every other change of one row is caught: of its identity, its place, its retirement, or a stranger's claim. */
  lemma {:induction false} RowTamperingCaught(s: State, id: string, r: Row)
    requires Inv(s) && id in s.byId && Accepted(Swap(s, id, r))
    ensures Passable(s, s.byId[id], r)
  {
    hide IdFor, Inv, Distinct, Walkable, RootsAccepted, OwnersAccepted;
    assert RowAccepted(Swap(s, id, r), id);
    SameIdentity(s, id, r);
    SameParent(s, id, r);
    SameChildren(s, id, r);
    if s.byId[id].parentId == None { RootOwner(s, id, r); }
    RetiredIff(s, id);
    if r.childIds != [] { FirstIn(r.childIds); } else { FirstIn(s.byId[id].childIds); }
  }

  lemma {:induction false} RetiredIff(s: State, id: string)
    requires Inv(s) && id in s.byId
    ensures s.byId[id].state == Retired <==> s.byId[id].childIds != []
  {
    hide IdFor, Walkable, Config, LinkedDown, LinkedUp, Identified;
    assert RowOk(s, id);
  }

  // ---------------------------------------------------------------- the indexes replaced

  /** A wrong prefix index, list of roots, partition flag, owner list or generation is caught. */
  lemma {:induction false} IndexTamperingCaught(s: State, byPrefix: map<Prefix, string>, rootIds: seq<string>)
    requires Inv(s) && Accepted(s.(byPrefix := byPrefix, rootIds := rootIds))
    ensures byPrefix == s.byPrefix && rootIds == s.rootIds
  {
    hide IdFor, LinkedUp, LinkedDown, Owned, Walkable, FrontierAccepted, OwnersAccepted;
    var t := s.(byPrefix := byPrefix, rootIds := rootIds);
    forall p | p in s.byPrefix ensures p in byPrefix && byPrefix[p] == s.byPrefix[p] {
      assert Indexed(s, p) && RowAccepted(t, s.byPrefix[p]) && RowOk(s, s.byPrefix[p]);
    }
    IndexesMatch(s);
    SameSize(s.byPrefix, byPrefix);
    forall k | 0 <= k < |rootIds| ensures rootIds[k] == s.rootIds[k] {
      assert RowOk(s, rootIds[k]);
      RootRowExists(s, k);
    }
  }

  lemma {:induction false} SameSize<A, B>(a: map<A, B>, b: map<A, B>)
    requires |a| == |b| && forall k | k in a :: k in b && b[k] == a[k]
    ensures a == b
  {
    assert a.Keys <= b.Keys && |a.Keys| == |b.Keys|;
    SubsetSameSize(a.Keys, b.Keys);
  }

  lemma {:induction false} SubsetSameSize<A>(a: set<A>, b: set<A>)
    requires a <= b && |a| == |b|
    ensures a == b
  {
    assert |b - a| == |b| - |a|;
    assert b == a + (b - a);
  }

  /** So are a changed flag, generation or list of owners that leaves out one in use. */
  lemma {:induction false} HeaderTamperingCaught(s: State, partitioned: bool, generation: nat, owners: seq<string>)
    requires Inv(s) && Accepted(s.(partitioned := partitioned, generation := generation, owners := owners))
    ensures s.roots != [] ==> partitioned == s.partitioned && generation == s.generation
    ensures forall id | id in s.byId && s.byId[id].owner.Some? :: s.byId[id].owner.value in owners
  {
    hide IdFor, LinkedUp, LinkedDown, Walkable, FrontierAccepted;
    var t := s.(partitioned := partitioned, generation := generation, owners := owners);
    if s.roots != [] {
      RootRowExists(s, 0);
      assert RowOk(s, s.rootIds[0]) && RowAccepted(t, s.rootIds[0]);
    }
    forall id | id in s.byId && s.byId[id].owner.Some? ensures s.byId[id].owner.value in owners {
      assert RowAccepted(t, id);
    }
  }

  // ---------------------------------------------------------------- what the tests on rows imply

  lemma {:induction false} AncestorsHaveChildren(s: State, a: string, b: string)
    requires RowsAccepted(s) && a in s.byId && b in s.byId && StrictPrefix(s.byId[a].prefix, s.byId[b].prefix)
    ensures s.byId[a].childIds != []
    decreases |s.byId[b].prefix|
  {
    hide IdFor;
    var p, q := s.byId[a].prefix, s.byId[b].prefix;
    assert RowAccepted(s, a) && RowAccepted(s, b);
    var up := s.byId[b].parentId.value;
    assert RowAccepted(s, up);
    assert q[..|q| - 1][..|p|] == q[..|p|];
    if |p| == |q| - 1 {
      assert q[..|q| - 1] == p;
    } else {
      AncestorsHaveChildren(s, a, up);
    }
  }

  /** The test that no frontier shard lies above another can never fire once the tests on the rows have passed. */
  lemma {:induction false} FrontierTestImplied(s: State)
    requires RowsAccepted(s) && Walkable(s)
    ensures FrontierAccepted(s)
  {
    hide RowAccepted, Walkable;
    var f := Frontier(s);
    forall i, j | 0 <= i < j < |f| ensures !Related(s.byId[f[i]].prefix, s.byId[f[j]].prefix) {
      assert f[i] in f && f[j] in f;
      if StrictPrefix(s.byId[f[i]].prefix, s.byId[f[j]].prefix) { AncestorsHaveChildren(s, f[i], f[j]); }
      if StrictPrefix(s.byId[f[j]].prefix, s.byId[f[i]].prefix) { AncestorsHaveChildren(s, f[j], f[i]); }
    }
  }
}
