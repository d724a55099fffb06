/** Splitting a sealed leaf: what it adds, why it keeps the invariant, and which refusals cannot occur. */
module ShardSplit {
  import opened Wrappers
  import opened Text
  import opened PrefixShards
  import opened ShardInvariant

  // ---------------------------------------------------------------- ancestors

  lemma {:induction false} ParentOf(s: State, q: Prefix)
    requires Inv(s) && q in s.byPrefix && |q| > 1
    ensures q[..|q| - 1] in s.byPrefix
    ensures var p := At(s, q[..|q| - 1]);
            && At(s, q).id in p.childIds && p.childIds != []
            && At(s, q).parentId == Some(p.id) && At(s, q).rootOrdinal == p.rootOrdinal
  {
    hide IdFor;
    assert Indexed(s, q);
    var id := s.byPrefix[q];
    assert RowOk(s, id);
    var r := s.byId[id];
    assert RowOk(s, r.parentId.value);
    assert s.byId[r.parentId.value].childIds[r.siblingOrdinal.value] == id;
  }

  /** The ledger is closed under taking non-empty prefixes. */
  lemma {:induction false} PrefixClosed(s: State, q: Prefix, k: nat)
    requires Inv(s) && q in s.byPrefix && 1 <= k <= |q|
    ensures q[..k] in s.byPrefix
    decreases |q|
  {
    if k == |q| {
      assert q[..k] == q;
    } else {
      ParentOf(s, q);
      PrefixClosed(s, q[..|q| - 1], k);
      assert q[..|q| - 1][..k] == q[..k];
    }
  }

  /** A shard strictly above another has that other's ancestor among its children. */
  lemma {:induction false} AncestorHasChild(s: State, p: Prefix, q: Prefix)
    requires Inv(s) && p in s.byPrefix && q in s.byPrefix && StrictPrefix(p, q)
    ensures q[..|p| + 1] in s.byPrefix
    ensures At(s, q[..|p| + 1]).id in At(s, p).childIds
    ensures At(s, p).childIds != []
  {
    hide IdFor;
    assert Indexed(s, p) && RowOk(s, s.byPrefix[p]);
    PrefixClosed(s, q, |p| + 1);
    ParentOf(s, q[..|p| + 1]);
    assert q[..|p| + 1][..|p|] == p;
  }

  /** Nothing lies below a childless shard. */
  lemma {:induction false} NoChildYet(s: State, id: string, m: string)
    requires Inv(s) && id in s.byId && s.byId[id].childIds == []
    ensures s.byId[id].prefix + [m] !in s.byPrefix
  {
    hide IdFor;
    assert RowOk(s, id);
    var p := s.byId[id].prefix;
    if p + [m] in s.byPrefix {
      assert (p + [m])[..|p|] == p;
      AncestorHasChild(s, p, p + [m]);
    }
  }

  // ---------------------------------------------------------------- the checks

  /** The only complaints about a child list under a childless parent are a bad or a repeated move. */
  lemma {:induction false} ScanChildrenIff(s: State, id: string, moves: seq<string>, k: nat)
    requires Inv(s) && id in s.byId && s.byId[id].childIds == [] && k <= |moves|
    ensures var e := ScanChildren(s, s.byId[id].prefix, moves, k);
            && (e == None <==> forall i | k <= i < |moves| :: IsMove(moves[i]) && moves[i] !in moves[..i])
            && (e.Some? ==> e.value.NonCanonicalMove? || e.value.DuplicateChild?)
    decreases |moves| - k
  {
    if k < |moves| {
      NoChildYet(s, id, moves[k]);
      ScanChildrenIff(s, id, moves, k + 1);
    }
  }

  /** Two frontier shards are never one above the other. */
  lemma {:induction false} FrontierUnrelated(s: State, a: string, b: string)
    requires Inv(s) && IsFrontier(s, a) && b in s.byId
    ensures !StrictPrefix(s.byId[a].prefix, s.byId[b].prefix)
  {
    hide IdFor;
    assert RowOk(s, a) && RowOk(s, b);
    if StrictPrefix(s.byId[a].prefix, s.byId[b].prefix) {
      AncestorHasChild(s, s.byId[a].prefix, s.byId[b].prefix);
    }
  }

  lemma {:induction false} ExtensionRelated(p: Prefix, m: string, q: Prefix)
    ensures Related(p + [m], q) ==> p == q || Related(p, q)
  {
    if StrictPrefix(p + [m], q) {
      assert q[..|p|] == q[..|p| + 1][..|p|] == p;
    } else if StrictPrefix(q, p + [m]) {
      assert q == (p + [m])[..|q|] == p[..|q|];
      assert |q| == |p| ==> p[..|q|] == p;
    }
  }

  /** A child proposed under a frontier leaf is unrelated to every other frontier shard. */
  lemma {:induction false} ProposedUnrelated(s: State, id: string, m: string, other: string)
    requires Inv(s) && IsFrontier(s, id) && IsFrontier(s, other) && other != id
    ensures !Related(s.byId[id].prefix + [m], s.byId[other].prefix)
  {
    hide IdFor;
    assert RowOk(s, id) && RowOk(s, other);
    var p, q := s.byId[id].prefix, s.byId[other].prefix;
    FrontierUnrelated(s, id, other);
    FrontierUnrelated(s, other, id);
    ExtensionRelated(p, m, q);
    if p == q {
      SamePrefixSameRow(s, id, other);
    }
  }

  lemma {:induction false} NeverCollides(s: State, id: string, moves: seq<string>)
    requires Inv(s) && IsFrontier(s, id)
    ensures !Collides(s, id, moves)
  {
    forall k, other | 0 <= k < |moves| && other in Frontier(s) && other != id
      ensures !Related(s.byId[id].prefix + [moves[k]], s.byId[other].prefix)
    {
      ProposedUnrelated(s, id, moves[k], other);
    }
  }

  ghost predicate GoodChildren(moves: seq<string>) {
    moves != [] && AllMoves(moves) && Distinct(moves)
  }

  /**
   A split is accepted exactly when a sealed leaf is split by its owner into a non-empty,
   duplicate-free list of canonical moves; an existing child and a broken frontier are never the reason.
   */
  lemma {:induction false} SplitIff(s: State, id: string, moves: seq<string>, owner: string)
    requires Inv(s)
    ensures CheckSplit(s, id, moves, owner) == None <==>
              && owner in s.owners && id in s.byId && GoodChildren(moves)
              && s.byId[id].owner == Some(owner) && s.byId[id].state == Sealed
    ensures var e := CheckSplit(s, id, moves, owner);
            e.Some? ==> !e.value.RecreatesPrefix? && !e.value.BreaksFrontier? && !e.value.AlreadySplit?
  {
    hide IdFor;
    if id in s.byId && s.byId[id].state == Sealed {
      assert RowOk(s, id);
      ScanChildrenIff(s, id, moves, 0);
      NeverCollides(s, id, moves);
      if forall i | 0 <= i < |moves| :: moves[i] !in moves[..i] {
        NoRepeats(moves);
      }
      if Distinct(moves) {
        assert forall i | 0 <= i < |moves| :: moves[i] !in moves[..i];
      }
    }
  }

  // ---------------------------------------------------------------- the new shards

  ghost predicate Added(base: State, t: State, parent: Row, moves: seq<string>, i: nat, owner: string)
    requires i < |moves|
  {
    var c := ChildRow(base, parent, moves, i, owner);
    && c.id in t.byId && t.byId[c.id] == c
    && c.prefix in t.byPrefix && t.byPrefix[c.prefix] == c.id
  }

  ghost predicate Kept(base: State, t: State) {
    && t == base.(byId := t.byId, byPrefix := t.byPrefix)
    && (forall id | id in base.byId :: id in t.byId && t.byId[id] == base.byId[id])
    && (forall p | p in base.byPrefix :: p in t.byPrefix && t.byPrefix[p] == base.byPrefix[p])
  }

  /** t is base with the first k proposed children entered, and nothing else. */
  ghost predicate Adopted(base: State, t: State, parent: Row, moves: seq<string>, k: nat, owner: string)
    requires k <= |moves|
  {
    && Kept(base, t)
    && |t.byId| == |base.byId| + k && |t.byPrefix| == |base.byPrefix| + k
    && (forall i {:trigger Added(base, t, parent, moves, i, owner)} | 0 <= i < k ::
          Added(base, t, parent, moves, i, owner))
    && (forall id {:trigger Origin(base, t, parent, moves, k, owner, id)} | id in t.byId ::
          Origin(base, t, parent, moves, k, owner, id))
    && (forall p {:trigger PrefixOrigin(base, t, p)} | p in t.byPrefix :: PrefixOrigin(base, t, p))
  }

  ghost predicate PrefixOrigin(base: State, t: State, p: Prefix) {
    p in base.byPrefix || (p in t.byPrefix && Indexed(t, p) && t.byPrefix[p] !in base.byId)
  }

  ghost predicate Origin(base: State, t: State, parent: Row, moves: seq<string>, k: nat, owner: string, id: string)
    requires k <= |moves| && id in t.byId
  {
    || id in base.byId
    || (&& t.byId[id].siblingOrdinal.Some? && t.byId[id].siblingOrdinal.value < k
        && t.byId[id] == ChildRow(base, parent, moves, t.byId[id].siblingOrdinal.value, owner)
        && t.byId[id].id == id)
  }

  ghost predicate FreshChildren(base: State, parent: Prefix, moves: seq<string>)
  {
    forall i {:trigger moves[i]} | 0 <= i < |moves| ::
      && parent + [moves[i]] !in base.byPrefix
      && IdFor(base.generation, parent + [moves[i]]) !in base.byId
  }

  lemma {:induction false} ChildIdsDiffer(g: nat, parent: Prefix, moves: seq<string>, i: nat, j: nat)
    requires AllMoves(parent) && AllMoves(moves) && Distinct(moves) && i < j < |moves|
    ensures IdFor(g, parent + [moves[i]]) != IdFor(g, parent + [moves[j]])
    ensures parent + [moves[i]] != parent + [moves[j]]
  {
    assert (parent + [moves[i]])[|parent|] == moves[i] && (parent + [moves[j]])[|parent|] == moves[j];
    if IdFor(g, parent + [moves[i]]) == IdFor(g, parent + [moves[j]]) {
      IdInjective(g, parent + [moves[i]], g, parent + [moves[j]]);
    }
  }

  /** The next proposed child is in neither index yet. */
  lemma {:induction false} NextChildFresh(base: State, t: State, parent: Row, moves: seq<string>, k: nat, owner: string)
    requires k < |moves|
    requires AllMoves(parent.prefix) && AllMoves(moves) && Distinct(moves)
    requires FreshChildren(base, parent.prefix, moves)
    requires Adopted(base, t, parent, moves, k, owner)
    ensures var c := ChildRow(base, parent, moves, k, owner);
            c.id !in base.byId && c.prefix !in base.byPrefix && c.id !in t.byId && c.prefix !in t.byPrefix
  {
    hide IdFor;
    var c := ChildRow(base, parent, moves, k, owner);
    forall i | 0 <= i < k ensures ChildRow(base, parent, moves, i, owner).id != c.id
                             && ChildRow(base, parent, moves, i, owner).prefix != c.prefix {
      ChildIdsDiffer(base.generation, parent.prefix, moves, i, k);
    }
    assert c.id in t.byId ==> Origin(base, t, parent, moves, k, owner, c.id);
    assert c.prefix in t.byPrefix ==> PrefixOrigin(base, t, c.prefix);
    assert c.prefix in t.byPrefix && t.byPrefix[c.prefix] in t.byId ==>
        Origin(base, t, parent, moves, k, owner, t.byPrefix[c.prefix]);
  }

  /** u is t with one new row entered in both indexes. */
  ghost predicate Entered(t: State, u: State, c: Row) {
    && c.id !in t.byId && c.prefix !in t.byPrefix
    && u == t.(byId := t.byId[c.id := c], byPrefix := t.byPrefix[c.prefix := c.id])
  }

  lemma {:induction false} OriginStep(base: State, t: State, parent: Row, moves: seq<string>, k: nat,
      owner: string, u: State, id: string)
    requires k < |moves| && Adopted(base, t, parent, moves, k, owner)
    requires Entered(t, u, ChildRow(base, parent, moves, k, owner)) && id in u.byId
    ensures Origin(base, u, parent, moves, k + 1, owner, id)
  {
    hide IdFor;
    if id in t.byId { assert Origin(base, t, parent, moves, k, owner, id); }
  }

  lemma {:induction false} AddedStep(base: State, t: State, parent: Row, moves: seq<string>, k: nat,
      owner: string, u: State, i: nat)
    requires k < |moves| && Adopted(base, t, parent, moves, k, owner)
    requires Entered(t, u, ChildRow(base, parent, moves, k, owner)) && i <= k
    ensures Added(base, u, parent, moves, i, owner)
  {
    hide IdFor;
    if i < k { assert Added(base, t, parent, moves, i, owner); }
  }

  lemma {:induction false} PrefixOriginStep(base: State, t: State, parent: Row, moves: seq<string>, k: nat,
      owner: string, u: State, p: Prefix)
    requires k < |moves| && Adopted(base, t, parent, moves, k, owner)
    requires Entered(t, u, ChildRow(base, parent, moves, k, owner)) && p in u.byPrefix
    requires ChildRow(base, parent, moves, k, owner).id !in base.byId
    ensures PrefixOrigin(base, u, p)
  {
    hide IdFor;
    if p in t.byPrefix { assert PrefixOrigin(base, t, p); }
  }

  lemma {:induction false} AdoptStep(base: State, t: State, parent: Row, moves: seq<string>, k: nat,
      owner: string, u: State)
    requires k < |moves| && Adopted(base, t, parent, moves, k, owner)
    requires Entered(t, u, ChildRow(base, parent, moves, k, owner))
    requires ChildRow(base, parent, moves, k, owner).id !in base.byId
    ensures Adopted(base, u, parent, moves, k + 1, owner)
  {
    hide IdFor, Origin, Added, PrefixOrigin;
    forall i | 0 <= i < k + 1 ensures Added(base, u, parent, moves, i, owner) {
      AddedStep(base, t, parent, moves, k, owner, u, i);
    }
    forall id | id in u.byId ensures Origin(base, u, parent, moves, k + 1, owner, id) {
      OriginStep(base, t, parent, moves, k, owner, u, id);
    }
    forall p | p in u.byPrefix ensures PrefixOrigin(base, u, p) {
      PrefixOriginStep(base, t, parent, moves, k, owner, u, p);
    }
  }

  lemma {:induction false} AdoptHolds(base: State, parent: Row, moves: seq<string>, k: nat, owner: string)
    requires k <= |moves|
    requires AllMoves(parent.prefix) && AllMoves(moves) && Distinct(moves)
    requires FreshChildren(base, parent.prefix, moves)
    ensures Adopted(base, Adopt(base, parent, moves, k, owner), parent, moves, k, owner)
  {
    hide IdFor, Adopted, ChildRow, FreshChildren, AllMoves, Distinct, Entered;
    if k == 0 {
      AdoptsNone(base, parent, moves, owner);
    } else {
      AdoptHolds(base, parent, moves, k - 1, owner);
      var t := Adopt(base, parent, moves, k - 1, owner);
      NextChildFresh(base, t, parent, moves, k - 1, owner);
      EntersNext(base, parent, moves, k - 1, owner);
      AdoptStep(base, t, parent, moves, k - 1, owner, Adopt(base, parent, moves, k, owner));
    }
  }

  lemma {:induction false} AdoptsNone(base: State, parent: Row, moves: seq<string>, owner: string)
    ensures Adopted(base, Adopt(base, parent, moves, 0, owner), parent, moves, 0, owner)
  {
    hide IdFor;
  }

  lemma {:induction false} EntersNext(base: State, parent: Row, moves: seq<string>, k: nat, owner: string)
    requires k < |moves|
    requires var t, c := Adopt(base, parent, moves, k, owner), ChildRow(base, parent, moves, k, owner);
             c.id !in t.byId && c.prefix !in t.byPrefix
    ensures Entered(Adopt(base, parent, moves, k, owner), Adopt(base, parent, moves, k + 1, owner),
                    ChildRow(base, parent, moves, k, owner))
  {
    hide IdFor;
  }

  /** The splitting preconditions as the commit relies on them. */
  ghost predicate Splittable(s: State, id: string, moves: seq<string>, owner: string)
    requires Inv(s)
  {
    && id in s.byId && GoodChildren(moves) && owner in s.owners
    && s.byId[id].owner == Some(owner) && s.byId[id].state == Sealed
  }

  lemma {:induction false} SplitFresh(s: State, id: string, moves: seq<string>, owner: string)
    requires Inv(s) && Splittable(s, id, moves, owner)
    ensures s.byId[id].childIds == [] && AllMoves(s.byId[id].prefix)
    ensures FreshChildren(Retire(s, id, moves), s.byId[id].prefix, moves)
  {
    hide IdFor;
    assert RowOk(s, id);
    var p := s.byId[id].prefix;
    forall i | 0 <= i < |moves| ensures p + [moves[i]] !in s.byPrefix
        && IdFor(s.generation, p + [moves[i]]) !in s.byId {
      NoChildYet(s, id, moves[i]);
      var cid := IdFor(s.generation, p + [moves[i]]);
      if cid in s.byId {
        assert RowOk(s, cid);
        IdInjective(s.generation, s.byId[cid].prefix, s.generation, p + [moves[i]]);
      }
    }
  }

  /** What DoSplit leaves: the parent retired with its children listed, the children added, the rest untouched. */
  lemma {:induction false} SplitResult(s: State, id: string, moves: seq<string>, owner: string)
    requires Inv(s) && Splittable(s, id, moves, owner)
    ensures var base, t := Retire(s, id, moves), DoSplit(s, id, moves, owner);
            && t.revision == s.revision + 1
            && Adopted(base, t.(revision := s.revision), s.byId[id], moves, |moves|, owner)
  {
    SplitFresh(s, id, moves, owner);
    AdoptHolds(Retire(s, id, moves), s.byId[id], moves, |moves|, owner);
    var t := Adopt(Retire(s, id, moves), s.byId[id], moves, |moves|, owner);
    assert t.(revision := s.revision + 1).(revision := s.revision) == t;
  }

  lemma {:induction false} SplitOldRow(s: State, id: string, moves: seq<string>, owner: string, t: State, x: string)
    requires Inv(s) && Splittable(s, id, moves, owner) && x in s.byId && x != id
    requires Adopted(Retire(s, id, moves), t, s.byId[id], moves, |moves|, owner)
    ensures x in t.byId && t.byId[x] == s.byId[x] && RowOk(t, x)
  {
    hide IdFor;
    assert RowOk(s, x) && RowOk(s, id);
    var r := s.byId[x];
    assert t.byId[x] == r;
    if |r.prefix| > 1 {
      assert r.parentId.value != id;
      assert t.byId[r.parentId.value] == s.byId[r.parentId.value];
    }
  }

  lemma {:induction false} SplitParentRow(s: State, id: string, moves: seq<string>, owner: string, t: State)
    requires Inv(s) && Splittable(s, id, moves, owner)
    requires Adopted(Retire(s, id, moves), t, s.byId[id], moves, |moves|, owner)
    ensures id in t.byId && RowOk(t, id)
    ensures t.byId[id] == s.byId[id].(state := Retired, childIds := ChildIds(s, s.byId[id].prefix, moves))
  {
    hide IdFor;
    assert RowOk(s, id);
    var base, r := Retire(s, id, moves), s.byId[id];
    var n := base.byId[id];
    assert t.byId[id] == n;
    if |r.prefix| > 1 {
      assert r.parentId.value != id;
      assert t.byId[r.parentId.value] == s.byId[r.parentId.value];
    }
    forall k | 0 <= k < |n.childIds|
      ensures n.childIds[k] in t.byId && t.byId[n.childIds[k]].parentId == Some(id)
           && t.byId[n.childIds[k]].siblingOrdinal == Some(k)
    {
      assert Added(base, t, r, moves, k, owner);
    }
  }

  lemma {:induction false} SplitChildRow(s: State, id: string, moves: seq<string>, owner: string, t: State, k: nat)
    requires Inv(s) && Splittable(s, id, moves, owner) && k < |moves|
    requires Adopted(Retire(s, id, moves), t, s.byId[id], moves, |moves|, owner)
    ensures var c := ChildRow(s, s.byId[id], moves, k, owner);
            c.id in t.byId && t.byId[c.id] == c && RowOk(t, c.id)
  {
    hide IdFor;
    assert RowOk(s, id);
    var base, r := Retire(s, id, moves), s.byId[id];
    assert Added(base, t, r, moves, k, owner);
    var c := ChildRow(s, r, moves, k, owner);
    assert c == ChildRow(base, r, moves, k, owner);
    assert c.prefix[..|c.prefix| - 1] == r.prefix;
    assert forall i | 0 <= i < |c.prefix| :: c.prefix[i] == if i < |r.prefix| then r.prefix[i] else moves[k];
    SplitParentRow(s, id, moves, owner, t);
  }

  lemma {:induction false} SplitConfig(s: State, id: string, moves: seq<string>, owner: string, t: State)
    requires Inv(s) && Splittable(s, id, moves, owner)
    requires Adopted(Retire(s, id, moves), t, s.byId[id], moves, |moves|, owner)
    ensures Config(t)
  {
    hide IdFor;
    assert forall p | p in s.byPrefix :: p in Retire(s, id, moves).byPrefix;
  }

  lemma {:induction false} SplitIndexed(s: State, id: string, moves: seq<string>, owner: string, t: State, p: Prefix)
    requires Inv(s) && Splittable(s, id, moves, owner) && p in t.byPrefix
    requires Adopted(Retire(s, id, moves), t, s.byId[id], moves, |moves|, owner)
    ensures Indexed(t, p)
  {
    hide IdFor;
    assert PrefixOrigin(Retire(s, id, moves), t, p);
    if p in s.byPrefix {
      assert Indexed(s, p);
      if s.byPrefix[p] == id {
        SplitParentRow(s, id, moves, owner, t);
      }
    }
  }

  lemma {:induction false} SplitKeeps(s: State, id: string, moves: seq<string>, owner: string)
    requires Inv(s) && CheckSplit(s, id, moves, owner) == None
    ensures Inv(DoSplit(s, id, moves, owner))
  {
    hide IdFor, DoSplit, Adopted;
    SplitIff(s, id, moves, owner);
    SplitResult(s, id, moves, owner);
    var u := DoSplit(s, id, moves, owner);
    var t := u.(revision := s.revision);
    SplitConfig(s, id, moves, owner, t);
    forall x | x in u.byId ensures RowOk(u, x) {
      SplitRow(s, id, moves, owner, t, x);
      assert RowOk(t, x);
    }
    forall p | p in u.byPrefix ensures Indexed(u, p) {
      SplitIndexed(s, id, moves, owner, t, p);
    }
    CoreWalks(u);
  }

  lemma {:induction false} SplitRow(s: State, id: string, moves: seq<string>, owner: string, t: State, x: string)
    requires Inv(s) && Splittable(s, id, moves, owner) && x in t.byId
    requires Adopted(Retire(s, id, moves), t, s.byId[id], moves, |moves|, owner)
    ensures RowOk(t, x)
  {
    hide IdFor;
    assert Origin(Retire(s, id, moves), t, s.byId[id], moves, |moves|, owner, x);
    if x == id {
      SplitParentRow(s, id, moves, owner, t);
    } else if x in s.byId {
      SplitOldRow(s, id, moves, owner, t, x);
    } else {
      SplitChildRow(s, id, moves, owner, t, t.byId[x].siblingOrdinal.value);
    }
  }
}
