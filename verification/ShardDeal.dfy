/** Splitting a leaf and transferring each other owner's share leaves exactly the dealt ownership. */
module ShardDeal {
  import opened Wrappers
  import opened Text
  import opened PrefixShards
  import opened ShardInvariant
  import opened ShardSplit
  import opened ShardTheorems
  import opened ShardOrder
  import opened ShardRuns
  import opened ChildPartition

  ghost function ShareIds(s: State, p: Prefix, children: seq<string>, owners: seq<string>, owner: string): seq<string>
    requires |owners| > 0
  {
    ChildIds(s, p, Dealt(children, owners, owner, |children|))
  }

  /** Hand the shares of the first i owners over, skipping the splitting owner and empty shares. */
  ghost function HandOut(s: State, p: Prefix, children: seq<string>, owners: seq<string>, from: string,
      i: nat): (t: State)
    requires Inv(s) && |owners| > 0 && i <= |owners|
    ensures Inv(t)
  {
    if i == 0 then s
    else
      var t := HandOut(s, p, children, owners, from, i - 1);
      if Skips(children, owners, from, i - 1) then t
      else
        StepKeeps(t, Handover(t, p, children, owners, from, i - 1));
        Step(t, Handover(t, p, children, owners, from, i - 1))
  }

  predicate Skips(children: seq<string>, owners: seq<string>, from: string, i: nat)
    requires i < |owners|
  {
    owners[i] == from || Dealt(children, owners, owners[i], |children|) == []
  }

  ghost function Handover(s: State, p: Prefix, children: seq<string>, owners: seq<string>, from: string,
      i: nat): Command
    requires i < |owners|
  {
    Transfer(ShareIds(s, p, children, owners, owners[i]), from, owners[i])
  }

  function KidId(s: State, p: Prefix, children: seq<string>, k: nat): string
    requires k < |children|
  {
    IdFor(s.generation, p + [children[k]])
  }

  /** The children as a split leaves them: leased frontier shards of one owner. */
  ghost predicate JustSplit(s: State, p: Prefix, children: seq<string>, from: string) {
    && AllMoves(p) && AllMoves(children) && Distinct(children)
    && forall k {:trigger KidId(s, p, children, k)} | 0 <= k < |children| ::
         && KidId(s, p, children, k) in s.byId
         && s.byId[KidId(s, p, children, k)].childIds == []
         && s.byId[KidId(s, p, children, k)].state == Leased
         && s.byId[KidId(s, p, children, k)].owner == Some(from)
  }

  /** After i owners: the children at their positions have changed hands, nothing else has. */
  ghost predicate HandedOut(s: State, t: State, p: Prefix, children: seq<string>, owners: seq<string>, i: nat)
    requires |owners| > 0
  {
    && t == s.(byId := t.byId, revision := t.revision) && t.byId.Keys == s.byId.Keys
    && (forall k {:trigger KidId(s, p, children, k)} | 0 <= k < |children| && KidId(s, p, children, k) in s.byId ::
          t.byId[KidId(s, p, children, k)] ==
          if k % |owners| < i then s.byId[KidId(s, p, children, k)].(owner := Some(owners[k % |owners|]))
          else s.byId[KidId(s, p, children, k)])
    && (forall x | x in s.byId && x !in ChildIds(s, p, children) :: t.byId[x] == s.byId[x])
  }

  lemma {:induction false} KidIdsInjective(s: State, p: Prefix, children: seq<string>, j: nat, k: nat)
    requires AllMoves(p) && AllMoves(children) && Distinct(children) && j < |children| && k < |children|
    ensures KidId(s, p, children, j) == KidId(s, p, children, k) <==> j == k
  {
    hide IdFor;
    if j < k { ChildIdsDiffer(s.generation, p, children, j, k); }
    if k < j { ChildIdsDiffer(s.generation, p, children, k, j); }
  }

  /** A child's id is in an owner's share exactly when its position names that owner. */
  lemma {:induction false} ShareHas(s: State, p: Prefix, children: seq<string>, owners: seq<string>, i: nat, k: nat)
    requires AllMoves(p) && AllMoves(children) && Distinct(children) && Distinct(owners)
    requires i < |owners| && k < |children|
    ensures KidId(s, p, children, k) in ShareIds(s, p, children, owners, owners[i]) <==> k % |owners| == i
  {
    hide IdFor, Dealt;
    var mine := Dealt(children, owners, owners[i], |children|);
    DealtMembers(children, owners, owners[i], |children|, children[k]);
    OwnerIndex(owners, k % |owners|, i);
    if k % |owners| == i {
      var a :| 0 <= a < |mine| && mine[a] == children[k];
      assert ShareIds(s, p, children, owners, owners[i])[a] == KidId(s, p, children, k);
    } else if KidId(s, p, children, k) in ShareIds(s, p, children, owners, owners[i]) {
      var a :| 0 <= a < |mine| && ShareIds(s, p, children, owners, owners[i])[a] == KidId(s, p, children, k);
      var j := ShareComesFrom(children, owners, owners[i], a);
      KidIdsInjective(s, p, children, j, k);
    }
  }

  lemma {:induction false} ShareComesFrom(children: seq<string>, owners: seq<string>, owner: string,
      a: nat) returns (j: nat)
    requires |owners| > 0 && a < |Dealt(children, owners, owner, |children|)|
    ensures j < |children| && children[j] == Dealt(children, owners, owner, |children|)[a]
        && owners[j % |owners|] == owner
  {
    DealtMembers(children, owners, owner, |children|, Dealt(children, owners, owner, |children|)[a]);
    j :| 0 <= j < |children| && children[j] == Dealt(children, owners, owner, |children|)[a]
        && owners[j % |owners|] == owner;
  }

  lemma {:induction false} ScanTransferAccepts(s: State, ids: seq<string>, k: nat, from: string)
    requires k <= |ids|
    requires forall i | k <= i < |ids| ::
               && ids[i] in s.byId && s.byId[ids[i]].childIds == []
               && s.byId[ids[i]].state == Leased && s.byId[ids[i]].owner == Some(from)
    ensures ScanTransfer(s, ids, k, from) == None
    decreases |ids| - k
  {
    if k < |ids| { ScanTransferAccepts(s, ids, k + 1, from); }
  }

  lemma {:induction false} ShareDistinct(s: State, p: Prefix, children: seq<string>, owners: seq<string>, owner: string)
    requires AllMoves(p) && AllMoves(children) && Distinct(children) && |owners| > 0
    ensures Distinct(ShareIds(s, p, children, owners, owner))
  {
    hide IdFor, Dealt;
    var mine := Dealt(children, owners, owner, |children|);
    DealtDistinct(children, owners, owner, |children|);
    forall m | m in mine ensures IsMove(m) { DealtMembers(children, owners, owner, |children|, m); }
    forall a, b | 0 <= a < b < |mine| ensures IdFor(s.generation, p + [mine[a]]) != IdFor(s.generation, p + [mine[b]]) {
      ChildIdsDiffer(s.generation, p, mine, a, b);
    }
  }

  /** Every handover in the deal is accepted. */
  lemma {:induction false} HandoverAccepted(s: State, t: State, p: Prefix, children: seq<string>,
      owners: seq<string>, from: string, i: nat)
    requires Distinct(owners) && i < |owners| && JustSplit(s, p, children, from)
        && HandedOut(s, t, p, children, owners, i)
    requires from in s.owners && (forall o | o in owners :: o in s.owners) && !Skips(children, owners, from, i)
    ensures CheckTransfer(t, ShareIds(t, p, children, owners, owners[i]), from, owners[i]) == None
  {
    hide IdFor, Dealt;
    var ids := ShareIds(t, p, children, owners, owners[i]);
    ShareDistinct(t, p, children, owners, owners[i]);
    forall a | 0 <= a < |ids|
      ensures ids[a] in t.byId && t.byId[ids[a]].childIds == [] && t.byId[ids[a]].state == Leased
          && t.byId[ids[a]].owner == Some(from)
    {
      var j := ShareComesFrom(children, owners, owners[i], a);
      OwnerIndex(owners, j % |owners|, i);
      assert KidId(s, p, children, j) == ids[a];
    }
    ScanTransferAccepts(t, ids, 0, from);
    assert owners[i] in owners;
  }

  lemma {:induction false} HandoverResult(s: State, t: State, p: Prefix, children: seq<string>,
      owners: seq<string>, from: string, i: nat)
    requires Distinct(owners) && i < |owners| && JustSplit(s, p, children, from)
        && HandedOut(s, t, p, children, owners, i)
    ensures HandedOut(s, DoTransfer(t, ShareIds(t, p, children, owners, owners[i]), owners[i]),
                      p, children, owners, i + 1)
  {
    hide IdFor, Dealt, ShareIds;
    var ids := ShareIds(t, p, children, owners, owners[i]);
    var u := DoTransfer(t, ids, owners[i]);
    forall k | 0 <= k < |children| ensures
      && KidId(s, p, children, k) in s.byId
      && u.byId[KidId(s, p, children, k)] ==
         (if k % |owners| < i + 1 then s.byId[KidId(s, p, children, k)].(owner := Some(owners[k % |owners|]))
          else s.byId[KidId(s, p, children, k)])
    {
      ShareHas(t, p, children, owners, i, k);
      assert KidId(t, p, children, k) == KidId(s, p, children, k);
    }
    forall x | x in s.byId && x !in ChildIds(s, p, children) ensures x !in ids {
      if x in ids { ShareInside(t, p, children, owners, owners[i], x); }
    }
  }

  lemma {:induction false} ShareInside(s: State, p: Prefix, children: seq<string>, owners: seq<string>,
      owner: string, x: string)
    requires |owners| > 0 && x in ShareIds(s, p, children, owners, owner)
    ensures x in ChildIds(s, p, children)
  {
    hide IdFor, Dealt;
    var a :| 0 <= a < |ShareIds(s, p, children, owners, owner)| && ShareIds(s, p, children, owners, owner)[a] == x;
    var j := ShareComesFrom(children, owners, owner, a);
    assert ChildIds(s, p, children)[j] == x;
  }

  /** A skipped owner's children are already where they belong. */
  lemma {:induction false} SkipResult(s: State, t: State, p: Prefix, children: seq<string>,
      owners: seq<string>, from: string, i: nat)
    requires Distinct(owners) && i < |owners| && JustSplit(s, p, children, from)
        && HandedOut(s, t, p, children, owners, i)
    requires Skips(children, owners, from, i)
    ensures HandedOut(s, t, p, children, owners, i + 1)
  {
    hide IdFor, Dealt;
    forall k | 0 <= k < |children| && k % |owners| == i
      ensures owners[i] == from
    {
      DealtMembers(children, owners, owners[i], |children|, children[k]);
    }
  }

  lemma {:induction false} DealResult(s: State, p: Prefix, children: seq<string>, owners: seq<string>,
      from: string, i: nat)
    requires Inv(s) && Distinct(owners) && 0 < |owners| && i <= |owners| && JustSplit(s, p, children, from)
    requires from in s.owners && forall o | o in owners :: o in s.owners
    ensures HandedOut(s, HandOut(s, p, children, owners, from, i), p, children, owners, i)
    ensures forall j | 0 <= j < i && !Skips(children, owners, from, j) ::
              Check(HandOut(s, p, children, owners, from, j),
                    Handover(HandOut(s, p, children, owners, from, j), p, children, owners, from, j)) == None
  {
    hide IdFor, Dealt, Core, Walkable, JustSplit, HandedOut, CheckTransfer, DoTransfer, ShareIds, Skips;
    if i == 0 {
      NothingHandedOut(s, p, children, owners);
    } else {
      DealResult(s, p, children, owners, from, i - 1);
      var t := HandOut(s, p, children, owners, from, i - 1);
      if Skips(children, owners, from, i - 1) {
        SkipResult(s, t, p, children, owners, from, i - 1);
      } else {
        HandoverAccepted(s, t, p, children, owners, from, i - 1);
        HandoverResult(s, t, p, children, owners, from, i - 1);
      }
    }
  }

  lemma {:induction false} NothingHandedOut(s: State, p: Prefix, children: seq<string>, owners: seq<string>)
    requires |owners| > 0
    ensures HandedOut(s, s, p, children, owners, 0)
  {
    hide IdFor;
  }

  lemma {:induction false} SplitLeavesChildren(s: State, id: string, children: seq<string>, from: string)
    requires Inv(s) && CheckSplit(s, id, children, from) == None
    ensures JustSplit(DoSplit(s, id, children, from), s.byId[id].prefix, children, from)
    ensures DoSplit(s, id, children, from).generation == s.generation
        && DoSplit(s, id, children, from).owners == s.owners
    ensures from in s.owners
    ensures forall x | x in s.byId :: x !in ChildIds(s, s.byId[id].prefix, children)
  {
    hide IdFor, CheckSplit, DoSplit;
    SplitIff(s, id, children, from);
    SplitResult(s, id, children, from);
    SplitFresh(s, id, children, from);
    var base := Retire(s, id, children);
    var u := DoSplit(s, id, children, from);
    var t := u.(revision := s.revision);
    forall k | 0 <= k < |children|
      ensures var kid := KidId(u, s.byId[id].prefix, children, k);
              && kid in u.byId && u.byId[kid].childIds == [] && u.byId[kid].state == Leased
                  && u.byId[kid].owner == Some(from)
              && kid !in s.byId
    {
      assert Added(base, t, s.byId[id], children, k, from);
      assert children[k] == children[k];
    }
    assert forall k | 0 <= k < |children| ::
           ChildIds(s, s.byId[id].prefix, children)[k] == KidId(u, s.byId[id].prefix, children, k);
  }

  lemma {:induction false} SplitKeys(s: State, id: string, children: seq<string>, from: string)
    requires Inv(s) && CheckSplit(s, id, children, from) == None
    ensures DoSplit(s, id, children, from).byId.Keys ==
            s.byId.Keys + (set x | x in ChildIds(s, s.byId[id].prefix, children))
  {
    hide IdFor, CheckSplit, DoSplit;
    SplitIff(s, id, children, from);
    SplitResult(s, id, children, from);
    var p, base, t := s.byId[id].prefix, Retire(s, id, children), DoSplit(s, id, children, from);
    var u := t.(revision := s.revision);
    forall x | x in t.byId ensures x in s.byId || x in ChildIds(s, p, children) {
      SplitRowIs(s, id, children, from, u, x);
    }
    forall x | x in s.byId ensures x in t.byId { assert x in base.byId; }
    forall k | 0 <= k < |children| ensures ChildIds(s, p, children)[k] in t.byId {
      assert Added(base, u, s.byId[id], children, k, from);
      assert children[k] == children[k];
    }
  }

  // The owner's part of the new frontier, in frontier order.

  /** The children of p are leaves, child k under owner k modulo n. */
  ghost predicate DealtOut(t: State, p: Prefix, children: seq<string>, owners: seq<string>)
    requires |owners| > 0
  {
    forall k {:trigger KidId(t, p, children, k)} | 0 <= k < |children| ::
      && IsFrontier(t, KidId(t, p, children, k))
      && t.byId[KidId(t, p, children, k)].owner == Some(owners[k % |owners|])
  }

  lemma {:induction false} KidPrefix(t: State, p: Prefix, children: seq<string>, k: nat)
    requires Inv(t) && AllMoves(p) && AllMoves(children) && k < |children| && KidId(t, p, children, k) in t.byId
    ensures t.byId[KidId(t, p, children, k)].prefix == p + [children[k]]
  {
    hide IdFor;
    var kid := KidId(t, p, children, k);
    assert RowOk(t, kid);
    assert AllMoves(p + [children[k]]);
    IdInjective(t.generation, t.byId[kid].prefix, t.generation, p + [children[k]]);
  }

  lemma {:induction false} DealtInOrder(t: State, p: Prefix, children: seq<string>, owners: seq<string>,
      owner: string, i: nat)
    requires Inv(t) && AllMoves(p) && AllMoves(children) && |owners| > 0 && i <= |children|
    requires DealtOut(t, p, children, owners)
    ensures HeldBelow(t, ChildIds(t, p, children)[..i], p, owner) == ChildIds(t, p, Dealt(children, owners, owner, i))
  {
    hide IdFor, IsMove;
    var ids := ChildIds(t, p, children);
    if i == 0 {
      assert ids[..0] == [];
    } else {
      DealtInOrder(t, p, children, owners, owner, i - 1);
      assert ids[..i][..i - 1] == ids[..i - 1];
      assert ids[i - 1] == KidId(t, p, children, i - 1);
      KidPrefix(t, p, children, i - 1);
      assert Holds(t, ids[i - 1], p, owner) <==> owners[(i - 1) % |owners|] == owner;
      OneMoreId(t, p, Dealt(children, owners, owner, i - 1), children[i - 1]);
    }
  }

  lemma {:induction false} OneMoreId(t: State, p: Prefix, moves: seq<string>, m: string)
    ensures ChildIds(t, p, moves + [m]) == ChildIds(t, p, moves) + [IdFor(t.generation, p + [m])]
    ensures moves + [] == moves
  {
    hide IdFor;
  }

  lemma {:induction false} DealtFrontier(t: State, id: string, children: seq<string>, owners: seq<string>,
      owner: string)
    requires Inv(t) && id in t.byId && AllMoves(children) && children != [] && |owners| > 0
    requires t.byId[id].childIds == ChildIds(t, t.byId[id].prefix, children)
    requires DealtOut(t, t.byId[id].prefix, children, owners)
    ensures HeldBelow(t, Frontier(t), t.byId[id].prefix, owner) ==
            ShareIds(t, t.byId[id].prefix, children, owners, owner)
  {
    hide IdFor, IsMove, Frontier, IsFrontier, Dealt, HeldBelow;
    var p := t.byId[id].prefix;
    var ids := ChildIds(t, p, children);
    assert RowOk(t, id);
    forall c | c in ids ensures IsFrontier(t, c) {
      var k :| 0 <= k < |ids| && ids[k] == c;
      assert c == KidId(t, p, children, k);
    }
    FrontierBelow(t, id, owner);
    DealtInOrder(t, p, children, owners, owner, |children|);
    assert ids[..|children|] == ids;
  }

  /**
   Splitting a sealed leaf into its whole child list and handing out the shares: every handover is accepted; it ends in
   a valid state with just the children added, child k on the frontier under owner k modulo n, the parent retired and
   every other shard as it was; and below the parent each owner's frontier is its share, in order.
   */
  lemma {:induction false} SplitThenDeal(s: State, id: string, children: seq<string>, owners: seq<string>, from: string)
    requires Inv(s) && CheckSplit(s, id, children, from) == None
    requires Distinct(owners) && 0 < |owners| && forall o | o in owners :: o in s.owners
    ensures Inv(DoSplit(s, id, children, from))
    ensures var p, u := s.byId[id].prefix, DoSplit(s, id, children, from);
            forall i | 0 <= i < |owners| && !Skips(children, owners, from, i) ::
              Check(HandOut(u, p, children, owners, from, i),
                    Handover(HandOut(u, p, children, owners, from, i), p, children, owners, from, i)) == None
    ensures var p := s.byId[id].prefix;
            var t := HandOut(DoSplit(s, id, children, from), p, children, owners, from, |owners|);
            && Inv(t) && t.byId.Keys == s.byId.Keys + (set x | x in ChildIds(s, p, children))
            && (forall o :: HeldBelow(t, Frontier(t), p, o) == ShareIds(s, p, children, owners, o))
            && (forall k | 0 <= k < |children| ::
                  && IsFrontier(t, KidId(s, p, children, k))
                  && t.byId[KidId(s, p, children, k)].owner == Some(owners[k % |owners|]))
            && (forall k, i | 0 <= k < |children| && 0 <= i < |owners| ::
                  t.byId[KidId(s, p, children, k)].owner == Some(owners[i])
                  <==> KidId(s, p, children, k) in ShareIds(s, p, children, owners, owners[i]))
            && (forall x | x in s.byId && x != id :: x in t.byId && t.byId[x] == s.byId[x])
            && id in t.byId && t.byId[id] == s.byId[id].(state := Retired, childIds := ChildIds(s, p, children))
  {
    hide IdFor, CheckSplit, DoSplit, Core, Walkable, HandOut, Dealt;
    SplitIff(s, id, children, from);
    var p, u := s.byId[id].prefix, DoSplit(s, id, children, from);
    SplitKeeps(s, id, children, from);
    SplitLeavesChildren(s, id, children, from);
    DealResult(u, p, children, owners, from, |owners|);
    var t := HandOut(u, p, children, owners, from, |owners|);
    forall k | 0 <= k < |children|
      ensures KidId(s, p, children, k) == KidId(u, p, children, k) && k % |owners| < |owners|
    {}
    forall k, i | 0 <= k < |children| && 0 <= i < |owners|
      ensures Some(owners[k % |owners|]) == Some(owners[i]) <==>
              KidId(s, p, children, k) in ShareIds(s, p, children, owners, owners[i])
    {
      ShareHas(s, p, children, owners, i, k);
      OwnerIndex(owners, k % |owners|, i);
    }
    assert ChildIds(u, p, children) == ChildIds(s, p, children);
    forall x | x in s.byId ensures x in u.byId && (x != id ==> u.byId[x] == s.byId[x]) {
      SplitPersists(s, id, children, from, x);
    }
    SplitParent(s, id, children, from);
    SplitKeys(s, id, children, from);
    assert t.byId[id].prefix == p && t.generation == s.generation;
    SameIds(s, t, p, children, owners);
    forall o ensures HeldBelow(t, Frontier(t), p, o) == ShareIds(s, p, children, owners, o) {
      DealtFrontier(t, id, children, owners, o);
    }
  }

  lemma {:induction false} SameIds(s: State, t: State, p: Prefix, children: seq<string>, owners: seq<string>)
    requires t.generation == s.generation && |owners| > 0
    ensures ChildIds(t, p, children) == ChildIds(s, p, children)
    ensures forall o :: ShareIds(t, p, children, owners, o) == ShareIds(s, p, children, owners, o)
    ensures forall k | 0 <= k < |children| :: KidId(t, p, children, k) == KidId(s, p, children, k)
  {
    hide IdFor, Dealt;
  }

  lemma {:induction false} SplitParent(s: State, id: string, children: seq<string>, from: string)
    requires Inv(s) && CheckSplit(s, id, children, from) == None
    ensures var u := DoSplit(s, id, children, from);
            && id in u.byId
            && u.byId[id] == s.byId[id].(state := Retired, childIds := ChildIds(s, s.byId[id].prefix, children))
  {
    hide IdFor, CheckSplit, DoSplit;
    SplitIff(s, id, children, from);
    SplitResult(s, id, children, from);
    SplitParentRow(s, id, children, from, DoSplit(s, id, children, from).(revision := s.revision));
  }
}
