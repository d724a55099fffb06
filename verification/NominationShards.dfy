/** Nominations against the shard ledger: each names one shard, and every eligible one can be split, in any order. */
module NominationShards {
  import opened Wrappers
  import opened Text
  import opened PrefixShards
  import opened ShardInvariant
  import opened ShardSplit
  import opened ShardTheorems
  import opened ShardRuns
  import Nomination

  // ---------------------------------------------------------------- nominations name shards

  /** The stage zoomed into a retired shard and searched children that the shard lists. */
  ghost predicate Zoomed(s: State, t: Nomination.Stage)
    requires Inv(s)
  {
    && t.parent in s.byPrefix
    && At(s, t.parent).state == Retired
    && forall m | m in t.children :: IdFor(s.generation, t.parent + [m]) in At(s, t.parent).childIds
  }

  ghost predicate AllZoomed(s: State, evidence: seq<Nomination.Stage>)
    requires Inv(s)
  {
    forall t | t in evidence && Nomination.Clean(t) :: Zoomed(s, t)
  }

  /** A listed child is a shard, filed under its parent's prefix and its own move. */
  lemma {:induction false} ListedIsFiled(s: State, t: Nomination.Stage, m: string)
    requires Inv(s) && Zoomed(s, t) && m in t.children && AllMoves(t.parent) && IsMove(m)
    ensures t.parent + [m] in s.byPrefix
  {
    hide IdFor;
    var id := IdFor(s.generation, t.parent + [m]);
    assert Indexed(s, t.parent) && RowOk(s, s.byPrefix[t.parent]);
    var k :| 0 <= k < |At(s, t.parent).childIds| && At(s, t.parent).childIds[k] == id;
    assert id in s.byId && RowOk(s, id);
    IdInjective(s.generation, s.byId[id].prefix, s.generation, t.parent + [m]);
  }

  /**
   Nominations from valid evidence about retired shards name shards, no two the same one, and a nominated shard
   is reported as a sealed frontier leaf exactly when its owner may split it into precisely the good child lists.
   */
  lemma {:induction false} NominationsNameShards(s: State, evidence: seq<Nomination.Stage>, order: seq<string>)
    requires Inv(s) && AllZoomed(s, evidence)
    requires forall t | t in evidence :: Nomination.ValidStage(t)
    ensures var picks := Nomination.Nominations(evidence, order);
            && (forall k | 0 <= k < |picks| :: picks[k].prefix in s.byPrefix && Splits(s, picks[k].prefix))
            && forall j, k | 0 <= j < k < |picks| :: s.byPrefix[picks[j].prefix] != s.byPrefix[picks[k].prefix]
  {
    hide IdFor, SealedLeaf, Zoomed, Splits, Nomination.Nominations, Nomination.KeyLe, CheckSplit;
    var picks := Nomination.Nominations(evidence, order);
    Nomination.NominatesEachTerminalOnce(evidence, order);
    forall k | 0 <= k < |picks| ensures picks[k].prefix in s.byPrefix && Splits(s, picks[k].prefix) {
      PickIsShard(s, evidence, order, picks[k]);
      SplitsWhenFiled(s, picks[k].prefix);
    }
    forall j, k | 0 <= j < k < |picks| ensures s.byPrefix[picks[j].prefix] != s.byPrefix[picks[k].prefix] {
      assert Indexed(s, picks[j].prefix) && Indexed(s, picks[k].prefix);
    }
  }

  /** Being reported as a sealed frontier leaf decides whether the shard's owner may split it. */
  ghost predicate Splits(s: State, p: Prefix)
    requires Inv(s) && p in s.byPrefix
  {
    SealedLeaf(s, p).Some? <==>
    && At(s, p).owner.Some?
    && forall moves :: CheckSplit(s, At(s, p).id, moves, At(s, p).owner.value) == None <==> GoodChildren(moves)
  }

  lemma {:induction false} SplitsWhenFiled(s: State, p: Prefix)
    requires Inv(s) && p in s.byPrefix
    ensures Splits(s, p)
  {
    hide SealedLeaf, CheckSplit, GoodChildren;
    EligibleIffSplittable(s, p);
  }

  lemma {:induction false} PickIsShard(s: State, evidence: seq<Nomination.Stage>, order: seq<string>,
      p: Nomination.Pick)
    requires Inv(s) && AllZoomed(s, evidence) && Nomination.HasSource(evidence, order, p)
    requires forall t | t in evidence :: Nomination.ValidStage(t)
    ensures p.prefix in s.byPrefix
  {
    hide Zoomed, Nomination.KeyLe, Nomination.KeyOf;
    var t :| Nomination.Behind(evidence, order, p, t);
    assert t in multiset(evidence);
    assert Nomination.ValidStage(t) && Zoomed(s, t);
    ListedIsFiled(s, t, t.best.value);
  }

  // ---------------------------------------------------------------- splitting the eligible ones

  /** The split of a shard by the owner it has in s. */
  ghost function SplitOf(s: State, p: Prefix, moves: seq<string>): Command
    requires Inv(s) && p in s.byPrefix
  {
    var r := At(s, p);
    Split(r.id, moves, match r.owner case Some(owner) => owner case None => "")
  }

  /** Splitting one sealed leaf is accepted and leaves every other one as it was. */
  lemma {:induction false} OthersStayEligible(s: State, p: Prefix, moves: seq<string>, q: Prefix)
    requires Inv(s) && SealedLeaf(s, p).Some? && GoodChildren(moves)
    ensures var t := Step(s, SplitOf(s, p, moves));
            && Check(s, SplitOf(s, p, moves)) == None && Inv(t) && t.generation == s.generation
            && (q in s.byPrefix ==> q in t.byPrefix && t.byPrefix[q] == s.byPrefix[q])
            && (q in s.byPrefix && q != p ==> At(t, q) == At(s, q) && SealedLeaf(t, q) == SealedLeaf(s, q))
  {
    hide IdFor, CheckSplit, DoSplit;
    var r := At(s, p);
    EligibleIffSplittable(s, p);
    var c := SplitOf(s, p, moves);
    StepKeeps(s, c);
    SplitIff(s, r.id, moves, r.owner.value);
    SplitResult(s, r.id, moves, r.owner.value);
    if q in s.byPrefix {
      assert Indexed(s, q) && Indexed(s, p);
      assert RowOk(s, s.byPrefix[p]) && RowOk(s, s.byPrefix[q]);
      if q != p {
        SplitPersists(s, r.id, moves, r.owner.value, s.byPrefix[q]);
        FrontierExact(s, s.byPrefix[q]);
        FrontierExact(Step(s, c), s.byPrefix[q]);
      }
    }
  }

  /** The splits of the listed shards, as addressed in s. */
  ghost function SplitsOf(s: State, ps: seq<Prefix>, kids: seq<seq<string>>): (cs: seq<Command>)
    requires Inv(s) && |kids| == |ps| && forall i | 0 <= i < |ps| :: ps[i] in s.byPrefix
    ensures |cs| == |ps|
  {
    if |ps| == 0 then [] else SplitsOf(s, ps[..|ps| - 1], kids[..|ps| - 1]) + [SplitOf(s, ps[|ps| - 1], kids[|ps| - 1])]
  }

  /** Different sealed leaves, each with a good list of children. */
  ghost predicate Ready(s: State, ps: seq<Prefix>, kids: seq<seq<string>>)
    requires Inv(s)
  {
    && |kids| == |ps|
    && (forall i | 0 <= i < |ps| :: SealedLeaf(s, ps[i]).Some? && GoodChildren(kids[i]))
    && forall i, j | 0 <= i < j < |ps| :: ps[i] != ps[j]
  }

  /** Every listed shard is retired with exactly its list of children; every other shard is as before. */
  ghost predicate AllSplit(s: State, t: State, ps: seq<Prefix>, kids: seq<seq<string>>)
    requires Inv(s) && Inv(t) && |kids| == |ps|
  {
    && (forall i | 0 <= i < |ps| :: ps[i] in s.byPrefix && ps[i] in t.byPrefix && WasSplit(s, t, ps[i], kids[i]))
    && forall q | q in s.byPrefix && q !in ps ::
         q in t.byPrefix && At(t, q) == At(s, q) && SealedLeaf(t, q) == SealedLeaf(s, q)
  }

  ghost predicate WasSplit(s: State, t: State, p: Prefix, moves: seq<string>)
    requires Inv(s) && Inv(t) && p in s.byPrefix && p in t.byPrefix
  {
    At(t, p) == At(s, p).(state := Retired, childIds := ChildIds(s, p, moves))
  }

  lemma {:induction false} LeafIsShard(s: State, p: Prefix)
    requires Inv(s) && SealedLeaf(s, p).Some?
    ensures p in s.byPrefix && At(s, p).owner.Some?
  {
    hide CheckSplit;
    EligibleIffSplittable(s, p);
  }

  lemma {:induction false} SplitDone(s: State, p: Prefix, moves: seq<string>)
    requires Inv(s) && SealedLeaf(s, p).Some? && GoodChildren(moves)
    ensures var t := Step(s, SplitOf(s, p, moves)); Inv(t) && p in t.byPrefix && WasSplit(s, t, p, moves)
  {
    hide IdFor, CheckSplit, DoSplit;
    var r := At(s, p);
    LeafIsShard(s, p);
    OthersStayEligible(s, p, moves, p);
    SplitIff(s, r.id, moves, r.owner.value);
    SplitResult(s, r.id, moves, r.owner.value);
    assert Indexed(s, p) && RowOk(s, s.byPrefix[p]);
    SplitParentRow(s, r.id, moves, r.owner.value, DoSplit(s, r.id, moves, r.owner.value).(revision := s.revision));
  }

  ghost predicate EachAccepted(s: State, cs: seq<Command>)
    requires Inv(s)
  {
    |cs| > 0 ==> EachAccepted(s, cs[..|cs| - 1]) && Check(Run(s, cs[..|cs| - 1]), cs[|cs| - 1]) == None
  }

  lemma {:induction false} OneMore(s: State, t: State, front: seq<Prefix>, few: seq<seq<string>>,
      p: Prefix, moves: seq<string>)
    requires Inv(s) && Inv(t) && t.generation == s.generation && |few| == |front| && AllSplit(s, t, front, few)
    requires Ready(s, front + [p], few + [moves])
    ensures p in s.byPrefix
    ensures var c := SplitOf(s, p, moves);
            && Check(t, c) == None && Inv(Step(t, c)) && Step(t, c).generation == s.generation
            && AllSplit(s, Step(t, c), front + [p], few + [moves])
  {
    hide IdFor, SealedLeaf, Step, Check, At, GoodChildren, Inv, SplitOf;
    NewLeaf(s, front, few, p, moves);
    LeafIsShard(s, p);
    SameSplit(s, t, p, moves);
    OthersStayEligible(t, p, moves, p);
    SplitDone(t, p, moves);
    var u := Step(t, SplitOf(t, p, moves));
    forall q | q in s.byPrefix && q != p
      ensures q in u.byPrefix && At(u, q) == At(t, q) && SealedLeaf(u, q) == SealedLeaf(t, q)
    {
      OthersStayEligible(t, p, moves, q);
    }
    SplitsExtend(s, t, u, front, few, p, moves);
  }

  lemma {:induction false} NewLeaf(s: State, front: seq<Prefix>, few: seq<seq<string>>, p: Prefix, moves: seq<string>)
    requires Inv(s) && |few| == |front| && Ready(s, front + [p], few + [moves])
    ensures p !in front && SealedLeaf(s, p).Some? && GoodChildren(moves) && Ready(s, front, few)
  {
    hide SealedLeaf, GoodChildren, Inv;
    var ps, kids := front + [p], few + [moves];
    assert ps[|front|] == p && kids[|front|] == moves;
    assert forall i | 0 <= i < |front| :: ps[i] == front[i] && kids[i] == few[i];
  }

  lemma {:induction false} SameSplit(s: State, t: State, p: Prefix, moves: seq<string>)
    requires Inv(s) && Inv(t) && p in s.byPrefix && p in t.byPrefix && At(s, p) == At(t, p)
    ensures SplitOf(s, p, moves) == SplitOf(t, p, moves)
  {
  }

  lemma {:induction false} SplitsExtend(s: State, t: State, u: State, front: seq<Prefix>, few: seq<seq<string>>,
      p: Prefix, moves: seq<string>)
    requires Inv(s) && Inv(t) && Inv(u)
    requires |few| == |front| && AllSplit(s, t, front, few) && p in s.byPrefix && p !in front
    requires t.generation == s.generation && p in t.byPrefix && p in u.byPrefix && WasSplit(t, u, p, moves)
    requires forall q | q in s.byPrefix && q != p ::
               q in t.byPrefix && q in u.byPrefix && At(u, q) == At(t, q) && SealedLeaf(u, q) == SealedLeaf(t, q)
    ensures AllSplit(s, u, front + [p], few + [moves])
  {
    hide SealedLeaf, At, Inv;
    var ps, kids := front + [p], few + [moves];
    forall i | 0 <= i < |ps|
      ensures ps[i] in s.byPrefix && ps[i] in u.byPrefix && WasSplit(s, u, ps[i], kids[i])
    {
      if i < |front| { assert ps[i] == front[i] && kids[i] == few[i]; }
    }
  }

  /** The sealed leaves can all be split, in whatever order they are listed: no split spoils another. */
  lemma {:induction false} AllCanSplit(s: State, ps: seq<Prefix>, kids: seq<seq<string>>)
    requires Inv(s) && |kids| == |ps| && Ready(s, ps, kids)
    ensures forall i | 0 <= i < |ps| :: ps[i] in s.byPrefix
    ensures EachAccepted(s, SplitsOf(s, ps, kids))
    ensures Run(s, SplitsOf(s, ps, kids)).generation == s.generation
    ensures AllSplit(s, Run(s, SplitsOf(s, ps, kids)), ps, kids)
  {
    hide IdFor, SealedLeaf, Step, Check, At, GoodChildren, Inv, AllSplit, SplitOf, Ready;
    if |ps| == 0 {
      NothingSplit(s, ps, kids);
    } else {
      var n := |ps| - 1;
      assert ps == ps[..n] + [ps[n]] && kids == kids[..n] + [kids[n]];
      NewLeaf(s, ps[..n], kids[..n], ps[n], kids[n]);
      AllCanSplit(s, ps[..n], kids[..n]);
      OneMore(s, Run(s, SplitsOf(s, ps[..n], kids[..n])), ps[..n], kids[..n], ps[n], kids[n]);
      assert SplitsOf(s, ps, kids)[..n] == SplitsOf(s, ps[..n], kids[..n]);
    }
  }

  lemma {:induction false} NothingSplit(s: State, ps: seq<Prefix>, kids: seq<seq<string>>)
    requires Inv(s) && |ps| == |kids| == 0
    ensures SplitsOf(s, ps, kids) == [] && Run(s, []) == s && EachAccepted(s, []) && AllSplit(s, s, ps, kids)
  {
  }

  function PrefixesOf(picks: seq<Nomination.Pick>, ks: seq<nat>): seq<Prefix>
    requires forall i | 0 <= i < |ks| :: ks[i] < |picks|
  {
    seq(|ks|, i requires 0 <= i < |ks| => picks[ks[i]].prefix)
  }

  lemma {:induction false} SplitIsZoomed(s: State, t: State, p: Prefix, moves: seq<string>, stage: Nomination.Stage)
    requires Inv(s) && Inv(t) && p in s.byPrefix && p in t.byPrefix && WasSplit(s, t, p, moves)
    requires t.generation == s.generation && stage.parent == p && stage.children == moves
    ensures Zoomed(t, stage)
  {
    hide IdFor, Inv, At;
    forall m | m in stage.children ensures IdFor(t.generation, p + [m]) in At(t, p).childIds {
      var k :| 0 <= k < |moves| && moves[k] == m;
      assert At(t, p).childIds[k] == IdFor(t.generation, p + [m]);
    }
  }

  /**
   Any choice of nominations that are sealed leaves can be split in any order: every split is accepted, each chosen
   shard is retired with exactly its children, no other shard changes, and stages that then search those children
   are again evidence about retired shards.
   */
  lemma {:induction false} NominationsCanSplit(s: State, evidence: seq<Nomination.Stage>, order: seq<string>,
      ks: seq<nat>, kids: seq<seq<string>>)
    requires Inv(s) && |kids| == |ks|
    requires forall i | 0 <= i < |ks| :: ks[i] < |Nomination.Nominations(evidence, order)| && GoodChildren(kids[i])
    requires forall i, j | 0 <= i < j < |ks| :: ks[i] != ks[j]
    requires forall p | p in PrefixesOf(Nomination.Nominations(evidence, order), ks) :: SealedLeaf(s, p).Some?
    ensures var ps := PrefixesOf(Nomination.Nominations(evidence, order), ks);
            && (forall i | 0 <= i < |ps| :: ps[i] in s.byPrefix)
            && var t := Run(s, SplitsOf(s, ps, kids));
               && EachAccepted(s, SplitsOf(s, ps, kids)) && AllSplit(s, t, ps, kids)
               && forall i, u: Nomination.Stage | 0 <= i < |ks| && u.parent == ps[i] && u.children == kids[i] ::
                   Zoomed(t, u)
  {
    hide IdFor, SealedLeaf, At, GoodChildren, Inv, SplitsOf, Run, WasSplit, Zoomed, EachAccepted;
    hide Nomination.Nominations;
    var ps := PrefixesOf(Nomination.Nominations(evidence, order), ks);
    Nomination.NominatesEachTerminalOnce(evidence, order);
    AllCanSplit(s, ps, kids);
    var t := Run(s, SplitsOf(s, ps, kids));
    forall i, u: Nomination.Stage | 0 <= i < |ks| && u.parent == ps[i] && u.children == kids[i] ensures Zoomed(t, u) {
      SplitIsZoomed(s, t, ps[i], kids[i], u);
    }
  }
}
