/** Dealing one exact child list to owners in turn. */
module ChildPartition {
  import opened Wrappers
  import opened Text

  datatype PartitionError = NoOwner | NotCanonical(move: string) | Repeated(move: string)

  function FirstBadChild(children: seq<string>, k: nat): Option<PartitionError>
    requires k <= |children|
    decreases |children| - k
  {
    if k == |children| then None
    else if !IsMove(children[k]) then Some(NotCanonical(children[k]))
    else if children[k] in children[..k] then Some(Repeated(children[k]))
    else FirstBadChild(children, k + 1)
  }

  function CheckChildren(children: seq<string>, owners: seq<string>): Option<PartitionError> {
    if owners == [] then Some(NoOwner) else FirstBadChild(children, 0)
  }

  /** The children among the first i that fall to an owner: those whose position modulo the owner count names it. */
  function Dealt(children: seq<string>, owners: seq<string>, owner: string, i: nat): seq<string>
    requires i <= |children| && |owners| > 0
  {
    if i == 0 then []
    else
      Dealt(children, owners, owner, i - 1) + (if owners[(i - 1) % |owners|] == owner then [children[i - 1]] else [])
  }

  /** Fill one bucket per owner by walking the child list once. */
  method PartitionChildren(children: seq<string>, owners: seq<string>)
    returns (r: Result<map<string, seq<string>>, PartitionError>)
    ensures match CheckChildren(children, owners)
            case Some(e) => r == Err(e)
            case None => r.Ok? && r.value.Keys == (set o | o in owners)
                         && forall o | o in owners :: r.value[o] == Dealt(children, owners, o, |children|)
  {
    if owners == [] { return Err(NoOwner); }
    var buckets: map<string, seq<string>> := map o | o in owners :: [];
    var seen: set<string> := {};
    for index := 0 to |children|
      invariant FirstBadChild(children, 0) == FirstBadChild(children, index)
      invariant forall m :: m in seen <==> m in children[..index]
      invariant buckets.Keys == (set o | o in owners)
      invariant forall o | o in owners :: buckets[o] == Dealt(children, owners, o, index)
    {
      var move := children[index];
      if !IsMove(move) { return Err(NotCanonical(move)); }
      if move in seen { return Err(Repeated(move)); }
      seen := seen + {move};
      var owner := owners[index % |owners|];
      buckets := buckets[owner := buckets[owner] + [move]];
    }
    r := Ok(buckets);
  }

  lemma {:induction false} ChildrenGood(children: seq<string>, k: nat)
    requires k <= |children| && FirstBadChild(children, k) == None
    ensures forall i | k <= i < |children| :: IsMove(children[i]) && children[i] !in children[..i]
    decreases |children| - k
  {
    if k < |children| { ChildrenGood(children, k + 1); }
  }

  lemma {:induction false} GoodChildrenPass(children: seq<string>, k: nat)
    requires k <= |children| && AllMoves(children) && Distinct(children)
    ensures FirstBadChild(children, k) == None
    decreases |children| - k
  {
    hide IsMove;
    if k < |children| { GoodChildrenPass(children, k + 1); }
  }

  /** Which child lists the partition accepts. */
  lemma {:induction false} AcceptedIff(children: seq<string>, owners: seq<string>)
    ensures CheckChildren(children, owners) == None <==> owners != [] && AllMoves(children) && Distinct(children)
  {
    hide IsMove;
    if CheckChildren(children, owners) == None {
      ChildrenGood(children, 0);
      forall i, j | 0 <= i < j < |children| ensures children[i] != children[j] {
        assert children[..j][i] == children[i];
      }
    } else if owners != [] && AllMoves(children) && Distinct(children) {
      GoodChildrenPass(children, 0);
    }
  }

  // ---------------------------------------------------------------- the deal is exact

  /** x is q rounds of n and a remainder r. */
  predicate Rounds(x: nat, n: nat, q: nat, r: nat) {
    x == q * n + r && r < n
  }

  lemma {:induction false} DivRounds(x: nat, n: nat)
    requires n > 0
    ensures Rounds(x, n, x / n, x % n)
  {
  }

  lemma {:induction false} MoreRounds(a: nat, b: nat, n: nat)
    requires a < b
    ensures a * n + n <= b * n
  {
    assert (b - a - 1) * n >= 0;
    assert b * n == (a + 1) * n + (b - a - 1) * n;
  }

  lemma {:induction false} RoundsUnique(x: nat, n: nat, q: nat, r: nat, p: nat, s: nat)
    requires Rounds(x, n, q, r) && Rounds(x, n, p, s)
    ensures q == p && r == s
  {
    if q < p { MoreRounds(q, p, n); }
    if p < q { MoreRounds(p, q, n); }
  }

  lemma {:induction false} NextRound(x: nat, n: nat, q: nat, r: nat)
    requires Rounds(x, n, q, r)
    ensures if r == n - 1 then Rounds(x + 1, n, q + 1, 0) else Rounds(x + 1, n, q, r + 1)
  {
  }

  lemma {:induction false} DivStep(m: nat, n: nat)
    requires n > 0
    ensures (m + 1) / n == m / n + (if m % n == n - 1 then 1 else 0)
    ensures (m + 1) % n == if m % n == n - 1 then 0 else m % n + 1
  {
    DivRounds(m, n);
    DivRounds(m + 1, n);
    NextRound(m, n, m / n, m % n);
    if m % n == n - 1 {
      RoundsUnique(m + 1, n, (m + 1) / n, (m + 1) % n, m / n + 1, 0);
    } else {
      RoundsUnique(m + 1, n, (m + 1) / n, (m + 1) % n, m / n, m % n + 1);
    }
  }

  /** The position in the child list of entry j of owner k. */
  function Slot(k: nat, j: nat, n: nat): nat { k + j * n }

  /** How many of the first i children fall to owner k. */
  function Quota(k: nat, i: nat, n: nat): nat
    requires n > 0
  {
    i / n + (if k < i % n then 1 else 0)
  }

  lemma {:induction false} QuotaStep(k: nat, i: nat, n: nat)
    requires n > 0 && k < n
    ensures Quota(k, i + 1, n) == Quota(k, i, n) + (if i % n == k then 1 else 0)
    ensures i % n == k ==> Slot(k, Quota(k, i, n), n) == i
  {
    DivStep(i, n);
    DivRounds(i, n);
  }

  /** Owner k holds every n-th child from position k on, in order: how many, and which. */
  lemma {:induction false} DealtAt(children: seq<string>, owners: seq<string>, k: nat, i: nat)
    requires Distinct(owners) && k < |owners| && i <= |children|
    ensures |Dealt(children, owners, owners[k], i)| == Quota(k, i, |owners|)
    ensures forall j | 0 <= j < Quota(k, i, |owners|) ::
              Slot(k, j, |owners|) < i && Dealt(children, owners, owners[k], i)[j] == children[Slot(k, j, |owners|)]
  {
    hide Slot, Quota;
    if i == 0 {
      QuotaNone(k, |owners|);
    } else {
      DealtAt(children, owners, k, i - 1);
      QuotaStep(k, i - 1, |owners|);
      OwnerIndex(owners, (i - 1) % |owners|, k);
    }
  }

  lemma {:induction false} QuotaNone(k: nat, n: nat)
    requires n > 0
    ensures Quota(k, 0, n) == 0
  {
  }

  lemma {:induction false} OwnerIndex(owners: seq<string>, a: nat, b: nat)
    requires Distinct(owners) && a < |owners| && b < |owners|
    ensures owners[a] == owners[b] <==> a == b
  {
  }

  /** Re-interleaving: child i is entry i / n of owner i % n. */
  lemma {:induction false} Reinterleaves(children: seq<string>, owners: seq<string>, i: nat)
    requires Distinct(owners) && |owners| > 0 && i < |children|
    ensures var d := Dealt(children, owners, owners[i % |owners|], |children|);
            i / |owners| < |d| && d[i / |owners|] == children[i]
  {
    hide Dealt, Quota, Slot;
    DealtAt(children, owners, i % |owners|, |children|);
    SlotOf(i, |children|, |owners|);
  }

  lemma {:induction false} SlotOf(i: nat, m: nat, n: nat)
    requires n > 0 && i < m
    ensures i / n < Quota(i % n, m, n) && Slot(i % n, i / n, n) == i
  {
    DivRounds(i, n);
    DivRounds(m, n);
    if m / n < i / n { MoreRounds(m / n, i / n, n); }
  }

  /** A child is in an owner's list exactly when its position names that owner. */
  lemma {:induction false} DealtMembers(children: seq<string>, owners: seq<string>, owner: string, i: nat, m: string)
    requires i <= |children| && |owners| > 0
    ensures m in Dealt(children, owners, owner, i) <==>
            exists j | 0 <= j < i :: children[j] == m && owners[j % |owners|] == owner
  {
    if i > 0 { DealtMembers(children, owners, owner, i - 1, m); }
  }

  /** The lists are disjoint, cover the children, and differ in size by at most one. */
  lemma {:induction false} DealIsPartition(children: seq<string>, owners: seq<string>)
    requires Distinct(owners) && |owners| > 0 && Distinct(children)
    ensures forall m, k, l | 0 <= k < |owners| && 0 <= l < |owners| && k != l
        && m in Dealt(children, owners, owners[k], |children|) ::
              m !in Dealt(children, owners, owners[l], |children|)
    ensures forall m | m in children ::
              exists k | 0 <= k < |owners| :: m in Dealt(children, owners, owners[k], |children|)
    ensures forall k | 0 <= k < |owners| ::
              forall m | m in Dealt(children, owners, owners[k], |children|) :: m in children
    ensures forall k, l | 0 <= k < |owners| && 0 <= l < |owners| ::
              |Dealt(children, owners, owners[k], |children|)| <= |Dealt(children, owners, owners[l], |children|)| + 1
    ensures forall k | 0 <= k < |owners| :: Distinct(Dealt(children, owners, owners[k], |children|))
  {
    var all := |children|;
    forall m, k, l | 0 <= k < |owners| && 0 <= l < |owners| && k != l && m in Dealt(children, owners, owners[k], all)
      ensures m !in Dealt(children, owners, owners[l], all)
    {
      DealtMembers(children, owners, owners[k], all, m);
      DealtMembers(children, owners, owners[l], all, m);
    }
    forall m | m in children ensures exists k | 0 <= k < |owners| :: m in Dealt(children, owners, owners[k], all) {
      var i :| 0 <= i < all && children[i] == m;
      DealtMembers(children, owners, owners[i % |owners|], all, m);
    }
    forall k, m | 0 <= k < |owners| && m in Dealt(children, owners, owners[k], all) ensures m in children {
      DealtMembers(children, owners, owners[k], all, m);
    }
    forall k, l | 0 <= k < |owners| && 0 <= l < |owners|
      ensures |Dealt(children, owners, owners[k], all)| <= |Dealt(children, owners, owners[l], all)| + 1
    {
      DealtAt(children, owners, k, all);
      DealtAt(children, owners, l, all);
      assert Quota(k, all, |owners|) <= Quota(l, all, |owners|) + 1;
    }
    forall k | 0 <= k < |owners| ensures Distinct(Dealt(children, owners, owners[k], all)) {
      DealtDistinct(children, owners, owners[k], all);
    }
  }

  lemma {:induction false} DealtDistinct(children: seq<string>, owners: seq<string>, owner: string, i: nat)
    requires i <= |children| && |owners| > 0 && Distinct(children)
    ensures Distinct(Dealt(children, owners, owner, i))
  {
    if i > 0 {
      DealtDistinct(children, owners, owner, i - 1);
      DealtMembers(children, owners, owner, i - 1, children[i - 1]);
    }
  }

  // ---------------------------------------------------------------- every accepted input

  /** The quotas of the first p positions that an owner holds; an owner may be listed more than once. */
  function Quotas(owners: seq<string>, owner: string, i: nat, p: nat): nat
    requires |owners| > 0 && p <= |owners|
  {
    if p == 0 then 0
    else Quotas(owners, owner, i, p - 1) + (if owners[p - 1] == owner then Quota(p - 1, i, |owners|) else 0)
  }

  lemma {:induction false} QuotasStep(owners: seq<string>, owner: string, i: nat, p: nat)
    requires |owners| > 0 && p <= |owners|
    ensures Quotas(owners, owner, i + 1, p)
            == Quotas(owners, owner, i, p) + (if i % |owners| < p && owners[i % |owners|] == owner then 1 else 0)
  {
    hide Quota;
    if p > 0 {
      QuotasStep(owners, owner, i, p - 1);
      QuotaStep(p - 1, i, |owners|);
    }
  }

  lemma {:induction false} NoQuotas(owners: seq<string>, owner: string, p: nat)
    requires |owners| > 0 && p <= |owners|
    ensures Quotas(owners, owner, 0, p) == 0
  {
    if p > 0 { NoQuotas(owners, owner, p - 1); }
  }

  lemma {:induction false} DealtSize(children: seq<string>, owners: seq<string>, owner: string, i: nat)
    requires i <= |children| && |owners| > 0
    ensures |Dealt(children, owners, owner, i)| == Quotas(owners, owner, i, |owners|)
  {
    hide Quota, Quotas;
    if i == 0 {
      NoQuotas(owners, owner, |owners|);
    } else {
      DealtSize(children, owners, owner, i - 1);
      QuotasStep(owners, owner, i - 1, |owners|);
    }
  }

  /**
   For every accepted input, repeated owners included: the lists hold the children and nothing else, each child once and
   with the owner its position names, and each list is as long as the quotas of its owner's positions.
   */
  lemma {:induction false} AcceptedDeal(children: seq<string>, owners: seq<string>)
    requires CheckChildren(children, owners) == None
    ensures AllMoves(children) && Distinct(children)
    ensures forall o, i | 0 <= i < |children| ::
              children[i] in Dealt(children, owners, o, |children|) <==> owners[i % |owners|] == o
    ensures forall o, m | m in Dealt(children, owners, o, |children|) :: m in children && o in owners
    ensures forall o :: Distinct(Dealt(children, owners, o, |children|))
    ensures forall o :: |Dealt(children, owners, o, |children|)| == Quotas(owners, o, |children|, |owners|)
    ensures Distinct(owners) ==> forall o, p | o in owners && p in owners ::
              |Dealt(children, owners, o, |children|)| <= |Dealt(children, owners, p, |children|)| + 1
  {
    hide IsMove, Dealt, Quotas, FirstBadChild;
    AcceptedIff(children, owners);
    var all := |children|;
    forall o, i | 0 <= i < all ensures children[i] in Dealt(children, owners, o, all) <==> owners[i % |owners|] == o {
      DealtMembers(children, owners, o, all, children[i]);
    }
    forall o, m | m in Dealt(children, owners, o, all) ensures m in children && o in owners {
      DealtMembers(children, owners, o, all, m);
    }
    forall o
      ensures Distinct(Dealt(children, owners, o, all))
              && |Dealt(children, owners, o, all)| == Quotas(owners, o, all, |owners|)
    {
      DealtDistinct(children, owners, o, all);
      DealtSize(children, owners, o, all);
    }
    if Distinct(owners) {
      DealIsPartition(children, owners);
    }
  }
}
