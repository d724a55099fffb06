/** Tau as a count of pairs: those of common moves that both rankings order alike less those they order oppositely. */
module RankPairs {
  import opened Wrappers
  import opened Text
  import opened RankAgreement

  /** x stands before y. */
  ghost predicate Before(s: seq<string>, x: string, y: string) {
    exists k, l :: 0 <= k < l < |s| && s[k] == x && s[l] == y
  }

  /** The pairs of common moves, in the first ranking's order, that the second orders the same way. */
  ghost function Agreeing(a: seq<string>, b: seq<string>): set<(string, string)> {
    set x, y | x in a && y in a && Before(a, x, y) && Before(b, x, y) :: (x, y)
  }

  /** Those it orders the other way. */
  ghost function Opposing(a: seq<string>, b: seq<string>): set<(string, string)> {
    set x, y | x in a && y in a && Before(a, x, y) && Before(b, y, x) :: (x, y)
  }

  function CommonMoves(a: seq<string>, b: seq<string>): set<string> { set m | m in a && m in b }

  // ---------------------------------------------------------------- counting pairs as sets

  ghost function With(s: seq<string>, x: string, a: seq<string>, b: seq<string>, sign: int): set<string>
    requires Common(s, a, b) && x in a && x in b
  {
    set y | y in s && Sign(Product(a, b, x, y)) == sign
  }

  lemma {:induction false} WithSize(s: seq<string>, x: string, a: seq<string>, b: seq<string>, sign: int)
    requires Common(s, a, b) && x in a && x in b && Distinct(s)
    ensures |With(s, x, a, b, sign)| == CountWith(s, x, a, b, sign)
  {
    hide Product;
    if |s| > 0 {
      WithSize(s[1..], x, a, b, sign);
      assert s == [s[0]] + s[1..];
      var rest := With(s[1..], x, a, b, sign);
      assert s[0] !in rest;
      assert With(s, x, a, b, sign) ==
             if Sign(Product(a, b, x, s[0])) == sign then rest + {s[0]} else rest;
    }
  }

  /** The pairs of listed moves, in list order, with a sign. */
  ghost function PairSet(s: seq<string>, a: seq<string>, b: seq<string>, sign: int): set<(string, string)>
    requires Common(s, a, b)
  {
    set x, y | x in s && y in s && Before(s, x, y) && Sign(Product(a, b, x, y)) == sign :: (x, y)
  }

  lemma {:induction false} BeforeSplits(s: seq<string>, x: string, y: string)
    requires |s| > 0
    ensures Before(s, x, y) <==> (x == s[0] && y in s[1..]) || Before(s[1..], x, y)
  {
    var t := s[1..];
    if Before(s, x, y) {
      var k, l :| 0 <= k < l < |s| && s[k] == x && s[l] == y;
      assert t[l - 1] == y;
      if k > 0 { assert t[k - 1] == x; }
    }
    if x == s[0] && y in t {
      var l :| 0 <= l < |t| && t[l] == y;
      assert s[0] == x && s[l + 1] == y;
    }
    if Before(t, x, y) {
      var k, l :| 0 <= k < l < |t| && t[k] == x && t[l] == y;
      assert s[k + 1] == x && s[l + 1] == y;
    }
  }

  ghost function Headed(x: string, ys: set<string>): set<(string, string)> { set y | y in ys :: (x, y) }

  lemma {:induction false} HeadedSize(x: string, ys: set<string>)
    ensures |Headed(x, ys)| == |ys|
  {
    if ys != {} {
      var y :| y in ys;
      HeadedSize(x, ys - {y});
      assert Headed(x, ys) == Headed(x, ys - {y}) + {(x, y)};
    }
  }

  lemma {:induction false} PairSetSize(s: seq<string>, a: seq<string>, b: seq<string>, sign: int)
    requires Common(s, a, b) && Distinct(s)
    ensures |PairSet(s, a, b, sign)| == Pairs(s, a, b, sign)
  {
    hide Product, Sign;
    if |s| > 0 {
      var t := s[1..];
      assert s == [s[0]] + t;
      PairSetSize(t, a, b, sign);
      WithSize(t, s[0], a, b, sign);
      HeadedSize(s[0], With(t, s[0], a, b, sign));
      SplitPairs(s, a, b, sign);
    } else {
      assert PairSet(s, a, b, sign) == {};
    }
  }

  lemma {:induction false} SplitPairs(s: seq<string>, a: seq<string>, b: seq<string>, sign: int)
    requires Common(s, a, b) && Distinct(s) && |s| > 0
    ensures Common(s[1..], a, b)
    ensures |PairSet(s, a, b, sign)| == |Headed(s[0], With(s[1..], s[0], a, b, sign))| + |PairSet(s[1..], a, b, sign)|
  {
    hide Product, Sign;
    var t := s[1..];
    assert s == [s[0]] + t;
    var heads, rest := Headed(s[0], With(t, s[0], a, b, sign)), PairSet(t, a, b, sign);
    forall x, y ensures (x, y) in PairSet(s, a, b, sign) <==> (x, y) in heads + rest {
      BeforeSplits(s, x, y);
    }
    assert PairSet(s, a, b, sign) == heads + rest;
    assert s[0] !in t;
    assert heads !! rest;
  }

  // ---------------------------------------------------------------- what the pairs are

  lemma {:induction false} BeforeEnds(s: seq<string>, x: string, y: string)
    requires |s| > 0
    ensures Before(s, x, y) <==> Before(s[..|s| - 1], x, y) || (y == s[|s| - 1] && x in s[..|s| - 1])
  {
    var n, t := |s| - 1, s[..|s| - 1];
    if Before(s, x, y) {
      var k, l :| 0 <= k < l < |s| && s[k] == x && s[l] == y;
      assert t[k] == x;
      if l < n { assert t[l] == y; }
    }
    if Before(t, x, y) {
      var k, l :| 0 <= k < l < |t| && t[k] == x && t[l] == y;
      assert s[k] == x && s[l] == y;
    }
    if y == s[n] && x in t {
      var k :| 0 <= k < |t| && t[k] == x;
      assert s[k] == x && s[n] == y;
    }
  }

  lemma {:induction false} SharedBefore(a: seq<string>, b: seq<string>, x: string, y: string)
    ensures Before(Shared(a, b), x, y) <==> Before(a, x, y) && x in b && y in b
  {
    hide Before;
    if |a| == 0 {
      NothingBefore(x, y);
    } else {
      var front, last := a[..|a| - 1], a[|a| - 1];
      SharedBefore(front, b, x, y);
      BeforeEnds(a, x, y);
      if last in b {
        var s := Shared(a, b);
        BeforeEnds(s, x, y);
        assert s[..|s| - 1] == Shared(front, b) && s[|s| - 1] == last;
      } else {
        assert Shared(a, b) == Shared(front, b);
      }
      BeforeMembers(front, x, y);
    }
  }

  lemma {:induction false} NothingBefore(x: string, y: string)
    ensures !Before([], x, y)
  {
  }

  lemma {:induction false} BeforeMembers(s: seq<string>, x: string, y: string)
    ensures Before(s, x, y) ==> x in s && y in s
  {
  }

  lemma {:induction false} RankBefore(a: seq<string>, x: string, y: string)
    requires Distinct(a) && x in a && y in a
    ensures Before(a, x, y) <==> Rank(a, x) < Rank(a, y)
  {
    if Rank(a, x) < Rank(a, y) { assert a[Rank(a, x)] == x && a[Rank(a, y)] == y; }
  }

  lemma {:induction false} SignOf(p: int, q: int)
    requires p < 0 && q != 0
    ensures Sign(p * q) == 1 <==> q < 0
    ensures Sign(p * q) == -1 <==> q > 0
  {
    if q < 0 { assert p * q == (-p) * (-q); }
    if q > 0 { assert (-p) * q == -(p * q); }
  }

  lemma {:induction false} PairSign(a: seq<string>, b: seq<string>, x: string, y: string)
    requires Distinct(a) && Distinct(b) && x in a && y in a && x in b && y in b && Before(a, x, y)
    ensures Sign(Product(a, b, x, y)) == 1 <==> Before(b, x, y)
    ensures Sign(Product(a, b, x, y)) == -1 <==> Before(b, y, x)
  {
    hide Before, Sign;
    RankBefore(a, x, y);
    RankBefore(b, x, y);
    RankBefore(b, y, x);
    assert Rank(b, x) == Rank(b, y) ==> x == y;
    SignOf(Rank(a, x) - Rank(a, y), Rank(b, x) - Rank(b, y));
  }

  lemma {:induction false} PairsAre(a: seq<string>, b: seq<string>)
    requires Distinct(a) && Distinct(b)
    ensures Common(Shared(a, b), a, b)
    ensures PairSet(Shared(a, b), a, b, 1) == Agreeing(a, b) && PairSet(Shared(a, b), a, b, -1) == Opposing(a, b)
  {
    hide Before, Product, Sign, Shared;
    var s := Shared(a, b);
    forall x, y
      ensures (x, y) in PairSet(s, a, b, 1) <==> (x, y) in Agreeing(a, b)
      ensures (x, y) in PairSet(s, a, b, -1) <==> (x, y) in Opposing(a, b)
    {
      SharedBefore(a, b, x, y);
      BeforeMembers(s, x, y);
      BeforeMembers(a, x, y);
      BeforeMembers(b, x, y);
      BeforeMembers(b, y, x);
      if Before(a, x, y) && x in b && y in b { PairSign(a, b, x, y); }
    }
  }

  lemma {:induction false} MoreCommon(a: seq<string>, b: seq<string>)
    requires Distinct(a) && |a| > 0
    ensures |CommonMoves(a, b)| == |CommonMoves(a[..|a| - 1], b)| + if a[|a| - 1] in b then 1 else 0
  {
    var front, last := a[..|a| - 1], a[|a| - 1];
    assert forall m :: m in a <==> m in front || m == last;
    assert last !in front;
    var all, few := CommonMoves(a, b), CommonMoves(front, b);
    if last in b { assert all == few + {last}; } else { assert all == few; }
  }

  lemma {:induction false} SharedSize(a: seq<string>, b: seq<string>)
    requires Distinct(a)
    ensures |Shared(a, b)| == |CommonMoves(a, b)|
  {
    if |a| == 0 {
      assert CommonMoves(a, b) == {};
    } else {
      var front, last := a[..|a| - 1], a[|a| - 1];
      SharedSize(front, b);
      MoreCommon(a, b);
    }
  }

  /**
   For rankings without repeats with n moves in common: undefined below two; otherwise every one of the n(n-1)/2 pairs
   is ordered alike or oppositely, and tau is the difference of the two counts over their sum.
   */
  lemma {:induction false} TauCountsPairs(a: seq<string>, b: seq<string>)
    requires Distinct(a) && Distinct(b)
    ensures var n, c, d := |CommonMoves(a, b)|, |Agreeing(a, b)|, |Opposing(a, b)|;
            && 2 * (c + d) == n * (n - 1)
            && (Tau(a, b) == None <==> n < 2)
            && (n >= 2 ==> c + d > 0 && Tau(a, b) == Some((c - d) as real / (c + d) as real))
  {
    hide Product, CountWith, Pairs, Shared, Agreeing, Opposing, PairSet, CommonMoves;
    var s := Shared(a, b);
    SharedDistinct(a, b);
    PairsAre(a, b);
    PairSetSize(s, a, b, 1);
    PairSetSize(s, a, b, -1);
    SharedSize(a, b);
    PairsAll(s, a, b);
    if |s| >= 2 { TwoOrMore(|s|); }
  }

  // ---------------------------------------------------------------- rankings with repeats

  /** A repeated move is ranked at its last place. */
  lemma {:induction false} RankIsLast(a: seq<string>, m: string)
    requires m in a
    ensures a[Rank(a, m)] == m && forall j | Rank(a, m) < j < |a| :: a[j] != m
  {
    if a[|a| - 1] != m { RankIsLast(a[..|a| - 1], m); }
  }

  /** Each common move is counted as often as the first ranking lists it. */
  lemma {:induction false} SharedCounts(a: seq<string>, b: seq<string>, m: string)
    ensures multiset(Shared(a, b))[m] == if m in b then multiset(a)[m] else 0
  {
    if |a| > 0 {
      SharedCounts(a[..|a| - 1], b, m);
      assert a == a[..|a| - 1] + [a[|a| - 1]];
    }
  }

  /** Both rankings put the two moves the same way round, or the opposite ways. */
  predicate Stand(a: seq<string>, b: seq<string>, x: string, y: string, alike: bool)
    requires x in a && y in a && x in b && y in b
  {
    var p, q := Rank(a, x) - Rank(a, y), Rank(b, x) - Rank(b, y);
    if alike then (p < 0 && q < 0) || (p > 0 && q > 0) else (p < 0 && q > 0) || (p > 0 && q < 0)
  }

  /** The places of the listed moves that stand so to x. */
  ghost function PlacesWith(s: seq<string>, x: string, a: seq<string>, b: seq<string>, alike: bool): set<nat>
    requires Common(s, a, b) && x in a && x in b
  {
    set j: nat | j < |s| && Stand(a, b, x, s[j], alike)
  }

  /** The pairs of places whose moves stand so to each other. */
  ghost function PairPlaces(s: seq<string>, a: seq<string>, b: seq<string>, alike: bool): set<(nat, nat)>
    requires Common(s, a, b)
  {
    set i: nat, j: nat | i < |s| && j < |s| && i < j && Stand(a, b, s[i], s[j], alike) :: (i, j)
  }

  lemma {:induction false} SameSize<A, B>(m: map<A, B>)
    requires forall x, y | x in m && y in m && x != y :: m[x] != m[y]
    ensures |m.Keys| == |m.Values|
  {
    if m != map[] {
      var x :| x in m;
      var rest := m - {x};
      SameSize(rest);
      assert m.Keys == rest.Keys + {x} && m.Values == rest.Values + {m[x]};
    }
  }

  function SignFor(alike: bool): int { if alike then 1 else -1 }

  lemma {:induction false} StandIs(a: seq<string>, b: seq<string>, x: string, y: string, alike: bool)
    requires x in a && y in a && x in b && y in b
    ensures Stand(a, b, x, y, alike) <==> Sign(Product(a, b, x, y)) == SignFor(alike)
  {
    var p, q := Rank(a, x) - Rank(a, y), Rank(b, x) - Rank(b, y);
    hide Sign;
    ProductSign(p, q);
  }

  lemma {:induction false} ProductSign(p: int, q: int)
    ensures Sign(p * q) == 1 <==> (p < 0 && q < 0) || (p > 0 && q > 0)
    ensures Sign(p * q) == -1 <==> (p < 0 && q > 0) || (p > 0 && q < 0)
  {
    if p < 0 && q != 0 { SignOf(p, q); }
    if p > 0 && q != 0 {
      SignOf(-p, -q);
      assert p * q == (-p) * (-q);
    }
  }

  lemma {:induction false} PlacesCount(s: seq<string>, x: string, a: seq<string>, b: seq<string>, alike: bool)
    requires Common(s, a, b) && x in a && x in b
    ensures |PlacesWith(s, x, a, b, alike)| == CountWith(s, x, a, b, SignFor(alike))
  {
    hide Stand, Product, Sign, SignFor;
    var all := PlacesWith(s, x, a, b, alike);
    if |s| == 0 {
      assert all == {};
    } else {
      var t := s[1..];
      PlacesCount(t, x, a, b, alike);
      StandIs(a, b, x, s[0], alike);
      var m := map j: nat | j in PlacesWith(t, x, a, b, alike) :: j + 1;
      assert m.Keys == PlacesWith(t, x, a, b, alike);
      SameSize(m);
      forall j: nat ensures j in all <==> j in m.Values || (j == 0 && Stand(a, b, x, s[0], alike)) {
        if j in all && j > 0 { assert t[j - 1] == s[j] && m[j - 1] == j; }
      }
      assert 0 !in m.Values;
      assert all == m.Values + if Stand(a, b, x, s[0], alike) then {0} else {};
    }
  }

  ghost function Heads(js: set<nat>): set<(nat, nat)> { set j | j in js :: (0, j + 1) }

  function Shift(p: (nat, nat)): (nat, nat) { (p.0 + 1, p.1 + 1) }

  ghost function Shifted(ps: set<(nat, nat)>): set<(nat, nat)> { set p | p in ps :: Shift(p) }

  lemma {:induction false} HeadsSize(js: set<nat>)
    ensures |Heads(js)| == |js|
  {
    var m := map j | j in js :: (0, j + 1);
    SameSize(m);
    assert m.Keys == js && m.Values == Heads(js);
  }

  lemma {:induction false} ShiftInjective(p: (nat, nat), q: (nat, nat))
    ensures Shift(p) == Shift(q) ==> p == q
  {
  }

  lemma {:induction false} ShiftedSize(ps: set<(nat, nat)>)
    ensures |Shifted(ps)| == |ps|
  {
    hide Shift;
    var m := map p | p in ps :: Shift(p);
    forall p, q | p in m && q in m && p != q ensures m[p] != m[q] { ShiftInjective(p, q); }
    SameSize(m);
    assert m.Keys == ps && m.Values == Shifted(ps);
  }

  lemma {:induction false} InHeads(js: set<nat>, i: nat, j: nat)
    ensures (i, j) in Heads(js) <==> i == 0 && j > 0 && j - 1 in js
  {
    if j > 0 && j - 1 in js { assert (0, j - 1 + 1) in Heads(js); }
  }

  lemma {:induction false} InShifted(ps: set<(nat, nat)>, i: nat, j: nat)
    ensures (i, j) in Shifted(ps) <==> i > 0 && j > 0 && (i - 1, j - 1) in ps
  {
    if i > 0 && j > 0 && (i - 1, j - 1) in ps {
      var p := (i - 1, j - 1);
      assert Shift(p) in Shifted(ps);
    }
  }

  lemma {:induction false} HeadsApart(js: set<nat>, ps: set<(nat, nat)>)
    ensures Heads(js) !! Shifted(ps)
  {
    forall p | p in Heads(js) ensures p !in Shifted(ps) {
      InHeads(js, p.0, p.1);
      InShifted(ps, p.0, p.1);
    }
  }

  lemma {:induction false} PlaceSplits(s: seq<string>, a: seq<string>, b: seq<string>, alike: bool, i: nat, j: nat)
    requires Common(s, a, b) && |s| > 0
    ensures Common(s[1..], a, b)
    ensures (i, j) in PairPlaces(s, a, b, alike) <==>
              || (i, j) in Heads(PlacesWith(s[1..], s[0], a, b, alike))
              || (i, j) in Shifted(PairPlaces(s[1..], a, b, alike))
  {
    hide Stand, Heads, Shifted;
    var t := s[1..];
    InHeads(PlacesWith(t, s[0], a, b, alike), i, j);
    InShifted(PairPlaces(t, a, b, alike), i, j);
    if 0 < j < |s| { assert t[j - 1] == s[j]; }
    if 0 < i < |s| { assert t[i - 1] == s[i]; }
  }

  lemma {:induction false} PlacesSplit(s: seq<string>, a: seq<string>, b: seq<string>, alike: bool)
    requires Common(s, a, b) && |s| > 0
    ensures Common(s[1..], a, b)
    ensures PairPlaces(s, a, b, alike) ==
            Heads(PlacesWith(s[1..], s[0], a, b, alike)) + Shifted(PairPlaces(s[1..], a, b, alike))
  {
    hide PairPlaces, PlacesWith, Heads, Shifted;
    var all := PairPlaces(s, a, b, alike);
    var parts := Heads(PlacesWith(s[1..], s[0], a, b, alike)) + Shifted(PairPlaces(s[1..], a, b, alike));
    forall p ensures p in all <==> p in parts { PlaceSplits(s, a, b, alike, p.0, p.1); }
  }

  lemma {:induction false} PairPlacesCount(s: seq<string>, a: seq<string>, b: seq<string>, alike: bool)
    requires Common(s, a, b)
    ensures |PairPlaces(s, a, b, alike)| == Pairs(s, a, b, SignFor(alike))
  {
    hide Stand, SignFor, CountWith, PlacesWith, Heads, Shifted;
    if |s| == 0 {
      assert PairPlaces(s, a, b, alike) == {};
    } else {
      var t := s[1..];
      PlacesSplit(s, a, b, alike);
      PairPlacesCount(t, a, b, alike);
      PlacesCount(t, s[0], a, b, alike);
      var js, ps := PlacesWith(t, s[0], a, b, alike), PairPlaces(t, a, b, alike);
      HeadsSize(js);
      ShiftedSize(ps);
      HeadsApart(js, ps);
    }
  }

  /**
   For any rankings: over the pairs of places of the common moves, tau is the difference of the pairs ranked alike and
   oppositely over their sum; undefined when that is zero.
   */
  lemma {:induction false} TauCountsPlaces(a: seq<string>, b: seq<string>)
    ensures Common(Shared(a, b), a, b)
    ensures var s := Shared(a, b);
            var c, d := |PairPlaces(s, a, b, true)|, |PairPlaces(s, a, b, false)|;
            Tau(a, b) == if c + d == 0 then None else Some((c - d) as real / (c + d) as real)
  {
    hide Stand, Product, Sign, CountWith, Shared;
    var s := Shared(a, b);
    PairPlacesCount(s, a, b, true);
    PairPlacesCount(s, a, b, false);
    if |s| < 2 {
      assert PairPlaces(s, a, b, true) == {} == PairPlaces(s, a, b, false);
    }
  }
}
