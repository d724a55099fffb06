/** Kendall tau over the moves both rankings contain. */
module RankAgreement {
  import opened Wrappers
  import opened Text

  datatype ResidualError = EmptyMove

  predicate CleanMoves(ms: seq<string>) { forall i | 0 <= i < |ms| :: ms[i] != "" }

  /** [move for move in a if move in set(b)] */
  function Shared(a: seq<string>, b: seq<string>): (s: seq<string>)
    ensures forall m :: m in s <==> m in a && m in b
  {
    if |a| == 0 then []
    else Shared(a[..|a| - 1], b) + (if a[|a| - 1] in b then [a[|a| - 1]] else [])
  }

  /** The rank a dictionary built from the list records: the last position. */
  function Rank(a: seq<string>, m: string): (k: nat)
    requires m in a
    ensures k < |a| && a[k] == m
    ensures Distinct(a) ==> forall j | 0 <= j < |a| && a[j] == m :: j == k
  {
    if a[|a| - 1] == m then |a| - 1 else Rank(a[..|a| - 1], m)
  }

  /** The product of the two rank differences. */
  function Product(a: seq<string>, b: seq<string>, x: string, y: string): int
    requires x in a && y in a && x in b && y in b
  {
    (Rank(a, x) - Rank(a, y)) * (Rank(b, x) - Rank(b, y))
  }

  function Sign(k: int): int { if k > 0 then 1 else if k < 0 then -1 else 0 }

  ghost predicate Common(s: seq<string>, a: seq<string>, b: seq<string>) {
    forall m | m in s :: m in a && m in b
  }

  /** How many of the listed moves stand to x with the given sign. */
  ghost function CountWith(s: seq<string>, x: string, a: seq<string>, b: seq<string>, sign: int): nat
    requires Common(s, a, b) && x in a && x in b
  {
    if |s| == 0 then 0
    else (if Sign(Product(a, b, x, s[0])) == sign then 1 else 0) + CountWith(s[1..], x, a, b, sign)
  }

  /** How many pairs of the listed moves have the given sign. */
  ghost function Pairs(s: seq<string>, a: seq<string>, b: seq<string>, sign: int): nat
    requires Common(s, a, b)
  {
    if |s| == 0 then 0 else CountWith(s[1..], s[0], a, b, sign) + Pairs(s[1..], a, b, sign)
  }

  /** Tau as the difference of concordant and discordant pairs over their number. */
  ghost function Tau(a: seq<string>, b: seq<string>): Option<real> {
    var s := Shared(a, b);
    var c, d := Pairs(s, a, b, 1), Pairs(s, a, b, -1);
    if |s| < 2 || c + d == 0 then None else Some((c - d) as real / (c + d) as real)
  }

  method ComputeRankAgreement(left: seq<string>, right: seq<string>) returns (r: Result<Option<real>, ResidualError>)
    ensures r == if "" in left || "" in right then Err(EmptyMove) else Ok(Tau(left, right))
  {
    hide Product;
    if !CleanMoves(left) || !CleanMoves(right) { return Err(EmptyMove); }
    var shared := Shared(left, right);
    if |shared| < 2 { return Ok(None); }
    var concordant, discordant := 0, 0;
    ghost var c, d := Pairs(shared, left, right, 1), Pairs(shared, left, right, -1);
    for i := 0 to |shared|
      invariant concordant + Pairs(shared[i..], left, right, 1) == c
      invariant discordant + Pairs(shared[i..], left, right, -1) == d
      invariant concordant >= 0 && discordant >= 0
    {
      assert shared[i..][1..] == shared[i + 1..] && shared[i..][0] == shared[i];
      for j := i + 1 to |shared|
        invariant concordant + CountWith(shared[j..], shared[i], left, right, 1)
                  + Pairs(shared[i + 1..], left, right, 1) == c
        invariant discordant + CountWith(shared[j..], shared[i], left, right, -1)
                  + Pairs(shared[i + 1..], left, right, -1) == d
        invariant concordant >= 0 && discordant >= 0
      {
        assert shared[j..][1..] == shared[j + 1..] && shared[j..][0] == shared[j];
        var product := Product(left, right, shared[i], shared[j]);
        if product > 0 {
          concordant := concordant + 1;
        } else if product < 0 {
          discordant := discordant + 1;
        }
      }
    }
    var total := concordant + discordant;
    if total == 0 { return Ok(None); }
    r := Ok(Some((concordant - discordant) as real / total as real));
  }

  // ---------------------------------------------------------------- counting does not depend on order

  function Without(s: seq<string>, k: nat): seq<string>
    requires k < |s|
  {
    s[..k] + s[k + 1..]
  }

  lemma {:induction false} CountRemove(s: seq<string>, k: nat, x: string, a: seq<string>, b: seq<string>, sign: int)
    requires Common(s, a, b) && x in a && x in b && k < |s|
    ensures Common(Without(s, k), a, b)
    ensures CountWith(s, x, a, b, sign) ==
            CountWith(Without(s, k), x, a, b, sign) + if Sign(Product(a, b, x, s[k])) == sign then 1 else 0
  {
    if k == 0 {
      assert Without(s, 0) == s[1..];
    } else {
      CountRemove(s[1..], k - 1, x, a, b, sign);
      assert Without(s, k)[0] == s[0] && Without(s, k)[1..] == Without(s[1..], k - 1);
    }
  }

  lemma {:induction false} SignSymmetric(a: seq<string>, b: seq<string>, x: string, y: string)
    requires x in a && y in a && x in b && y in b
    ensures Product(a, b, x, y) == Product(a, b, y, x) == Product(b, a, x, y)
  {
    var p, q := Rank(a, x) - Rank(a, y), Rank(b, x) - Rank(b, y);
    assert (-p) * (-q) == p * q;
  }

  /** Pulling any one move to the front does not change the number of pairs of a sign. */
  lemma {:induction false} PairsRemove(s: seq<string>, k: nat, a: seq<string>, b: seq<string>, sign: int)
    requires Common(s, a, b) && k < |s|
    ensures Common(Without(s, k), a, b)
    ensures Pairs(s, a, b, sign) == CountWith(Without(s, k), s[k], a, b, sign) + Pairs(Without(s, k), a, b, sign)
  {
    hide Product;
    if k == 0 {
      assert Without(s, 0) == s[1..];
    } else {
      PairsRemove(s[1..], k - 1, a, b, sign);
      CountRemove(s[1..], k - 1, s[0], a, b, sign);
      SignSymmetric(a, b, s[0], s[k]);
      assert Without(s, k)[0] == s[0] && Without(s, k)[1..] == Without(s[1..], k - 1);
    }
  }

  lemma {:induction false} WithoutMultiset(s: seq<string>, k: nat)
    requires k < |s|
    ensures multiset(Without(s, k)) == multiset(s) - multiset{s[k]}
  {
    assert s == s[..k] + [s[k]] + s[k + 1..];
  }

  lemma {:induction false} CountPermutes(s: seq<string>, t: seq<string>, x: string, a: seq<string>,
      b: seq<string>, sign: int)
    requires Common(s, a, b) && Common(t, a, b) && x in a && x in b && multiset(s) == multiset(t)
    ensures CountWith(s, x, a, b, sign) == CountWith(t, x, a, b, sign)
    decreases |s|
  {
    hide Product;
    assert |multiset(s)| == |s| && |multiset(t)| == |t|;
    if |s| > 0 {
      var k := FindAlso(s, t);
      CountRemove(t, k, x, a, b, sign);
      WithoutMultiset(t, k);
      WithoutMultiset(s, 0);
      assert Without(s, 0) == s[1..];
      CountPermutes(s[1..], Without(t, k), x, a, b, sign);
    }
  }

  lemma {:induction false} FindAlso(s: seq<string>, t: seq<string>) returns (k: nat)
    requires |s| > 0 && multiset(s) == multiset(t)
    ensures k < |t| && t[k] == s[0]
  {
    assert s[0] in multiset(s);
    assert s[0] in multiset(t);
    k :| 0 <= k < |t| && t[k] == s[0];
  }

  lemma {:induction false} PairsPermute(s: seq<string>, t: seq<string>, a: seq<string>, b: seq<string>, sign: int)
    requires Common(s, a, b) && Common(t, a, b) && multiset(s) == multiset(t)
    ensures Pairs(s, a, b, sign) == Pairs(t, a, b, sign)
    decreases |s|
  {
    hide Product;
    assert |multiset(s)| == |s| && |multiset(t)| == |t|;
    if |s| > 0 {
      var k := FindAlso(s, t);
      PairsRemove(t, k, a, b, sign);
      WithoutMultiset(t, k);
      WithoutMultiset(s, 0);
      assert Without(s, 0) == s[1..];
      CountPermutes(s[1..], Without(t, k), s[0], a, b, sign);
      PairsPermute(s[1..], Without(t, k), a, b, sign);
    }
  }

  lemma {:induction false} PairsSwap(s: seq<string>, a: seq<string>, b: seq<string>, sign: int)
    requires Common(s, a, b)
    ensures Common(s, b, a) && Pairs(s, a, b, sign) == Pairs(s, b, a, sign)
  {
    hide Product;
    if |s| > 0 {
      CountSwap(s[1..], s[0], a, b, sign);
      PairsSwap(s[1..], a, b, sign);
    }
  }

  lemma {:induction false} CountSwap(s: seq<string>, x: string, a: seq<string>, b: seq<string>, sign: int)
    requires Common(s, a, b) && x in a && x in b
    ensures Common(s, b, a) && CountWith(s, x, a, b, sign) == CountWith(s, x, b, a, sign)
  {
    hide Product;
    if |s| > 0 {
      SignSymmetric(a, b, x, s[0]);
      CountSwap(s[1..], x, a, b, sign);
    }
  }

  lemma {:induction false} SharedDistinct(a: seq<string>, b: seq<string>)
    requires Distinct(a)
    ensures Distinct(Shared(a, b))
  {
    if |a| > 0 { SharedDistinct(a[..|a| - 1], b); }
  }

  lemma {:induction false} SameElements(s: seq<string>, t: seq<string>)
    requires Distinct(s) && Distinct(t) && forall m :: m in s <==> m in t
    ensures multiset(s) == multiset(t)
  {
    forall m ensures multiset(s)[m] == multiset(t)[m] {
      OnceEach(s, m);
      OnceEach(t, m);
    }
  }

  lemma {:induction false} OnceEach(s: seq<string>, m: string)
    requires Distinct(s)
    ensures multiset(s)[m] == if m in s then 1 else 0
  {
    if |s| > 0 {
      OnceEach(s[..|s| - 1], m);
      assert s == s[..|s| - 1] + [s[|s| - 1]];
    }
  }

  /** Swapping the rankings does not change tau. */
  lemma {:induction false} TauSymmetric(a: seq<string>, b: seq<string>)
    requires Distinct(a) && Distinct(b)
    ensures Tau(a, b) == Tau(b, a)
  {
    hide Product, CountWith;
    var s, t := Shared(a, b), Shared(b, a);
    SharedDistinct(a, b);
    SharedDistinct(b, a);
    SameElements(s, t);
    assert |multiset(s)| == |s| && |multiset(t)| == |t|;
    PairsPermute(s, t, a, b, 1);
    PairsPermute(s, t, a, b, -1);
    PairsSwap(t, a, b, 1);
    PairsSwap(t, a, b, -1);
  }

  // ---------------------------------------------------------------- range and extremes

  lemma {:induction false} NonZeroProduct(p: int, q: int)
    requires p != 0 && q != 0
    ensures p * q != 0
  {
  }

  lemma {:induction false} NeverTied(a: seq<string>, b: seq<string>, x: string, y: string)
    requires x in a && y in a && x in b && y in b && x != y
    ensures Product(a, b, x, y) != 0
  {
    NonZeroProduct(Rank(a, x) - Rank(a, y), Rank(b, x) - Rank(b, y));
  }

  lemma {:induction false} CountAll(s: seq<string>, x: string, a: seq<string>, b: seq<string>)
    requires Common(s, a, b) && x in a && x in b && x !in s
    ensures CountWith(s, x, a, b, 1) + CountWith(s, x, a, b, -1) == |s|
  {
    hide Product;
    if |s| > 0 {
      NeverTied(a, b, x, s[0]);
      CountAll(s[1..], x, a, b);
    }
  }

  /** Without repeated moves every pair counts: twice their number is s(s-1). */
  lemma {:induction false} PairsAll(s: seq<string>, a: seq<string>, b: seq<string>)
    requires Common(s, a, b) && Distinct(s)
    ensures 2 * (Pairs(s, a, b, 1) + Pairs(s, a, b, -1)) == |s| * (|s| - 1)
  {
    hide Product, CountWith;
    if |s| > 0 {
      CountAll(s[1..], s[0], a, b);
      PairsAll(s[1..], a, b);
      assert |s| * (|s| - 1) == (|s| - 1) * (|s| - 2) + 2 * (|s| - 1);
    }
  }

  lemma {:induction false} TwoOrMore(n: nat)
    requires n >= 2
    ensures n * (n - 1) >= 2
  {
    assert n * (n - 1) == (n - 2) * (n - 1) + 2 * (n - 1);
  }

  /** Comparing a value with a bound is comparing their multiples. */
  lemma {:induction false} Compare(t: real, x: real, m: real)
    requires m > 0.0
    ensures (t > x <==> t * m > x * m) && (t < x <==> t * m < x * m)
  {
    if t > x { Scale(t, x, m); }
    if t < x { Scale(x, t, m); }
  }

  lemma {:induction false} QuotientTimes(n: real, m: real)
    requires m > 0.0
    ensures n / m * m == n
  {
  }

  lemma {:induction false} RatioBounds(n: real, m: real, t: real)
    requires m > 0.0 && -m <= n <= m && t * m == n
    ensures -1.0 <= t <= 1.0 && (t == 1.0 <==> n == m) && (t == -1.0 <==> n == -m)
  {
    Compare(t, 1.0, m);
    Compare(t, -1.0, m);
    assert 1.0 * m == m && (-1.0) * m == -m;
  }

  lemma {:induction false} Ratio(c: nat, d: nat)
    requires c + d > 0
    ensures var t := (c - d) as real / (c + d) as real;
            -1.0 <= t <= 1.0 && (t == 1.0 <==> d == 0) && (t == -1.0 <==> c == 0)
  {
    var n, m := (c - d) as real, (c + d) as real;
    QuotientTimes(n, m);
    RatioBounds(n, m, n / m);
    assert n == m <==> d == 0;
    assert n == -m <==> c == 0;
  }

  lemma {:induction false} Scale(x: real, y: real, m: real)
    requires x > y && m > 0.0
    ensures x * m > y * m
  {
    assert (x - y) * m > 0.0;
  }

  function Reversed(s: seq<string>): seq<string> {
    seq(|s|, i requires 0 <= i < |s| => s[|s| - 1 - i])
  }

  /** The moves appear in increasing rank order. */
  ghost predicate InOrder(s: seq<string>, a: seq<string>) {
    && (forall m | m in s :: m in a)
    && forall i, j | 0 <= i < j < |s| :: Rank(a, s[i]) < Rank(a, s[j])
  }

  lemma {:induction false} RankPrefix(a: seq<string>, m: string)
    requires Distinct(a) && |a| > 0 && m in a[..|a| - 1]
    ensures m in a && Rank(a, m) == Rank(a[..|a| - 1], m)
  {
    var k := Rank(a[..|a| - 1], m);
    assert a[k] == m;
  }

  lemma {:induction false} SharedInOrder(a: seq<string>, b: seq<string>)
    requires Distinct(a)
    ensures InOrder(Shared(a, b), a)
  {
    if |a| > 0 {
      var front := a[..|a| - 1];
      SharedInOrder(front, b);
      var s := Shared(front, b);
      forall m | m in s ensures m in a && Rank(a, m) == Rank(front, m) { RankPrefix(a, m); }
    }
  }

  lemma {:induction false} SameLast(s: seq<string>, t: seq<string>, a: seq<string>)
    requires InOrder(s, a) && InOrder(t, a) && |s| > 0 && |t| > 0 && forall m :: m in s <==> m in t
    ensures s[|s| - 1] == t[|t| - 1]
  {
    hide Rank;
    var x, y := s[|s| - 1], t[|t| - 1];
    assert x in s && y in t;
    var i :| 0 <= i < |t| && t[i] == x;
    var j :| 0 <= j < |s| && s[j] == y;
  }

  lemma {:induction false} FrontHas(s: seq<string>, a: seq<string>, m: string)
    requires InOrder(s, a) && |s| > 0
    ensures m in s[..|s| - 1] <==> m in s && m != s[|s| - 1]
  {
    hide Rank;
    LastOnce(s, a);
    assert s == s[..|s| - 1] + [s[|s| - 1]];
  }

  /** Only one list of given moves is in rank order. */
  lemma {:induction false} InOrderUnique(s: seq<string>, t: seq<string>, a: seq<string>)
    requires InOrder(s, a) && InOrder(t, a) && forall m :: m in s <==> m in t
    ensures s == t
    decreases |s|
  {
    hide Rank;
    if |s| == 0 {
      FirstIn(t);
    } else {
      assert s[0] in s;
      SameLast(s, t, a);
      var s', t' := s[..|s| - 1], t[..|t| - 1];
      forall m ensures m in s' <==> m in t' {
        FrontHas(s, a, m);
        FrontHas(t, a, m);
      }
      InOrderUnique(s', t', a);
      assert s == s[..|s| - 1] + [s[|s| - 1]] && t == t[..|t| - 1] + [t[|t| - 1]];
    }
  }

  lemma {:induction false} LastOnce(s: seq<string>, a: seq<string>)
    requires InOrder(s, a) && |s| > 0
    ensures s[|s| - 1] !in s[..|s| - 1]
  {
  }

  lemma {:induction false} NoneWith(s: seq<string>, x: string, a: seq<string>, b: seq<string>, sign: int)
    requires Common(s, a, b) && x in a && x in b
    ensures CountWith(s, x, a, b, sign) == 0 <==> forall j | 0 <= j < |s| :: Sign(Product(a, b, x, s[j])) != sign
  {
    hide Product;
    if |s| > 0 {
      NoneWith(s[1..], x, a, b, sign);
      assert forall j | 0 <= j < |s[1..]| :: s[1..][j] == s[j + 1];
      assert forall j | 1 <= j < |s| :: s[j] == s[1..][j - 1];
    }
  }

  lemma {:induction false} NoPairs(s: seq<string>, a: seq<string>, b: seq<string>, sign: int)
    requires Common(s, a, b)
    ensures Pairs(s, a, b, sign) == 0 <==> forall i, j | 0 <= i < j < |s| :: Sign(Product(a, b, s[i], s[j])) != sign
  {
    hide Product;
    if |s| > 0 {
      NoPairs(s[1..], a, b, sign);
      NoneWith(s[1..], s[0], a, b, sign);
      assert forall j | 0 <= j < |s[1..]| :: s[1..][j] == s[j + 1];
      assert forall j | 1 <= j < |s| :: s[j] == s[1..][j - 1];
    }
  }

  lemma {:induction false} SignOfProduct(p: int, q: int)
    requires p < 0 && q != 0
    ensures Sign(p * q) == if q < 0 then 1 else -1
  {
    if q > 0 { assert p * q < 0; } else { assert p * q > 0; }
  }

  /** For moves in a-order, the sign of a pair says whether b orders it the same way. */
  lemma {:induction false} SignInOrder(s: seq<string>, a: seq<string>, b: seq<string>, i: nat, j: nat)
    requires InOrder(s, a) && Common(s, a, b) && i < j < |s|
    ensures Sign(Product(a, b, s[i], s[j])) == if Rank(b, s[i]) < Rank(b, s[j]) then 1 else -1
  {
    assert s[i] != s[j];
    SignOfProduct(Rank(a, s[i]) - Rank(a, s[j]), Rank(b, s[i]) - Rank(b, s[j]));
  }

  lemma {:induction false} NoDiscordIff(a: seq<string>, b: seq<string>)
    requires Distinct(a) && Distinct(b)
    ensures Pairs(Shared(a, b), a, b, -1) == 0 <==> Shared(a, b) == Shared(b, a)
  {
    hide Product, Rank;
    var s, t := Shared(a, b), Shared(b, a);
    SharedInOrder(a, b);
    SharedInOrder(b, a);
    NoPairs(s, a, b, -1);
    forall i, j | 0 <= i < j < |s|
      ensures Sign(Product(a, b, s[i], s[j])) == if Rank(b, s[i]) < Rank(b, s[j]) then 1 else -1
    {
      SignInOrder(s, a, b, i, j);
    }
    if Pairs(s, a, b, -1) == 0 {
      InOrderUnique(s, t, b);
    }
  }

  lemma {:induction false} RankNeq(b: seq<string>, x: string, y: string)
    requires x in b && y in b && x != y
    ensures Rank(b, x) != Rank(b, y)
  {
  }

  /** What a pair of shared moves contributes, by their order in the other ranking alone. */
  lemma {:induction false} SignsOfShared(a: seq<string>, b: seq<string>)
    requires Distinct(a) && Distinct(b)
    ensures var s := Shared(a, b);
            && Common(s, a, b) && Distinct(s)
            && (forall i, j | 0 <= i < j < |s| ::
                  Rank(b, s[i]) != Rank(b, s[j])
                  && Sign(Product(a, b, s[i], s[j])) == if Rank(b, s[i]) < Rank(b, s[j]) then 1 else -1)
  {
    hide Product, Rank;
    var s := Shared(a, b);
    SharedInOrder(a, b);
    forall i, j | 0 <= i < j < |s|
      ensures Rank(b, s[i]) != Rank(b, s[j])
           && Sign(Product(a, b, s[i], s[j])) == if Rank(b, s[i]) < Rank(b, s[j]) then 1 else -1
    {
      SignInOrder(s, a, b, i, j);
      assert s[i] != s[j];
      RankNeq(b, s[i], s[j]);
    }
  }

  /** The ranks of a list in the other ranking fall throughout exactly when its reversal is in order there. */
  lemma {:induction false} FallingIff(s: seq<string>, b: seq<string>)
    requires forall m | m in s :: m in b
    ensures InOrder(Reversed(s), b) <==> forall i, j | 0 <= i < j < |s| :: Rank(b, s[i]) > Rank(b, s[j])
  {
    hide Rank;
    var r := Reversed(s);
    ReversedSame(s);
    if InOrder(r, b) {
      forall i, j | 0 <= i < j < |s| ensures Rank(b, s[i]) > Rank(b, s[j]) {
        assert s[i] == r[|s| - 1 - i] && s[j] == r[|s| - 1 - j];
      }
    }
    if forall i, j | 0 <= i < j < |s| :: Rank(b, s[i]) > Rank(b, s[j]) {
      forall i, j | 0 <= i < j < |r| ensures Rank(b, r[i]) < Rank(b, r[j]) {
        assert r[i] == s[|s| - 1 - i] && r[j] == s[|s| - 1 - j];
      }
    }
  }

  lemma {:induction false} NoConcordIff(a: seq<string>, b: seq<string>)
    requires Distinct(a) && Distinct(b)
    ensures Pairs(Shared(a, b), a, b, 1) == 0 <==> Reversed(Shared(a, b)) == Shared(b, a)
  {
    hide Product, Rank, Sign, Reversed, Pairs;
    var s, t := Shared(a, b), Shared(b, a);
    SignsOfShared(a, b);
    SharedInOrder(b, a);
    NoPairs(s, a, b, 1);
    FallingIff(s, b);
    ReversedSame(s);
    if InOrder(Reversed(s), b) { InOrderUnique(Reversed(s), t, b); }
  }

  lemma {:induction false} ReversedSame(s: seq<string>)
    ensures forall m :: m in Reversed(s) <==> m in s
  {
    forall m | m in s ensures m in Reversed(s) {
      var i :| 0 <= i < |s| && s[i] == m;
      assert Reversed(s)[|s| - 1 - i] == m;
    }
  }

  /**
   On rankings without repeats tau is undefined exactly below two shared moves, lies in [-1, 1] over
   s(s-1)/2 pairs, and is 1 or -1 exactly when the shared moves are in the same or the reverse order.
   */
  lemma {:induction false} TauExtremes(a: seq<string>, b: seq<string>)
    requires Distinct(a) && Distinct(b)
    ensures var s := Shared(a, b);
            && (Tau(a, b) == None <==> |s| < 2)
            && 2 * (Pairs(s, a, b, 1) + Pairs(s, a, b, -1)) == |s| * (|s| - 1)
            && (Tau(a, b).Some? ==>
                  && -1.0 <= Tau(a, b).value <= 1.0
                  && (Tau(a, b).value == 1.0 <==> s == Shared(b, a))
                  && (Tau(a, b).value == -1.0 <==> Reversed(s) == Shared(b, a)))
  {
    hide Pairs, Shared, Reversed;
    var s := Shared(a, b);
    SharedDistinct(a, b);
    PairsAll(s, a, b);
    if |s| >= 2 {
      TwoOrMore(|s|);
      Ratio(Pairs(s, a, b, 1), Pairs(s, a, b, -1));
      NoDiscordIff(a, b);
      NoConcordIff(a, b);
    }
  }
}
