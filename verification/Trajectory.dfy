/** Distance between principal variations, and the three readings of one leader history. */
module Trajectory {
  import opened Wrappers
  import opened RankAgreement

  // ---------------------------------------------------------------- principal variations

  /** The length of the longest common prefix. */
  function SharedPrefix(a: seq<string>, b: seq<string>): (n: nat)
    ensures n <= |a| && n <= |b|
  {
    if |a| == 0 || |b| == 0 || a[0] != b[0] then 0 else 1 + SharedPrefix(a[1..], b[1..])
  }

  method CommonPrefixLength(left: seq<string>, right: seq<string>) returns (count: nat)
    ensures count == SharedPrefix(left, right)
    ensures count <= |left| && count <= |right| && left[..count] == right[..count]
    ensures count < |left| && count < |right| ==> left[count] != right[count]
  {
    count := 0;
    while count < |left| && count < |right| && left[count] == right[count]
      invariant count <= |left| && count <= |right| && left[..count] == right[..count]
      invariant SharedPrefix(left, right) == count + SharedPrefix(left[count..], right[count..])
    {
      assert left[count..][1..] == left[count + 1..] && right[count..][1..] == right[count + 1..];
      count := count + 1;
    }
  }

  function Longest(a: seq<string>, b: seq<string>): nat { if |a| >= |b| then |a| else |b| }

  /** One minus the shared prefix over the longer variation; undefined when either is empty. */
  function Divergence(a: seq<string>, b: seq<string>): Option<real> {
    if |a| == 0 || |b| == 0 then None
    else Some(1.0 - (SharedPrefix(a, b) as real / Longest(a, b) as real))
  }

  method PvDivergence(left: seq<string>, right: seq<string>) returns (r: Result<Option<real>, ResidualError>)
    ensures r == if "" in left || "" in right then Err(EmptyMove) else Ok(Divergence(left, right))
  {
    if !CleanMoves(left) || !CleanMoves(right) { return Err(EmptyMove); }
    if |left| == 0 || |right| == 0 { return Ok(None); }
    var longest := if |left| >= |right| then |left| else |right|;
    var shared := CommonPrefixLength(left, right);
    r := Ok(Some(1.0 - (shared as real / longest as real)));
  }

  lemma {:induction false} CommonSymmetric(a: seq<string>, b: seq<string>)
    ensures SharedPrefix(a, b) == SharedPrefix(b, a)
  {
    if |a| > 0 && |b| > 0 && a[0] == b[0] { CommonSymmetric(a[1..], b[1..]); }
  }

  lemma {:induction false} CommonFull(a: seq<string>, b: seq<string>)
    ensures SharedPrefix(a, b) == Longest(a, b) <==> a == b
  {
    if |a| > 0 && |b| > 0 && a[0] == b[0] {
      CommonFull(a[1..], b[1..]);
      assert a == [a[0]] + a[1..] && b == [b[0]] + b[1..];
    } else if a == b {
      assert |a| == 0;
    }
  }

  /** Of the three common prefixes of three lists, each is at least the shorter of the other two. */
  lemma {:induction false} CommonThrough(a: seq<string>, b: seq<string>, c: seq<string>)
    ensures SharedPrefix(a, c) >= SharedPrefix(a, b) || SharedPrefix(a, c) >= SharedPrefix(b, c)
  {
    if |a| > 0 && |b| > 0 && |c| > 0 && a[0] == b[0] && b[0] == c[0] { CommonThrough(a[1..], b[1..], c[1..]); }
  }

  lemma {:induction false} Unit(p: real, m: real)
    requires 0.0 <= p <= m && m > 0.0
    ensures 0.0 <= p / m <= 1.0 && (p / m == 1.0 <==> p == m)
  {
    var x := p / m;
    assert x * m == p;
    UnitProduct(x, m, p);
  }

  lemma {:induction false} UnitProduct(x: real, m: real, p: real)
    requires x * m == p && 0.0 <= p <= m && m > 0.0
    ensures 0.0 <= x <= 1.0 && (x == 1.0 <==> p == m)
  {
    if x > 1.0 { Scale(x, 1.0, m); }
    if x < 0.0 { Scale(0.0, x, m); }
    if x < 1.0 { Scale(1.0, x, m); }
  }

  lemma {:induction false} TimesAtLeast(x: real, y: real, m: real)
    requires x >= y && m >= 0.0
    ensures x * m >= y * m
  {
    assert (x - y) * m >= 0.0;
  }

  /** Fractions compare by cross-multiplication. */
  lemma {:induction false} FractionLe(p: real, m: real, r: real, n: real)
    requires m > 0.0 && n > 0.0 && p * n <= r * m
    ensures p / m <= r / n
  {
    var x, y := p / m, r / n;
    assert x * m == p && y * n == r;
    assert x * (m * n) == (x * m) * n == p * n;
    assert y * (m * n) == (y * n) * m == r * m;
    assert m * n > 0.0;
    if x > y { Scale(x, y, m * n); }
  }

  /** The step of the triangle inequality where the direct pair spans a longer variation than the detour's first leg. */
  lemma {:induction false} LongerSpan(p: real, q: real, r: real, m: real, n: real)
    requires 0.0 <= p <= m && 0.0 < m <= n && 0.0 <= q <= m && p <= r
    ensures p / m + q / n <= 1.0 + r / n
  {
    TimesAtLeast(r, p, n);
    FractionLe(p, n, r, n);
    CrossTerm(p, m, n);
    FractionLe(q, n, m, n) by { TimesAtLeast(m, q, n); }
    Remainder(m, n);
  }

  /** p/m - p/n is at most (n - m)/n. */
  lemma {:induction false} CrossTerm(p: real, m: real, n: real)
    requires 0.0 <= p <= m && 0.0 < m <= n
    ensures p / m <= p / n + (n - m) / n
  {
    Unit(p, m);
    var x := p / m;
    assert x * m == p;
    TimesAtLeast(1.0, x, n - m);
    assert x * n == p + x * (n - m);
    assert x * n <= p + (n - m);
    FractionSum(p, n - m, n);
    var y := (p + (n - m)) / n;
    assert y * n == p + (n - m);
    if x > y { Scale(x, y, n); }
  }

  lemma {:induction false} FractionSum(p: real, q: real, n: real)
    requires n > 0.0
    ensures (p + q) / n == p / n + q / n
  {
    var x, y, z := p / n, q / n, (p + q) / n;
    assert x * n == p && y * n == q && z * n == p + q;
    assert (x + y) * n == z * n;
    if x + y > z { Scale(x + y, z, n); }
    if x + y < z { Scale(z, x + y, n); }
  }

  lemma {:induction false} Remainder(m: real, n: real)
    requires n > 0.0
    ensures m / n + (n - m) / n == 1.0
  {
    FractionSum(m, n - m, n);
    Unit(n, n);
  }

  lemma {:induction false} ShorterSpan(p: real, q: real, r: real, m: real, n: real, k: real)
    requires 0.0 <= p <= r && 0.0 < n <= m && 0.0 <= q <= k && 0.0 < k
    ensures p / m + q / k <= 1.0 + r / n
  {
    Unit(q, k);
    assert p * n <= r * m by {
      TimesAtLeast(r, p, n);
      TimesAtLeast(m, n, r);
      assert m * r == r * m && n * r == r * n;
    }
    FractionLe(p, m, r, n);
  }

  /** The triangle inequality when the first leg shares no more than the direct pair. */
  lemma {:induction false} TriangleFirst(a: seq<string>, b: seq<string>, c: seq<string>)
    requires |a| > 0 && |b| > 0 && |c| > 0 && SharedPrefix(a, b) <= SharedPrefix(a, c)
    ensures SharedPrefix(a, b) as real / Longest(a, b) as real + SharedPrefix(b, c) as real / Longest(b, c) as real
            <= 1.0 + SharedPrefix(a, c) as real / Longest(a, c) as real
  {
    var p, q, r := SharedPrefix(a, b) as real, SharedPrefix(b, c) as real, SharedPrefix(a, c) as real;
    if Longest(a, c) <= Longest(a, b) {
      ShorterSpan(p, q, r, Longest(a, b) as real, Longest(a, c) as real, Longest(b, c) as real);
    } else {
      LongerSpan(p, q, r, Longest(a, b) as real, Longest(a, c) as real);
    }
  }

  /** On non-empty variations the divergence is a metric bounded by one. */
  lemma {:induction false} DivergenceIsMetric(a: seq<string>, b: seq<string>, c: seq<string>)
    requires |a| > 0 && |b| > 0 && |c| > 0
    ensures 0.0 <= Divergence(a, b).value <= 1.0
    ensures Divergence(a, b) == Divergence(b, a)
    ensures Divergence(a, b).value == 0.0 <==> a == b
    ensures Divergence(a, c).value <= Divergence(a, b).value + Divergence(b, c).value
  {
    CommonSymmetric(a, b);
    CommonFull(a, b);
    Unit(SharedPrefix(a, b) as real, Longest(a, b) as real);
    CommonThrough(a, b, c);
    if SharedPrefix(a, b) <= SharedPrefix(a, c) {
      TriangleFirst(a, b, c);
    } else {
      CommonSymmetric(b, c);
      CommonSymmetric(a, c);
      TriangleFirst(c, b, a);
    }
  }

  // ---------------------------------------------------------------- leader histories

  /** The leaders that were observed, in order. */
  function Observed(leaders: seq<Option<string>>): seq<string> {
    if |leaders| == 0 then []
    else
      var last := leaders[|leaders| - 1];
      Observed(leaders[..|leaders| - 1]) + (if last.Some? then [last.value] else [])
  }

  /** How many adjacent entries differ. */
  function Changes(obs: seq<string>): nat {
    if |obs| < 2 then 0
    else Changes(obs[..|obs| - 1]) + (if obs[|obs| - 2] != obs[|obs| - 1] then 1 else 0)
  }

  /** Flips counted by remembering the previous observed leader. */
  method LeaderFlipCount(leaders: seq<Option<string>>) returns (flips: nat)
    ensures flips == Changes(Observed(leaders))
  {
    flips := 0;
    var previous: Option<string> := None;
    for i := 0 to |leaders|
      invariant flips == Changes(Observed(leaders[..i]))
      invariant previous == if Observed(leaders[..i]) == [] then None
                            else Some(Observed(leaders[..i])[|Observed(leaders[..i])| - 1])
    {
      assert leaders[..i + 1][..i] == leaders[..i];
      ghost var obs := Observed(leaders[..i]);
      assert obs + [] == obs;
      if leaders[i] == None { continue; }
      assert (obs + [leaders[i].value])[..|obs|] == obs;
      if previous.Some? && leaders[i].value != previous.value { flips := flips + 1; }
      previous := leaders[i];
    }
    assert leaders[..|leaders|] == leaders;
  }

  /** From index i on only the leader at i is ever observed. */
  ghost predicate Stable(leaders: seq<Option<string>>, i: nat) {
    && i < |leaders| && leaders[i].Some?
    && forall k | i <= k < |leaders| && leaders[k].Some? :: leaders[k] == leaders[i]
  }

  /** The least observed index from which the leader never changes, or none when nothing was observed. */
  method StabilizationIndex(leaders: seq<Option<string>>) returns (r: Option<nat>)
    ensures r == None <==> forall k | 0 <= k < |leaders| :: leaders[k] == None
    ensures r.Some? ==> Stable(leaders, r.value) && forall k: nat | k < r.value :: !Stable(leaders, k)
  {
    var last: Option<nat> := None;
    for i := 0 to |leaders|
      invariant last == None ==> forall k | 0 <= k < i :: leaders[k] == None
      invariant last.Some? ==>
                  && last.value < i && leaders[last.value].Some?
                  && forall k | last.value < k < i :: leaders[k] == None
    {
      if leaders[i].Some? { last := Some(i); }
    }
    if last == None { return None; }
    var final := leaders[last.value];
    assert Stable(leaders, last.value);
    r := last;
    var index := 0;
    while index < |leaders|
      invariant 0 <= index <= last.value && r == last
      invariant forall k: nat | k < index :: !Stable(leaders, k)
      decreases last.value - index
    {
      if leaders[index] == final {
        var settled := true;
        for later := index to |leaders|
          invariant settled <==> forall k | index <= k < later && leaders[k].Some? :: leaders[k] == final
        {
          if leaders[later].Some? && leaders[later] != final { settled := false; }
        }
        if settled { return Some(index); }
        assert !Stable(leaders, index);
      }
      assert index < last.value;
      assert !Stable(leaders, index);
      index := index + 1;
    }
  }

  /** The entries before the last one that equal it without interruption. */
  function StableRun(obs: seq<string>): nat {
    if |obs| < 2 || obs[|obs| - 2] != obs[|obs| - 1] then 0 else 1 + StableRun(obs[..|obs| - 1])
  }

  datatype Features = Features(observationCount: nat, leaderFlips: nat, stableRunFraction: real)

  method PastOnlyFeatures(leaders: seq<Option<string>>) returns (f: Features)
    ensures var obs := Observed(leaders);
            f == Features(|obs|, Changes(obs), if |obs| <= 1 then 0.0 else StableRun(obs) as real / (|obs| - 1) as real)
  {
    var observed := Observed(leaders);
    if observed == [] { return Features(0, 0, 0.0); }
    var flips := 0;
    for i := 1 to |observed|
      invariant flips == Changes(observed[..i])
    {
      assert observed[..i + 1][..i] == observed[..i];
      if observed[i - 1] != observed[i] { flips := flips + 1; }
    }
    assert observed[..|observed|] == observed;
    var stableRun := 0;
    var n := |observed|;
    while n > 1 && observed[n - 2] == observed[|observed| - 1]
      invariant 1 <= n <= |observed| && stableRun + n == |observed|
      invariant observed[n - 1] == observed[|observed| - 1]
      invariant StableRun(observed) == stableRun + StableRun(observed[..n])
    {
      assert observed[..n][..n - 1] == observed[..n - 1];
      stableRun := stableRun + 1;
      n := n - 1;
    }
    var denominator := |observed| - 1;
    f := Features(|observed|, flips, if denominator <= 0 then 0.0 else stableRun as real / denominator as real);
  }

  // ---------------------------------------------------------------- the three readings agree

  lemma {:induction false} ObservedSplits(a: seq<Option<string>>, b: seq<Option<string>>)
    ensures Observed(a + b) == Observed(a) + Observed(b)
  {
    if |b| == 0 {
      assert a + b == a;
    } else {
      ObservedSplits(a, b[..|b| - 1]);
      assert (a + b)[..|a + b| - 1] == a + b[..|b| - 1];
    }
  }

  lemma {:induction false} ObservedAll(a: seq<Option<string>>, v: string)
    ensures (forall k | 0 <= k < |a| && a[k].Some? :: a[k] == Some(v)) <==>
            (forall j | 0 <= j < |Observed(a)| :: Observed(a)[j] == v)
    ensures (forall k | 0 <= k < |a| :: a[k] == None) <==> Observed(a) == []
  {
    if |a| > 0 {
      ObservedAll(a[..|a| - 1], v);
      var before, obs := a[..|a| - 1], Observed(a);
      var front := Observed(before);
      assert forall k | 0 <= k < |before| :: a[k] == before[k];
      assert forall j | 0 <= j < |front| :: obs[j] == front[j];
      if forall k | 0 <= k < |a| && a[k].Some? :: a[k] == Some(v) {
        assert forall k | 0 <= k < |before| && before[k].Some? :: a[k] == Some(v);
        assert a[|a| - 1].Some? ==> obs == front + [v];
      }
      if forall j | 0 <= j < |obs| :: obs[j] == v {
        assert forall j | 0 <= j < |front| :: front[j] == v;
        assert a[|a| - 1].Some? ==> obs[|front|] == a[|a| - 1].value;
      }
    }
  }

  /** A constant tail after a different entry is exactly the stable run. */
  lemma {:induction false} RunOfTail(before: seq<string>, v: string, after: seq<string>)
    requires forall j | 0 <= j < |after| :: after[j] == v
    requires |before| > 0 ==> before[|before| - 1] != v
    ensures StableRun(before + [v] + after) == |after|
  {
    var all := before + [v] + after;
    if |after| > 0 {
      RunOfTail(before, v, after[..|after| - 1]);
      assert all[..|all| - 1] == before + [v] + after[..|after| - 1];
    }
  }

  lemma {:induction false} ChangesOfTail(before: seq<string>, v: string, after: seq<string>)
    requires forall j | 0 <= j < |after| :: after[j] == v
    requires |before| > 0 ==> before[|before| - 1] != v
    ensures Changes(before + [v] + after) == 0 <==> before == []
  {
    var all := before + [v] + after;
    if |after| > 0 {
      ChangesOfTail(before, v, after[..|after| - 1]);
      assert all[..|all| - 1] == before + [v] + after[..|after| - 1];
    }
  }

  /** The last observed entry before the least stable index is a different leader. */
  lemma {:induction false} BeforeDiffers(leaders: seq<Option<string>>, i: nat)
    requires Stable(leaders, i) && forall k: nat | k < i :: !Stable(leaders, k)
    ensures var before := Observed(leaders[..i]);
            |before| > 0 ==> before[|before| - 1] != leaders[i].value
  {
    assert i < |leaders|;
    var j := i;
    while j > 0 && leaders[j - 1] == None
      invariant 0 <= j <= i && forall k | j <= k < i :: leaders[k] == None
      invariant Observed(leaders[..j]) == Observed(leaders[..i])
    {
      assert leaders[..j][..j - 1] == leaders[..j - 1];
      j := j - 1;
    }
    if j > 0 {
      assert leaders[..j][..j - 1] == leaders[..j - 1];
      if leaders[j - 1] == leaders[i] {
        assert Stable(leaders, j - 1);
      }
    }
  }

  lemma {:induction false} ObservedAround(leaders: seq<Option<string>>, i: nat)
    requires i < |leaders| && leaders[i].Some?
    ensures Observed(leaders) == Observed(leaders[..i]) + [leaders[i].value] + Observed(leaders[i + 1..])
  {
    assert leaders == leaders[..i] + [leaders[i]] + leaders[i + 1..];
    ObservedSplits(leaders[..i], [leaders[i]]);
    ObservedSplits(leaders[..i] + [leaders[i]], leaders[i + 1..]);
    assert [leaders[i]][..0] == [];
    assert Observed([leaders[i]]) == [leaders[i].value];
  }

  /**
   The stable run is the number of leaders observed after the stabilization index, and there are no flips
   exactly when that index is the first observed one.
   */
  lemma {:induction false} ReadingsAgree(leaders: seq<Option<string>>, i: nat)
    requires Stable(leaders, i) && forall k: nat | k < i :: !Stable(leaders, k)
    ensures StableRun(Observed(leaders)) == |Observed(leaders[i + 1..])|
    ensures Changes(Observed(leaders)) == 0 <==> forall k | 0 <= k < i :: leaders[k] == None
  {
    hide Observed, StableRun, Changes;
    var before, v, after := Observed(leaders[..i]), leaders[i].value, Observed(leaders[i + 1..]);
    ObservedAround(leaders, i);
    ObservedAll(leaders[i + 1..], v);
    BeforeDiffers(leaders, i);
    RunOfTail(before, v, after);
    ChangesOfTail(before, v, after);
    ObservedAll(leaders[..i], v);
  }
}
