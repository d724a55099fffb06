/** Divergences and leader histories told by positions. */
module TrajectoryCounts {
  import opened Wrappers
  import opened Trajectory

  /** p is the length of the longest common prefix. */
  ghost predicate CommonLength(a: seq<string>, b: seq<string>, p: nat) {
    && p <= |a| && p <= |b| && (forall i | 0 <= i < p :: a[i] == b[i])
    && (p == |a| || p == |b| || a[p] != b[p])
  }

  lemma {:induction false} SharedIs(a: seq<string>, b: seq<string>, p: nat)
    requires CommonLength(a, b, p)
    ensures SharedPrefix(a, b) == p
  {
    if p > 0 { SharedIs(a[1..], b[1..], p - 1); }
  }

  lemma {:induction false} Complement(p: real, m: real)
    requires m > 0.0
    ensures (1.0 - p / m) * m == m - p
  {
    assert (p / m) * m == p;
  }

  /** The divergence is undefined exactly beside an empty variation; else it is the unshared part of the longer one. */
  lemma {:induction false} DivergenceIs(a: seq<string>, b: seq<string>, p: nat, m: nat)
    requires CommonLength(a, b, p)
    requires m >= |a| && m >= |b| && (m == |a| || m == |b|)
    ensures Divergence(a, b) == None <==> a == [] || b == []
    ensures Divergence(a, b).Some? ==> Divergence(a, b).value * m as real == m as real - p as real
  {
    hide SharedPrefix, CommonLength;
    SharedIs(a, b, p);
    if a != [] && b != [] { Complement(p as real, m as real); }
  }

  // ---------------------------------------------------------------- leader histories

  /** The positions before k at which a leader was observed. */
  ghost function Seen(leaders: seq<Option<string>>, k: nat): set<nat>
    requires k <= |leaders|
  {
    set j: nat | j < k && leaders[j].Some?
  }

  /** The observations are the observed leaders, each at the number of those observed before it. */
  lemma {:induction false} ObservedAt(leaders: seq<Option<string>>, k: nat)
    requires k <= |leaders|
    ensures |Observed(leaders)| == |Seen(leaders, |leaders|)|
    ensures k < |leaders| && leaders[k].Some? ==>
              |Seen(leaders, k)| < |Observed(leaders)| && Observed(leaders)[|Seen(leaders, k)|] == leaders[k].value
  {
    if |leaders| > 0 {
      var n := |leaders| - 1;
      var front := leaders[..n];
      ObservedAt(front, if k < n then k else n);
      assert Seen(leaders, n) == Seen(front, n);
      assert Seen(leaders, n + 1) == Seen(leaders, n) + if leaders[n].Some? then {n} else {};
      assert k < n ==> Seen(leaders, k) == Seen(front, k);
    } else {
      assert Seen(leaders, 0) == {};
    }
  }

  /** The observation differs from the one before it. */
  predicate Flip(obs: seq<string>, i: nat) { 0 < i < |obs| && obs[i - 1] != obs[i] }

  ghost function Flips(obs: seq<string>): set<nat> { set i: nat | i < |obs| && Flip(obs, i) }

  lemma {:induction false} ChangesAreFlips(obs: seq<string>)
    ensures Changes(obs) == |Flips(obs)|
  {
    if |obs| < 2 {
      assert Flips(obs) == {};
    } else {
      var n := |obs| - 1;
      ChangesAreFlips(obs[..n]);
      assert Flips(obs) == Flips(obs[..n]) + if obs[n - 1] != obs[n] then {n} else {};
    }
  }

  /** The stable run counts the entries before the last that equal it, back to the first that does not. */
  lemma {:induction false} RunIsTail(obs: seq<string>)
    requires obs != []
    ensures var r, n := StableRun(obs), |obs| - 1;
            && r <= n && (forall k | n - r <= k <= n :: obs[k] == obs[n])
            && (r < n ==> obs[n - r - 1] != obs[n])
  {
    if |obs| >= 2 && obs[|obs| - 2] == obs[|obs| - 1] { RunIsTail(obs[..|obs| - 1]); }
  }
}
