/** Which nomination comes first and which stage a nomination is taken from, in positions of the owner order. */
module NominationOrder {
  import opened Text
  import opened Nomination

  // ---------------------------------------------------------------- text and lines

  /** The two agree up to d, where x ends or has the smaller character. */
  predicate TextSplits(x: string, y: string, d: nat) {
    d <= |x| && d < |y| && x[..d] == y[..d] && (d == |x| || x[d] < y[d])
  }

  ghost predicate TextBefore(x: string, y: string) { exists d: nat :: TextSplits(x, y, d) }

  lemma {:induction false} TextBeforeIs(x: string, y: string)
    ensures TextBefore(x, y) <==> x != y && TextLe(x, y)
  {
    if x != y && TextLe(x, y) {
      var d := TextWitness(x, y);
    }
    if TextBefore(x, y) {
      var d: nat :| TextSplits(x, y, d);
      SplitsIsLess(x, y, d);
    }
  }

  lemma {:induction false} TextWitness(x: string, y: string) returns (d: nat)
    requires x != y && TextLe(x, y)
    ensures TextSplits(x, y, d)
  {
    if |x| == 0 || x[0] < y[0] {
      d := 0;
    } else {
      assert x == [x[0]] + x[1..] && y == [y[0]] + y[1..];
      d := TextWitness(x[1..], y[1..]);
      assert x[..d + 1] == [x[0]] + x[1..][..d] && y[..d + 1] == [y[0]] + y[1..][..d];
      d := d + 1;
    }
  }

  lemma {:induction false} SplitsIsLess(x: string, y: string, d: nat)
    requires TextSplits(x, y, d)
    ensures x != y && TextLe(x, y)
    decreases d
  {
    if d > 0 {
      assert x[0] == x[..d][0] == y[..d][0] == y[0];
      assert x[1..][..d - 1] == x[..d][1..] && y[1..][..d - 1] == y[..d][1..];
      SplitsIsLess(x[1..], y[1..], d - 1);
    }
  }

  /** The two lines agree up to d, where a ends or has the move that comes first as text. */
  ghost predicate LineSplits(a: seq<string>, b: seq<string>, d: nat) {
    d <= |a| && d < |b| && a[..d] == b[..d] && (d == |a| || TextBefore(a[d], b[d]))
  }

  ghost predicate LineBefore(a: seq<string>, b: seq<string>) { exists d: nat :: LineSplits(a, b, d) }

  lemma {:induction false} LineBeforeIs(a: seq<string>, b: seq<string>)
    ensures LineBefore(a, b) <==> a != b && LineLe(a, b)
  {
    hide TextBefore;
    if a != b && LineLe(a, b) {
      var d := LineWitness(a, b);
    }
    if LineBefore(a, b) {
      var d: nat :| LineSplits(a, b, d);
      LineSplitsIsLess(a, b, d);
    }
  }

  lemma {:induction false} LineWitness(a: seq<string>, b: seq<string>) returns (d: nat)
    requires a != b && LineLe(a, b)
    ensures LineSplits(a, b, d)
  {
    hide TextBefore, TextLe;
    if |a| == 0 {
      d := 0;
    } else if a[0] != b[0] {
      TextBeforeIs(a[0], b[0]);
      d := 0;
    } else {
      assert a == [a[0]] + a[1..] && b == [b[0]] + b[1..];
      d := LineWitness(a[1..], b[1..]);
      assert a[..d + 1] == [a[0]] + a[1..][..d] && b[..d + 1] == [b[0]] + b[1..][..d];
      d := d + 1;
    }
  }

  lemma {:induction false} LineSplitsIsLess(a: seq<string>, b: seq<string>, d: nat)
    requires LineSplits(a, b, d)
    ensures a != b && LineLe(a, b)
    decreases d
  {
    hide TextBefore, TextLe;
    if d == 0 {
      if |a| > 0 { TextBeforeIs(a[0], b[0]); }
    } else {
      assert a[0] == a[..d][0] == b[..d][0] == b[0];
      assert a[1..][..d - 1] == a[..d][1..] && b[1..][..d - 1] == b[..d][1..];
      LineSplitsIsLess(a[1..], b[1..], d - 1);
    }
  }

  // ---------------------------------------------------------------- owners and stages

  /** The owner's last position in the order. */
  predicate LastAt(order: seq<string>, owner: string, i: nat) {
    i < |order| && order[i] == owner && forall j | i < j < |order| :: order[j] != owner
  }

  lemma {:induction false} RankIsLast(order: seq<string>, owner: string)
    ensures owner in order ==> LastAt(order, owner, RankOf(order, owner))
    ensures owner !in order ==> RankOf(order, owner) == |order|
  {
    LastBeforeIs(order, owner, |order|);
  }

  lemma {:induction false} LastBeforeIs(order: seq<string>, owner: string, n: nat)
    requires n <= |order|
    ensures var k := LastBefore(order, owner, n);
            || (k < n && order[k] == owner && forall j | k < j < n :: order[j] != owner)
            || (k == |order| && forall j | 0 <= j < n :: order[j] != owner)
  {
    if n > 0 { LastBeforeIs(order, owner, n - 1); }
  }

  /** Owner x goes before owner y: it is listed and y is listed later or not at all; unlisted owners go by name. */
  ghost predicate OwnerBefore(order: seq<string>, x: string, y: string) {
    if x in order then
      y !in order || exists i: nat, j: nat :: LastAt(order, x, i) && LastAt(order, y, j) && i < j
    else y !in order && TextBefore(x, y)
  }

  lemma {:induction false} OwnerBeforeIs(order: seq<string>, x: string, y: string)
    requires x != y
    ensures OwnerBefore(order, x, y) <==>
              RankOf(order, x) < RankOf(order, y) || (RankOf(order, x) == RankOf(order, y) && TextLe(x, y))
  {
    hide TextBefore, RankOf, TextLe;
    RankIsLast(order, x);
    RankIsLast(order, y);
    TextBeforeIs(x, y);
    if x in order && y in order {
      assert LastAt(order, x, RankOf(order, x)) && LastAt(order, y, RankOf(order, y));
      forall i: nat, j: nat | LastAt(order, x, i) && LastAt(order, y, j)
        ensures i == RankOf(order, x) && j == RankOf(order, y)
      {
        OnePosition(order, x, i, RankOf(order, x));
        OnePosition(order, y, j, RankOf(order, y));
      }
    }
  }

  lemma {:induction false} OnePosition(order: seq<string>, owner: string, i: nat, j: nat)
    requires LastAt(order, owner, i) && LastAt(order, owner, j)
    ensures i == j
  {
  }

  /** Stage a goes before stage b: by parent, then by owner, then by search id. */
  ghost predicate StageBefore(order: seq<string>, a: Stage, b: Stage) {
    if a.parent != b.parent then LineBefore(a.parent, b.parent)
    else if a.owner != b.owner then OwnerBefore(order, a.owner, b.owner)
    else TextBefore(a.searchId, b.searchId)
  }

  lemma {:induction false} StageBeforeIs(order: seq<string>, a: Stage, b: Stage)
    ensures StageBefore(order, a, b) <==>
              KeyLe(KeyOf(a, order), KeyOf(b, order)) && KeyOf(a, order) != KeyOf(b, order)
  {
    hide LineBefore, OwnerBefore, TextBefore, RankOf, TextLe, LineLe;
    LineBeforeIs(a.parent, b.parent);
    TextBeforeIs(a.searchId, b.searchId);
    if a.owner != b.owner { OwnerBeforeIs(order, a.owner, b.owner); }
  }

  // ---------------------------------------------------------------- nominations

  /** The stage completed, lost no evidence and ended on one of its own children. */
  predicate EndedCleanly(s: Stage) {
    && s.disposition == "completed" && s.lossy == false && s.truncated == false
    && s.best.Some? && s.best.value in s.children
  }

  predicate Names(p: Pick, s: Stage) {
    && s.best.Some? && p.prefix == s.parent + [s.best.value]
    && p.expansionId == s.expansionId && p.owner == s.owner && p.searchId == s.searchId
  }

  /** s ended cleanly and no cleanly ended row that ends on the same move of the same parent goes before it. */
  ghost predicate Leads(evidence: seq<Stage>, order: seq<string>, s: Stage) {
    && s in evidence && EndedCleanly(s)
    && forall t | t in evidence && EndedCleanly(t) && t.parent == s.parent && t.best == s.best ::
         !StageBefore(order, t, s)
  }

  ghost predicate TakenFrom(evidence: seq<Stage>, order: seq<string>, p: Pick, s: Stage) {
    Leads(evidence, order, s) && Names(p, s)
  }

  ghost predicate Taken(evidence: seq<Stage>, order: seq<string>, p: Pick) {
    exists s :: TakenFrom(evidence, order, p, s)
  }

  lemma {:induction false} SameEnd(s: Stage, t: Stage)
    requires s.best.Some? && t.best.Some?
    ensures Terminal(s) == Terminal(t) <==> s.parent == t.parent && s.best == t.best
  {
    if Terminal(s) == Terminal(t) {
      assert Terminal(s)[..|Terminal(s)| - 1] == s.parent && Terminal(t)[..|Terminal(t)| - 1] == t.parent;
      assert Terminal(s)[|Terminal(s)| - 1] == s.best.value && Terminal(t)[|Terminal(t)| - 1] == t.best.value;
    }
  }

  /** A move below a parent is nominated exactly when a stage of that parent ended on it cleanly. */
  lemma {:induction false} NominatedIff(evidence: seq<Stage>, order: seq<string>, prefix: seq<string>)
    ensures var picks := Nominations(evidence, order);
            (exists k :: 0 <= k < |picks| && picks[k].prefix == prefix) <==>
            (exists s :: s in evidence && EndedCleanly(s) && prefix == s.parent + [s.best.value])
  {
    hide Nominations, KeyLe, KeyOf;
    NominatesEachTerminalOnce(evidence, order);
    var ps := Nominations(evidence, order);
    if k :| 0 <= k < |ps| && ps[k].prefix == prefix {
      assert HasSource(evidence, order, ps[k]);
      var s :| Behind(evidence, order, ps[k], s);
      assert s in multiset(evidence);
      assert s in evidence && EndedCleanly(s) && prefix == s.parent + [s.best.value];
    }
    if s :| s in evidence && EndedCleanly(s) && prefix == s.parent + [s.best.value] {
      assert Clean(s) && Nominated(ps, s);
    }
  }

  /** Each nomination names a stage that leads those which ended on the same move. */
  lemma {:induction false} TakenFromLeader(evidence: seq<Stage>, order: seq<string>, k: nat)
    requires k < |Nominations(evidence, order)|
    ensures Taken(evidence, order, Nominations(evidence, order)[k])
  {
    hide Nominations, KeyLe, KeyOf, StageBefore;
    var s := PickHasSource(evidence, order, k);
    assert s in multiset(evidence);
    forall t | t in evidence && EndedCleanly(t) && t.parent == s.parent && t.best == s.best
      ensures !StageBefore(order, t, s)
    {
      SameEnd(s, t);
      assert t in multiset(evidence);
      StageBeforeIs(order, t, s);
      KeyOrder(KeyOf(s, order), KeyOf(t, order));
    }
    assert TakenFrom(evidence, order, Nominations(evidence, order)[k], s);
  }

  lemma {:induction false} NamesKey(p: Pick, s: Stage, order: seq<string>)
    requires Names(p, s)
    ensures p == PickOf(s) && |p.prefix| > 0 && PickKey(p, order) == KeyOf(s, order)
  {
    hide RankOf;
    PickShowsKey(s, order);
  }

  lemma {:induction false} KeysInOrder(evidence: seq<Stage>, order: seq<string>, k: nat, l: nat)
    requires k < l < |Nominations(evidence, order)|
    ensures var ps := Nominations(evidence, order);
            |ps[k].prefix| > 0 && |ps[l].prefix| > 0 && KeyLe(PickKey(ps[k], order), PickKey(ps[l], order))
  {
    hide KeyLe, KeyOf, Picks, Arranged, PickKey;
    ArrangedSorts(evidence, order);
    PicksAscend(Arranged(evidence, order), order, |Arranged(evidence, order)|);
  }

  /** Of two nominations the one taken from the stage that goes before the other comes first. */
  lemma {:induction false} NominationsInOrder(evidence: seq<Stage>, order: seq<string>, a: Stage, b: Stage,
      k: nat, l: nat)
    requires k < |Nominations(evidence, order)| && l < |Nominations(evidence, order)|
    requires Names(Nominations(evidence, order)[k], a) && Names(Nominations(evidence, order)[l], b)
    requires StageBefore(order, a, b)
    ensures k < l
  {
    hide Nominations, KeyLe, KeyOf, StageBefore, PickKey, PickOf;
    var ps := Nominations(evidence, order);
    NamesKey(ps[k], a, order);
    NamesKey(ps[l], b, order);
    StageBeforeIs(order, a, b);
    if l < k {
      KeysInOrder(evidence, order, l, k);
      KeyOrder(KeyOf(a, order), KeyOf(b, order));
    }
  }

  /** When two cleanly ended stages end on the same move, the one that goes after the other is not the one nominated. */
  lemma {:induction false} LaterIsNotTaken(evidence: seq<Stage>, order: seq<string>, a: Stage, b: Stage, k: nat)
    requires a in evidence && EndedCleanly(a) && EndedCleanly(b) && a.parent == b.parent && a.best == b.best
    requires StageBefore(order, a, b) && k < |Nominations(evidence, order)|
    ensures !Names(Nominations(evidence, order)[k], b)
  {
    hide Nominations, KeyLe, KeyOf, StageBefore, PickKey, PickOf;
    var p := Nominations(evidence, order)[k];
    if Names(p, b) {
      TakenFromLeader(evidence, order, k);
      var s :| TakenFrom(evidence, order, p, s);
      NamesKey(p, b, order);
      NamesKey(p, s, order);
      StageBeforeIs(order, a, b);
      StageBeforeIs(order, a, s);
      NamesEnd(p, s, b);
    }
  }

  lemma {:induction false} NamesEnd(p: Pick, s: Stage, t: Stage)
    requires Names(p, s) && Names(p, t)
    ensures s.parent == t.parent && s.best == t.best
  {
    SameEnd(s, t);
  }

  /** The owner order in plain positions: two stages of one parent whose owners stand last at i and at j. */
  lemma {:induction false} ListedOrder(order: seq<string>, a: Stage, b: Stage, i: nat)
    requires a.parent == b.parent && a.owner != b.owner && LastAt(order, a.owner, i)
    requires b.owner !in order || exists j: nat :: LastAt(order, b.owner, j) && i < j
    ensures StageBefore(order, a, b) && !StageBefore(order, b, a)
  {
    hide TextBefore, TextLe, RankOf, KeyLe, LineBefore;
    assert a.owner in order;
    StageBeforeIs(order, a, b);
    StageBeforeIs(order, b, a);
    KeyOrder(KeyOf(a, order), KeyOf(b, order));
    if b.owner in order {
      var j: nat :| LastAt(order, b.owner, j) && i < j;
    }
  }

  /** A parent is nominated from before any line that continues it. */
  lemma {:induction false} ParentBeforeContinuation(order: seq<string>, a: Stage, b: Stage)
    requires |a.parent| < |b.parent| && b.parent[..|a.parent|] == a.parent
    ensures StageBefore(order, a, b)
  {
    assert LineSplits(a.parent, b.parent, |a.parent|);
  }
}
