/** Choosing deeper zooms from clean stage terminals: ordering, first occurrence, and independence of arrival order. */
module Nomination {
  import opened Wrappers
  import opened Text

  const POLICY := "stage_terminal_bestmove_v1"

  datatype Stage = Stage(
    expansionId: string, parent: seq<string>, owner: string, searchId: string,
    children: seq<string>, best: Option<string>, disposition: string, lossy: bool, truncated: bool)

  /** The checks made when stage evidence is constructed. */
  predicate ValidStage(s: Stage) {
    && s.expansionId != "" && s.owner != "" && s.searchId != ""
    && AllMoves(s.parent) && s.children != [] && Distinct(s.children) && AllMoves(s.children)
    && (s.best.Some? ==> IsMove(s.best.value))
  }

  datatype Pick = Pick(expansionId: string, prefix: seq<string>, owner: string, searchId: string)

  // ---------------------------------------------------------------- the order

  /** Move-list order: the first differing move decides, a proper prefix comes first. */
  predicate LineLe(a: seq<string>, b: seq<string>) {
    if |a| == 0 then true
    else if |b| == 0 then false
    else if a[0] == b[0] then LineLe(a[1..], b[1..])
    else TextLe(a[0], b[0])
  }

  datatype Key = Key(parent: seq<string>, rank: nat, owner: string, searchId: string)

  predicate KeyLe(a: Key, b: Key) {
    if a.parent != b.parent then LineLe(a.parent, b.parent)
    else if a.rank != b.rank then a.rank < b.rank
    else if a.owner != b.owner then TextLe(a.owner, b.owner)
    else TextLe(a.searchId, b.searchId)
  }

  lemma {:induction false} LineOrder(a: seq<string>, b: seq<string>)
    ensures LineLe(a, a)
    ensures LineLe(a, b) || LineLe(b, a)
    ensures LineLe(a, b) && LineLe(b, a) ==> a == b
    decreases |a|
  {
    if |a| > 0 {
      LineOrder(a[1..], a[1..]);
      if |b| > 0 {
        LineOrder(a[1..], b[1..]);
        TextOrder(a[0], b[0]);
        assert a == [a[0]] + a[1..] && b == [b[0]] + b[1..];
      }
    }
  }

  lemma {:induction false} LineTrans(a: seq<string>, b: seq<string>, c: seq<string>)
    requires LineLe(a, b) && LineLe(b, c)
    ensures LineLe(a, c)
    decreases |a|
  {
    if |a| > 0 && |b| > 0 && |c| > 0 {
      if a[0] == b[0] && b[0] == c[0] {
        LineTrans(a[1..], b[1..], c[1..]);
      } else if a[0] != b[0] && b[0] != c[0] {
        TextTrans(a[0], b[0], c[0]);
        TextOrder(a[0], b[0]);
      }
    }
  }

  /** The sort key is a total order: any two keys compare, both ways only when equal, and it is transitive. */
  lemma {:induction false} KeyOrder(a: Key, b: Key)
    ensures KeyLe(a, a)
    ensures KeyLe(a, b) || KeyLe(b, a)
    ensures KeyLe(a, b) && KeyLe(b, a) ==> a == b
  {
    LineOrder(a.parent, b.parent);
    TextOrder(a.owner, b.owner);
    TextOrder(a.searchId, b.searchId);
  }

  lemma {:induction false} KeyTrans(a: Key, b: Key, c: Key)
    requires KeyLe(a, b) && KeyLe(b, c)
    ensures KeyLe(a, c)
  {
    hide LineLe, TextLe;
    if a.parent != b.parent && b.parent != c.parent {
      LineTrans(a.parent, b.parent, c.parent);
      LineOrder(a.parent, b.parent);
    } else if a.parent == b.parent == c.parent && a.rank == b.rank == c.rank {
      if a.owner != b.owner && b.owner != c.owner {
        TextTrans(a.owner, b.owner, c.owner);
        TextOrder(a.owner, b.owner);
      } else if a.owner == b.owner == c.owner {
        TextTrans(a.searchId, b.searchId, c.searchId);
      }
    }
  }

  /** The last position of an owner in the given order, or the length when it is not listed. */
  function RankOf(order: seq<string>, owner: string): nat {
    LastBefore(order, owner, |order|)
  }

  function LastBefore(order: seq<string>, owner: string, i: nat): nat
    requires i <= |order|
  {
    if i == 0 then |order| else if order[i - 1] == owner then i - 1 else LastBefore(order, owner, i - 1)
  }

  function KeyOf(s: Stage, order: seq<string>): Key {
    Key(s.parent, RankOf(order, s.owner), s.owner, s.searchId)
  }

  // ---------------------------------------------------------------- sorting

  /** Insert a row after every row whose key is not larger. */
  function Insert(rows: seq<Stage>, s: Stage, order: seq<string>): seq<Stage> {
    if |rows| == 0 || KeyLe(KeyOf(rows[|rows| - 1], order), KeyOf(s, order)) then rows + [s]
    else Insert(rows[..|rows| - 1], s, order) + [rows[|rows| - 1]]
  }

  /** sorted(rows, key=...): stable, ascending. */
  function Arranged(rows: seq<Stage>, order: seq<string>): seq<Stage> {
    if |rows| == 0 then [] else Insert(Arranged(rows[..|rows| - 1], order), rows[|rows| - 1], order)
  }

  ghost predicate Ascending(rows: seq<Stage>, order: seq<string>) {
    forall i, j | 0 <= i < j < |rows| :: KeyLe(KeyOf(rows[i], order), KeyOf(rows[j], order))
  }

  lemma {:induction false} InsertSorts(rows: seq<Stage>, s: Stage, order: seq<string>)
    requires Ascending(rows, order)
    ensures Ascending(Insert(rows, s, order), order)
    ensures multiset(Insert(rows, s, order)) == multiset(rows) + multiset{s}
  {
    hide KeyLe, RankOf;
    if |rows| > 0 {
      var front, last := rows[..|rows| - 1], rows[|rows| - 1];
      assert rows == front + [last];
      if KeyLe(KeyOf(last, order), KeyOf(s, order)) {
        forall i | 0 <= i < |rows| ensures KeyLe(KeyOf(rows[i], order), KeyOf(s, order)) {
          if i < |rows| - 1 { KeyTrans(KeyOf(rows[i], order), KeyOf(last, order), KeyOf(s, order)); }
        }
      } else {
        KeyOrder(KeyOf(last, order), KeyOf(s, order));
        InsertSorts(front, s, order);
        var r := Insert(front, s, order);
        forall i | 0 <= i < |r| ensures KeyLe(KeyOf(r[i], order), KeyOf(last, order)) {
          assert r[i] in multiset(r);
          assert r[i] == s || r[i] in multiset(front);
        }
      }
    }
  }

  lemma {:induction false} ArrangedSorts(rows: seq<Stage>, order: seq<string>)
    ensures Ascending(Arranged(rows, order), order)
    ensures multiset(Arranged(rows, order)) == multiset(rows)
  {
    if |rows| > 0 {
      ArrangedSorts(rows[..|rows| - 1], order);
      InsertSorts(Arranged(rows[..|rows| - 1], order), rows[|rows| - 1], order);
      assert rows == rows[..|rows| - 1] + [rows[|rows| - 1]];
    }
  }

  /** No two of the rows share the key (parent, owner, search id). */
  ghost predicate KeysDistinct(rows: multiset<Stage>) {
    forall a, b | a in rows && b in rows && a.parent == b.parent && a.owner == b.owner
        && a.searchId == b.searchId :: a == b
  }

  /** Two ascending arrangements of the same distinct keys start with the same row. */
  lemma {:induction false} SameFirst(a: seq<Stage>, b: seq<Stage>, order: seq<string>)
    requires Ascending(a, order) && Ascending(b, order) && multiset(a) == multiset(b) && KeysDistinct(multiset(a))
    requires |a| > 0 && |b| > 0
    ensures a[0] == b[0]
  {
    hide KeyLe, RankOf;
    assert a[0] in multiset(a) && a[0] in multiset(b);
    assert b[0] in multiset(b) && b[0] in multiset(a);
    var i :| 0 <= i < |b| && b[i] == a[0];
    var j :| 0 <= j < |a| && a[j] == b[0];
    KeyOrder(KeyOf(a[0], order), KeyOf(b[0], order));
    KeyOrder(KeyOf(b[0], order), KeyOf(b[0], order));
    KeyOrder(KeyOf(a[0], order), KeyOf(a[0], order));
  }

  lemma {:induction false} TailMultiset(a: seq<Stage>)
    requires |a| > 0
    ensures multiset(a[1..]) == multiset(a) - multiset{a[0]}
  {
    assert a == [a[0]] + a[1..];
  }

  lemma {:induction false} TailAscends(a: seq<Stage>, order: seq<string>)
    requires |a| > 0 && Ascending(a, order)
    ensures Ascending(a[1..], order)
  {
    hide KeyLe, KeyOf;
  }

  lemma {:induction false} FewerKeys(few: multiset<Stage>, rows: multiset<Stage>)
    requires KeysDistinct(rows) && few <= rows
    ensures KeysDistinct(few)
  {
  }

  lemma {:induction false} AscendingUnique(a: seq<Stage>, b: seq<Stage>, order: seq<string>)
    requires Ascending(a, order) && Ascending(b, order) && multiset(a) == multiset(b) && KeysDistinct(multiset(a))
    ensures a == b
    decreases |a|
  {
    hide KeyLe, RankOf, KeyOf, Ascending, KeysDistinct;
    assert |a| == |multiset(a)| == |multiset(b)| == |b|;
    if |a| > 0 {
      SameFirst(a, b, order);
      TailMultiset(a);
      TailMultiset(b);
      TailAscends(a, order);
      TailAscends(b, order);
      FewerKeys(multiset(a[1..]), multiset(a));
      AscendingUnique(a[1..], b[1..], order);
      assert a == [a[0]] + a[1..] && b == [b[0]] + b[1..];
    }
  }

  // ---------------------------------------------------------------- nominations

  /** A stage that completed cleanly on one of its own children. */
  predicate Clean(s: Stage) {
    s.disposition == "completed" && !s.lossy && !s.truncated && s.best.Some? && s.best.value in s.children
  }

  function Terminal(s: Stage): seq<string>
    requires s.best.Some?
  {
    s.parent + [s.best.value]
  }

  function PickOf(s: Stage): Pick
    requires s.best.Some?
  {
    Pick(s.expansionId, Terminal(s), s.owner, s.searchId)
  }

  function Prefixes(picks: seq<Pick>): set<seq<string>> {
    set p | p in picks :: p.prefix
  }

  /** The nominations after the first i rows. */
  function Picks(rows: seq<Stage>, i: nat): seq<Pick>
    requires i <= |rows|
  {
    if i == 0 then []
    else
      var done := Picks(rows, i - 1);
      if Clean(rows[i - 1]) && Terminal(rows[i - 1]) !in Prefixes(done) then done + [PickOf(rows[i - 1])] else done
  }

  /** What is nominated from evidence that arrives in the given order. */
  function Nominations(evidence: seq<Stage>, order: seq<string>): seq<Pick> {
    Picks(Arranged(evidence, order), |Arranged(evidence, order)|)
  }

  method EvaluateNominations(evidence: seq<Stage>, order: seq<string>, policy: string) returns (r: Option<seq<Pick>>)
    ensures r == if policy != POLICY then None
                 else Some(Nominations(evidence, order))
  {
    if policy != POLICY { return None; }
    var rows := Arranged(evidence, order);
    var nominations: seq<Pick> := [];
    var seen: set<seq<string>> := {};
    for i := 0 to |rows|
      invariant nominations == Picks(rows, i) && seen == Prefixes(nominations)
    {
      var row := rows[i];
      if row.disposition != "completed" { continue; }
      if row.lossy || row.truncated { continue; }
      if row.best.None? || row.best.value !in row.children { continue; }
      var prefix := row.parent + [row.best.value];
      if prefix in seen { continue; }
      seen := seen + {prefix};
      nominations := nominations + [Pick(row.expansionId, prefix, row.owner, row.searchId)];
    }
    r := Some(nominations);
  }

  /** Row f is the first clean row among the first i that ends on the prefix. */
  ghost predicate FirstTerminal(rows: seq<Stage>, i: nat, f: nat, prefix: seq<string>)
    requires i <= |rows|
  {
    && f < i && Clean(rows[f]) && Terminal(rows[f]) == prefix
    && forall g | 0 <= g < f && Clean(rows[g]) :: Terminal(rows[g]) != prefix
  }

  /** Each nomination is the pick of the first clean row on its prefix. */
  lemma {:induction false} PickIsFirst(rows: seq<Stage>, i: nat, k: nat) returns (f: nat)
    requires i <= |rows| && k < |Picks(rows, i)|
    ensures FirstTerminal(rows, i, f, Picks(rows, i)[k].prefix)
    ensures Picks(rows, i)[k] == PickOf(rows[f])
  {
    var done := Picks(rows, i - 1);
    if k < |done| {
      f := PickIsFirst(rows, i - 1, k);
    } else {
      f := i - 1;
      forall g | 0 <= g < f && Clean(rows[g]) ensures Terminal(rows[g]) != Terminal(rows[f]) {
        var n := CleanIsPicked(rows, i - 1, g);
      }
    }
  }

  /** Every clean terminal is nominated. */
  lemma {:induction false} CleanIsPicked(rows: seq<Stage>, i: nat, j: nat) returns (k: nat)
    requires i <= |rows| && j < i && Clean(rows[j])
    ensures k < |Picks(rows, i)| && Picks(rows, i)[k].prefix == Terminal(rows[j])
    ensures Terminal(rows[j]) in Prefixes(Picks(rows, i))
  {
    var done := Picks(rows, i - 1);
    if j == i - 1 {
      if Terminal(rows[j]) in Prefixes(done) {
        var p :| p in done && p.prefix == Terminal(rows[j]);
        k :| 0 <= k < |done| && done[k] == p;
      } else {
        k := |done|;
      }
    } else {
      k := CleanIsPicked(rows, i - 1, j);
    }
    assert Picks(rows, i)[k] in Picks(rows, i);
  }

  lemma {:induction false} PicksDistinct(rows: seq<Stage>, i: nat)
    requires i <= |rows|
    ensures forall a, b | 0 <= a < b < |Picks(rows, i)| :: Picks(rows, i)[a].prefix != Picks(rows, i)[b].prefix
  {
    if i > 0 {
      PicksDistinct(rows, i - 1);
      var done := Picks(rows, i - 1);
      assert forall a | 0 <= a < |done| :: done[a] in done;
    }
  }

  /** s is clean and no clean row ending on the same prefix comes before it in key order. */
  ghost predicate Fresh(rows: multiset<Stage>, order: seq<string>, s: Stage) {
    && s in rows && Clean(s)
    && forall t | t in rows && Clean(t) && Terminal(t) == Terminal(s) :: KeyLe(KeyOf(s, order), KeyOf(t, order))
  }

  /** Nomination p is the one a fresh row s makes. */
  ghost predicate Behind(evidence: seq<Stage>, order: seq<string>, p: Pick, s: Stage) {
    Fresh(multiset(evidence), order, s) && p == PickOf(s)
  }

  ghost predicate HasSource(evidence: seq<Stage>, order: seq<string>, p: Pick) {
    exists s :: Behind(evidence, order, p, s)
  }

  ghost predicate Nominated(picks: seq<Pick>, s: Stage)
    requires s.best.Some?
  {
    exists k | 0 <= k < |picks| :: picks[k].prefix == Terminal(s)
  }

  lemma {:induction false} PickHasSource(evidence: seq<Stage>, order: seq<string>, k: nat) returns (s: Stage)
    requires k < |Nominations(evidence, order)|
    ensures Behind(evidence, order, Nominations(evidence, order)[k], s)
  {
    hide KeyLe, RankOf, Picks, Arranged;
    var rows := Arranged(evidence, order);
    ArrangedSorts(evidence, order);
    var f := PickIsFirst(rows, |rows|, k);
    s := rows[f];
    Occurs(rows, evidence, s);
    forall t | t in evidence && Clean(t) && Terminal(t) == Terminal(s) ensures KeyLe(KeyOf(s, order), KeyOf(t, order)) {
      Occurs(evidence, rows, t);
      var g :| 0 <= g < |rows| && rows[g] == t;
      KeyOrder(KeyOf(t, order), KeyOf(t, order));
    }
  }

  /**
   Prefixes are pairwise distinct; each extends a clean stage's parent by one of that stage's own children,
   the stage whose key comes first; and every clean terminal is nominated.
   */
  lemma {:induction false} NominatesEachTerminalOnce(evidence: seq<Stage>, order: seq<string>)
    ensures var picks := Nominations(evidence, order);
            && (forall a, b | 0 <= a < b < |picks| :: picks[a].prefix != picks[b].prefix)
            && (forall k | 0 <= k < |picks| :: HasSource(evidence, order, picks[k]))
            && (forall t | t in evidence && Clean(t) :: Nominated(picks, t))
  {
    hide KeyLe, RankOf, Picks, Arranged, Behind;
    var rows := Arranged(evidence, order);
    var picks := Picks(rows, |rows|);
    ArrangedSorts(evidence, order);
    PicksDistinct(rows, |rows|);
    forall k | 0 <= k < |picks| ensures HasSource(evidence, order, picks[k]) {
      var s := PickHasSource(evidence, order, k);
      assert Behind(evidence, order, picks[k], s);
    }
    forall t | t in evidence && Clean(t) ensures Nominated(picks, t) {
      Occurs(evidence, rows, t);
      var g :| 0 <= g < |rows| && rows[g] == t;
      var k := CleanIsPicked(rows, |rows|, g);
    }
  }

  lemma {:induction false} Occurs(a: seq<Stage>, b: seq<Stage>, s: Stage)
    requires multiset(a) == multiset(b) && s in a
    ensures s in b
  {
    assert s in multiset(a);
    assert s in multiset(b);
  }

  /** Nominations from valid stage evidence are canonical non-empty prefixes with a named owner and search. */
  lemma {:induction false} NominationsAreCanonical(evidence: seq<Stage>, order: seq<string>, k: nat)
    requires forall s | s in evidence :: ValidStage(s)
    requires k < |Nominations(evidence, order)|
    ensures var p := Nominations(evidence, order)[k];
            && p.prefix != [] && AllMoves(p.prefix) && p.expansionId != "" && p.owner != "" && p.searchId != ""
  {
    hide KeyLe, RankOf, Picks, Arranged, IsMove;
    NominatesEachTerminalOnce(evidence, order);
    var p := Nominations(evidence, order)[k];
    assert HasSource(evidence, order, p);
    var s :| Behind(evidence, order, p, s);
    assert ValidStage(s) && IsMove(s.best.value);
  }

  // ---------------------------------------------------------------- exactly when arrival order matters

  /** Two fresh rows that tie in the sort make different nominations. */
  ghost predicate Rivals(rows: multiset<Stage>, order: seq<string>, s: Stage, t: Stage) {
    && Fresh(rows, order, s) && Fresh(rows, order, t)
    && KeyOf(s, order) == KeyOf(t, order) && PickOf(s) != PickOf(t)
  }

  ghost predicate NoRivals(rows: multiset<Stage>, order: seq<string>) {
    forall s, t :: !Rivals(rows, order, s, t)
  }

  ghost predicate SameRows(a: seq<Stage>, b: seq<Stage>) { multiset(a) == multiset(b) }

  // A nomination shows the key of the row it was made from.

  function PickKey(p: Pick, order: seq<string>): Key
    requires |p.prefix| > 0
  {
    Key(p.prefix[..|p.prefix| - 1], RankOf(order, p.owner), p.owner, p.searchId)
  }

  lemma {:induction false} PickShowsKey(s: Stage, order: seq<string>)
    requires s.best.Some?
    ensures |PickOf(s).prefix| > 0 && PickKey(PickOf(s), order) == KeyOf(s, order)
  {
    hide RankOf;
    assert Terminal(s)[..|Terminal(s)| - 1] == s.parent;
  }

  /** Without rivals every fresh row's own nomination is made. */
  lemma {:induction false} FreshIsPicked(evidence: seq<Stage>, order: seq<string>, s: Stage) returns (k: nat)
    requires NoRivals(multiset(evidence), order) && Fresh(multiset(evidence), order, s)
    ensures k < |Nominations(evidence, order)| && Nominations(evidence, order)[k] == PickOf(s)
  {
    hide KeyLe, KeyOf, Picks, Arranged;
    NominatesEachTerminalOnce(evidence, order);
    assert s in evidence;
    assert Nominated(Nominations(evidence, order), s);
    k :| 0 <= k < |Nominations(evidence, order)| && Nominations(evidence, order)[k].prefix == Terminal(s);
    var t := PickHasSource(evidence, order, k);
    KeyOrder(KeyOf(s, order), KeyOf(t, order));
    assert !Rivals(multiset(evidence), order, s, t);
  }

  /** The nominations after i sorted rows are in key order. */
  lemma {:induction false} PicksAscend(rows: seq<Stage>, order: seq<string>, i: nat)
    requires i <= |rows| && Ascending(rows, order)
    ensures forall k | 0 <= k < |Picks(rows, i)| :: |Picks(rows, i)[k].prefix| > 0
    ensures forall k, l | 0 <= k < l < |Picks(rows, i)| ::
              KeyLe(PickKey(Picks(rows, i)[k], order), PickKey(Picks(rows, i)[l], order))
  {
    hide KeyLe, KeyOf, PickKey, PickOf;
    if i > 0 {
      PicksAscend(rows, order, i - 1);
      var done := Picks(rows, i - 1);
      if Clean(rows[i - 1]) { PickShowsKey(rows[i - 1], order); }
      forall k | 0 <= k < |done| && Clean(rows[i - 1])
        ensures KeyLe(PickKey(done[k], order), PickKey(PickOf(rows[i - 1]), order))
      {
        var f := PickIsFirst(rows, i - 1, k);
        PickShowsKey(rows[f], order);
      }
    }
  }

  ghost predicate StrictKeys(ps: seq<Pick>, order: seq<string>) {
    && (forall k | 0 <= k < |ps| :: |ps[k].prefix| > 0)
    && (forall k, l | 0 <= k < l < |ps| ::
          KeyLe(PickKey(ps[k], order), PickKey(ps[l], order)) && PickKey(ps[k], order) != PickKey(ps[l], order))
  }

  lemma {:induction false} NominationsStrict(evidence: seq<Stage>, order: seq<string>)
    requires NoRivals(multiset(evidence), order)
    ensures StrictKeys(Nominations(evidence, order), order)
  {
    hide KeyLe, KeyOf, Picks, Arranged, PickKey, PickOf, Fresh, Ascending, NoRivals;
    var ps := Nominations(evidence, order);
    ArrangedSorts(evidence, order);
    PicksAscend(Arranged(evidence, order), order, |Arranged(evidence, order)|);
    NominatesEachTerminalOnce(evidence, order);
    forall k, l | 0 <= k < l < |ps| ensures PickKey(ps[k], order) != PickKey(ps[l], order) {
      var s := PickHasSource(evidence, order, k);
      var t := PickHasSource(evidence, order, l);
      FreshHasBest(multiset(evidence), order, s);
      FreshHasBest(multiset(evidence), order, t);
      PickShowsKey(s, order);
      PickShowsKey(t, order);
      NotRivals(multiset(evidence), order, s, t);
    }
  }

  lemma {:induction false} FreshHasBest(rows: multiset<Stage>, order: seq<string>, s: Stage)
    requires Fresh(rows, order, s)
    ensures s in rows && Clean(s) && s.best.Some?
  {
  }

  lemma {:induction false} NotRivals(rows: multiset<Stage>, order: seq<string>, s: Stage, t: Stage)
    requires NoRivals(rows, order) && Fresh(rows, order, s) && Fresh(rows, order, t) && s.best.Some? && t.best.Some?
    ensures KeyOf(s, order) == KeyOf(t, order) ==> PickOf(s) == PickOf(t)
  {
    hide Fresh, KeyOf, PickOf;
    assert !Rivals(rows, order, s, t);
  }

  /** A set of nominations has only one strict arrangement by key. */
  lemma {:induction false} StrictUnique(ps: seq<Pick>, qs: seq<Pick>, order: seq<string>)
    requires StrictKeys(ps, order) && StrictKeys(qs, order) && forall p :: p in ps <==> p in qs
    ensures ps == qs
    decreases |ps|
  {
    hide StrictKeys;
    FirstPick(ps);
    FirstPick(qs);
    if |ps| > 0 {
      SameLastPick(ps, qs, order);
      var a, b, last := ps[..|ps| - 1], qs[..|qs| - 1], ps[|ps| - 1];
      FrontPicks(ps, order);
      FrontPicks(qs, order);
      forall p ensures p in a <==> p in b {
        assert p in a <==> p in ps && p != last;
        assert p in b <==> p in qs && p != last;
      }
      StrictUnique(a, b, order);
      assert ps == a + [last] && qs == b + [last];
    }
  }

  lemma {:induction false} FrontPicks(ps: seq<Pick>, order: seq<string>)
    requires StrictKeys(ps, order) && |ps| > 0
    ensures StrictKeys(ps[..|ps| - 1], order)
    ensures forall p :: p in ps[..|ps| - 1] <==> p in ps && p != ps[|ps| - 1]
  {
    hide KeyLe, PickKey;
    LastOnce(ps, order);
    assert ps == ps[..|ps| - 1] + [ps[|ps| - 1]];
  }

  lemma {:induction false} FirstPick(ps: seq<Pick>)
    ensures ps == [] || ps[0] in ps
  {
  }

  lemma {:induction false} LastOnce(ps: seq<Pick>, order: seq<string>)
    requires StrictKeys(ps, order) && |ps| > 0
    ensures ps[|ps| - 1] !in ps[..|ps| - 1]
  {
    hide KeyLe, PickKey;
    var n := |ps| - 1;
    assert forall k | 0 <= k < n :: PickKey(ps[k], order) != PickKey(ps[n], order);
  }

  lemma {:induction false} SameLastPick(ps: seq<Pick>, qs: seq<Pick>, order: seq<string>)
    requires StrictKeys(ps, order) && StrictKeys(qs, order) && forall p :: p in ps <==> p in qs
    requires |ps| > 0 && |qs| > 0
    ensures ps[|ps| - 1] == qs[|qs| - 1]
  {
    hide KeyLe, PickKey;
    var p, q := ps[|ps| - 1], qs[|qs| - 1];
    assert p in ps && q in qs;
    var i :| 0 <= i < |qs| && qs[i] == p;
    var j :| 0 <= j < |ps| && ps[j] == q;
    KeyOrder(PickKey(p, order), PickKey(q, order));
  }

  /** Without rivals the nominations are the fresh rows' own, in key order, whatever the order of arrival. */
  lemma {:induction false} NoRivalsAgree(b: seq<Stage>, c: seq<Stage>, order: seq<string>)
    requires SameRows(b, c) && NoRivals(multiset(b), order)
    ensures Nominations(b, order) == Nominations(c, order)
  {
    hide Nominations, NoRivals, StrictKeys, Fresh;
    forall p ensures p in Nominations(b, order) <==> p in Nominations(c, order) {
      if p in Nominations(b, order) { AlsoPicked(b, c, order, p); }
      if p in Nominations(c, order) { AlsoPicked(c, b, order, p); }
    }
    NominationsStrict(b, order);
    NominationsStrict(c, order);
    StrictUnique(Nominations(b, order), Nominations(c, order), order);
  }

  lemma {:induction false} AlsoPicked(b: seq<Stage>, c: seq<Stage>, order: seq<string>, p: Pick)
    requires SameRows(b, c) && NoRivals(multiset(b), order) && p in Nominations(b, order)
    ensures p in Nominations(c, order)
  {
    hide Nominations, NoRivals, Fresh;
    var k :| 0 <= k < |Nominations(b, order)| && Nominations(b, order)[k] == p;
    var s := PickHasSource(b, order, k);
    var l := FreshIsPicked(c, order, s);
  }

  // A row at the head of the evidence comes before every row that ties with it.

  /** Row j is s and every row before it has a strictly smaller key. */
  ghost predicate Heads(rows: seq<Stage>, order: seq<string>, s: Stage, j: nat) {
    && j < |rows| && rows[j] == s
    && forall i | 0 <= i < j :: !KeyLe(KeyOf(s, order), KeyOf(rows[i], order))
  }

  lemma {:induction false} InsertKeepsHead(rows: seq<Stage>, u: Stage, order: seq<string>, s: Stage, j: nat)
      returns (k: nat)
    requires Ascending(rows, order) && Heads(rows, order, s, j)
    ensures Heads(Insert(rows, u, order), order, s, k)
  {
    hide KeyLe, KeyOf;
    var front, last := rows[..|rows| - 1], rows[|rows| - 1];
    assert rows == front + [last];
    if KeyLe(KeyOf(last, order), KeyOf(u, order)) {
      k := j;
    } else if j < |rows| - 1 {
      k := InsertKeepsHead(front, u, order, s, j);
    } else {
      k := |rows|;
      InsertSorts(front, u, order);
      var r := Insert(front, u, order);
      assert |r| == |multiset(r)| == |front| + 1;
      forall i | 0 <= i < |r| ensures !KeyLe(KeyOf(s, order), KeyOf(r[i], order)) {
        assert r[i] in multiset(r);
        assert r[i] == u || r[i] in multiset(front);
        assert r[i] != u ==> r[i] in front;
      }
    }
  }

  lemma {:induction false} FirstHeads(evidence: seq<Stage>, order: seq<string>) returns (j: nat)
    requires |evidence| > 0
    ensures Heads(Arranged(evidence, order), order, evidence[0], j)
  {
    hide KeyLe, KeyOf, Insert, Ascending;
    var front, last := evidence[..|evidence| - 1], evidence[|evidence| - 1];
    if |evidence| == 1 {
      j := 0;
      InsertIntoNothing(last, order);
    } else {
      ArrangedSorts(front, order);
      j := FirstHeads(front, order);
      j := InsertKeepsHead(Arranged(front, order), last, order, evidence[0], j);
    }
  }

  lemma {:induction false} InsertIntoNothing(s: Stage, order: seq<string>)
    ensures Insert([], s, order) == [s]
  {
  }

  lemma {:induction false} PicksGrow(rows: seq<Stage>, i: nat, j: nat)
    requires i <= j <= |rows|
    ensures Picks(rows, i) <= Picks(rows, j)
  {
    if i < j { PicksGrow(rows, i, j - 1); }
  }

  /** Before the head no row, and so no nomination, ends where a tied fresh row ends. */
  lemma {:induction false} NoneBefore(ev: multiset<Stage>, rows: seq<Stage>, order: seq<string>, s: Stage, j: nat,
      t: Stage)
    requires multiset(rows) == ev && Heads(rows, order, s, j)
    requires Fresh(ev, order, t) && KeyOf(t, order) == KeyOf(s, order)
    ensures forall l | 0 <= l < |Picks(rows, j)| :: Picks(rows, j)[l].prefix != Terminal(t)
  {
    hide KeyLe, KeyOf, Picks, Terminal;
    forall l | 0 <= l < |Picks(rows, j)| ensures Picks(rows, j)[l].prefix != Terminal(t) {
      var f := PickIsFirst(rows, j, l);
      assert rows[f] in multiset(rows);
    }
  }

  lemma {:induction false} NewTerminal(rows: seq<Stage>, j: nat)
    requires j < |rows| && Clean(rows[j])
    requires forall l | 0 <= l < |Picks(rows, j)| :: Picks(rows, j)[l].prefix != Terminal(rows[j])
    ensures Picks(rows, j + 1) == Picks(rows, j) + [PickOf(rows[j])]
  {
  }

  /** A fresh row at the head of the evidence is nominated before any fresh row that ties with it. */
  lemma {:induction false} HeadWins(evidence: seq<Stage>, order: seq<string>) returns (k: nat)
    requires |evidence| > 0 && Fresh(multiset(evidence), order, evidence[0])
    ensures k < |Nominations(evidence, order)| && Nominations(evidence, order)[k] == PickOf(evidence[0])
    ensures forall t, l | Fresh(multiset(evidence), order, t) && KeyOf(t, order) == KeyOf(evidence[0], order)
              && 0 <= l < |Nominations(evidence, order)|
              && Nominations(evidence, order)[l].prefix == Terminal(t) :: k <= l
  {
    hide KeyLe, KeyOf, Arranged, PickOf, Picks, Terminal, Heads;
    var s, rows := evidence[0], Arranged(evidence, order);
    ArrangedSorts(evidence, order);
    var j := FirstHeads(evidence, order);
    HeadsAt(rows, order, s, j);
    FreshHasBest(multiset(evidence), order, s);
    NoneBefore(multiset(evidence), rows, order, s, j, s);
    NewTerminal(rows, j);
    k := |Picks(rows, j)|;
    PicksGrow(rows, j, j + 1);
    PicksGrow(rows, j + 1, |rows|);
    assert forall l | 0 <= l < k :: Nominations(evidence, order)[l] == Picks(rows, j)[l];
    forall t, l | Fresh(multiset(evidence), order, t) && KeyOf(t, order) == KeyOf(s, order)
        && 0 <= l < |Nominations(evidence, order)| && Nominations(evidence, order)[l].prefix == Terminal(t)
      ensures k <= l
    {
      NoneBefore(multiset(evidence), rows, order, s, j, t);
    }
  }

  lemma {:induction false} HeadsAt(rows: seq<Stage>, order: seq<string>, s: Stage, j: nat)
    requires Heads(rows, order, s, j)
    ensures j < |rows| && rows[j] == s
  {
  }

  /** The same rows with one of them moved to the head. */
  lemma {:induction false} ToHead(a: seq<Stage>, s: Stage) returns (b: seq<Stage>)
    requires s in a
    ensures SameRows(a, b) && |b| > 0 && b[0] == s
  {
    var i :| 0 <= i < |a| && a[i] == s;
    b := [s] + (a[..i] + a[i + 1..]);
    assert a == a[..i] + [s] + a[i + 1..];
  }

  /** Rivals: with each of them arriving first in turn the nominations differ. */
  lemma {:induction false} RivalsDiffer(a: seq<Stage>, order: seq<string>, s: Stage, t: Stage)
      returns (b: seq<Stage>, c: seq<Stage>)
    requires Rivals(multiset(a), order, s, t)
    ensures SameRows(b, a) && SameRows(c, a) && Nominations(b, order) != Nominations(c, order)
  {
    hide KeyOf, PickOf, Nominations, Fresh;
    FreshHasBest(multiset(a), order, s);
    FreshHasBest(multiset(a), order, t);
    b := ToHead(a, s);
    c := ToHead(a, t);
    var k := HeadWins(b, order);
    var l := HeadWins(c, order);
    PickShowsTerminal(s);
    PickShowsTerminal(t);
    assert Nominations(b, order) == Nominations(c, order) ==> k <= l <= k;
  }

  lemma {:induction false} PickShowsTerminal(s: Stage)
    requires s.best.Some?
    ensures PickOf(s).prefix == Terminal(s)
  {
  }

  /** The nominations depend on the order of arrival exactly when two rows are rivals. */
  lemma {:induction false} OrderIndependentIff(a: seq<Stage>, order: seq<string>)
    ensures NoRivals(multiset(a), order) <==>
              forall b, c | SameRows(b, a) && SameRows(c, a) :: Nominations(b, order) == Nominations(c, order)
  {
    hide Nominations, Rivals;
    if NoRivals(multiset(a), order) {
      forall b, c | SameRows(b, a) && SameRows(c, a) ensures Nominations(b, order) == Nominations(c, order) {
        NoRivalsAgree(b, c, order);
      }
    } else {
      var s, t :| Rivals(multiset(a), order, s, t);
      var b, c := RivalsDiffer(a, order, s, t);
    }
  }

  /** Distinct keys leave no rivals, and even the sorted evidence is then the same. */
  lemma {:induction false} OrderIndependent(a: seq<Stage>, b: seq<Stage>, order: seq<string>)
    requires multiset(a) == multiset(b) && KeysDistinct(multiset(a))
    ensures NoRivals(multiset(a), order)
    ensures Arranged(a, order) == Arranged(b, order)
    ensures Nominations(a, order) == Nominations(b, order)
  {
    ArrangedSorts(a, order);
    ArrangedSorts(b, order);
    AscendingUnique(Arranged(a, order), Arranged(b, order), order);
    DistinctKeysNoRivals(multiset(a), order);
    OrderIndependentIff(a, order);
  }

  lemma {:induction false} DistinctKeysNoRivals(rows: multiset<Stage>, order: seq<string>)
    requires KeysDistinct(rows)
    ensures NoRivals(rows, order)
  {
    hide KeyLe, RankOf;
  }

  /** A clean row of the owner "o" and search "q" that ends on one of two root moves. */
  function Ended(best: string): Stage {
    Stage("x", [], "o", "q", ["e2e4", "d2d4"], Some(best), "completed", false, false)
  }

  /** Two valid rows whose nominations come in the order the rows arrived in. */
  lemma {:induction false} ArrivalOrderShows(order: seq<string>)
    ensures ValidStage(Ended("e2e4")) && ValidStage(Ended("d2d4"))
    ensures Nominations([Ended("e2e4"), Ended("d2d4")], order) == [PickOf(Ended("e2e4")), PickOf(Ended("d2d4"))]
    ensures Nominations([Ended("d2d4"), Ended("e2e4")], order) == [PickOf(Ended("d2d4")), PickOf(Ended("e2e4"))]
    ensures Nominations([Ended("e2e4"), Ended("d2d4")], order) != Nominations([Ended("d2d4"), Ended("e2e4")], order)
  {
    EndedIsValid("e2e4");
    EndedIsValid("d2d4");
    assert "e2e4"[0] != "d2d4"[0];
    assert Terminal(Ended("e2e4"))[0] == "e2e4" && Terminal(Ended("d2d4"))[0] == "d2d4";
    TwoTied(Ended("e2e4"), Ended("d2d4"), order);
    TwoTied(Ended("d2d4"), Ended("e2e4"), order);
    assert PickOf(Ended("e2e4")).prefix[0] == "e2e4" && PickOf(Ended("d2d4")).prefix[0] == "d2d4";
  }

  lemma {:induction false} EndedIsValid(best: string)
    requires best == "e2e4" || best == "d2d4"
    ensures ValidStage(Ended(best)) && Clean(Ended(best))
  {
    assert IsMove("e2e4") && IsMove("d2d4");
    assert "e2e4"[0] != "d2d4"[0];
    assert Ended(best).children[0] == "e2e4" && Ended(best).children[1] == "d2d4";
  }

  /** Two clean rows that tie and end apart are nominated as they arrived. */
  lemma {:induction false} TwoTied(s: Stage, t: Stage, order: seq<string>)
    requires Clean(s) && Clean(t) && KeyOf(s, order) == KeyOf(t, order) && Terminal(s) != Terminal(t)
    ensures Nominations([s, t], order) == [PickOf(s), PickOf(t)]
  {
    hide KeyLe, RankOf;
    KeyOrder(KeyOf(s, order), KeyOf(t, order));
    assert [s, t][..1] == [s] && [s][..0] == [];
    InsertIntoNothing(s, order);
    assert Arranged([s], order) == [s];
    assert Arranged([s, t], order) == [s, t];
    assert Picks([s, t], 0) == [];
    assert Picks([s, t], 1) == [PickOf(s)];
  }
}
