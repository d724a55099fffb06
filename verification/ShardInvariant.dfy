/** Every ledger operation keeps the invariant, and the invariant satisfies the runtime check. */
module ShardInvariant {
  import opened Wrappers
  import opened Text
  import opened PrefixShards

  // ---------------------------------------------------------------- identifiers

  lemma {:induction false} MovesAreFree(p: Prefix)
    requires AllMoves(p)
    ensures Free(p, '.') && Free(p, ' ')
  {
    forall i | 0 <= i < |p| ensures '.' !in p[i] && ' ' !in p[i] {
      assert IsMove(p[i]);
    }
  }

  /** The identifier without its generation. */
  function Place(p: Prefix): string { "d" + Padded(|p|, 3) + [':'] + Join(p, '.') }

  lemma {:induction false} IdParts(g: nat, p: Prefix)
    ensures IdFor(g, p) == "g" + Padded(g, 6) + [':'] + Place(p)
  {
    hide Padded, Join;
    assert ":" + Join(p, '.') == [':'] + Join(p, '.');
    assert ":d" + Padded(|p|, 3) == [':'] + ("d" + Padded(|p|, 3));
  }

  /** A letter, a padded number and a colon: the number can be read back whatever follows. */
  lemma {:induction false} NumberedInjective(letter: string, m: nat, n: nat, width: nat, a: string, b: string)
    requires |letter| == 1 && letter[0] != ':'
        && letter + Padded(m, width) + [':'] + a == letter + Padded(n, width) + [':'] + b
    ensures m == n && a == b
  {
    hide Padded;
    FirstSeparator(letter + Padded(m, width), a, letter + Padded(n, width), b, ':');
    assert Padded(m, width) == (letter + Padded(m, width))[1..] && Padded(n, width) == (letter + Padded(n, width))[1..];
    PaddedInjective(m, n, width);
  }

  /** The identifier text determines the generation and the whole move prefix. */
  lemma {:induction false} IdInjective(g: nat, p: Prefix, h: nat, q: Prefix)
    requires AllMoves(p) && AllMoves(q) && |p| >= 1 && |q| >= 1
    requires IdFor(g, p) == IdFor(h, q)
    ensures g == h && p == q
  {
    hide IdFor, Padded, Join, IsMove;
    IdParts(g, p);
    IdParts(h, q);
    NumberedInjective("g", g, h, 6, Place(p), Place(q));
    NumberedInjective("d", |p|, |q|, 3, Join(p, '.'), Join(q, '.'));
    MovesAreFree(p);
    MovesAreFree(q);
    JoinInjective(p, q, '.');
  }

  function Ten(k: nat): nat { if k == 0 then 1 else 10 * Ten(k - 1) }

  lemma {:induction false} FewDigits(n: nat, k: nat)
    requires k > 0 && n < Ten(k)
    ensures |Decimal(n)| <= k
  {
    if n >= 10 { FewDigits(n / 10, k - 1); }
  }

  lemma {:induction false} PaddedReads(n: nat, width: nat)
    requires width > 0 && n < Ten(width)
    ensures |Padded(n, width)| == width && NumberOf(Padded(n, width)) == n
  {
    FewDigits(n, width);
    LeadingZeros(width - |Decimal(n)|, Decimal(n));
    DecimalRoundTrip(n);
  }

  /** An identifier spells the generation in six digits, the depth in three, and the moves between dots. */
  lemma {:induction false} IdReads(g: nat, p: Prefix)
    requires g < 1000000 && |p| < 1000
    ensures var id := IdFor(g, p);
            && |id| == 13 + |Join(p, '.')|
            && id[0] == 'g' && AllDigits(id[1..7]) && NumberOf(id[1..7]) == g
            && id[7..9] == ":d" && AllDigits(id[9..12]) && NumberOf(id[9..12]) == |p|
            && id[12] == ':' && id[13..] == Join(p, '.')
  {
    hide Padded, NumberOf, Join;
    assert Ten(6) == 1000000 && Ten(3) == 1000;
    PaddedReads(g, 6);
    PaddedReads(|p|, 3);
    var id := IdFor(g, p);
    assert id[1..7] == Padded(g, 6) && id[9..12] == Padded(|p|, 3);
  }

  lemma {:induction false} SamePrefixSameRow(s: State, a: string, b: string)
    requires Inv(s) && a in s.byId && b in s.byId && s.byId[a].prefix == s.byId[b].prefix
    ensures a == b
  {
    hide IdFor;
    assert RowOk(s, a) && RowOk(s, b);
  }

  // ---------------------------------------------------------------- creation

  lemma {:induction false} GoodRoots(roots: seq<string>, k: nat)
    requires k <= |roots| && FirstBadRoot(roots, k) == None
    ensures forall i | k <= i < |roots| :: IsMove(roots[i]) && roots[i] !in roots[..i]
    decreases |roots| - k
  {
    if k < |roots| {
      GoodRoots(roots, k + 1);
    }
  }

  ghost predicate RootAt(s: State, roots: seq<string>, i: nat)
    requires i < |roots| && i < |s.rootIds|
  {
    var id := IdFor(s.generation, [roots[i]]);
    s.rootIds[i] == id && [roots[i]] in s.byPrefix && s.byPrefix[[roots[i]]] == id
  }

  ghost predicate IsRootRow(s: State, roots: seq<string>, k: nat, id: string)
    requires k <= |roots| && id in s.byId
  {
    var r := s.byId[id];
    r.rootOrdinal < k && r == RootRow(s.generation, roots, r.rootOrdinal) && r.id == id
  }

  ghost predicate RootedShape(s: State, roots: seq<string>, k: nat)
    requires k <= |roots|
  {
    && |s.rootIds| == k
    && (forall i {:trigger RootAt(s, roots, i)} | 0 <= i < k :: RootAt(s, roots, i))
    && (forall id {:trigger IsRootRow(s, roots, k, id)} | id in s.byId :: IsRootRow(s, roots, k, id))
    && (forall p {:trigger Indexed(s, p)} | p in s.byPrefix :: Indexed(s, p))
  }

  lemma {:induction false} RootedStep(t: State, roots: seq<string>, k: nat, s: State)
    requires k < |roots| && RootedShape(t, roots, k)
    requires AllMoves(roots) && Distinct(roots)
    requires var r := RootRow(t.generation, roots, k);
             s == t.(byId := t.byId[r.id := r], byPrefix := t.byPrefix[r.prefix := r.id], rootIds := t.rootIds + [r.id])
    ensures RootedShape(s, roots, k + 1)
  {
    hide IdFor;
    var r := RootRow(t.generation, roots, k);
    forall i | 0 <= i < k + 1 ensures RootAt(s, roots, i) {
      if i < k {
        assert RootAt(t, roots, i);
        assert [roots[i]][0] == roots[i] && [roots[k]][0] == roots[k];
      }
    }
    forall id | id in s.byId ensures IsRootRow(s, roots, k + 1, id) {
      if id != r.id {
        assert IsRootRow(t, roots, k, id);
      }
    }
    forall p | p in s.byPrefix ensures Indexed(s, p) {
      if p != r.prefix {
        assert Indexed(t, p);
        var id := t.byPrefix[p];
        if id == r.id {
          assert IsRootRow(t, roots, k, id);
          var i := t.byId[id].rootOrdinal;
          assert [roots[i]][0] == roots[i] && [roots[k]][0] == roots[k];
          IdInjective(t.generation, [roots[i]], t.generation, [roots[k]]);
        }
      }
    }
  }

  lemma {:induction false} RootedHolds(roots: seq<string>, owners: seq<string>, g: nat, k: nat)
    requires k <= |roots| && AllMoves(roots) && Distinct(roots)
    ensures var s := Rooted(roots, owners, g, k);
            && s.generation == g && s.owners == owners && s.roots == roots
            && !s.partitioned && s.revision == 0 && RootedShape(s, roots, k)
  {
    if k > 0 {
      RootedHolds(roots, owners, g, k - 1);
      RootedStep(Rooted(roots, owners, g, k - 1), roots, k - 1, Rooted(roots, owners, g, k));
    }
  }

  /** Any state shaped like a fresh ledger has only sound rows. */
  lemma {:induction false} RootedRow(s: State, id: string)
    requires RootedShape(s, s.roots, |s.roots|) && AllMoves(s.roots) && !s.partitioned && id in s.byId
    ensures RowOk(s, id)
  {
    hide IdFor;
    assert IsRootRow(s, s.roots, |s.roots|, id);
    var i := s.byId[id].rootOrdinal;
    assert RootAt(s, s.roots, i) && [s.roots[i]][0] == s.roots[i] && IsMove(s.roots[i]);
  }

  lemma {:induction false} RootedCore(s: State)
    requires RootedShape(s, s.roots, |s.roots|) && AllMoves(s.roots) && Distinct(s.roots) && !s.partitioned
    requires s.generation >= 1 && s.owners != [] && "" !in s.owners && Distinct(s.owners)
    ensures Core(s)
  {
    hide IdFor, RowOk, Indexed, IsRootRow;
    forall id | id in s.byId ensures RowOk(s, id) { RootedRow(s, id); }
    forall k | 0 <= k < |s.roots| ensures s.rootIds[k] == IdFor(s.generation, [s.roots[k]])
        && [s.roots[k]] in s.byPrefix {
      assert RootAt(s, s.roots, k);
    }
  }

  /** A ledger that construction accepts satisfies the invariant. */
  lemma {:induction false} CreatedKeeps(roots: seq<string>, owners: seq<string>, g: int)
    requires CheckCreate(roots, owners, g) == None
    ensures Inv(Created(roots, owners, g))
  {
    hide IdFor, Core, Walkable, RootedShape, Rooted;
    GoodRoots(roots, 0);
    NoRepeats(roots);
    RootedHolds(roots, owners, g, |roots|);
    RootedCore(Created(roots, owners, g));
    CoreWalks(Created(roots, owners, g));
  }

  // ---------------------------------------------------------------- root assignment

  lemma {:induction false} RootPrefix(s: State, m: string)
    requires Inv(s)
    ensures [m] in s.byPrefix <==> m in s.roots
    ensures m in s.roots ==> IsMove(m)
  {
    if [m] in s.byPrefix {
      assert Indexed(s, [m]) && RowOk(s, s.byPrefix[[m]]);
      var r := s.byId[s.byPrefix[[m]]];
      assert [m][0] == m && s.roots[r.rootOrdinal] == m;
    }
    if m in s.roots {
      var k :| 0 <= k < |s.roots| && s.roots[k] == m;
    }
  }

  /** What an accepted scan of one owner's moves adds to the assignment. */
  lemma {:induction false} ScannedMoves(s: State, owner: string, moves: seq<string>, j: nat, taken: map<string, string>)
    requires j <= |moves| && ScanMoves(s, owner, moves, j, taken).Ok?
    ensures var next := ScanMoves(s, owner, moves, j, taken).value;
            && (forall m | m in taken :: m in next && next[m] == taken[m])
            && (forall i | j <= i < |moves| :: moves[i] in next && next[moves[i]] == owner)
            && (forall m | m in next :: m in taken || m in moves[j..])
    ensures forall i | j <= i < |moves| :: IsMove(moves[i]) && [moves[i]] in s.byPrefix
    ensures forall i | j <= i < |moves| :: moves[i] !in moves[..i] && moves[i] !in taken
    decreases |moves| - j
  {
    if j < |moves| {
      ScannedMoves(s, owner, moves, j + 1, taken[moves[j] := owner]);
    }
  }

  /** A scan accepts any list of distinct, known, untaken moves. */
  lemma {:induction false} ScanMovesAccepts(s: State, owner: string, moves: seq<string>, j: nat,
      taken: map<string, string>)
    requires j <= |moves|
    requires forall i | j <= i < |moves| :: IsMove(moves[i]) && [moves[i]] in s.byPrefix
    requires forall i | j <= i < |moves| :: moves[i] !in moves[..i] && moves[i] !in taken
    ensures ScanMoves(s, owner, moves, j, taken).Ok?
    decreases |moves| - j
  {
    if j < |moves| {
      forall i | j + 1 <= i < |moves| ensures moves[i] !in taken[moves[j] := owner] {
        assert moves[..i][j] == moves[j];
      }
      ScanMovesAccepts(s, owner, moves, j + 1, taken[moves[j] := owner]);
    }
  }

  /** The owners from position i on hold exactly the moves the scan added. */
  ghost predicate Shares(s: State, partition: Partition, i: nat, taken: map<string, string>, next: map<string, string>)
    requires i <= |s.owners| && (forall o | o in s.owners :: o in partition)
  {
    && (forall m | m in taken :: m in next && next[m] == taken[m])
    && (forall k | i <= k < |s.owners| :: forall m | m in partition[s.owners[k]] ::
          m in next && next[m] == s.owners[k] && m !in taken && IsMove(m) && [m] in s.byPrefix)
    && (forall k | i <= k < |s.owners| :: Distinct(partition[s.owners[k]]))
    && (forall m | m in next :: m in taken || exists k | i <= k < |s.owners| :: m in partition[s.owners[k]])
  }

  lemma {:induction false} NoRepeats<T>(xs: seq<T>)
    requires forall i | 0 <= i < |xs| :: xs[i] !in xs[..i]
    ensures Distinct(xs)
  {
    forall i, j | 0 <= i < j < |xs| ensures xs[i] != xs[j] {
      assert xs[..j][i] == xs[i];
    }
  }

  /** What one accepted owner's list adds to the roots already taken. */
  ghost predicate OneShare(s: State, owner: string, moves: seq<string>, taken: map<string, string>,
      next: map<string, string>) {
    && (forall m | m in taken :: m in next && next[m] == taken[m])
    && (forall m | m in moves :: m in next && next[m] == owner && m !in taken && IsMove(m) && [m] in s.byPrefix)
    && Distinct(moves)
    && (forall m | m in next :: m in taken || m in moves)
  }

  lemma {:induction false} ScannedOwner(s: State, owner: string, moves: seq<string>, taken: map<string, string>)
    requires ScanMoves(s, owner, moves, 0, taken).Ok?
    ensures OneShare(s, owner, moves, taken, ScanMoves(s, owner, moves, 0, taken).value)
  {
    hide IsMove, ScanMoves;
    ScannedMoves(s, owner, moves, 0, taken);
    NoRepeats(moves);
  }

  lemma {:induction false} MoreShares(s: State, partition: Partition, i: nat, taken: map<string, string>,
      mid: map<string, string>, next: map<string, string>)
    requires i < |s.owners| && (forall o | o in s.owners :: o in partition)
    requires OneShare(s, s.owners[i], partition[s.owners[i]], taken, mid) && Shares(s, partition, i + 1, mid, next)
    ensures Shares(s, partition, i, taken, next)
  {
    hide IsMove, Distinct;
    forall m | m in next ensures m in taken || exists k | i <= k < |s.owners| :: m in partition[s.owners[k]] {
      if m in mid && m !in taken {
        assert m in partition[s.owners[i]];
      }
    }
  }

  lemma {:induction false} ScannedOwners(s: State, partition: Partition, i: nat, taken: map<string, string>)
    requires i <= |s.owners| && (forall o | o in s.owners :: o in partition)
    requires ScanOwners(s, partition, i, taken).Ok?
    ensures Shares(s, partition, i, taken, ScanOwners(s, partition, i, taken).value)
    decreases |s.owners| - i
  {
    hide IsMove, OneShare, ScanMoves;
    if i < |s.owners| {
      hide Shares;
      var o := s.owners[i];
      var mid := ScanMoves(s, o, partition[o], 0, taken).value;
      ScannedOwner(s, o, partition[o], taken);
      ScannedOwners(s, partition, i + 1, mid);
      MoreShares(s, partition, i, taken, mid, ScanOwners(s, partition, i + 1, mid).value);
    }
  }

  lemma {:induction false} ScanOwnersAccepts(s: State, partition: Partition, i: nat, taken: map<string, string>)
    requires i <= |s.owners| && (forall o | o in s.owners :: o in partition) && Distinct(s.owners)
    requires forall k | i <= k < |s.owners| :: Distinct(partition[s.owners[k]])
    requires forall k | i <= k < |s.owners| :: forall m | m in partition[s.owners[k]] ::
               IsMove(m) && [m] in s.byPrefix && m !in taken
    requires forall k, l | i <= k < l < |s.owners| ::
               forall m | m in partition[s.owners[k]] :: m !in partition[s.owners[l]]
    ensures ScanOwners(s, partition, i, taken).Ok?
    decreases |s.owners| - i
  {
    if i < |s.owners| {
      var o := s.owners[i];
      assert forall j | 0 <= j < |partition[o]| :: partition[o][j] in partition[o];
      ScanMovesAccepts(s, o, partition[o], 0, taken);
      ScannedMoves(s, o, partition[o], 0, taken);
      ScanOwnersAccepts(s, partition, i + 1, ScanMoves(s, o, partition[o], 0, taken).value);
    }
  }

  /** The partition gives every owner a duplicate-free list and every candidate root to exactly one owner. */
  ghost predicate ExactPartition(s: State, partition: Partition) {
    && partition.Keys == (set o | o in s.owners)
    && (forall k | 0 <= k < |s.owners| :: Distinct(partition[s.owners[k]]))
    && (forall k | 0 <= k < |s.owners| :: forall m | m in partition[s.owners[k]] :: m in s.roots)
    && (forall m | m in s.roots :: exists k | 0 <= k < |s.owners| :: m in partition[s.owners[k]])
    && (forall k, l | 0 <= k < l < |s.owners| ::
          forall m | m in partition[s.owners[k]] :: m !in partition[s.owners[l]])
  }

  lemma {:induction false} DistinctCount<T>(xs: seq<T>)
    requires Distinct(xs)
    ensures |set x | x in xs| == |xs|
  {
    if |xs| > 0 {
      var init := xs[..|xs| - 1];
      DistinctCount(init);
      assert (set x | x in xs) == (set x | x in init) + {xs[|xs| - 1]};
    }
  }

  /** The owner of every root under an accepted partition. */
  ghost predicate Assigns(s: State, partition: Partition, taken: map<string, string>) {
    && taken.Keys == (set m | m in s.roots)
    && forall m | m in taken ::
         taken[m] in s.owners && taken[m] in partition && m in partition[taken[m]]
  }

  ghost predicate RootsIndexed(s: State) {
    forall m {:trigger m in s.roots} {:trigger [m] in s.byPrefix} ::
      ([m] in s.byPrefix <==> m in s.roots) && (m in s.roots ==> IsMove(m))
  }

  lemma {:induction false} InvIndexesRoots(s: State)
    requires Inv(s)
    ensures RootsIndexed(s)
  {
    forall m ensures ([m] in s.byPrefix <==> m in s.roots) && (m in s.roots ==> IsMove(m)) {
      RootPrefix(s, m);
    }
  }

  lemma {:induction false} SharesAssign(s: State, partition: Partition, taken: map<string, string>)
    requires RootsIndexed(s) && partition.Keys == (set o | o in s.owners)
    requires Shares(s, partition, 0, map[], taken)
    requires forall k | 0 <= k < |s.roots| :: s.roots[k] in taken
    ensures Assigns(s, partition, taken)
  {
    hide IsMove;
    forall m | m in taken
      ensures m in s.roots && taken[m] in s.owners && taken[m] in partition && m in partition[taken[m]]
    {
      var k :| 0 <= k < |s.owners| && m in partition[s.owners[k]];
    }
  }

  lemma {:induction false} SharesExact(s: State, partition: Partition, taken: map<string, string>)
    requires RootsIndexed(s) && Distinct(s.owners) && partition.Keys == (set o | o in s.owners)
    requires Shares(s, partition, 0, map[], taken)
    requires forall k | 0 <= k < |s.roots| :: s.roots[k] in taken
    ensures ExactPartition(s, partition) && Assigns(s, partition, taken)
  {
    hide IsMove, Assigns;
    SharesAssign(s, partition, taken);
    forall m | m in s.roots ensures exists k | 0 <= k < |s.owners| :: m in partition[s.owners[k]] {
      var i :| 0 <= i < |s.roots| && s.roots[i] == m;
    }
    forall k, l | 0 <= k < l < |s.owners|
      ensures forall m | m in partition[s.owners[k]] :: m !in partition[s.owners[l]]
    {
      assert s.owners[k] != s.owners[l];
    }
  }

  lemma {:induction false} AcceptedAssignment(s: State, partition: Partition)
    requires Inv(s) && Assignment(s, partition).Ok?
    ensures !s.partitioned && ExactPartition(s, partition)
    ensures Assigns(s, partition, Assignment(s, partition).value)
    ensures Shares(s, partition, 0, map[], Assignment(s, partition).value)
  {
    InvIndexesRoots(s);
    ScannedOwners(s, partition, 0, map[]);
    SharesExact(s, partition, Assignment(s, partition).value);
  }

  lemma {:induction false} ExactAccepted(s: State, partition: Partition)
    requires RootsIndexed(s) && Distinct(s.owners) && ExactPartition(s, partition)
    ensures ScanOwners(s, partition, 0, map[]).Ok?
    ensures Shares(s, partition, 0, map[], ScanOwners(s, partition, 0, map[]).value)
    ensures forall k | 0 <= k < |s.roots| :: s.roots[k] in ScanOwners(s, partition, 0, map[]).value
  {
    ScanOwnersAccepts(s, partition, 0, map[]);
    ScannedOwners(s, partition, 0, map[]);
    forall k | 0 <= k < |s.roots| ensures s.roots[k] in ScanOwners(s, partition, 0, map[]).value {
      assert s.roots[k] in s.roots;
    }
  }

  lemma {:induction false} CoverageCounts(s: State, taken: map<string, string>)
    requires Distinct(s.roots) && taken.Keys == (set m | m in s.roots)
    ensures |taken| == |s.roots|
  {
    DistinctCount(s.roots);
  }

  lemma {:induction false} ScanDecides(s: State, partition: Partition)
    requires RootsIndexed(s) && Distinct(s.owners) && Distinct(s.roots)
    requires partition.Keys == (set o | o in s.owners)
    ensures var scan := ScanOwners(s, partition, 0, map[]);
            var covers := scan.Ok? && forall k | 0 <= k < |s.roots| :: s.roots[k] in scan.value;
            && (covers <==> ExactPartition(s, partition))
            && (covers ==> |scan.value| == |s.roots|)
  {
    if ExactPartition(s, partition) {
      ExactAccepted(s, partition);
    }
    var scan := ScanOwners(s, partition, 0, map[]);
    if scan.Ok? && forall k | 0 <= k < |s.roots| :: s.roots[k] in scan.value {
      ScannedOwners(s, partition, 0, map[]);
      SharesExact(s, partition, scan.value);
      CoverageCounts(s, scan.value);
    }
  }

  /** Root assignment succeeds exactly on an exact partition of the roots, once per ledger. */
  lemma {:induction false} AssignmentIff(s: State, partition: Partition)
    requires Inv(s)
    ensures Assignment(s, partition).Ok? <==> !s.partitioned && ExactPartition(s, partition)
    ensures Assignment(s, partition) != Err(CoverageMismatch)
  {
    InvIndexesRoots(s);
    if partition.Keys == (set o | o in s.owners) {
      NoCoverageErrorInScan(s, partition, 0, map[]);
      ScanDecides(s, partition);
    }
  }

  lemma {:induction false} NoCoverageErrorInMoves(s: State, owner: string, moves: seq<string>, j: nat,
      taken: map<string, string>)
    requires j <= |moves|
    ensures ScanMoves(s, owner, moves, j, taken) != Err(CoverageMismatch)
    decreases |moves| - j
  {
    if j < |moves| {
      NoCoverageErrorInMoves(s, owner, moves, j + 1, taken[moves[j] := owner]);
    }
  }

  lemma {:induction false} NoCoverageErrorInScan(s: State, partition: Partition, i: nat, taken: map<string, string>)
    requires i <= |s.owners| && (forall o | o in s.owners :: o in partition)
    ensures ScanOwners(s, partition, i, taken) != Err(CoverageMismatch)
    decreases |s.owners| - i
  {
    if i < |s.owners| {
      var o := s.owners[i];
      NoCoverageErrorInMoves(s, o, partition[o], 0, taken);
      var r := ScanMoves(s, o, partition[o], 0, taken);
      if r.Ok? {
        NoCoverageErrorInScan(s, partition, i + 1, r.value);
      }
    }
  }

  lemma {:induction false} HasRetiredParent(s: State, id: string)
    requires Inv(s) && id in s.byId && |s.byId[id].prefix| > 1
    ensures s.partitioned
  {
    assert RowOk(s, id);
    assert RowOk(s, s.byId[id].parentId.value);
  }

  /** Before assignment the shards are exactly the unowned, childless roots. */
  lemma {:induction false} UnassignedAreRoots(s: State, id: string)
    requires Inv(s) && !s.partitioned && id in s.byId
    ensures var r := s.byId[id];
            && |r.prefix| == 1 && r.prefix[0] in s.roots && r.parentId == None && r.childIds == []
  {
    assert RowOk(s, id);
    var r := s.byId[id];
    if |r.prefix| > 1 {
      HasRetiredParent(s, id);
    }
  }

  lemma {:induction false} AssignKeeps(s: State, partition: Partition)
    requires Inv(s) && Assignment(s, partition).Ok?
    ensures Inv(DoAssign(s, Assignment(s, partition).value))
  {
    var taken := Assignment(s, partition).value;
    AcceptedAssignment(s, partition);
    LeasingKeeps(s, partition, taken);
  }

  lemma {:induction false} LeasingKeeps(s: State, partition: Partition, taken: map<string, string>)
    requires Inv(s) && !s.partitioned && Assigns(s, partition, taken)
    ensures Inv(DoAssign(s, taken))
  {
    hide IdFor;
    var t := DoAssign(s, taken);
    forall id | id in t.byId ensures RowOk(t, id) {
      assert RowOk(s, id);
      UnassignedAreRoots(s, id);
      assert t.byId[id] == Leasing(s.byId[id], taken);
    }
    forall p | p in t.byPrefix ensures Indexed(t, p) {
      assert Indexed(s, p);
    }
    CoreWalks(t);
  }

  // ---------------------------------------------------------------- activate, seal, transfer

  /** Changing only owner and state of childless, already owned rows keeps the invariant. */
  lemma {:induction false} RelabelKeeps(s: State, t: State)
    requires Inv(s) && t == s.(byId := t.byId, revision := t.revision) && t.byId.Keys == s.byId.Keys
    requires forall id | id in s.byId ::
               t.byId[id] == s.byId[id].(owner := t.byId[id].owner, state := t.byId[id].state)
    requires forall id {:trigger Owned(t, t.byId[id])} | id in s.byId :: Owned(t, t.byId[id])
    ensures Inv(t)
  {
    forall id | id in t.byId ensures RowOk(t, id) {
      assert RowOk(s, id);
      assert Owned(t, t.byId[id]);
    }
    forall p | p in t.byPrefix ensures Indexed(t, p) {
      assert Indexed(s, p);
    }
    CoreWalks(t);
  }

  lemma {:induction false} AdvanceKeeps(s: State, id: string, owner: string, from: ShardState, to: ShardState)
    requires Inv(s) && CheckAdvance(s, id, owner, from) == None
    requires (from == Leased && to == Active) || (from == Active && to == Sealed)
    ensures Inv(DoAdvance(s, id, to))
  {
    var t := DoAdvance(s, id, to);
    forall i | i in s.byId ensures Owned(t, t.byId[i]) {
      assert RowOk(s, i);
    }
    RelabelKeeps(s, t);
  }

  lemma {:induction false} ScannedTransfer(s: State, ids: seq<string>, k: nat, from: string)
    requires k <= |ids| && ScanTransfer(s, ids, k, from) == None
    ensures forall i | k <= i < |ids| ::
              && ids[i] in s.byId && s.byId[ids[i]].childIds == []
              && s.byId[ids[i]].state == Leased && s.byId[ids[i]].owner == Some(from)
    decreases |ids| - k
  {
    if k < |ids| {
      ScannedTransfer(s, ids, k + 1, from);
    }
  }

  lemma {:induction false} TransferKeeps(s: State, ids: seq<string>, from: string, to: string)
    requires Inv(s) && CheckTransfer(s, ids, from, to) == None
    ensures Inv(DoTransfer(s, ids, to))
  {
    ScannedTransfer(s, ids, 0, from);
    var t := DoTransfer(s, ids, to);
    forall i | i in s.byId ensures Owned(t, t.byId[i]) {
      assert RowOk(s, i);
    }
    RelabelKeeps(s, t);
  }
}
