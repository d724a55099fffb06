/** The race keeps its invariant at every statement of every interleaving, and what follows from that. */
module ClockRaceSafety {
  import opened Wrappers
  import opened ClockOutcome
  import opened ClockRace

  // ---------------------------------------------------------------- one statement, seen by everyone

  predicate AllFacts(s: State) { forall i {:trigger FactsAt(s, i)} | 0 <= i < |s.threads| :: FactsAt(s, i) }

  lemma {:induction false} ActLocks(s: State, i: nat)
    requires CanAct(s, i) && Locks(s) && AllFacts(s)
    ensures Locks(Act(s, i))
  {
    hide Facts, OnPath, HasGate, HasLock, Proceed, Effect, Decided, Writes;
    var t, s' := s.threads[i], Act(s, i);
    assert FactsAt(s, i) && Locked(s, i);
    OnItsPath(t, s.shared, s.hard);
    LocalLocks(t, s.shared, s.now, s.hard);
    AtTheLocks(t);
    forall j | 0 <= j < |s'.threads| ensures Locked(s', j) {
      assert Locked(s, j);
    }
  }

  lemma {:induction false} OnItsPath(t: Thread, sh: Shared, hard: real)
    requires Facts(t, sh, hard)
    ensures OnPath(t.op, t.pc)
  {
  }

  lemma {:induction false} AtTheLocks(t: Thread)
    requires OnPath(t.op, t.pc)
    ensures (t.pc == WantGate ==> !HasGate(t)) && (t.pc == DropGate ==> HasGate(t) && !HasLock(t))
    ensures (t.pc == WantLock ==> !HasLock(t)) && (t.pc == DropLock ==> HasLock(t))
  {
  }

  lemma {:induction false} ActFacts(s: State, i: nat)
    requires CanAct(s, i) && Locks(s) && AllFacts(s)
    ensures AllFacts(Act(s, i))
  {
    hide Facts, OnPath, HasGate, HasLock, Proceed, Effect, Decided, Writes;
    var t, s' := s.threads[i], Act(s, i);
    assert FactsAt(s, i) && Locked(s, i);
    OnItsPath(t, s.shared, s.hard);
    LocalFacts(t, s.shared, s.now, s.hard);
    LocalFrame(t, s.shared, s.now);
    forall j | 0 <= j < |s'.threads| ensures FactsAt(s', j) {
      if j != i {
        assert FactsAt(s, j) && Locked(s, j);
        FactsSurvive(s.threads[j], s.shared, s'.shared, s.hard);
      }
    }
  }

  lemma {:induction false} NotedByLog(s: State, i: nat)
    requires CanAct(s, i)
    ensures Recorded(Act(s, i)) == Noted(Recorded(s), i, s.threads[i], Act(s, i).threads[i], s.hard)
  {
    hide Proceed, Effect, Take, Writes;
    var u := Act(s, i).threads[i];
    if s.threads[i].verdict == None && u.verdict.Some? {
      Appended(s.log, Entry(i, u.op, u.checked, u.stamp, u.verdict.value), s.hard);
    } else {
      assert s.log + [] == s.log;
    }
  }

  /** A block operation that holds the gate shuts out a commitment in progress. */
  lemma {:induction false} NoCommitAhead(s: State, i: nat)
    requires i < |s.threads| && Locks(s) && AllFacts(s) && s.threads[i].op.Block? && HasGate(s.threads[i])
    ensures !CommitAhead(Holder(s, s.lock))
  {
    hide Facts;
    assert Locked(s, i);
    if s.lock.Some? {
      assert Locked(s, s.lock.value) && FactsAt(s, s.lock.value);
      OnItsPath(s.threads[s.lock.value], s.shared, s.hard);
    }
  }

  predicate Agrees(s: State)
    requires Locks(s)
  {
    LockAgrees(s.shared, Recorded(s), Holder(s, s.lock)) && GateAgrees(s.shared, Recorded(s), Holder(s, s.gate))
  }

  lemma {:induction false} ActLockAgrees(s: State, i: nat)
    requires CanAct(s, i) && Locks(s) && AllFacts(s) && Agrees(s)
    ensures Locks(Act(s, i))
    ensures LockAgrees(Act(s, i).shared, Recorded(Act(s, i)), Holder(Act(s, i), Act(s, i).lock))
  {
    hide Facts, OnPath, HasGate, HasLock, Proceed, Effect;
    hide LockAgrees, GateAgrees, Noted, Decided, Writes, Recorded, CommitAhead;
    var t, s', a := s.threads[i], Act(s, i), Recorded(s);
    assert FactsAt(s, i) && Locked(s, i);
    OnItsPath(t, s.shared, s.hard);
    AtTheLocks(t);
    ActLocks(s, i);
    NotedByLog(s, i);
    LocalLocks(t, s.shared, s.now, s.hard);
    if HasLock(t) {
      LockActor(t, s.shared, a, i, s.now, s.hard);
    } else {
      if t.op.Block? { BlockGate(s, i); }
      UnlockedNote(t, s.shared, a, i, Holder(s, s.lock), s.now, s.hard);
      LockOther(s.shared, s'.shared, a, Recorded(s'), Holder(s, s.lock));
      if t.pc == WantLock { Acquired(s, i); }
    }
  }

  lemma {:induction false} BlockGate(s: State, i: nat)
    requires CanAct(s, i) && Locks(s) && AllFacts(s) && s.threads[i].op.Block?
    ensures !CommitAhead(Holder(s, s.lock))
  {
    hide Facts, CommitAhead;
    assert FactsAt(s, i) && Locked(s, i);
    OnItsPath(s.threads[i], s.shared, s.hard);
    if HasGate(s.threads[i]) { NoCommitAhead(s, i); } else { FreeGate(s); }
  }

  lemma {:induction false} FreeGate(s: State)
    requires Locks(s) && AllFacts(s) && s.gate == None
    ensures !CommitAhead(Holder(s, s.lock))
  {
    hide Facts;
    if s.lock.Some? {
      assert Locked(s, s.lock.value) && FactsAt(s, s.lock.value);
      OnItsPath(s.threads[s.lock.value], s.shared, s.hard);
    }
  }

  lemma {:induction false} Acquired(s: State, i: nat)
    requires CanAct(s, i) && s.threads[i].pc == WantLock && Locks(s) && AllFacts(s) && Agrees(s)
    ensures LockAgrees(Act(s, i).shared, Recorded(Act(s, i)), Some(Act(s, i).threads[i]))
  {
    hide Facts, OnPath, HasGate, HasLock, Proceed, Effect, LockAgrees, GateAgrees, Noted, Decided, Writes, Recorded;
    var t := s.threads[i];
    assert FactsAt(s, i);
    OnItsPath(t, s.shared, s.hard);
    NotedByLog(s, i);
    LockAcquired(t, s.shared, Recorded(s), s.now, s.hard);
    NothingNoted(t, Recorded(s), i, s.shared, s.now, s.hard);
  }

  lemma {:induction false} NothingNoted(t: Thread, a: Shared, i: nat, sh: Shared, now: real, hard: real)
    requires t.pc == WantLock
    ensures Noted(a, i, t, Proceed(t, sh, now, hard), hard) == a
  {
  }

  lemma {:induction false} ActGateAgrees(s: State, i: nat)
    requires CanAct(s, i) && Locks(s) && AllFacts(s) && Agrees(s)
    ensures Locks(Act(s, i))
    ensures GateAgrees(Act(s, i).shared, Recorded(Act(s, i)), Holder(Act(s, i), Act(s, i).gate))
  {
    hide Facts, OnPath, HasGate, HasLock, Proceed, Effect;
    hide LockAgrees, GateAgrees, Noted, Decided, Writes, Recorded, CommitAhead;
    var t, s', a := s.threads[i], Act(s, i), Recorded(s);
    assert FactsAt(s, i) && Locked(s, i);
    OnItsPath(t, s.shared, s.hard);
    AtTheLocks(t);
    ActLocks(s, i);
    NotedByLog(s, i);
    LocalLocks(t, s.shared, s.now, s.hard);
    if HasGate(t) {
      if t.op.Block? {
        BlockGate(s, i);
        GateBlockActor(t, s.shared, a, i, Holder(s, s.lock), s.now, s.hard);
      } else if HasLock(t) {
        GateLockedActor(t, s.shared, a, i, s.now, s.hard);
      } else {
        GateIdleActor(t, s.shared, a, i, s.now, s.hard);
      }
    } else if t.pc == WantGate {
      if t.op.Block? {
        GateBlockAcquired(t, s.shared, a, i, s.now, s.hard);
      } else {
        WantsBoth(t);
        GateIdleActor(t, s.shared, a, i, s.now, s.hard);
      }
    } else {
      UngatedNote(t, s.shared, a, i, s.now, s.hard);
      GateOther(s.shared, s'.shared, a, Recorded(s'), Holder(s, s.gate));
    }
  }

  lemma {:induction false} WantsBoth(t: Thread)
    requires t.pc == WantGate
    ensures !HasLock(t)
  {
  }

  // ---------------------------------------------------------------- the record

  lemma {:induction false} VerdictStays(t: Thread, sh: Shared, now: real, hard: real)
    requires Facts(t, sh, hard)
    ensures var u := Proceed(t, sh, now, hard);
            && u.op == t.op
            && (t.verdict.Some? ==> u.verdict == t.verdict && u.checked == t.checked && u.stamp == t.stamp)
  {
    hide Values, Flags, Guards;
  }

  /** The verdict a statement decides is the one the operation gives when run alone after those recorded before. */
  lemma {:induction false} ActAnswers(s: State, i: nat)
    requires CanAct(s, i) && Locks(s) && AllFacts(s) && Agrees(s)
    ensures var t, u := s.threads[i], Act(s, i).threads[i];
            t.verdict == None && u.verdict.Some? ==> u.verdict.value == Answer(Recorded(s), u.op, u.checked >= s.hard)
  {
    hide Facts, OnPath, HasGate, HasLock, Proceed, Effect;
    hide LockAgrees, GateAgrees, Decided, Writes, Recorded, CommitAhead, Answer;
    var t := s.threads[i];
    assert FactsAt(s, i) && Locked(s, i);
    if HasLock(t) {
      LockedAnswer(t, s.shared, Recorded(s), s.now, s.hard);
    } else if t.op.Block? {
      BlockGate(s, i);
      BlockAnswer(t, s.shared, Recorded(s), Holder(s, s.lock), s.now, s.hard);
    } else {
      IdleAnswer(t, s.shared, s.now, s.hard);
    }
  }

  lemma {:induction false} CallsAppend(log: seq<Entry>, e: Entry, j: nat)
    ensures Calls(log + [e], j) == Calls(log, j) + (if e.Entry? && e.who == j then 1 else 0)
    ensures Publications(log + [e]) == Publications(log) + (if Terminal(e) && e.op.Publish? then 1 else 0)
  {
    hide Terminal;
    assert (log + [e])[..|log|] == log;
  }

  lemma {:induction false} ActBook(s: State, i: nat)
    requires CanAct(s, i) && Locks(s) && AllFacts(s) && Agrees(s) && Book(s)
    ensures Book(Act(s, i))
  {
    hide Facts, Proceed, Effect, Writes, Recorded, Answer, Legal, Replay, Calls, Locks, Agrees;
    var s' := Act(s, i);
    var t, u := s.threads[i], s'.threads[i];
    assert FactsAt(s, i);
    VerdictStays(t, s.shared, s.now, s.hard);
    var extra := Decided(i, t, u);
    forall k | 0 <= k < |s.log| ensures Owned(s', s.log[k]) { assert Owned(s, s.log[k]); }
    if extra == [] {
      assert s.log + [] == s.log;
      assert forall j | 0 <= j < |s.threads| :: Calls(s.log, j) == if s.threads[j].verdict.Some? then 1 else 0;
    } else {
      var e := extra[0];
      ActAnswers(s, i);
      Appended(s.log, e, s.hard);
      assert Recorded(s) == Replay(s.log, s.hard) by { RecordedIs(s); }
      assert s'.log == s.log + [e];
      assert Owned(s', e);
      forall j | 0 <= j < |s'.threads| ensures Calls(s'.log, j) == if s'.threads[j].verdict.Some? then 1 else 0 {
        CallsAppend(s.log, e, j);
        assert Calls(s.log, j) == if s.threads[j].verdict.Some? then 1 else 0;
      }
    }
  }

  lemma {:induction false} RecordedIs(s: State)
    ensures Recorded(s) == Replay(s.log, s.hard)
  {
  }

  function One(b: bool): nat { if b then 1 else 0 }

  /** A write is either still ahead of the record or recorded as a publication. */
  lemma {:induction false} WriteBalance(t: Thread, sh: Shared, now: real, hard: real)
    requires Facts(t, sh, hard)
    ensures var u := Proceed(t, sh, now, hard);
            One(Writes(t)) + One(WriteAhead(Some(t)))
            == One(t.verdict == None && u.verdict.Some? && u.op.Publish? && u.verdict.value == Published)
               + One(WriteAhead(Some(u)))
    ensures HasLock(t) || (!WriteAhead(Some(t)) && !Writes(t))
    ensures HasLock(Proceed(t, sh, now, hard)) || !WriteAhead(Some(Proceed(t, sh, now, hard)))
  {
    hide Values, Flags, Guards;
  }

  lemma {:induction false} ActWrites(s: State, i: nat)
    requires CanAct(s, i) && Locks(s) && AllFacts(s)
    requires s.writes == Publications(s.log) + One(WriteAhead(Holder(s, s.lock)))
    ensures Locks(Act(s, i))
    ensures Act(s, i).writes == Publications(Act(s, i).log) + One(WriteAhead(Holder(Act(s, i), Act(s, i).lock)))
  {
    hide Facts, OnPath, HasGate, HasLock, Proceed, Effect, Writes, WriteAhead, Publications;
    var s' := Act(s, i);
    var t, u := s.threads[i], s'.threads[i];
    assert FactsAt(s, i) && Locked(s, i);
    ActLocks(s, i);
    assert Locked(s', i);
    WriteBalance(t, s.shared, s.now, s.hard);
    VerdictStays(t, s.shared, s.now, s.hard);
    NobodyAhead();
    assert s.log + [] == s.log;
    if Decided(i, t, u) != [] { CallsAppend(s.log, Decided(i, t, u)[0], i); }
    OnItsPath(t, s.shared, s.hard);
    AtTheLocks(t);
    LocalLocks(t, s.shared, s.now, s.hard);
    if HasLock(t) || HasLock(u) {
      WhoHolds(s, s', i);
    } else {
      assert s'.lock == s.lock && s.lock != Some(i);
    }
  }

  lemma {:induction false} NobodyAhead()
    ensures !WriteAhead(None)
  {
  }

  /** Around a statement of a thread that holds the lock before or after it, nobody else holds it. */
  lemma {:induction false} WhoHolds(s: State, s': State, i: nat)
    requires Locks(s) && Locks(s') && i < |s.threads| == |s'.threads|
    requires HasLock(s.threads[i]) || (s.lock == None && HasLock(s'.threads[i]))
    requires !HasLock(s'.threads[i]) ==> s'.lock == None
    ensures HasLock(s.threads[i]) ==> Holder(s, s.lock) == Some(s.threads[i])
    ensures HasLock(s'.threads[i]) ==> Holder(s', s'.lock) == Some(s'.threads[i])
  {
    hide HasLock, HasGate;
    assert Locked(s, i) && Locked(s', i);
  }
}
