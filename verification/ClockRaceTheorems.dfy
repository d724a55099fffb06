/** What holds in every state of every interleaving of publish, fail, finish and block. */
module ClockRaceTheorems {
  import opened Wrappers
  import opened ClockOutcome
  import opened ClockRace
  import opened ClockRaceSafety

  // ---------------------------------------------------------------- the invariant over whole runs

  lemma {:induction false} ActSound(s: State, i: nat)
    requires Sound(s) && CanAct(s, i)
    ensures Sound(Act(s, i))
  {
    hide CanAct, Act, Locks, FactsAt, LockAgrees, GateAgrees, Book, WriteAhead, Recorded, Publications;
    ActLocks(s, i);
    ActFacts(s, i);
    ActLockAgrees(s, i);
    ActGateAgrees(s, i);
    ActBook(s, i);
    ActWrites(s, i);
  }

  lemma {:induction false} CloseSound(s: State)
    requires Sound(s)
    ensures Sound(Step(s, SoftClose))
  {
    hide Facts, Legal, Replay, Calls, Publications, WriteAhead, HasGate, HasLock;
    var s' := Step(s, SoftClose);
    Appended(s.log, CloseWork, s.hard);
    forall i | 0 <= i < |s'.threads| ensures Locked(s', i) && FactsAt(s', i) {
      assert Locked(s, i) && FactsAt(s, i);
      FactsSurvive(s.threads[i], s.shared, s'.shared, s.hard);
    }
    forall k | 0 <= k < |s'.log| ensures Owned(s', s'.log[k]) { assert k < |s.log| ==> Owned(s, s.log[k]); }
    forall i | 0 <= i < |s'.threads| ensures Calls(s'.log, i) == if s'.threads[i].verdict.Some? then 1 else 0 {
      CallsAppend(s.log, CloseWork, i);
      assert Calls(s.log, i) == if s.threads[i].verdict.Some? then 1 else 0;
    }
    CallsAppend(s.log, CloseWork, 0);
  }

  lemma {:induction false} TickSound(s: State, elapsed: real)
    requires Sound(s)
    ensures Sound(s.(now := s.now + elapsed))
  {
    hide Facts, Legal, Replay, Calls, Publications, WriteAhead, HasGate, HasLock, LockAgrees, GateAgrees;
    var s' := s.(now := s.now + elapsed);
    forall i | 0 <= i < |s'.threads| ensures Locked(s', i) && FactsAt(s', i) { assert Locked(s, i) && FactsAt(s, i); }
    forall k | 0 <= k < |s'.log| ensures Owned(s', s'.log[k]) { assert Owned(s, s.log[k]); }
    forall i | 0 <= i < |s'.threads| ensures Calls(s'.log, i) == if s'.threads[i].verdict.Some? then 1 else 0 {
      assert Calls(s.log, i) == if s.threads[i].verdict.Some? then 1 else 0;
    }
  }

  /** Every statement of every thread, every tick and every soft close keeps the invariant. */
  lemma {:induction false} StepSound(s: State, e: Event)
    requires Sound(s) && Possible(s, e)
    ensures Sound(Step(s, e))
  {
    hide Sound, Act, CanAct;
    match e
    case Tick(elapsed) => TickSound(s, elapsed);
    case SoftClose => CloseSound(s);
    case Run(i) => ActSound(s, i);
  }

  lemma {:induction false} RunSound(s: State, es: seq<Event>)
    requires Sound(s) && Feasible(s, es)
    ensures Sound(RunAll(s, es))
    decreases |es|
  {
    hide Sound, Step, Possible;
    if |es| > 0 {
      StepSound(s, es[0]);
      RunSound(Step(s, es[0]), es[1..]);
    }
  }

  lemma {:induction false} BegunIsShaped(op: Op, hard: real)
    ensures Facts(Begun(op), FRESH, hard) && !HasGate(Begun(op)) && !HasLock(Begun(op))
  {
  }

  lemma {:induction false} StartSound(ops: seq<Op>, now: real, hard: real)
    ensures Sound(Start(ops, now, hard))
  {
    hide Facts, HasGate, HasLock;
    var s := Start(ops, now, hard);
    forall i | 0 <= i < |s.threads| ensures Locked(s, i) && FactsAt(s, i) { BegunIsShaped(ops[i], hard); }
    forall i | 0 <= i < |s.threads| ensures Calls(s.log, i) == if s.threads[i].verdict.Some? then 1 else 0 { }
  }

  // ---------------------------------------------------------------- at most one write, one end

  lemma {:induction false} PublicationsEnd(log: seq<Entry>)
    ensures Publications(log) <= Terminals(log)
  {
    hide Terminal;
    if |log| > 0 { PublicationsEnd(log[..|log| - 1]); }
  }

  lemma {:induction false} HolderUnfinished(s: State)
    requires Sound(s) && s.lock.Some?
    ensures var t := s.threads[s.lock.value];
            Facts(t, s.shared, s.hard) && HasLock(t) && (Past(t, ReadFinished) ==> !s.shared.finished)
  {
    hide HasGate, LockAgrees, GateAgrees, Book, Publications;
    assert Locked(s, s.lock.value) && FactsAt(s, s.lock.value);
  }

  /** At most one write is ever accepted, and a search ends at most once. */
  lemma {:induction false} AtMostOneWrite(s: State)
    requires Sound(s)
    ensures s.writes <= 1 && Terminals(s.log) <= 1
    ensures s.shared.finished <==> Terminals(s.log) == 1
  {
    hide FactsAt, HasGate, HasLock, Facts, GateAgrees, Legal, Replay, Publications, Terminals, Calls;
    EndsOnce(s.log, s.hard);
    PublicationsEnd(s.log);
    if s.lock.Some? { HolderUnfinished(s); }
  }

  /** Once the search is finished no later statement changes its line, failure, time or commitment. */
  lemma {:induction false} EndStands(s: State, es: seq<Event>)
    requires Sound(s) && Feasible(s, es) && s.shared.finished
    ensures var a, b := s.shared, RunAll(s, es).shared;
            b.finished && b.line == a.line && b.failure == a.failure && b.emitted == a.emitted
                && b.committed == a.committed
    decreases |es|
  {
    hide Sound, Act, CanAct;
    if |es| > 0 {
      StepSound(s, es[0]);
      if es[0].Run? { EndStandsOnce(s, es[0].who); }
      EndStands(Step(s, es[0]), es[1..]);
    }
  }

  lemma {:induction false} EndStandsOnce(s: State, i: nat)
    requires Sound(s) && CanAct(s, i) && s.shared.finished
    ensures var a, b := s.shared, Act(s, i).shared;
            b.finished && b.line == a.line && b.failure == a.failure && b.emitted == a.emitted
                && b.committed == a.committed
  {
    hide LockAgrees, GateAgrees, Book, Publications, WriteAhead, Locks;
    assert FactsAt(s, i);
    NoMarksAfterEnd(s.threads[i], s.shared, s.now, s.hard);
  }

  lemma {:induction false} NoMarksAfterEnd(t: Thread, sh: Shared, now: real, hard: real)
    requires Facts(t, sh, hard) && sh.finished
    ensures Effect(t, sh, now) == sh.(blocked := Effect(t, sh, now).blocked)
  {
    hide Values, Flags;
  }

  // ---------------------------------------------------------------- authority

  /**
   Committed authority is never blocked and never a failure; as soon as the committing thread lets go of the lock the
   search is finished.
   */
  lemma {:induction false} CommittedIsSafe(s: State)
    requires Sound(s) && s.shared.committed
    ensures !s.shared.blocked && s.shared.failure == None
    ensures s.shared.finished || (s.lock.Some? && s.threads[s.lock.value].pc == MarkFinished)
  {
    hide Locked, FactsAt, Facts, Book, Replay, Publications, WriteAhead, HasGate, HasLock;
    CommittedIsFinal(s.log, s.hard);
    var a := Recorded(s);
    if s.lock.Some? { HolderFacts(s); }
    if CommitAhead(Holder(s, s.lock)) {
    } else {
      assert a.committed && a.finished && s.shared.finished;
      if s.gate.Some? { GateFacts(s); }
    }
  }

  lemma {:induction false} HolderFacts(s: State)
    requires Sound(s) && s.lock.Some?
    ensures var t := s.threads[s.lock.value];
            && (Past(t, MarkFailure) ==> !s.shared.finished)
            && (CommitAhead(Some(t)) ==> !s.shared.blocked && s.shared.failure == None && t.pc == MarkFinished)
  {
    hide Locked, LockAgrees, GateAgrees, Book, Publications, WriteAhead;
    HolderUnfinished(s);
    LateFacts(s.threads[s.lock.value], s.shared, s.hard);
  }

  lemma {:induction false} LateFacts(t: Thread, sh: Shared, hard: real)
    requires Facts(t, sh, hard)
    ensures CommitAhead(Some(t)) ==> !sh.blocked && sh.failure == None && t.pc == MarkFinished
  {
  }

  lemma {:induction false} GateFacts(s: State)
    requires Sound(s) && s.gate.Some?
    ensures var t := s.threads[s.gate.value]; t.op.Fail? && Past(t, MarkBlocked) ==> !s.shared.finished
  {
    hide Locked, LockAgrees, GateAgrees, Book, Publications, WriteAhead, Values, Flags;
    assert FactsAt(s, s.gate.value);
  }

  /** A publish whose deadline check came at or after hard expiry has its refusal for good. */
  lemma {:induction false} LateNeverPublishes(s: State, i: nat, es: seq<Event>)
    requires Sound(s) && CanAct(s, i) && s.threads[i].op.Publish? && s.threads[i].pc == ReadDeadline && s.now >= s.hard
    requires Feasible(Act(s, i), es)
    ensures var r := RunAll(Act(s, i), es); i < |r.threads| && r.threads[i].verdict == Some(Expired)
  {
    hide Sound;
    ActSound(s, i);
    VerdictIsFinal(Act(s, i), i, es);
  }

  /** A verdict, once decided, is kept to the end of every run. */
  lemma {:induction false} VerdictIsFinal(s: State, i: nat, es: seq<Event>)
    requires Sound(s) && Feasible(s, es) && i < |s.threads| && s.threads[i].verdict.Some?
    ensures var r := RunAll(s, es); i < |r.threads| && r.threads[i].verdict == s.threads[i].verdict
    decreases |es|
  {
    hide Sound, Proceed, Effect, Decided, Writes;
    if |es| > 0 {
      StepSound(s, es[0]);
      if es[0].Run? { KeepsVerdict(s, es[0].who); }
      VerdictIsFinal(Step(s, es[0]), i, es[1..]);
    }
  }

  lemma {:induction false} KeepsVerdict(s: State, j: nat)
    requires Sound(s) && CanAct(s, j)
    ensures s.threads[j].verdict.Some? ==> Act(s, j).threads[j].verdict == s.threads[j].verdict
  {
    hide Facts, Proceed, Effect, Locks, LockAgrees, GateAgrees, Book, Publications, WriteAhead;
    assert FactsAt(s, j);
    VerdictStays(s.threads[j], s.shared, s.now, s.hard);
  }

  // ---------------------------------------------------------------- the race is a sequence of whole operations

  lemma {:induction false} FindCall(log: seq<Entry>, i: nat) returns (k: nat)
    requires Calls(log, i) > 0
    ensures k < |log| && log[k].Entry? && log[k].who == i
  {
    k := |log| - 1;
    if !(log[k].Entry? && log[k].who == i) { k := FindCall(log[..k], i); }
  }

  lemma {:induction false} EarlierCall(log: seq<Entry>, i: nat, k: nat)
    requires k < |log| && log[k].Entry? && log[k].who == i
    ensures Calls(log, i) >= 1 && forall j | k < j < |log| && log[j].Entry? && log[j].who == i :: Calls(log, i) >= 2
  {
    var n := |log| - 1;
    if k < n { EarlierCall(log[..n], i, k); }
  }

  /** A thread's record, when it has a verdict. */
  ghost predicate RecordOf(s: State, i: nat, k: nat)
    requires i < |s.threads|
  {
    && k < |s.log| && s.log[k].Entry? && s.log[k].who == i && s.log[k].op == s.threads[i].op
    && s.threads[i].verdict == Some(s.log[k].verdict)
    && s.log[k].verdict == Answer(Replay(s.log[..k], s.hard), s.log[k].op, s.log[k].checked >= s.hard)
  }

  /**
   Every decided operation appears exactly once in the record, with the verdict it gives when the recorded operations
   are run whole, one after another.
   */
  lemma {:induction false} DecidedOnce(s: State, i: nat)
    requires Sound(s) && i < |s.threads| && s.threads[i].verdict.Some?
    ensures exists k: nat :: RecordOf(s, i, k)
    ensures forall j: nat, k: nat | RecordOf(s, i, j) && RecordOf(s, i, k) :: j == k
  {
    hide Locks, FactsAt, LockAgrees, GateAgrees, Publications, WriteAhead, Legal, Replay, Calls, Answer;
    assert Calls(s.log, i) == 1;
    var k := FindCall(s.log, i);
    assert Owned(s, s.log[k]);
    LegalAt(s.log, s.hard, k);
    assert RecordOf(s, i, k);
    forall j: nat, l: nat | RecordOf(s, i, j) && RecordOf(s, i, l) ensures j == l {
      EarlierCall(s.log, i, j);
      EarlierCall(s.log, i, l);
    }
  }

  lemma {:induction false} LegalAt(log: seq<Entry>, hard: real, k: nat)
    requires Legal(log, hard) && k < |log|
    ensures Answered(Replay(log[..k], hard), log[k], hard)
  {
    hide Legal, Replay, Answered;
    LegalPrefix(log, hard, k + 1);
    assert log[..k + 1] == log[..k] + [log[k]];
    Appended(log[..k], log[k], hard);
  }

  predicate AllDone(s: State) { forall i | 0 <= i < |s.threads| :: s.threads[i].pc == Done }

  /** Whenever the lock is free the outcome is the recorded one; when the gate is free too, so is everything else. */
  lemma {:induction false} QuietIsRecorded(s: State)
    requires Sound(s) && s.lock == None
    ensures s.shared == Recorded(s).(blocked := s.shared.blocked)
    ensures s.gate == None ==> s.shared == Recorded(s)
  {
    hide Locks, FactsAt, Book, Publications, Recorded;
  }

  lemma {:induction false} DoneIsQuiet(s: State)
    requires Sound(s) && AllDone(s)
    ensures s.lock == None && s.gate == None
    ensures forall i | 0 <= i < |s.threads| :: s.threads[i].verdict.Some?
  {
    hide LockAgrees, GateAgrees, Book, Publications, WriteAhead, Guards, Values, Flags;
    assert s.lock.Some? ==> Locked(s, s.lock.value);
    assert s.gate.Some? ==> Locked(s, s.gate.value);
    forall i | 0 <= i < |s.threads| ensures s.threads[i].verdict.Some? { assert FactsAt(s, i); }
  }

  ghost predicate HasRecord(s: State, i: nat)
    requires i < |s.threads|
  {
    exists k: nat :: RecordOf(s, i, k)
  }

  lemma {:induction false} StartOps(ops: seq<Op>, now: real, hard: real)
    ensures |Start(ops, now, hard).threads| == |ops|
        && forall i | 0 <= i < |ops| :: Start(ops, now, hard).threads[i].op == ops[i]
  {
  }

  lemma {:induction false} OpsStay(s: State, es: seq<Event>)
    requires Sound(s) && Feasible(s, es)
    ensures var r := RunAll(s, es);
            |r.threads| == |s.threads| && forall i | 0 <= i < |s.threads| :: r.threads[i].op == s.threads[i].op
    decreases |es|
  {
    hide Sound, Act, CanAct;
    if |es| > 0 {
      StepSound(s, es[0]);
      if es[0].Run? { ActOps(s, es[0].who); }
      OpsStay(Step(s, es[0]), es[1..]);
    }
  }

  lemma {:induction false} ActOps(s: State, i: nat)
    requires Sound(s) && CanAct(s, i)
    ensures |Act(s, i).threads| == |s.threads|
        && forall j | 0 <= j < |s.threads| :: Act(s, i).threads[j].op == s.threads[j].op
    ensures s.log <= Act(s, i).log
  {
    hide Facts, Proceed, Effect, Locks, LockAgrees, GateAgrees, Book, Publications, WriteAhead;
    assert FactsAt(s, i);
    VerdictStays(s.threads[i], s.shared, s.now, s.hard);
  }

  /** The record only grows. */
  lemma {:induction false} RecordGrows(s: State, es: seq<Event>)
    requires Sound(s) && Feasible(s, es)
    ensures s.log <= RunAll(s, es).log
    decreases |es|
  {
    hide Sound, Act, CanAct;
    if |es| > 0 {
      StepSound(s, es[0]);
      if es[0].Run? { ActOps(s, es[0].who); }
      RecordGrows(Step(s, es[0]), es[1..]);
    }
  }

  /**
   Real time: an operation decided while another has no verdict yet, in particular one that has returned before the
   other began, is ahead of it in the record for good.
   */
  lemma {:induction false} RealTimeOrder(s: State, es: seq<Event>, i: nat, j: nat, k: nat, l: nat)
    requires Sound(s) && Feasible(s, es) && i < |s.threads| && j < |s.threads|
    requires s.threads[i].verdict.Some? && s.threads[j].verdict == None
    ensures var r := RunAll(s, es);
            |r.threads| == |s.threads| && (RecordOf(r, i, k) && RecordOf(r, j, l) ==> k < l)
  {
    hide Locks, FactsAt, LockAgrees, GateAgrees, Publications, WriteAhead, Legal, Replay, Calls, Answer, Owned;
    var r := RunAll(s, es);
    RunSound(s, es);
    OpsStay(s, es);
    RecordGrows(s, es);
    assert Calls(s.log, i) == 1 && Calls(s.log, j) == 0;
    assert Calls(r.log, i) == if r.threads[i].verdict.Some? then 1 else 0;
    var at := FindCall(s.log, i);
    assert r.log[at] == s.log[at];
    if RecordOf(r, i, k) && RecordOf(r, j, l) {
      EarlierCall(r.log, i, k);
      EarlierCall(r.log, i, at);
      if l < |s.log| { EarlierCall(s.log, j, l); }
    }
  }

  lemma {:induction false} ReturnedIsDecided(s: State, i: nat)
    requires Sound(s) && i < |s.threads| && s.threads[i].pc == Done
    ensures s.threads[i].verdict.Some?
  {
    hide Locks, LockAgrees, GateAgrees, Book, Publications, WriteAhead, Guards, Values, Flags;
    assert FactsAt(s, i);
  }

  /** The state and the verdicts are those of the operations taken whole in the order of the record. */
  ghost predicate Sequential(s: State, ops: seq<Op>) {
    && s.shared == Replay(s.log, s.hard) && Legal(s.log, s.hard)
    && |s.threads| == |ops|
    && (forall i {:trigger HasRecord(s, i)} | 0 <= i < |ops| :: s.threads[i].op == ops[i] && HasRecord(s, i))
  }

  /**
   Any complete race, from any mix of operations, ends in the state and with the verdicts of running the same
   operations whole in the order of the record.
   */
  lemma {:induction false} RaceIsSequential(ops: seq<Op>, now: real, hard: real, es: seq<Event>)
    requires Feasible(Start(ops, now, hard), es) && AllDone(RunAll(Start(ops, now, hard), es))
    ensures Sequential(RunAll(Start(ops, now, hard), es), ops)
  {
    hide Start, RunAll, Feasible, Locks, FactsAt, LockAgrees, GateAgrees;
    hide Publications, WriteAhead, Legal, Replay, Calls, RecordOf, AllDone;
    StartSound(ops, now, hard);
    RunSound(Start(ops, now, hard), es);
    var s := RunAll(Start(ops, now, hard), es);
    DoneIsQuiet(s);
    QuietIsRecorded(s);
    OpsStay(Start(ops, now, hard), es);
    assert |Start(ops, now, hard).threads| == |ops|
        && forall i | 0 <= i < |ops| :: Start(ops, now, hard).threads[i].op == ops[i] by { StartOps(ops, now, hard); }
    forall i | 0 <= i < |ops| ensures s.threads[i].op == ops[i] && HasRecord(s, i) { DecidedOnce(s, i); }
  }

  // ---------------------------------------------------------------- no deadlock

  /** Taking the gate before the lock leaves no deadlock: while an operation is unfinished some thread can move. */
  lemma {:induction false} SomeoneCanAct(s: State, i: nat)
    requires Sound(s) && i < |s.threads| && s.threads[i].pc != Done
    ensures exists j: nat :: CanAct(s, j)
  {
    hide LockAgrees, GateAgrees, Book, Publications, WriteAhead, Facts;
    if s.lock.Some? {
      assert Locked(s, s.lock.value);
      assert CanAct(s, s.lock.value);
    } else if s.gate.Some? {
      assert Locked(s, s.gate.value);
      assert CanAct(s, s.gate.value);
    } else {
      assert CanAct(s, i);
    }
  }

  /** How many statements the threads still have in front of them, at most. */
  function Remaining(ts: seq<Thread>): nat {
    if |ts| == 0 then 0 else Remaining(ts[..|ts| - 1]) + (16 - Rank(ts[|ts| - 1].pc))
  }

  lemma {:induction false} RemainingSet(ts: seq<Thread>, i: nat, u: Thread)
    requires i < |ts|
    ensures Remaining(ts[i := u]) + (16 - Rank(ts[i].pc)) == Remaining(ts) + (16 - Rank(u.pc))
  {
    hide Rank;
    var n := |ts| - 1;
    if i < n {
      RemainingSet(ts[..n], i, u);
      assert ts[i := u][..n] == ts[..n][i := u];
    } else {
      assert ts[i := u][..n] == ts[..n];
    }
  }

  lemma {:induction false} ActShortens(s: State, i: nat)
    requires Sound(s) && CanAct(s, i)
    ensures Remaining(Act(s, i).threads) < Remaining(s.threads)
  {
    hide Facts, Proceed, Effect, Locks, LockAgrees, GateAgrees, Book, Publications, WriteAhead, Rank, Remaining, OnPath;
    assert FactsAt(s, i);
    OnItsPath(s.threads[i], s.shared, s.hard);
    LocalLocks(s.threads[i], s.shared, s.now, s.hard);
    RemainingSet(s.threads, i, Proceed(s.threads[i], s.shared, s.now, s.hard));
  }

  function Statements(es: seq<Event>): nat {
    if |es| == 0 then 0 else (if es[0].Run? then 1 else 0) + Statements(es[1..])
  }

  /** No run executes more statements than the threads had in front of them. */
  lemma {:induction false} RunsAreShort(s: State, es: seq<Event>)
    requires Sound(s) && Feasible(s, es)
    ensures Statements(es) + Remaining(RunAll(s, es).threads) <= Remaining(s.threads)
    decreases |es|
  {
    hide Sound, Act, CanAct, Remaining;
    if |es| > 0 {
      StepSound(s, es[0]);
      if es[0].Run? { ActShortens(s, es[0].who); }
      RunsAreShort(Step(s, es[0]), es[1..]);
    }
  }

  /** From every reachable state the threads can all be run to the end. */
  lemma {:induction false} CanComplete(s: State) returns (es: seq<Event>)
    requires Sound(s)
    ensures Feasible(s, es) && AllDone(RunAll(s, es))
    decreases Remaining(s.threads)
  {
    hide Sound, Act, CanAct, Remaining;
    if AllDone(s) {
      es := [];
    } else {
      var i: nat :| i < |s.threads| && s.threads[i].pc != Done;
      SomeoneCanAct(s, i);
      var j: nat :| CanAct(s, j);
      ActSound(s, j);
      ActShortens(s, j);
      var rest := CanComplete(Act(s, j));
      es := [Run(j)] + rest;
      assert es[1..] == rest && Step(s, es[0]) == Act(s, j);
    }
  }

  // ---------------------------------------------------------------- everything at once

  /** The claims that hold at every statement of every interleaving. */
  ghost predicate Safe(s: State) {
    && s.writes <= 1 && Terminals(s.log) <= 1
    && (s.shared.committed ==> !s.shared.blocked && s.shared.failure == None)
    && (s.shared.committed && s.lock == None ==> s.shared.finished)
    && (forall i | 0 <= i < |s.threads| && s.threads[i].op.Publish? && s.threads[i].verdict == Some(Published) ::
          s.threads[i].checked < s.hard)
    && (AllDone(s) || exists j: nat :: CanAct(s, j))
  }

  lemma {:induction false} SoundIsSafe(s: State)
    requires Sound(s)
    ensures Safe(s)
  {
    hide LockAgrees, GateAgrees, Book, Publications, WriteAhead, Terminals, CanAct, Locks, Guards, Values, Flags;
    AtMostOneWrite(s);
    if s.shared.committed { CommittedIsSafe(s); }
    forall i | 0 <= i < |s.threads| && s.threads[i].op.Publish? && s.threads[i].verdict == Some(Published)
      ensures s.threads[i].checked < s.hard
    {
      assert FactsAt(s, i);
    }
    if !AllDone(s) {
      var i :| 0 <= i < |s.threads| && s.threads[i].pc != Done;
      SomeoneCanAct(s, i);
    }
  }

  /** Someone ends the search: a fail, a finish, or a publish that succeeded. */
  predicate Concludes(t: Thread) { t.op.Fail? || t.op.Finish? || t.verdict == Some(Published) }

  predicate Concluded(s: State) { exists i :: 0 <= i < |s.threads| && Concludes(s.threads[i]) }

  lemma {:induction false} FindTerminal(log: seq<Entry>) returns (k: nat)
    requires Terminals(log) > 0
    ensures k < |log| && Terminal(log[k])
  {
    hide Terminal;
    k := |log| - 1;
    if !Terminal(log[k]) { k := FindTerminal(log[..k]); }
  }

  /** A concluding operation leaves the search finished, whether it won or came too late. */
  lemma {:induction false} ConcludingEnds(s: State, i: nat)
    requires Sound(s) && AllDone(s) && i < |s.threads| && Concludes(s.threads[i])
    ensures s.shared.finished
  {
    hide Locks, FactsAt, GateAgrees, Publications, WriteAhead, Legal, Replay, Calls, RecordOf;
    ReturnedIsDecided(s, i);
    DecidedOnce(s, i);
    var k: nat :| RecordOf(s, i, k);
    RecordIs(s, i, k);
    var before, after := s.log[..k], s.log[k..];
    assert s.log == before + after;
    if Replay(before, s.hard).finished {
      EndIsFrozen(before, after, s.hard);
    } else {
      EndIsTheTerminals(s.log, s.hard, k);
    }
  }

  lemma {:induction false} RecordIs(s: State, i: nat, k: nat)
    requires i < |s.threads| && RecordOf(s, i, k)
    ensures k < |s.log| && s.log[k].Entry? && s.log[k].op == s.threads[i].op
    ensures s.threads[i].verdict == Some(s.log[k].verdict)
    ensures s.log[k].verdict == Answer(Replay(s.log[..k], s.hard), s.log[k].op, s.log[k].checked >= s.hard)
  {
  }

  /** Exactly one outcome wins a complete race with a fail, a finish or a successful publish, and none any other. */
  lemma {:induction false} OneOutcomeWins(s: State)
    requires Sound(s) && AllDone(s)
    ensures s.shared.finished <==> Concluded(s)
    ensures Terminals(s.log) == if Concluded(s) then 1 else 0
  {
    hide Locks, FactsAt, LockAgrees, GateAgrees, Publications, WriteAhead, Legal, Replay, Calls, Terminals;
    AtMostOneWrite(s);
    if Concluded(s) {
      var i :| 0 <= i < |s.threads| && Concludes(s.threads[i]);
      ConcludingEnds(s, i);
    }
    if s.shared.finished {
      var k := FindTerminal(s.log);
      assert Owned(s, s.log[k]);
      assert Concludes(s.threads[s.log[k].who]);
    }
  }

  /** The terminal values are the same. */
  predicate SameEnd(a: Shared, b: Shared) {
    b.finished && b.line == a.line && b.failure == a.failure && b.emitted == a.emitted && b.committed == a.committed
  }

  ghost predicate CanEnd(s: State) { exists more :: Feasible(s, more) && AllDone(RunAll(s, more)) }

  /**
   From a fresh search, whatever operations race and however their statements interleave: every state is safe; once
   finished it stays as it ended; no more statements run than the operations contain; the race can always be brought
   to its end; and at its end it is sequential, with exactly one winner when anything concludes the search.
   */
  lemma {:induction false} EveryRaceIsSafe(ops: seq<Op>, now: real, hard: real, es: seq<Event>)
    requires Feasible(Start(ops, now, hard), es)
    ensures var s := RunAll(Start(ops, now, hard), es);
            && Safe(s)
            && (s.shared.finished ==> forall more | Feasible(s, more) :: SameEnd(s.shared, RunAll(s, more).shared))
            && Statements(es) + Remaining(s.threads) <= Remaining(Start(ops, now, hard).threads)
            && CanEnd(s)
            && (AllDone(s) ==> Sequential(s, ops) && Terminals(s.log) == if Concluded(s) then 1 else 0)
  {
    hide Start, RunAll, Feasible, Sound, Safe, AllDone, Remaining, Statements, Sequential, Concluded, Terminals;
    StartSound(ops, now, hard);
    RunSound(Start(ops, now, hard), es);
    RunsAreShort(Start(ops, now, hard), es);
    var s := RunAll(Start(ops, now, hard), es);
    SoundIsSafe(s);
    if s.shared.finished {
      forall more | Feasible(s, more) ensures SameEnd(s.shared, RunAll(s, more).shared) { EndStands(s, more); }
    }
    var rest := CanComplete(s);
    if AllDone(s) {
      RaceIsSequential(ops, now, hard, es);
      OneOutcomeWins(s);
    }
  }
}
