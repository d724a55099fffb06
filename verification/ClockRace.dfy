/**
 The publication race: any number of threads, each in the middle of one operation, interleaved statement by
 statement under the authority gate and the state lock.
 */
module ClockRace {
  import opened Wrappers
  import opened ClockOutcome

  /** The statement a thread is about to execute. */
  datatype Pc = WantGate | WantLock | ReadCommitted | ReadFinished | ReadDeadline | ReadBlocked | TryWrite
    | MarkBlocked | MarkEmitted | MarkLine | MarkFailure | MarkClosed | MarkCommitted | MarkFinished
    | DropLock | DropGate | Done

  function Rank(pc: Pc): nat {
    match pc
    case WantGate => 0 case WantLock => 1 case ReadCommitted => 2 case ReadFinished => 3 case ReadDeadline => 4
    case ReadBlocked => 5 case TryWrite => 6 case MarkBlocked => 7 case MarkEmitted => 8 case MarkLine => 9
    case MarkFailure => 10 case MarkClosed => 11 case MarkCommitted => 12 case MarkFinished => 13
    case DropLock => 14 case DropGate => 15 case Done => 16
  }

  datatype Thread = Thread(op: Op, pc: Pc, verdict: Option<Verdict>, checked: real, stamp: real)

  datatype State = State(gate: Option<nat>, lock: Option<nat>, now: real, hard: real, shared: Shared, writes: nat,
                         threads: seq<Thread>, log: seq<Entry>)

  /**
   Finishing takes only the lock; blocking takes only the gate; publishing and failing take the gate, then the
   lock.
   */
  predicate UsesGate(op: Op) { !op.Finish? }
  predicate UsesLock(op: Op) { !op.Block? }

  function First(op: Op): Pc { if UsesGate(op) then WantGate else WantLock }

  function Exit(op: Op): Pc { if UsesLock(op) then DropLock else DropGate }

  /** The statements of each operation, in order. */
  predicate OnPath(op: Op, pc: Pc) {
    match op
    case Publish(_, _, _) => pc != ReadCommitted && pc != MarkBlocked
    case Fail(_, _) => pc !in {ReadCommitted, ReadDeadline, ReadBlocked, TryWrite, MarkCommitted}
    case Finish(_, _) => pc !in {WantGate, ReadCommitted, ReadDeadline, ReadBlocked, TryWrite, MarkBlocked,
                                 MarkCommitted, DropGate}
    case Block => pc in {WantGate, ReadCommitted, ReadFinished, MarkBlocked, DropGate, Done}
  }

  function Next(op: Op, pc: Pc): Pc {
    match pc
    case WantGate => if op.Block? then ReadCommitted else WantLock
    case WantLock => ReadFinished
    case ReadCommitted => ReadFinished
    case ReadFinished => if op.Publish? then ReadDeadline else if op.Finish? then MarkEmitted else MarkBlocked
    case ReadDeadline => ReadBlocked
    case ReadBlocked => TryWrite
    case TryWrite => MarkEmitted
    case MarkBlocked => if op.Block? then DropGate else MarkEmitted
    case MarkEmitted => MarkLine
    case MarkLine => MarkFailure
    case MarkFailure => MarkClosed
    case MarkClosed => if op.Publish? then MarkCommitted else MarkFinished
    case MarkCommitted => MarkFinished
    case MarkFinished => Exit(op)
    case DropLock => if UsesGate(op) then DropGate else Done
    case DropGate => Done
    case Done => Done
  }

  function Moved(t: Thread): Thread { Thread(t.op, Next(t.op, t.pc), t.verdict, t.checked, t.stamp) }

  function Left(t: Thread, v: Verdict): Thread { Thread(t.op, Exit(t.op), Some(v), t.checked, t.stamp) }

  /** The thread after its next statement. */
  function Proceed(t: Thread, sh: Shared, now: real, hard: real): Thread {
    match t.pc
    case ReadCommitted => if sh.committed then Left(t, Refused) else Moved(t)
    case ReadFinished =>
      if sh.finished then Left(t, if t.op.Publish? then AlreadyFinished else Refused)
      else if t.op.Block? then Thread(t.op, MarkBlocked, Some(Accepted), t.checked, t.stamp)
      else Moved(t)
    case ReadDeadline =>
      if now >= hard then Thread(t.op, DropLock, Some(Expired), now, t.stamp)
      else Thread(t.op, ReadBlocked, t.verdict, now, t.stamp)
    case ReadBlocked => if t.op.Publish? && t.op.authority && sh.blocked then Left(t, Revoked) else Moved(t)
    case TryWrite => if t.op.Publish? && !t.op.written then Left(t, WouldBlock) else Moved(t)
    case MarkEmitted => Thread(t.op, MarkLine, t.verdict, t.checked, now)
    case MarkFinished => Left(t, if t.op.Publish? then Published else Accepted)
    case _ => Moved(t)
  }

  /** The shared state after that statement. */
  function Effect(t: Thread, sh: Shared, now: real): Shared {
    match t.pc
    case MarkBlocked => sh.(blocked := true)
    case MarkEmitted => sh.(emitted := Some(now))
    case MarkLine => sh.(line := LineOf(t.op))
    case MarkFailure => sh.(failure := FailureOf(t.op))
    case MarkClosed => sh.(closed := true)
    case MarkCommitted => if t.op.Publish? && t.op.authority then sh.(committed := true) else sh
    case MarkFinished => sh.(finished := true)
    case _ => sh
  }

  predicate CanAct(s: State, i: nat) {
    && i < |s.threads| && s.threads[i].pc != Done
    && (s.threads[i].pc == WantGate ==> s.gate == None)
    && (s.threads[i].pc == WantLock ==> s.lock == None)
  }

  /** The record of a verdict, made at the statement that decides it. */
  function Decided(i: nat, t: Thread, u: Thread): seq<Entry> {
    if t.verdict == None && u.verdict.Some? then [Entry(i, u.op, u.checked, u.stamp, u.verdict.value)] else []
  }

  predicate Writes(t: Thread) { t.pc == TryWrite && t.op.Publish? && t.op.written }

  function Act(s: State, i: nat): State
    requires CanAct(s, i)
  {
    var t := s.threads[i];
    var u, sh := Proceed(t, s.shared, s.now, s.hard), Effect(t, s.shared, s.now);
    State(
      if t.pc == WantGate then Some(i) else if t.pc == DropGate then None else s.gate,
      if t.pc == WantLock then Some(i) else if t.pc == DropLock then None else s.lock,
      s.now, s.hard, sh, s.writes + (if Writes(t) then 1 else 0), s.threads[i := u], s.log + Decided(i, t, u))
  }

  datatype Event = Tick(elapsed: real) | SoftClose | Run(who: nat)

  predicate Possible(s: State, e: Event) {
    match e case Tick(elapsed) => elapsed >= 0.0 case SoftClose => true case Run(i) => CanAct(s, i)
  }

  /** Time passes, the watch thread closes further work, or a thread executes its next statement. */
  function Step(s: State, e: Event): State
    requires Possible(s, e)
  {
    match e
    case Tick(elapsed) => s.(now := s.now + elapsed)
    case SoftClose => s.(shared := s.shared.(closed := true), log := s.log + [CloseWork])
    case Run(i) => Act(s, i)
  }

  predicate Feasible(s: State, es: seq<Event>)
    decreases |es|
  {
    |es| > 0 ==> Possible(s, es[0]) && Feasible(Step(s, es[0]), es[1..])
  }

  function RunAll(s: State, es: seq<Event>): State
    requires Feasible(s, es)
    decreases |es|
  {
    if |es| == 0 then s else RunAll(Step(s, es[0]), es[1..])
  }

  function Begun(op: Op): Thread { Thread(op, First(op), None, 0.0, 0.0) }

  /** A new search with one thread about to start each operation. */
  function Start(ops: seq<Op>, now: real, hard: real): State {
    State(None, None, now, hard, FRESH, 0, seq(|ops|, i requires 0 <= i < |ops| => Begun(ops[i])), [])
  }

  // ---------------------------------------------------------------- what holds at every statement

  predicate HasGate(t: Thread) { UsesGate(t.op) && 1 <= Rank(t.pc) <= 15 }
  predicate HasLock(t: Thread) { UsesLock(t.op) && 2 <= Rank(t.pc) <= 14 }

  /** The thread has executed the statement but its operation has not been recorded yet. */
  predicate Past(t: Thread, pc: Pc) { Rank(pc) < Rank(t.pc) <= Rank(MarkFinished) }

  predicate IsDecided(t: Thread) { Rank(t.pc) >= 14 || (t.op.Block? && t.pc == MarkBlocked) }

  /** A thread is on its operation's path and has its verdict when that path has decided it. */
  predicate Placed(t: Thread) { OnPath(t.op, t.pc) && (t.verdict.Some? <==> IsDecided(t)) }

  /** A thread is placed, and its deadline check and its write are as far as that place requires. */
  predicate Shape(t: Thread, hard: real) {
    && Placed(t)
    && (t.op.Publish? && t.verdict == Some(Published) ==> t.checked < hard)
    && (t.op.Publish? && Past(t, ReadDeadline) ==> t.checked < hard)
    && (t.op.Publish? && Past(t, TryWrite) ==> t.op.written)
  }

  /** What a thread has read still holds. */
  predicate Guards(t: Thread, sh: Shared) {
    && (!t.op.Block? && Past(t, ReadFinished) ==> !sh.finished)
    && (t.op.Block? && t.pc == ReadFinished ==> !sh.committed)
    && (t.op.Publish? && t.op.authority && Past(t, ReadBlocked) ==> !sh.blocked)
  }

  /** The terminal values a thread has written still stand. */
  predicate Values(t: Thread, sh: Shared) {
    !t.op.Block? ==>
      && (Past(t, MarkEmitted) ==> sh.emitted == Some(t.stamp))
      && (Past(t, MarkLine) ==> sh.line == LineOf(t.op))
      && (Past(t, MarkFailure) ==> sh.failure == FailureOf(t.op))
  }

  /** The flags a thread has raised are still up. */
  predicate Flags(t: Thread, sh: Shared) {
    && (t.op.Fail? && Past(t, MarkBlocked) ==> sh.blocked)
    && (!t.op.Block? && Past(t, MarkClosed) ==> sh.closed)
    && (t.op.Publish? && t.op.authority && Past(t, MarkCommitted) ==> sh.committed)
  }

  predicate Facts(t: Thread, sh: Shared, hard: real) {
    Shape(t, hard) && Guards(t, sh) && Values(t, sh) && Flags(t, sh)
  }

  /** No write to the field has run ahead of the record. */
  predicate Settled(holder: Option<Thread>, pc: Pc) { holder.None? || !Past(holder.value, pc) }

  predicate CommitAhead(holder: Option<Thread>) {
    holder.Some? && holder.value.op.Publish? && holder.value.op.authority && Past(holder.value, MarkCommitted)
  }

  predicate BlockAhead(holder: Option<Thread>) {
    holder.Some? && (
      || (holder.value.op.Block? && holder.value.pc == MarkBlocked)
      || (holder.value.op.Fail? && Past(holder.value, MarkBlocked)))
  }

  /** The fields written under the lock are the recorded ones, except where the holder is part-way through. */
  predicate LockAgrees(sh: Shared, a: Shared, holder: Option<Thread>) {
    && sh.finished == a.finished
    && (Settled(holder, MarkEmitted) ==> sh.emitted == a.emitted)
    && (Settled(holder, MarkLine) ==> sh.line == a.line)
    && (Settled(holder, MarkFailure) ==> sh.failure == a.failure)
    && (Settled(holder, MarkClosed) ==> sh.closed == a.closed)
    && (!CommitAhead(holder) ==> sh.committed == a.committed)
  }

  /** The revocation flag is the recorded one, except where the gate's holder is part-way through. */
  predicate GateAgrees(sh: Shared, a: Shared, holder: Option<Thread>) {
    && (holder.Some? && holder.value.op.Block? && holder.value.pc == MarkBlocked ==> a.blocked)
    && (!BlockAhead(holder) ==> sh.blocked == a.blocked)
  }

  function Holder(s: State, who: Option<nat>): Option<Thread>
    requires who.Some? ==> who.value < |s.threads|
  {
    if who.Some? then Some(s.threads[who.value]) else None
  }

  predicate Locked(s: State, i: nat)
    requires i < |s.threads|
  {
    && (HasGate(s.threads[i]) <==> s.gate == Some(i))
    && (HasLock(s.threads[i]) <==> s.lock == Some(i))
  }

  predicate Locks(s: State) {
    && (s.gate.Some? ==> s.gate.value < |s.threads|)
    && (s.lock.Some? ==> s.lock.value < |s.threads|)
    && forall i {:trigger Locked(s, i)} | 0 <= i < |s.threads| :: Locked(s, i)
  }

  predicate FactsAt(s: State, i: nat)
    requires i < |s.threads|
  {
    Facts(s.threads[i], s.shared, s.hard)
  }

  function Recorded(s: State): Shared { Replay(s.log, s.hard) }

  /** How often a thread's operation has been recorded. */
  function Calls(log: seq<Entry>, i: nat): nat {
    if |log| == 0 then 0
    else Calls(log[..|log| - 1], i) + (if log[|log| - 1].Entry? && log[|log| - 1].who == i then 1 else 0)
  }

  /** Each record belongs to a thread that has that verdict for that operation. */
  predicate Owned(s: State, e: Entry) {
    e.Entry? ==>
      && e.who < |s.threads| && s.threads[e.who].op == e.op && s.threads[e.who].verdict == Some(e.verdict)
      && s.threads[e.who].checked == e.checked && s.threads[e.who].stamp == e.at
  }

  predicate Book(s: State) {
    && Legal(s.log, s.hard)
    && (forall k {:trigger Owned(s, s.log[k])} | 0 <= k < |s.log| :: Owned(s, s.log[k]))
    && (forall i {:trigger Calls(s.log, i)} | 0 <= i < |s.threads| ::
          Calls(s.log, i) == if s.threads[i].verdict.Some? then 1 else 0)
  }

  function Publications(log: seq<Entry>): nat {
    if |log| == 0 then 0
    else Publications(log[..|log| - 1]) + (if Terminal(log[|log| - 1]) && log[|log| - 1].op.Publish? then 1 else 0)
  }

  /** The lock's holder has written its line but has not been recorded. */
  predicate WriteAhead(holder: Option<Thread>) {
    holder.Some? && holder.value.op.Publish? && Past(holder.value, TryWrite)
  }

  predicate Sound(s: State) {
    && Locks(s)
    && (forall i {:trigger FactsAt(s, i)} | 0 <= i < |s.threads| :: FactsAt(s, i))
    && LockAgrees(s.shared, Recorded(s), Holder(s, s.lock))
    && GateAgrees(s.shared, Recorded(s), Holder(s, s.gate))
    && Book(s)
    && s.writes == Publications(s.log) + (if WriteAhead(Holder(s, s.lock)) then 1 else 0)
  }

  // ---------------------------------------------------------------- one statement, seen from its own thread

  /** What a statement leaves alone when the lock, or the gate, is not held. */
  lemma {:induction false} LocalFrame(t: Thread, sh: Shared, now: real)
    requires OnPath(t.op, t.pc)
    ensures var sh' := Effect(t, sh, now);
            && (sh.closed ==> sh'.closed)
            && (!HasLock(t) ==> sh' == sh.(blocked := sh'.blocked))
            && (!HasGate(t) ==> sh'.blocked == sh.blocked && sh'.committed == sh.committed)
  {
  }

  /** A thread's facts survive another thread's statement. */
  lemma {:induction false} FactsSurvive(t: Thread, sh: Shared, sh': Shared, hard: real)
    requires Facts(t, sh, hard) && (sh.closed ==> sh'.closed)
    requires HasLock(t) ==>
               && sh'.finished == sh.finished && sh'.emitted == sh.emitted
               && sh'.line == sh.line && sh'.failure == sh.failure
    requires HasGate(t) ==> sh'.blocked == sh.blocked && sh'.committed == sh.committed
    ensures Facts(t, sh', hard)
  {
  }

  lemma {:induction false} PlaceKept(t: Thread, sh: Shared, now: real, hard: real)
    requires Placed(t)
    ensures Placed(Proceed(t, sh, now, hard))
  {
  }

  lemma {:induction false} ShapeKept(t: Thread, sh: Shared, now: real, hard: real)
    requires Shape(t, hard)
    ensures Shape(Proceed(t, sh, now, hard), hard)
  {
    PlaceKept(t, sh, now, hard);
  }

  lemma {:induction false} GuardsKept(t: Thread, sh: Shared, now: real, hard: real)
    requires OnPath(t.op, t.pc) && Guards(t, sh)
    ensures Guards(Proceed(t, sh, now, hard), Effect(t, sh, now))
  {
  }

  /** Where the next statement leaves a thread that has passed the first mark. */
  lemma {:induction false} MarksInOrder(t: Thread, sh: Shared, now: real, hard: real)
    requires OnPath(t.op, t.pc) && !t.op.Block?
    ensures var u := Proceed(t, sh, now, hard);
            && u.op == t.op && (t.pc != MarkEmitted ==> u.stamp == t.stamp)
            && (Past(u, MarkEmitted) ==> t.pc == MarkEmitted || Past(t, MarkEmitted))
            && (Past(u, MarkLine) ==> t.pc == MarkLine || Past(t, MarkLine))
            && (Past(u, MarkFailure) ==> t.pc == MarkFailure || Past(t, MarkFailure))
  {
  }

  lemma {:induction false} ValuesKept(t: Thread, sh: Shared, now: real, hard: real)
    requires OnPath(t.op, t.pc) && Values(t, sh)
    ensures Values(Proceed(t, sh, now, hard), Effect(t, sh, now))
  {
    hide LineOf, FailureOf, OnPath;
    if !t.op.Block? { MarksInOrder(t, sh, now, hard); }
  }

  lemma {:induction false} FlagsKept(t: Thread, sh: Shared, now: real, hard: real)
    requires OnPath(t.op, t.pc) && Flags(t, sh)
    ensures Flags(Proceed(t, sh, now, hard), Effect(t, sh, now))
  {
  }

  /** A statement keeps its own thread's facts. */
  lemma {:induction false} LocalFacts(t: Thread, sh: Shared, now: real, hard: real)
    requires Facts(t, sh, hard)
    ensures Facts(Proceed(t, sh, now, hard), Effect(t, sh, now), hard)
  {
    hide Guards, Values, Flags, Proceed, Effect, OnPath;
    ShapeKept(t, sh, now, hard);
    GuardsKept(t, sh, now, hard);
    ValuesKept(t, sh, now, hard);
    FlagsKept(t, sh, now, hard);
  }

  lemma {:induction false} LocalLocks(t: Thread, sh: Shared, now: real, hard: real)
    requires OnPath(t.op, t.pc) && t.pc != Done
    ensures var u := Proceed(t, sh, now, hard);
            && u.op == t.op
            && HasGate(u) == (if t.pc == WantGate then true else if t.pc == DropGate then false else HasGate(t))
            && HasLock(u) == (if t.pc == WantLock then true else if t.pc == DropLock then false else HasLock(t))
            && Rank(u.pc) > Rank(t.pc)
  {
  }

  // ---------------------------------------------------------------- one statement, seen from the record

  /** The recorded state after a statement. */
  function Noted(a: Shared, i: nat, t: Thread, u: Thread, hard: real): Shared {
    if t.verdict == None && u.verdict.Some?
    then Take(a, Entry(i, u.op, u.checked, u.stamp, u.verdict.value), hard)
    else a
  }

  /** A verdict decided under the lock is the one the operation gives when run alone at that point of the record. */
  lemma {:induction false} LockedAnswer(t: Thread, sh: Shared, a: Shared, now: real, hard: real)
    requires Facts(t, sh, hard) && HasLock(t) && LockAgrees(sh, a, Some(t))
        && (HasGate(t) ==> GateAgrees(sh, a, Some(t)))
    ensures var u := Proceed(t, sh, now, hard);
            t.verdict == None && u.verdict.Some? ==> u.verdict.value == Answer(a, u.op, u.checked >= hard)
  {
    hide Values, Flags;
  }

  lemma {:induction false} BlockAnswer(t: Thread, sh: Shared, a: Shared, holder: Option<Thread>, now: real, hard: real)
    requires Facts(t, sh, hard) && t.op.Block? && LockAgrees(sh, a, holder) && !CommitAhead(holder)
    ensures var u := Proceed(t, sh, now, hard);
            t.verdict == None && u.verdict.Some? ==> u.verdict.value == Answer(a, u.op, u.checked >= hard)
  {
    hide Values, Flags;
  }

  /** Threads that hold neither decide nothing. */
  lemma {:induction false} IdleAnswer(t: Thread, sh: Shared, now: real, hard: real)
    requires Facts(t, sh, hard) && !HasLock(t) && !t.op.Block?
    ensures Proceed(t, sh, now, hard).verdict == t.verdict && Effect(t, sh, now) == sh
  {
    hide Values, Flags, Guards;
  }

  /** Under the lock the record changes only at the last mark, and then to the ended search. */
  lemma {:induction false} LockedNote(t: Thread, sh: Shared, a: Shared, i: nat, now: real, hard: real)
    requires Facts(t, sh, hard) && HasLock(t) && LockAgrees(sh, a, Some(t))
        && (HasGate(t) ==> GateAgrees(sh, a, Some(t)))
    ensures Noted(a, i, t, Proceed(t, sh, now, hard), hard) ==
            if t.pc == MarkFinished then Ended(a, t.op, t.stamp) else a
    ensures t.pc == MarkFinished ==> Proceed(t, sh, now, hard) == Left(t, if t.op.Publish? then Published else Accepted)
  {
    hide Values, Flags, Guards, Answer, LockAgrees, GateAgrees, Ended;
    LockedAnswer(t, sh, a, now, hard);
  }

  lemma {:induction false} LockMarks(t: Thread, sh: Shared, a: Shared, now: real, hard: real)
    requires HasLock(t) && OnPath(t.op, t.pc) && LockAgrees(sh, a, Some(t)) && t.pc != MarkFinished
    ensures var u := Proceed(t, sh, now, hard); LockAgrees(Effect(t, sh, now), a, if HasLock(u) then Some(u) else None)
  {
    hide LineOf, FailureOf;
  }

  lemma {:induction false} LockEnds(t: Thread, sh: Shared, a: Shared, v: Verdict, now: real)
    requires HasLock(t) && OnPath(t.op, t.pc) && t.pc == MarkFinished && Values(t, sh) && Flags(t, sh)
        && LockAgrees(sh, a, Some(t))
    ensures LockAgrees(Effect(t, sh, now), Ended(a, t.op, t.stamp), Some(Left(t, v)))
  {
  }

  lemma {:induction false} LockActor(t: Thread, sh: Shared, a: Shared, i: nat, now: real, hard: real)
    requires Facts(t, sh, hard) && HasLock(t) && LockAgrees(sh, a, Some(t))
        && (HasGate(t) ==> GateAgrees(sh, a, Some(t)))
    ensures var u, sh' := Proceed(t, sh, now, hard), Effect(t, sh, now);
            LockAgrees(sh', Noted(a, i, t, u, hard), if HasLock(u) then Some(u) else None)
  {
    LockedNote(t, sh, a, i, now, hard);
    if t.pc == MarkFinished {
      LockEnds(t, sh, a, if t.op.Publish? then Published else Accepted, now);
    } else {
      LockMarks(t, sh, a, now, hard);
    }
    hide LockAgrees, Noted, Effect, Values, Flags, Guards, Ended, GateAgrees;
  }

  lemma {:induction false} LockAcquired(t: Thread, sh: Shared, a: Shared, now: real, hard: real)
    requires OnPath(t.op, t.pc) && t.pc == WantLock && LockAgrees(sh, a, None)
    ensures LockAgrees(sh, a, Some(Proceed(t, sh, now, hard))) && Effect(t, sh, now) == sh
  {
  }

  /** Without the lock, at most the revocation changes, in the state and in the record. */
  lemma {:induction false} UnlockedNote(t: Thread, sh: Shared, a: Shared, i: nat, holder: Option<Thread>,
      now: real, hard: real)
    requires Facts(t, sh, hard) && !HasLock(t) && LockAgrees(sh, a, holder) && (t.op.Block? ==> !CommitAhead(holder))
    ensures var u := Proceed(t, sh, now, hard);
            && Effect(t, sh, now) == sh.(blocked := Effect(t, sh, now).blocked)
            && Noted(a, i, t, u, hard) == a.(blocked := Noted(a, i, t, u, hard).blocked)
  {
    hide Values, Flags, Guards, Answer, LockAgrees;
    if t.op.Block? { BlockAnswer(t, sh, a, holder, now, hard); } else { IdleAnswer(t, sh, now, hard); }
  }

  lemma {:induction false} LockOther(sh: Shared, sh': Shared, a: Shared, a': Shared, holder: Option<Thread>)
    requires LockAgrees(sh, a, holder) && sh' == sh.(blocked := sh'.blocked) && a' == a.(blocked := a'.blocked)
    ensures LockAgrees(sh', a', holder)
  {
  }

  // ---------------------------------------------------------------- the gate

  lemma {:induction false} GateLockedActor(t: Thread, sh: Shared, a: Shared, i: nat, now: real, hard: real)
    requires Facts(t, sh, hard) && HasGate(t) && HasLock(t) && LockAgrees(sh, a, Some(t)) && GateAgrees(sh, a, Some(t))
    ensures var u, sh' := Proceed(t, sh, now, hard), Effect(t, sh, now);
            GateAgrees(sh', Noted(a, i, t, u, hard), Some(u))
  {
    LockedNote(t, sh, a, i, now, hard);
    hide Values, Guards, Noted, LockAgrees, LineOf, FailureOf;
  }

  lemma {:induction false} GateBlockActor(t: Thread, sh: Shared, a: Shared, i: nat, holder: Option<Thread>,
      now: real, hard: real)
    requires Facts(t, sh, hard) && HasGate(t) && t.op.Block? && LockAgrees(sh, a, holder)
        && !CommitAhead(holder) && GateAgrees(sh, a, Some(t))
    ensures var u, sh' := Proceed(t, sh, now, hard), Effect(t, sh, now);
            GateAgrees(sh', Noted(a, i, t, u, hard), if HasGate(u) then Some(u) else None)
  {
    BlockAnswer(t, sh, a, holder, now, hard);
    hide Values, Flags, Guards, LockAgrees;
  }

  /** Outside the lock, a publisher or failer holding the gate only moves. */
  lemma {:induction false} GateIdleActor(t: Thread, sh: Shared, a: Shared, i: nat, now: real, hard: real)
    requires Facts(t, sh, hard) && !HasLock(t) && !t.op.Block?
        && (if t.pc == WantGate then GateAgrees(sh, a, None) else HasGate(t) && GateAgrees(sh, a, Some(t)))
    ensures var u, sh' := Proceed(t, sh, now, hard), Effect(t, sh, now);
            && Noted(a, i, t, u, hard) == a
            && GateAgrees(sh', a, if HasGate(u) then Some(u) else None)
  {
    IdleAnswer(t, sh, now, hard);
    hide Values, Flags, Guards;
  }

  lemma {:induction false} GateBlockAcquired(t: Thread, sh: Shared, a: Shared, i: nat, now: real, hard: real)
    requires Facts(t, sh, hard) && t.op.Block? && t.pc == WantGate && GateAgrees(sh, a, None)
    ensures var u, sh' := Proceed(t, sh, now, hard), Effect(t, sh, now);
            Noted(a, i, t, u, hard) == a && GateAgrees(sh', a, Some(u))
  {
    hide Values, Flags, Guards;
  }

  /** Without the gate the revocation is left alone, in the state and in the record. */
  lemma {:induction false} UngatedNote(t: Thread, sh: Shared, a: Shared, i: nat, now: real, hard: real)
    requires Facts(t, sh, hard) && !HasGate(t) && t.pc != WantGate
    ensures var u := Proceed(t, sh, now, hard);
            Effect(t, sh, now).blocked == sh.blocked && Noted(a, i, t, u, hard).blocked == a.blocked
  {
    hide Values, Flags, Guards, LineOf, FailureOf;
  }

  lemma {:induction false} GateOther(sh: Shared, sh': Shared, a: Shared, a': Shared, holder: Option<Thread>)
    requires GateAgrees(sh, a, holder) && sh'.blocked == sh.blocked && a'.blocked == a.blocked
    ensures GateAgrees(sh', a', holder)
  {
  }
}
