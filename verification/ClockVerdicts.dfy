/** When each operation succeeds, told from the operations and verdicts before it; over records and over races. */
module ClockVerdicts {
  import opened Wrappers
  import opened ClockOutcome
  import opened ClockRace
  import opened ClockRaceTheorems

  /** The entry concluded the search: a publication went out, or a fail or a finish was accepted. */
  predicate Conclusion(e: Entry) {
    e.Entry? &&
    match e.op
    case Publish(_, _, _) => e.verdict == Published
    case Fail(_, _) => e.verdict == Accepted
    case Finish(_, _) => e.verdict == Accepted
    case Block => false
  }

  /** The entry is a revocation that was accepted. */
  predicate Stop(e: Entry) { e.Entry? && e.op.Block? && e.verdict == Accepted }

  ghost predicate Over(log: seq<Entry>, k: nat)
    requires k <= |log|
  {
    exists j | 0 <= j < k :: Conclusion(log[j])
  }

  ghost predicate Stopped(log: seq<Entry>, k: nat)
    requires k <= |log|
  {
    exists j | 0 <= j < k :: Stop(log[j])
  }

  ghost predicate SoftClosed(log: seq<Entry>) { exists j | 0 <= j < |log| :: log[j] == CloseWork }

  ghost predicate Committed(log: seq<Entry>) {
    exists j | 0 <= j < |log| :: Conclusion(log[j]) && log[j].op.Publish? && log[j].op.authority
  }

  ghost predicate Failed(log: seq<Entry>) { exists j | 0 <= j < |log| :: Conclusion(log[j]) && log[j].op.Fail? }

  lemma {:induction false} OverGrows(log: seq<Entry>, e: Entry)
    ensures Over(log + [e], |log| + 1) <==> Over(log, |log|) || Conclusion(e)
    ensures Stopped(log + [e], |log| + 1) <==> Stopped(log, |log|) || Stop(e)
  {
    hide Conclusion, Stop;
    var more := log + [e];
    assert more[|log|] == e && forall j | 0 <= j < |log| :: more[j] == log[j];
  }

  lemma {:induction false} MarksGrow(log: seq<Entry>, e: Entry)
    ensures SoftClosed(log + [e]) <==> SoftClosed(log) || e == CloseWork
    ensures Committed(log + [e]) <==> Committed(log) || (Conclusion(e) && e.op.Publish? && e.op.authority)
    ensures Failed(log + [e]) <==> Failed(log) || (Conclusion(e) && e.op.Fail?)
  {
    hide Conclusion;
    var more := log + [e];
    assert more[|log|] == e && forall j | 0 <= j < |log| :: more[j] == log[j];
  }

  /** Each flag of the search, told from the record. */
  lemma {:induction false} FlagsFromRecord(log: seq<Entry>, hard: real)
    requires Legal(log, hard)
    ensures var a := Replay(log, hard);
            && (a.finished <==> Over(log, |log|))
            && (a.blocked <==> Stopped(log, |log|) || Failed(log))
            && (a.committed <==> Committed(log))
            && (a.closed <==> SoftClosed(log) || Over(log, |log|))
  {
    hide Over, Stopped, SoftClosed, Committed, Failed;
    if |log| == 0 {
      assert !Over(log, 0) && !Stopped(log, 0) && !SoftClosed(log) && !Committed(log) && !Failed(log) by {
        NothingYet(log);
      }
    } else {
      var front, e := log[..|log| - 1], log[|log| - 1];
      assert log == front + [e];
      FlagsFromRecord(front, hard);
      OverGrows(front, e);
      MarksGrow(front, e);
      TakeMarks(Replay(front, hard), e, hard);
    }
  }

  lemma {:induction false} NothingYet(log: seq<Entry>)
    requires log == []
    ensures !Over(log, 0) && !Stopped(log, 0) && !SoftClosed(log) && !Committed(log) && !Failed(log)
  {
  }

  lemma {:induction false} TakeMarks(sh: Shared, e: Entry, hard: real)
    requires Answered(sh, e, hard)
    ensures var t := Take(sh, e, hard);
            && (t.finished <==> sh.finished || Conclusion(e))
            && (t.blocked <==> sh.blocked || Stop(e) || (Conclusion(e) && e.op.Fail?))
            && (t.committed <==> sh.committed || (Conclusion(e) && e.op.Publish? && e.op.authority))
            && (t.closed <==> sh.closed || e == CloseWork || Conclusion(e))
  {
  }

  /** The verdict of entry k, given whether the search was over or stopped before it. */
  ghost predicate VerdictFits(e: Entry, hard: real, over: bool, stopped: bool) {
    e.Entry? ==>
      match e.op
      case Publish(_, authority, written) =>
        var late, revoked := e.checked >= hard, authority && stopped;
        && (e.verdict == AlreadyFinished <==> over)
        && (e.verdict == Expired <==> !over && late)
        && (e.verdict == Revoked <==> !over && !late && revoked)
        && (e.verdict == WouldBlock <==> !over && !late && !revoked && !written)
        && (e.verdict == Published <==> !over && !late && !revoked && written)
      case _ => e.verdict == if over then Refused else Accepted
  }

  /**
   In every legal record: a publish finds the search already finished exactly after a conclusion, expires exactly when
   otherwise its check is late, is revoked exactly when otherwise it needs authority and an earlier stop was accepted,
   would block exactly when otherwise its write is refused, and goes out in every other case; a fail, a finish and a
   stop are accepted exactly before any conclusion.
   */
  lemma {:induction false} VerdictFromRecord(log: seq<Entry>, hard: real, k: nat)
    requires Legal(log, hard) && k < |log|
    ensures VerdictFits(log[k], hard, Over(log, k), Stopped(log, k))
  {
    hide Legal, Replay, Conclusion, Stop, Answered;
    var front := log[..k];
    LegalPrefix(log, hard, k);
    LegalPrefix(log, hard, k + 1);
    assert log[..k + 1] == front + [log[k]];
    Appended(front, log[k], hard);
    FlagsFromRecord(front, hard);
    assert Over(log, k) <==> Over(front, k);
    assert Stopped(log, k) <==> Stopped(front, k);
    assert Failed(front) ==> Over(front, k);
    assert Committed(front) ==> Over(front, k);
    AnswerFits(Replay(front, hard), log[k], hard, Over(log, k), Stopped(log, k));
  }

  lemma {:induction false} AnswerFits(sh: Shared, e: Entry, hard: real, over: bool, stopped: bool)
    requires Answered(sh, e, hard) && sh.finished == over && (sh.committed ==> over)
    requires !over ==> sh.blocked == stopped
    ensures VerdictFits(e, hard, over, stopped)
  {
  }

  /** What the concluding entry leaves behind, field by field. */
  lemma {:induction false} EndFromRecord(log: seq<Entry>, hard: real, k: nat)
    requires Legal(log, hard) && k < |log| && Conclusion(log[k])
    ensures var a, e := Replay(log, hard), log[k];
            && a.emitted == Some(e.at)
            && (match e.op
                case Publish(text, _, _) => a.line == Some(text) && a.failure == None
                case Fail(reason, text) => a.line == Some(text) && a.failure == Some(reason)
                case Finish(line, failure) => a.line == line && a.failure == failure
                case Block => false)
            && (InTime(a, hard) <==>
                && e.at <= hard
                && (e.op.Publish? || (e.op.Finish? && e.op.lineText.Some? && e.op.failureText == None)))
  {
    hide Legal, Replay;
    assert Terminal(log[k]);
    EndIsTheTerminals(log, hard, k);
  }

  /** Before any conclusion nothing has been emitted and the search is not in time. */
  lemma {:induction false} NothingEmitted(log: seq<Entry>, hard: real)
    requires Legal(log, hard) && !Over(log, |log|)
    ensures var a := Replay(log, hard);
            a.emitted == None && a.line == None && a.failure == None && !InTime(a, hard)
  {
    hide Conclusion, Over;
    if |log| > 0 {
      var front, e := log[..|log| - 1], log[|log| - 1];
      assert log == front + [e];
      OverGrows(front, e);
      NothingEmitted(front, hard);
      FlagsFromRecord(front, hard);
      TakeNothing(Replay(front, hard), e, hard);
    }
  }

  lemma {:induction false} TakeNothing(sh: Shared, e: Entry, hard: real)
    requires Answered(sh, e, hard) && !Conclusion(e)
    ensures var t := Take(sh, e, hard);
            t.finished == sh.finished && t.emitted == sh.emitted && t.line == sh.line && t.failure == sh.failure
  {
  }

  // ---------------------------------------------------------------- races

  /** Thread i's verdict is the one its place in the record calls for. */
  ghost predicate VerdictDeserved(s: State, i: nat, k: nat)
    requires i < |s.threads|
  {
    && k < |s.log| && s.log[k].Entry? && s.log[k].op == s.threads[i].op
    && s.threads[i].verdict == Some(s.log[k].verdict)
    && VerdictFits(s.log[k], s.hard, Over(s.log, k), Stopped(s.log, k))
  }

  ghost predicate Deserved(s: State, i: nat)
    requires i < |s.threads|
  {
    exists k: nat :: VerdictDeserved(s, i, k)
  }

  /**
   In every reachable state of every race each verdict given is the one its place in the record calls for, and in a
   complete race every operation has one.
   */
  lemma {:induction false} RaceVerdicts(ops: seq<Op>, now: real, hard: real, es: seq<Event>, i: nat)
    requires Feasible(Start(ops, now, hard), es) && i < |ops|
    ensures var s := RunAll(Start(ops, now, hard), es);
            && |s.threads| == |ops| && s.threads[i].op == ops[i] && s.hard == hard
            && (s.threads[i].verdict.Some? ==> Deserved(s, i))
            && (AllDone(s) ==> s.threads[i].verdict.Some?)
  {
    hide Start, RunAll, Feasible, Sound, RecordOf, VerdictFits;
    StartSound(ops, now, hard);
    StartOps(ops, now, hard);
    RunSound(Start(ops, now, hard), es);
    OpsStay(Start(ops, now, hard), es);
    HardStays(Start(ops, now, hard), es);
    StartHard(ops, now, hard);
    var s := RunAll(Start(ops, now, hard), es);
    if AllDone(s) { DoneIsQuiet(s); }
    if s.threads[i].verdict.Some? {
      DecidedOnce(s, i);
      assert HasRecord(s, i);
      var k: nat :| RecordOf(s, i, k);
      RecordIs(s, i, k);
      SoundIsLegal(s);
      VerdictFromRecord(s.log, s.hard, k);
      assert VerdictDeserved(s, i, k);
    }
  }

  lemma {:induction false} SoundIsLegal(s: State)
    requires Sound(s)
    ensures Legal(s.log, s.hard)
  {
    hide Locks, FactsAt, LockAgrees, GateAgrees, Publications, WriteAhead, Replay, Calls, Owned;
  }

  lemma {:induction false} StartHard(ops: seq<Op>, now: real, hard: real)
    ensures Start(ops, now, hard).hard == hard
  {
  }

  lemma {:induction false} HardStays(s: State, es: seq<Event>)
    requires Feasible(s, es)
    ensures RunAll(s, es).hard == s.hard
    decreases |es|
  {
    hide CanAct, Proceed, Effect;
    if |es| > 0 { HardStays(Step(s, es[0]), es[1..]); }
  }
}
