/**
 The terminal state of one clock search and what each operation does to it when it runs alone.
 Times are milliseconds since the request was received.
 */
module ClockOutcome {
  import opened Wrappers

  datatype Shared = Shared(
    closed: bool, blocked: bool, committed: bool, finished: bool,
    emitted: Option<real>, line: Option<string>, failure: Option<string>)

  const FRESH := Shared(false, false, false, false, None, None, None)

  /** written is what the non-blocking write attempt would report. */
  datatype Op =
    | Publish(text: string, authority: bool, written: bool)
    | Fail(reason: string, text: string)
    | Finish(lineText: Option<string>, failureText: Option<string>)
    | Block

  datatype Verdict = Published | AlreadyFinished | Expired | Revoked | WouldBlock | Accepted | Refused

  /** What an operation answers, given whether its deadline check came too late. */
  function Answer(sh: Shared, op: Op, late: bool): Verdict {
    match op
    case Publish(_, authority, written) =>
      if sh.finished then AlreadyFinished
      else if late then Expired
      else if authority && sh.blocked then Revoked
      else if !written then WouldBlock
      else Published
    case Fail(_, _) => if sh.finished then Refused else Accepted
    case Finish(_, _) => if sh.finished then Refused else Accepted
    case Block => if sh.committed || sh.finished then Refused else Accepted
  }

  function LineOf(op: Op): Option<string> {
    match op
    case Publish(text, _, _) => Some(text)
    case Fail(_, text) => Some(text)
    case Finish(line, _) => line
    case Block => None
  }

  function FailureOf(op: Op): Option<string> {
    match op case Fail(reason, _) => Some(reason) case Finish(_, failure) => failure case _ => None
  }

  /** Does this answer to this operation end the search? */
  predicate Ends(op: Op, v: Verdict) { if op.Publish? then v == Published else !op.Block? && v == Accepted }

  function Ended(sh: Shared, op: Op, at: real): Shared {
    Shared(true, sh.blocked || op.Fail?, sh.committed || (op.Publish? && op.authority), true, Some(at), LineOf(op),
           FailureOf(op))
  }

  function After(sh: Shared, op: Op, late: bool, at: real): Shared {
    var v := Answer(sh, op, late);
    if Ends(op, v) then Ended(sh, op, at)
    else if op.Block? && v == Accepted then sh.(blocked := true)
    else sh
  }

  /** Was the answer given in time? */
  predicate InTime(sh: Shared, hard: real) {
    sh.finished && sh.failure == None && sh.line.Some? && sh.emitted.Some? && sh.emitted.value <= hard
  }

  /** One search's mutable deadline state; each method runs under the locks the source takes around it. */
  class ClockSearch {
    const hard: real
    var workClosed: bool
    var authorityBlocked: bool
    var authorityCommitted: bool
    var finished: bool
    var emittedMs: Option<real>
    var emittedLine: Option<string>
    var failure: Option<string>

    function Seen(): Shared
      reads this
    {
      Shared(workClosed, authorityBlocked, authorityCommitted, finished, emittedMs, emittedLine, failure)
    }

    constructor (hardBudget: real)
      ensures Seen() == FRESH && hard == hardBudget
    {
      hard := hardBudget;
      workClosed, authorityBlocked, authorityCommitted, finished := false, false, false, false;
      emittedMs, emittedLine, failure := None, None, None;
    }

    /** attempted says whether the write was tried at all. */
    method TryPublish(text: string, written: bool, requireAuthority: bool, checkedAt: real, stampedAt: real)
      returns (v: Verdict, attempted: bool)
      modifies this
      ensures v == Answer(old(Seen()), Publish(text, requireAuthority, written), checkedAt >= hard)
      ensures Seen() == After(old(Seen()), Publish(text, requireAuthority, written), checkedAt >= hard, stampedAt)
      ensures attempted <==> v in {WouldBlock, Published}
    {
      attempted := false;
      if finished { return AlreadyFinished, attempted; }
      if checkedAt >= hard { return Expired, attempted; }
      if requireAuthority && authorityBlocked { return Revoked, attempted; }
      attempted := true;
      if !written { return WouldBlock, attempted; }
      emittedMs := Some(stampedAt);
      emittedLine := Some(text);
      failure := None;
      workClosed := true;
      if requireAuthority { authorityCommitted := true; }
      finished := true;
      v := Published;
    }

    method FailSearch(reason: string, text: string, stampedAt: real) returns (sealed: bool)
      modifies this
      ensures sealed == (Answer(old(Seen()), Op.Fail(reason, text), false) == Accepted)
      ensures Seen() == After(old(Seen()), Op.Fail(reason, text), false, stampedAt)
    {
      if finished { return false; }
      authorityBlocked := true;
      emittedMs := Some(stampedAt);
      emittedLine := Some(text);
      failure := Some(reason);
      workClosed := true;
      finished := true;
      sealed := true;
    }

    method FinishSearch(line: Option<string>, cause: Option<string>, stampedAt: real) returns (sealed: bool)
      modifies this
      ensures sealed == (Answer(old(Seen()), Finish(line, cause), false) == Accepted)
      ensures Seen() == After(old(Seen()), Finish(line, cause), false, stampedAt)
    {
      if finished { return false; }
      emittedMs := Some(stampedAt);
      emittedLine := line;
      failure := cause;
      workClosed := true;
      finished := true;
      sealed := true;
    }

    method BlockAuthority() returns (revoked: bool)
      modifies this
      ensures revoked == (Answer(old(Seen()), Block, false) == Accepted)
      ensures Seen() == After(old(Seen()), Block, false, 0.0)
    {
      if authorityCommitted || finished { return false; }
      authorityBlocked := true;
      revoked := true;
    }

    method Outcome() returns (emitted: Option<real>, line: Option<string>, cause: Option<string>, within: bool)
      ensures emitted == emittedMs && line == emittedLine && cause == failure && within == InTime(Seen(), hard)
    {
      emitted, line, cause := emittedMs, emittedLine, failure;
      within := finished && failure == None && emittedLine.Some? && emittedMs.Some? && emittedMs.value <= hard;
    }
  }

  // ---------------------------------------------------------------- one operation after another

  /** One operation as it took effect, or the soft deadline closing further work. */
  datatype Entry = Entry(who: nat, op: Op, checked: real, at: real, verdict: Verdict) | CloseWork

  function Take(sh: Shared, e: Entry, hard: real): Shared {
    match e
    case CloseWork => sh.(closed := true)
    case Entry(_, op, checked, at, _) => After(sh, op, checked >= hard, at)
  }

  function Replay(log: seq<Entry>, hard: real): Shared {
    if |log| == 0 then FRESH else Take(Replay(log[..|log| - 1], hard), log[|log| - 1], hard)
  }

  predicate Answered(sh: Shared, e: Entry, hard: real) {
    e.Entry? ==> e.verdict == Answer(sh, e.op, e.checked >= hard)
  }

  /** Every recorded verdict is the one the operation gives when run after those before it. */
  predicate Legal(log: seq<Entry>, hard: real) {
    |log| > 0 ==> Legal(log[..|log| - 1], hard) && Answered(Replay(log[..|log| - 1], hard), log[|log| - 1], hard)
  }

  predicate Terminal(e: Entry) { e.Entry? && Ends(e.op, e.verdict) }

  function Terminals(log: seq<Entry>): nat {
    if |log| == 0 then 0 else Terminals(log[..|log| - 1]) + (if Terminal(log[|log| - 1]) then 1 else 0)
  }

  lemma {:induction false} Appended(log: seq<Entry>, e: Entry, hard: real)
    ensures Replay(log + [e], hard) == Take(Replay(log, hard), e, hard)
    ensures Legal(log + [e], hard) <==> Legal(log, hard) && Answered(Replay(log, hard), e, hard)
    ensures Terminals(log + [e]) == Terminals(log) + (if Terminal(e) then 1 else 0)
  {
    hide Take, Answered, Terminal;
    assert (log + [e])[..|log|] == log;
  }

  /** Committed authority means a finished search without failure that was never blocked. */
  lemma {:induction false} CommittedIsFinal(log: seq<Entry>, hard: real)
    ensures Replay(log, hard).committed ==>
              Replay(log, hard).finished && Replay(log, hard).failure == None && !Replay(log, hard).blocked
  {
    if |log| > 0 { CommittedIsFinal(log[..|log| - 1], hard); }
  }

  /** A search ends at most once: exactly when one terminal verdict was given. */
  lemma {:induction false} EndsOnce(log: seq<Entry>, hard: real)
    requires Legal(log, hard)
    ensures Terminals(log) == if Replay(log, hard).finished then 1 else 0
  {
    if |log| > 0 { EndsOnce(log[..|log| - 1], hard); }
  }

  /** Nothing that comes after the end changes the terminal line, failure, time or commitment. */
  lemma {:induction false} EndIsFrozen(log: seq<Entry>, more: seq<Entry>, hard: real)
    requires Replay(log, hard).finished
    ensures var a, b := Replay(log, hard), Replay(log + more, hard);
            b.finished && b.line == a.line && b.failure == a.failure && b.emitted == a.emitted
                && b.committed == a.committed
    decreases |more|
  {
    if |more| == 0 {
      assert log + more == log;
    } else {
      EndIsFrozen(log, more[..|more| - 1], hard);
      assert log + more == (log + more[..|more| - 1]) + [more[|more| - 1]];
      Appended(log + more[..|more| - 1], more[|more| - 1], hard);
    }
  }

  /** The terminal state is that of the one terminal entry. */
  lemma {:induction false} EndIsTheTerminals(log: seq<Entry>, hard: real, k: nat)
    requires Legal(log, hard) && k < |log| && Terminal(log[k])
    ensures var a, e := Replay(log, hard), log[k];
            && a.finished && a.line == LineOf(e.op) && a.failure == FailureOf(e.op) && a.emitted == Some(e.at)
            && (e.op.Publish? ==> e.checked < hard && e.op.written)
            && (a.committed <==> e.op.Publish? && e.op.authority)
  {
    hide Legal, Replay;
    var upto := log[..k];
    LegalPrefix(log, hard, k + 1);
    assert log[..k + 1] == upto + [log[k]];
    Appended(upto, log[k], hard);
    CommittedIsFinal(upto, hard);
    assert log == log[..k + 1] + log[k + 1..];
    EndIsFrozen(log[..k + 1], log[k + 1..], hard);
  }

  lemma {:induction false} LegalPrefix(log: seq<Entry>, hard: real, k: nat)
    requires Legal(log, hard) && k <= |log|
    ensures Legal(log[..k], hard)
  {
    if k < |log| {
      LegalPrefix(log[..|log| - 1], hard, k);
      assert log[..|log| - 1][..k] == log[..k];
    } else {
      assert log[..k] == log;
    }
  }
}
