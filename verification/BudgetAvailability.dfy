/** What is available for each purpose, told from the envelope, the open reservations and the journal alone. */
module BudgetAvailability {
  import opened Wrappers
  import opened Amounts
  import opened Budget
  import opened BudgetInvariant
  import opened BudgetBounds
  import BudgetAccounts

  function PurposesOf(g: Group): set<string> {
    match g
    case Solver => {"solver", "anchor"}
    case Verify => {"verify"}
    case Refine => {"refine"}
    case Controller => {"controller"}
  }

  lemma {:induction false} GroupNames(purpose: string, g: Group)
    ensures PurposeClass(purpose) == Some(g) <==> purpose in PurposesOf(g)
  {
    assert "solver"[0] == "solver"[0] && "anchor"[0] != "verify"[0] && "refine"[0] != "controller"[0];
    assert "verify"[0] != "refine"[0] && "verify"[0] != "controller"[0] && "anchor"[0] != "refine"[0];
    assert "solver"[0] != "verify"[0] && "solver"[0] != "refine"[0] && "solver"[0] != "controller"[0];
    assert "anchor"[0] != "controller"[0] && "solver"[0] != "anchor"[0];
  }

  /** What the journal records as spent for the named purposes: settlements at their actual cost, and charges. */
  function JournalSpend(journal: seq<JournalRow>, names: set<string>): Amount {
    if |journal| == 0 then ZERO
    else
      var row := journal[|journal| - 1];
      Plus(JournalSpend(journal[..|journal| - 1], names),
           if row.SettleRow? && row.purpose in names then row.actual
           else if row.ChargeRow? && row.purpose in names then Amount(row.cpu, 0.0)
           else ZERO)
  }

  lemma {:induction false} SpendAppend(journal: seq<JournalRow>, row: JournalRow, names: set<string>)
    ensures JournalSpend(journal + [row], names) ==
            Plus(JournalSpend(journal, names),
                 if row.SettleRow? && row.purpose in names then row.actual
                 else if row.ChargeRow? && row.purpose in names then Amount(row.cpu, 0.0)
                 else ZERO)
  {
    assert (journal + [row])[..|journal|] == journal;
  }

  ghost predicate SpentIsJournal(b: Books, g: Group) {
    Get(b.spent, g) == JournalSpend(b.journal, PurposesOf(g))
  }

  /** After any command on any object a group's spend is what the journal records for its purposes. */
  lemma {:induction false} StepSpends(b: Books, c: Command, g: Group)
    requires SpentIsJournal(b, g)
    ensures SpentIsJournal(Step(b, c), g)
  {
    hide CheckReserve, PurposeClass, CheckProvenance, ParseSource, Settled, Clamp, Plus, Minus, Available, PurposesOf;
    hide JournalSpend, NonNegative;
    PlusZero(Get(b.spent, g));
    if c.Settle? || c.Release? { GroupNames(c.r.purpose, g); } else { GroupNames(c.purpose, g); }
    var d := Step(b, c);
    if d.journal != b.journal {
      LastRow(b, c);
      SpendAppend(b.journal, d.journal[|b.journal|], PurposesOf(g));
    }
  }

  lemma {:induction false} LastRow(b: Books, c: Command)
    ensures Step(b, c).journal == b.journal
            || (|Step(b, c).journal| == |b.journal| + 1
                && Step(b, c).journal == b.journal + [Step(b, c).journal[|b.journal|]])
  {
    hide CheckReserve, ParseSource, GroupOf, CheckCharge, Settled, Clamp, Plus, Minus, NonNegative, Available;
  }

  lemma {:induction false} RunSpends(env: Envelope, cs: seq<Command>, g: Group)
    ensures SpentIsJournal(Run(Opening(env), cs), g) && Run(Opening(env), cs).env == env
  {
    hide Step;
    if |cs| > 0 {
      RunSpends(env, cs[..|cs| - 1], g);
      StepSpends(Run(Opening(env), cs[..|cs| - 1]), cs[|cs| - 1], g);
      BudgetAccounts.StepEnv(Run(Opening(env), cs[..|cs| - 1]), cs[|cs| - 1]);
    }
  }

  /** What the open reservations claim for the named purposes. */
  ghost function ClaimedFor(open: map<int, Reservation>, names: set<string>): Amount {
    Sum(map id | id in open && open[id].purpose in names :: open[id].amount)
  }

  lemma {:induction false} ClaimsByName(open: map<int, Reservation>, g: Group)
    ensures Claimed(open, InGroup(g)) == ClaimedFor(open, PurposesOf(g))
  {
    hide Sum, PurposeClass, PurposesOf;
    forall id | id in open ensures Picks(InGroup(g), open[id]) <==> open[id].purpose in PurposesOf(g) {
      GroupNames(open[id].purpose, g);
    }
    assert Selected(open, InGroup(g)) == map id | id in open && open[id].purpose in PurposesOf(g) :: open[id].amount;
  }

  /** Claimed by open reservations plus spent according to the journal. */
  ghost function UseOf(b: Books, names: set<string>): Amount {
    Plus(ClaimedFor(b.open, names), JournalSpend(b.journal, names))
  }

  /** The use of all purposes together. */
  ghost function UseOfAll(b: Books): Amount {
    Four(UseOf(b, {"solver", "anchor"}), UseOf(b, {"verify"}), UseOf(b, {"refine"}), UseOf(b, {"controller"}))
  }

  /** What a capacity and the whole envelope leave, never below zero. */
  function LeftOf(cap: real, used: real, whole: real, all: real): real {
    if cap - used <= 0.0 || whole - all <= 0.0 then 0.0
    else if cap - used <= whole - all then cap - used
    else whole - all
  }

  lemma {:induction false} LeftIs(cap: Amount, used: Amount, whole: Amount, all: Amount)
    ensures Clamp(Amount(Min(Minus(cap, used).cpu, Minus(whole, all).cpu),
                         Min(Minus(cap, used).gpu, Minus(whole, all).gpu)))
            == Amount(LeftOf(cap.cpu, used.cpu, whole.cpu, all.cpu), LeftOf(cap.gpu, used.gpu, whole.gpu, all.gpu))
  {
  }

  lemma {:induction false} GroupUse(env: Envelope, cs: seq<Command>, g: Group)
    requires ValidEnvelope(env) && GenuineRun(Opening(env), cs)
    ensures var b := Run(Opening(env), cs); GroupCommitted(b, g) == UseOf(b, PurposesOf(g)) && b.env == env
  {
    hide BInv, Plus, Claimed, ClaimedFor, JournalSpend, PurposesOf, ValidEnvelope, Run, GenuineRun;
    OpeningKeeps(env);
    RunKeepsBooks(Opening(env), cs);
    RunSpends(env, cs, g);
    var b := Run(Opening(env), cs);
    ReservedIs(b, g);
    ClaimsByName(b.open, g);
  }

  lemma {:induction false} ReservedIs(b: Books, g: Group)
    requires BInv(b)
    ensures Get(b.reserved, g) == Claimed(b.open, InGroup(g))
  {
    hide Claimed, Committed, AccountOk, ValidEnvelope, ReservationOk, NonNegative;
    assert GroupOk(b, g);
  }

  lemma {:induction false} WholeUse(env: Envelope, cs: seq<Command>)
    requires ValidEnvelope(env) && GenuineRun(Opening(env), cs)
    ensures var b := Run(Opening(env), cs); Committed(b) == UseOfAll(b)
  {
    hide BInv, Plus, Four, GroupCommitted, UseOf, ValidEnvelope, Run, GenuineRun, Committed;
    OpeningKeeps(env);
    RunKeepsBooks(Opening(env), cs);
    LanesAgreeWithGroups(Run(Opening(env), cs));
    GroupUse(env, cs, Solver);
    GroupUse(env, cs, Verify);
    GroupUse(env, cs, Refine);
    GroupUse(env, cs, Controller);
  }

  /** A purpose with its own cap and names may still claim this much. */
  ghost predicate Offers(b: Books, purpose: string, cpuCap: real, gpuCap: real, names: set<string>) {
    && PurposeClass(purpose).Some?
    && Available(b, PurposeClass(purpose).value) ==
       Amount(LeftOf(cpuCap, UseOf(b, names).cpu, b.env.cpu, UseOfAll(b).cpu),
              LeftOf(gpuCap, UseOf(b, names).gpu, b.env.gpu, UseOfAll(b).gpu))
  }

  lemma {:induction false} OffersGroup(env: Envelope, cs: seq<Command>, purpose: string, g: Group)
    requires ValidEnvelope(env) && GenuineRun(Opening(env), cs) && PurposeClass(purpose) == Some(g)
    ensures Offers(Run(Opening(env), cs), purpose, Cap(env, g).cpu, Cap(env, g).gpu, PurposesOf(g))
  {
    hide ValidEnvelope, Run, GenuineRun, PurposeClass, Cap, UseOf, UseOfAll, Committed, GroupCommitted;
    hide Plus, Minus, Min, Clamp, LeftOf, PurposesOf;
    GroupUse(env, cs, g);
    WholeUse(env, cs);
    var b := Run(Opening(env), cs);
    LeftIs(Cap(env, g), GroupCommitted(b, g), Whole(env), Committed(b));
  }

  function PartOf(total: real, fraction: real): real { total * fraction }

  /** What the two fractional parts and a fixed one leave. */
  function Remainder(total: real, v: real, r: real, fixed: real): real {
    total - PartOf(total, v) - PartOf(total, r) - fixed
  }

  lemma {:induction false} CapsAre(env: Envelope)
    requires ValidEnvelope(env)
    ensures Cap(env, Verify) == Amount(PartOf(env.cpu, env.verify), PartOf(env.gpu, env.verify))
    ensures Cap(env, Refine) == Amount(PartOf(env.cpu, env.refine), PartOf(env.gpu, env.refine))
    ensures Cap(env, Controller) == Amount(env.controller, 0.0)
    ensures Cap(env, Solver) ==
            Amount(Remainder(env.cpu, env.verify, env.refine, env.controller),
                   Remainder(env.gpu, env.verify, env.refine, 0.0))
  {
    Share(env.cpu, env.verify, env.refine);
    Share(env.gpu, env.verify, env.refine);
  }

  /**
   After any run, each purpose is offered what its own cap and the whole envelope leave beyond the open claims and the
   journalled spend: a fraction of the envelope for verification and refinement, an absolute CPU reserve for the
   controller, and what those leave, shared, for solver and anchor.
   */
  lemma {:induction false} AvailableFor(env: Envelope, cs: seq<Command>)
    requires ValidEnvelope(env) && GenuineRun(Opening(env), cs)
    ensures var b, v, r := Run(Opening(env), cs), env.verify, env.refine;
            var cpu, gpu := Remainder(env.cpu, v, r, env.controller), Remainder(env.gpu, v, r, 0.0);
            && Offers(b, "verify", PartOf(env.cpu, v), PartOf(env.gpu, v), {"verify"})
            && Offers(b, "refine", PartOf(env.cpu, r), PartOf(env.gpu, r), {"refine"})
            && Offers(b, "controller", env.controller, 0.0, {"controller"})
            && Offers(b, "solver", cpu, gpu, {"solver", "anchor"})
            && Offers(b, "anchor", cpu, gpu, {"solver", "anchor"})
    ensures forall p :: PurposeClass(p).Some? <==> p in {"verify", "refine", "controller", "solver", "anchor"}
  {
    hide Run, GenuineRun, Offers, Cap, PartOf, Remainder, ValidEnvelope;
    CapsAre(env);
    GroupNames("verify", Verify);
    GroupNames("refine", Refine);
    GroupNames("controller", Controller);
    GroupNames("solver", Solver);
    GroupNames("anchor", Solver);
    OffersGroup(env, cs, "verify", Verify);
    OffersGroup(env, cs, "refine", Refine);
    OffersGroup(env, cs, "controller", Controller);
    OffersGroup(env, cs, "solver", Solver);
    OffersGroup(env, cs, "anchor", Solver);
    forall p ensures PurposeClass(p).Some? <==> p in {"verify", "refine", "controller", "solver", "anchor"} {
      GroupNames(p, Verify);
      GroupNames(p, Refine);
      GroupNames(p, Controller);
      GroupNames(p, Solver);
    }
  }
}
