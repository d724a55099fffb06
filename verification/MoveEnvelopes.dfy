/** A move's envelope in processors and reasons: how much CPU it gets, and why it was not adapted to the host. */
module MoveEnvelopes {
  import opened Wrappers
  import opened Amounts
  import opened Budget
  import opened Envelopes

  /** cpu is what so many processors can use over the wall time, or all there is when that is less. */
  ghost predicate KeepsBusy(cpu: real, wall: real, processors: real, all: real) {
    && cpu <= wall * processors && cpu <= all
    && (cpu == wall * processors || cpu == all)
  }

  lemma {:induction false} LesserKeepsBusy(wall: real, processors: real, all: real)
    ensures KeepsBusy(Min(all, Spread(wall, processors)), wall, processors, all)
  {
  }

  /** A bounded move: the wall time it asks for or the envelope's, and its processors' CPU time over that wall time. */
  lemma {:induction false} BoundedUse(e: Envelope, wall: int, parallelism: int)
    requires ValidEnvelope(e) && BoundedForMove(e, wall, parallelism).Ok?
    ensures var r := BoundedForMove(e, wall, parallelism).value;
            && (r.wall == wall as real <= e.wall || r.wall == e.wall < wall as real)
            && KeepsBusy(r.cpu, r.wall, parallelism as real, e.cpu)
            && r.gpu == 0.0 && r.verify == e.verify && r.refine == e.refine
  {
    hide ValidEnvelope, Clamped, BoundedForMove, KeepsBusy;
    BoundedAccepted(e, wall, parallelism);
    var r := BoundedForMove(e, wall, parallelism).value;
    LesserKeepsBusy(r.wall, parallelism as real, e.cpu);
    ClampAccepted(e, wall as real, Spread(r.wall, parallelism as real));
  }

  /** An adapted move: the same wall time, and the CPU time of the processors counted on, of the move's own. */
  lemma {:induction false} AdaptedUse(e: Envelope, wall: int, parallelism: int, host: Option<Host>, c: Composition)
    requires ValidEnvelope(e) && BoundedForMove(e, wall, parallelism).Ok?
    requires Planned(BoundedForMove(e, wall, parallelism).value, parallelism, host, c).Ok?
    ensures var base := BoundedForMove(e, wall, parallelism).value;
            var r := Planned(base, parallelism, host, c).value;
            r.effective.Some? ==>
              r.envelope.wall == base.wall && KeepsBusy(r.envelope.cpu, base.wall, r.effective.value, base.cpu)
  {
    hide ValidEnvelope, Clamped, BoundedForMove, KeepsBusy, FallbackReason, Effective, Spread;
    BoundedAccepted(e, wall, parallelism);
    PlanNeverFails(e, wall, parallelism, host, c);
    var base := BoundedForMove(e, wall, parallelism).value;
    var r := Planned(base, parallelism, host, c).value;
    if r.effective.Some? {
      var p := r.effective.value;
      assert Scaled(base, p) == Ok(r.envelope);
      PositiveProduct(base.wall, p);
      var cpu := Min(base.cpu, Spread(base.wall, p));
      ClampAccepted(base, base.wall, cpu);
      LesserKeepsBusy(base.wall, p, base.cpu);
    }
  }

  /** Which envelopes scaling refuses, and with what. */
  lemma {:induction false} ScaledIff(e: Envelope, parallelism: real)
    requires ValidEnvelope(e)
    ensures Scaled(e, parallelism).Ok? <==> PositiveCpuOnly(e) && parallelism > 0.0
    ensures Scaled(e, parallelism) == Err(GpuUnsupported) <==> e.gpu != 0.0
    ensures Scaled(e, parallelism) == Err(BadEffectiveParallelism) <==> e.gpu == 0.0 && parallelism <= 0.0
    ensures Scaled(e, parallelism) == Err(CpuCollapsed) <==>
              e.gpu == 0.0 && parallelism > 0.0 && (e.wall == 0.0 || e.cpu == 0.0)
  {
    hide Clamped;
    if e.gpu == 0.0 && parallelism > 0.0 {
      var cpu := Min(e.cpu, Spread(e.wall, parallelism));
      ClampAccepted(e, e.wall, cpu);
      if e.wall > 0.0 { PositiveProduct(e.wall, parallelism); }
      ClampErrors(e, e.wall, cpu);
    }
  }

  lemma {:induction false} ClampErrors(e: Envelope, wall: real, cpu: real)
    ensures Clamped(e, wall, cpu) !in {Err(GpuUnsupported), Err(BadEffectiveParallelism), Err(CpuCollapsed)}
  {
  }

  /** The guards pass exactly an envelope that exceeds the time plan's in no component by more than 1e-12. */
  lemma {:induction false} GuardIff(base: Envelope, e: Envelope)
    ensures Guarded(base, e).Ok? <==>
              && 1000000000000.0 * (e.wall - base.wall) <= 1.0
              && 1000000000000.0 * (e.cpu - base.cpu) <= 1.0
              && 1000000000000.0 * (e.gpu - base.gpu) <= 1.0
  {
  }

  // ---------------------------------------------------------------- why an envelope is kept

  /** What each reason says about the host and the composition. */
  ghost predicate Holds(r: Reason, host: Option<Host>, c: Composition, parallelism: int) {
    match r
    case DiscoveryUnavailable => host == None
    case CpuSetUnknown => host.Some? && host.value.allowedCpus == None
    case QuotaUnknown => host.Some? && host.value.quota == UnknownQuota
    case MemoryUnknown =>
      host.Some? && (!host.value.memoryKnown || host.value.memoryLimit == None || host.value.memoryLimit.value <= 0)
    case CapacityIncomplete => host.Some? && !host.value.capacityComplete
    case MemoryInsufficient =>
      host.Some? && host.value.memoryLimit.Some? && host.value.memoryLimit.value < c.memoryMib * 1048576
    case CpuCapacityZero =>
      || parallelism <= 0 || c.declaredSlots <= 0 || (host.Some? && host.value.allowedCpus == Some(0))
      || (host.Some? && host.value.quota.Limited? && host.value.quota.equivalents <= 0.0)
  }

  /** The order in which the reasons are looked for. */
  function Place(r: Reason): nat {
    match r
    case DiscoveryUnavailable => 0
    case CpuSetUnknown => 1
    case QuotaUnknown => 2
    case MemoryUnknown => 3
    case CapacityIncomplete => 4
    case MemoryInsufficient => 5
    case CpuCapacityZero => 6
  }

  /** The reason holds and none before it does. */
  ghost predicate FirstHolds(r: Reason, host: Option<Host>, c: Composition, parallelism: int) {
    && Holds(r, host, c, parallelism)
    && forall q: Reason | Place(q) < Place(r) :: !Holds(q, host, c, parallelism)
  }

  lemma {:induction false} ReasonIsFirst(host: Option<Host>, c: Composition, parallelism: int)
    ensures FallbackReason(host, c).Some? ==> FirstHolds(FallbackReason(host, c).value, host, c, parallelism)
    ensures FallbackReason(host, c) == None ==>
              forall r: Reason | Place(r) < 6 :: !Holds(r, host, c, parallelism)
  {
  }

  lemma {:induction false} NoProcessors(host: Host, c: Composition, parallelism: int)
    requires host.allowedCpus.Some?
    ensures Effective(host, c, parallelism) <= 0.0 <==> Holds(CpuCapacityZero, Some(host), c, parallelism)
  {
  }

  lemma {:induction false} OneFirst(a: Reason, b: Reason, host: Option<Host>, c: Composition, parallelism: int)
    requires FirstHolds(a, host, c, parallelism) && FirstHolds(b, host, c, parallelism)
    ensures a == b
  {
    hide Holds;
  }

  /** The envelope is kept for the first reason that holds of host and composition, and adapted when none does. */
  lemma {:induction false} KeptForFirstReason(base: Envelope, parallelism: int, host: Option<Host>, c: Composition,
      r: Reason)
    requires Planned(base, parallelism, host, c).Ok?
    ensures Planned(base, parallelism, host, c).value.reason == Some(r) <==> FirstHolds(r, host, c, parallelism)
  {
    hide Scaled, Guarded, FallbackReason, Effective, Holds, FirstHolds;
    ReasonIsFirst(host, c, parallelism);
    var given := Planned(base, parallelism, host, c).value.reason;
    match FallbackReason(host, c)
    case Some(q) =>
      if FirstHolds(r, host, c, parallelism) { OneFirst(q, r, host, c, parallelism); }
    case None =>
      NoReasonYet(host, c, parallelism);
      NoProcessors(host.value, c, parallelism);
      if Holds(CpuCapacityZero, host, c, parallelism) {
        LastFirst(host, c, parallelism);
        if FirstHolds(r, host, c, parallelism) { OneFirst(CpuCapacityZero, r, host, c, parallelism); }
      } else {
        assert forall q: Reason :: Place(q) == 6 ==> q == CpuCapacityZero;
        NoneFirst(r, host, c, parallelism);
      }
  }

  lemma {:induction false} NoReasonYet(host: Option<Host>, c: Composition, parallelism: int)
    requires FallbackReason(host, c) == None
    ensures host.Some? && host.value.allowedCpus.Some?
  {
  }

  lemma {:induction false} LastFirst(host: Option<Host>, c: Composition, parallelism: int)
    requires Holds(CpuCapacityZero, host, c, parallelism)
    requires forall q: Reason | Place(q) < 6 :: !Holds(q, host, c, parallelism)
    ensures FirstHolds(CpuCapacityZero, host, c, parallelism)
  {
    hide Holds;
  }

  lemma {:induction false} NoneFirst(r: Reason, host: Option<Host>, c: Composition, parallelism: int)
    requires !Holds(CpuCapacityZero, host, c, parallelism)
    requires forall q: Reason | Place(q) < 6 :: !Holds(q, host, c, parallelism)
    ensures !FirstHolds(r, host, c, parallelism)
  {
    hide Holds;
  }
}
