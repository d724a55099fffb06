/**
 Shrinking a resource envelope: the CPU clamp, its per-move form, and the adaptive form layered beneath a time
 plan.
 */
module Envelopes {
  import opened Wrappers
  import opened Amounts
  import opened Budget
  import BudgetBounds

  datatype EnvelopeError =
    | BadClamp | NotPositiveCpuOnly | InvalidEnvelope | BadWall | BadParallelism
    | GpuUnsupported | BadEffectiveParallelism | CpuCollapsed | ExceedsWall | ExceedsCpu | ExceedsGpu

  /** Construction repeats the field checks. */
  function Constructed(e: Envelope): Result<Envelope, EnvelopeError> {
    if ValidEnvelope(e) then Ok(e) else Err(InvalidEnvelope)
  }

  /** What the fractional reserves leave for the controller and the solver. */
  function Capacity(e: Envelope, cpu: real): real { Max(0.0, cpu - cpu * (e.verify + e.refine)) }

  function Shrunk(e: Envelope, wall: real, cpu: real): Envelope {
    Envelope(wall, cpu, 0.0, e.verify, e.refine, Min(e.controller, Capacity(e, cpu)))
  }

  predicate PositiveCpuOnly(e: Envelope) { e.wall > 0.0 && e.cpu > 0.0 && e.gpu == 0.0 }

  function Clamped(e: Envelope, wall: real, cpu: real): Result<Envelope, EnvelopeError> {
    if wall <= 0.0 || cpu <= 0.0 then Err(BadClamp)
    else if !PositiveCpuOnly(e) then Err(NotPositiveCpuOnly)
    else Constructed(Shrunk(e, Min(wall, e.wall), Min(cpu, e.cpu)))
  }

  /** The CPU time of so many processors over a wall time. */
  function Spread(wall: real, processors: real): real { wall * processors }

  /** The per-move form: at most so many processors for the length of the move. */
  function BoundedForMove(e: Envelope, wall: int, parallelism: int): Result<Envelope, EnvelopeError> {
    if wall <= 0 then Err(BadWall)
    else if parallelism <= 0 then Err(BadParallelism)
    else
      var w := Min(wall as real, e.wall);
      Clamped(e, w, Min(e.cpu, Spread(w, parallelism as real)))
  }

  /** The adaptive form: the processors the host really offers. */
  function Scaled(e: Envelope, parallelism: real): Result<Envelope, EnvelopeError> {
    if e.gpu != 0.0 then Err(GpuUnsupported)
    else if parallelism <= 0.0 then Err(BadEffectiveParallelism)
    else
      var cpu := Min(e.cpu, Spread(e.wall, parallelism));
      if cpu <= 0.0 then Err(CpuCollapsed) else Clamped(e, e.wall, cpu)
  }

  // ---------------------------------------------------------------- arithmetic of the clamp

  lemma {:induction false} Scale(a: real, b: real, k: real)
    requires a <= b && k >= 0.0
    ensures a * k <= b * k
  {
  }

  lemma {:induction false} CapacityIs(e: Envelope, cpu: real)
    requires ValidEnvelope(e) && cpu >= 0.0
    ensures cpu * (e.verify + e.refine) == cpu * e.verify + cpu * e.refine
    ensures Capacity(e, cpu) == cpu - cpu * e.verify - cpu * e.refine >= 0.0
  {
    Scale(0.0, cpu, 1.0 - e.verify - e.refine);
    assert cpu * (1.0 - e.verify - e.refine) == cpu - cpu * e.verify - cpu * e.refine;
  }

  lemma {:induction false} CapacityGrows(e: Envelope, a: real, b: real)
    requires ValidEnvelope(e) && 0.0 <= a <= b
    ensures Capacity(e, a) <= Capacity(e, b)
  {
    CapacityIs(e, a);
    CapacityIs(e, b);
    Scale(a, b, 1.0 - e.verify - e.refine);
    assert a * (1.0 - e.verify - e.refine) == a - a * e.verify - a * e.refine;
    assert b * (1.0 - e.verify - e.refine) == b - b * e.verify - b * e.refine;
  }

  lemma {:induction false} PartsFit(cpu: real, a: real, b: real, k: real, capacity: real)
    requires a >= 0.0 && b >= 0.0 && k >= 0.0 && capacity == cpu - a - b >= 0.0
    ensures 0.0 <= Min(k, capacity) <= cpu && a + b + Min(k, capacity) <= cpu
  {
  }

  /** A shrunk envelope passes its own construction checks. */
  lemma {:induction false} ShrunkIsValid(e: Envelope, wall: real, cpu: real)
    requires ValidEnvelope(e) && wall >= 0.0 && cpu >= 0.0
    ensures ValidEnvelope(Shrunk(e, wall, cpu))
  {
    CapacityIs(e, cpu);
    Scale(0.0, cpu, e.verify);
    Scale(0.0, cpu, e.refine);
    PartsFit(cpu, cpu * e.verify, cpu * e.refine, e.controller, Capacity(e, cpu));
    hide Capacity, Min;
  }

  // ---------------------------------------------------------------- the clamping law

  /** Which clamps are accepted; an accepted one is valid and never exceeds its parent or the requested ceilings. */
  lemma {:induction false} ClampAccepted(e: Envelope, wall: real, cpu: real)
    requires ValidEnvelope(e)
    ensures Clamped(e, wall, cpu).Ok? <==> wall > 0.0 && cpu > 0.0 && PositiveCpuOnly(e)
    ensures Clamped(e, wall, cpu).Ok? ==>
              var r := Clamped(e, wall, cpu).value;
              && ValidEnvelope(r) && PositiveCpuOnly(r)
              && r.wall == Min(wall, e.wall) && r.cpu == Min(cpu, e.cpu)
              && r.verify == e.verify && r.refine == e.refine && r.controller <= e.controller
  {
    hide Capacity, ValidEnvelope;
    if wall > 0.0 && cpu > 0.0 && PositiveCpuOnly(e) { ShrunkIsValid(e, Min(wall, e.wall), Min(cpu, e.cpu)); }
  }

  /** The solver's ceiling is what the capacity leaves beside the controller. */
  lemma {:induction false} SolverCap(e: Envelope)
    requires ValidEnvelope(e) && e.gpu == 0.0
    ensures Cap(e, Solver) == Amount(Capacity(e, e.cpu) - e.controller, 0.0)
  {
    CapacityIs(e, e.cpu);
    hide Capacity;
  }

  /** A reserve taken as a fraction shrinks with its envelope. */
  lemma {:induction false} SharesShrink(r: Envelope, e: Envelope)
    requires ValidEnvelope(e) && 0.0 <= r.cpu <= e.cpu && r.gpu == e.gpu == 0.0 && r.verify == e.verify
        && r.refine == e.refine
    ensures Within(Cap(r, Verify), Cap(e, Verify)) && Within(Cap(r, Refine), Cap(e, Refine))
  {
    Scale(r.cpu, e.cpu, e.verify);
    Scale(r.cpu, e.cpu, e.refine);
  }

  /** Every partition cap of a clamped envelope is within the parent's. */
  lemma {:induction false} ClampedCaps(e: Envelope, wall: real, cpu: real, g: Group)
    requires ValidEnvelope(e) && Clamped(e, wall, cpu).Ok?
    ensures Within(Cap(Clamped(e, wall, cpu).value, g), Cap(e, g))
  {
    ClampAccepted(e, wall, cpu);
    var r := Clamped(e, wall, cpu).value;
    CapacityGrows(e, r.cpu, e.cpu);
    SolverCap(e);
    SolverCap(r);
    SameCapacity(e, r, r.cpu);
    CapacityIs(e, e.cpu);
    SharesShrink(r, e);
    SolverShrinks(Capacity(e, r.cpu), Capacity(e, e.cpu), e.controller, r.controller);
    ControllerCap(r, e);
    assert Within(Cap(r, Solver), Cap(e, Solver)) by { hide Cap, Rest, Capacity; }
    hide Cap, Rest, Capacity, ValidEnvelope, Within;
  }

  /** Together the caps of a clamped envelope are exactly its CPU. */
  lemma {:induction false} ClampedCapsSum(e: Envelope, wall: real, cpu: real)
    requires ValidEnvelope(e) && Clamped(e, wall, cpu).Ok?
    ensures var r := Clamped(e, wall, cpu).value;
            Cap(r, Solver).cpu + Cap(r, Verify).cpu + Cap(r, Refine).cpu + Cap(r, Controller).cpu == Min(cpu, e.cpu)
  {
    hide ValidEnvelope, Cap, Clamped;
    ClampAccepted(e, wall, cpu);
    BudgetBounds.CapsPartition(Clamped(e, wall, cpu).value);
  }

  lemma {:induction false} ControllerCap(r: Envelope, e: Envelope)
    requires r.controller <= e.controller
    ensures Within(Cap(r, Controller), Cap(e, Controller))
  {
  }

  lemma {:induction false} SolverShrinks(small: real, large: real, kept: real, reserve: real)
    requires small <= large && reserve == Min(kept, small) && kept <= large
    ensures small - reserve <= large - kept
  {
  }

  /** The controller keeps its absolute reserve until the solver has nothing left, and only then gives any up. */
  lemma {:induction false} SolverYieldsFirst(e: Envelope, wall: real, cpu: real)
    requires ValidEnvelope(e) && Clamped(e, wall, cpu).Ok?
    ensures var r := Clamped(e, wall, cpu).value;
            && (r.controller < e.controller <==> Cap(r, Verify).cpu + Cap(r, Refine).cpu + e.controller > r.cpu)
            && (r.controller < e.controller ==> Cap(r, Solver).cpu == 0.0)
            && Cap(r, Solver).cpu + r.controller == Capacity(e, r.cpu)
  {
    ClampAccepted(e, wall, cpu);
    var r := Clamped(e, wall, cpu).value;
    CapacityIs(e, r.cpu);
    hide Capacity;
  }

  /** Two successive clamps are one clamp by the smaller ceilings. */
  lemma {:induction false} ClampsCompose(e: Envelope, wall: real, cpu: real, wall': real, cpu': real)
    requires ValidEnvelope(e) && Clamped(e, wall, cpu).Ok?
    ensures wall' > 0.0 && cpu' > 0.0 ==>
              Clamped(Clamped(e, wall, cpu).value, wall', cpu') == Clamped(e, Min(wall, wall'), Min(cpu, cpu'))
    ensures wall' <= 0.0 || cpu' <= 0.0 ==> Clamped(Clamped(e, wall, cpu).value, wall', cpu') == Err(BadClamp)
  {
    ClampAccepted(e, wall, cpu);
    var r := Clamped(e, wall, cpu).value;
    if wall' > 0.0 && cpu' > 0.0 {
      var c := Min(cpu', r.cpu);
      CapacityGrows(e, c, r.cpu);
      SameCapacity(e, r, c);
      ShrinkTwice(e, r, Min(wall', r.wall), c);
    }
  }

  lemma {:induction false} SameCapacity(e: Envelope, r: Envelope, cpu: real)
    requires r.verify == e.verify && r.refine == e.refine
    ensures Capacity(r, cpu) == Capacity(e, cpu)
  {
  }

  lemma {:induction false} ShrinkTwice(e: Envelope, r: Envelope, wall: real, cpu: real)
    requires r == Shrunk(e, r.wall, r.cpu) && Capacity(r, cpu) == Capacity(e, cpu) <= Capacity(e, r.cpu)
    ensures Shrunk(r, wall, cpu) == Shrunk(e, wall, cpu)
  {
    hide Capacity;
  }

  // ---------------------------------------------------------------- per move, then adaptive

  lemma {:induction false} PositiveProduct(a: real, b: real)
    requires a > 0.0 && b > 0.0
    ensures Spread(a, b) > 0.0
  {
  }

  /** A move's envelope: accepted for every positive bound, as long as the move and no wider than its processors. */
  lemma {:induction false} BoundedAccepted(e: Envelope, wall: int, parallelism: int)
    requires ValidEnvelope(e)
    ensures BoundedForMove(e, wall, parallelism).Ok? <==> wall > 0 && parallelism > 0 && PositiveCpuOnly(e)
    ensures BoundedForMove(e, wall, parallelism).Ok? ==>
              var r := BoundedForMove(e, wall, parallelism).value;
              && ValidEnvelope(r) && PositiveCpuOnly(r)
              && r.wall == Min(wall as real, e.wall) && r.cpu == Min(e.cpu, Spread(r.wall, parallelism as real))
              && Clamped(e, wall as real, Spread(r.wall, parallelism as real)) == Ok(r)
  {
    hide ValidEnvelope, Constructed, Clamped, Spread;
    var w := Min(wall as real, e.wall);
    var cpu := Min(e.cpu, Spread(w, parallelism as real));
    if wall > 0 && parallelism > 0 {
      if PositiveCpuOnly(e) { PositiveProduct(w, parallelism as real); }
      ClampAccepted(e, w, cpu);
      NotPositive(e, w, cpu);
      ClampSame(e, wall as real, Spread(w, parallelism as real));
    }
  }

  lemma {:induction false} NotPositive(e: Envelope, wall: real, cpu: real)
    ensures !PositiveCpuOnly(e) ==> Clamped(e, wall, cpu).Err?
  {
  }

  /** Lowering a ceiling to the parent's own value first changes nothing. */
  lemma {:induction false} ClampSame(e: Envelope, wall: real, cpu: real)
    requires PositiveCpuOnly(e) ==> wall > 0.0 && cpu > 0.0
    ensures PositiveCpuOnly(e) ==> Clamped(e, Min(wall, e.wall), Min(e.cpu, cpu)) == Clamped(e, wall, cpu)
  {
    hide ValidEnvelope, Shrunk;
  }

  lemma {:induction false} LesserProduct(w: real, p: real, q: real)
    requires w > 0.0 && p > 0.0 && q > 0.0
    ensures Min(Spread(w, p), Spread(w, q)) == Spread(w, Min(p, q))
  {
    if p <= q { Scale(p, q, w); } else { Scale(q, p, w); }
  }

  /** Scaling a move's envelope to the host is one clamp of the declared envelope by the smaller parallelism. */
  lemma {:induction false} ScaledIsOneClamp(e: Envelope, wall: int, parallelism: int, effective: real)
    requires ValidEnvelope(e) && BoundedForMove(e, wall, parallelism).Ok? && effective > 0.0
    ensures var base := BoundedForMove(e, wall, parallelism).value;
            && Scaled(base, effective) ==
               Clamped(e, wall as real, Spread(base.wall, Min(parallelism as real, effective)))
            && Scaled(base, effective).Ok?
  {
    hide ValidEnvelope, Constructed, Clamped, BoundedForMove, Spread;
    BoundedAccepted(e, wall, parallelism);
    var r := BoundedForMove(e, wall, parallelism).value;
    var p := parallelism as real;
    var wide, narrow, both := Spread(r.wall, p), Spread(r.wall, effective), Spread(r.wall, Min(p, effective));
    PositiveProduct(r.wall, effective);
    PositiveProduct(r.wall, p);
    LesserProduct(r.wall, p, effective);
    var c := Min(r.cpu, narrow);
    ClampsCompose(e, wall as real, wide, r.wall, c);
    ClampAccepted(r, r.wall, c);
    assert Min(wide, c) == Min(e.cpu, both) && Min(wall as real, r.wall) == r.wall;
    ClampSame(e, wall as real, both);
  }

  // ---------------------------------------------------------------- the move resource plan's envelope

  datatype Quota = UnknownQuota | Unlimited | Limited(equivalents: real)

  /** What discovery says about the host, as far as the envelope depends on it. */
  datatype Host = Host(allowedCpus: Option<nat>, quota: Quota, memoryKnown: bool, memoryLimit: Option<int>,
      capacityComplete: bool)

  /** What the composition profile asks for. */
  datatype Composition = Composition(declaredSlots: int, memoryMib: int)

  datatype Reason = DiscoveryUnavailable | CpuSetUnknown | QuotaUnknown | MemoryUnknown | CapacityIncomplete
    | MemoryInsufficient | CpuCapacityZero

  function FallbackReason(host: Option<Host>, c: Composition): Option<Reason> {
    match host
    case None => Some(DiscoveryUnavailable)
    case Some(h) =>
      if h.allowedCpus == None then Some(CpuSetUnknown)
      else if h.quota.UnknownQuota? then Some(QuotaUnknown)
      else if !h.memoryKnown || h.memoryLimit == None || h.memoryLimit.value <= 0 then Some(MemoryUnknown)
      else if !h.capacityComplete then Some(CapacityIncomplete)
      else if h.memoryLimit.value < c.memoryMib * 1024 * 1024 then Some(MemoryInsufficient)
      else None
  }

  /** The processors the move may count on. */
  function Effective(host: Host, c: Composition, parallelism: int): real
    requires host.allowedCpus.Some?
  {
    var cpus := host.allowedCpus.value as real;
    var offered := match host.quota case Limited(q) => Min(cpus, q) case _ => cpus;
    Min(Min(parallelism as real, c.declaredSlots as real), offered)
  }

  const SLACK := 0.000000000001

  /** The three comparisons against the time plan that follow the envelope's selection. */
  function Guarded(base: Envelope, e: Envelope): Result<Envelope, EnvelopeError> {
    if e.wall > base.wall + SLACK then Err(ExceedsWall)
    else if e.cpu > base.cpu + SLACK then Err(ExceedsCpu)
    else if e.gpu > base.gpu + SLACK then Err(ExceedsGpu)
    else Ok(e)
  }

  datatype Selection = Selection(envelope: Envelope, reason: Option<Reason>, effective: Option<real>)

  /** The envelope part of the move resource plan built beneath a time plan's envelope. */
  function Planned(base: Envelope, parallelism: int, host: Option<Host>,
      c: Composition): Result<Selection, EnvelopeError> {
    match FallbackReason(host, c)
    case Some(reason) => Selected(base, Ok(base), Some(reason), None)
    case None =>
      var p := Effective(host.value, c, parallelism);
      if p <= 0.0 then Selected(base, Ok(base), Some(CpuCapacityZero), None)
      else Selected(base, Scaled(base, p), None, Some(p))
  }

  function Selected(base: Envelope, e: Result<Envelope, EnvelopeError>, reason: Option<Reason>,
      p: Option<real>): Result<Selection, EnvelopeError> {
    match e
    case Err(x) => Err(x)
    case Ok(v) => match Guarded(base, v) case Err(x) => Err(x) case Ok(w) => Ok(Selection(w, reason, p))
  }

  /**
   Beneath a move's envelope the selection never fails whatever the host reports: no guard fires, and the result is
   either the move's own envelope, with a reason, or a single clamp of the declared envelope.
   */
  lemma {:induction false} PlanNeverFails(e: Envelope, wall: int, parallelism: int, host: Option<Host>, c: Composition)
    requires ValidEnvelope(e) && BoundedForMove(e, wall, parallelism).Ok?
    ensures var base := BoundedForMove(e, wall, parallelism).value;
            var r := Planned(base, parallelism, host, c);
            && r.Ok? && ValidEnvelope(r.value.envelope)
            && r.value.envelope.wall == base.wall && r.value.envelope.cpu <= base.cpu && r.value.envelope.gpu == 0.0
            && (r.value.reason.Some? <==> r.value.effective == None)
            && (r.value.reason.Some? ==> r.value.envelope == base)
            && (r.value.effective.Some? ==>
                  && 0.0 < r.value.effective.value <= parallelism as real
                  && Clamped(e, wall as real, Spread(base.wall, r.value.effective.value)) == Ok(r.value.envelope))
  {
    hide ValidEnvelope, Clamped, BoundedForMove, FallbackReason, Scaled, Spread;
    BoundedAccepted(e, wall, parallelism);
    var base := BoundedForMove(e, wall, parallelism).value;
    if FallbackReason(host, c) == None {
      var p := EffectiveBounded(host, c, parallelism);
      if p > 0.0 {
        ScaledIsOneClamp(e, wall, parallelism, p);
        ScaledWithin(base, p);
      }
    }
  }

  /** The processors counted on are the fewest of those planned, declared, allowed and within quota. */
  predicate Fewest(p: real, host: Host, c: Composition, parallelism: int)
    requires host.allowedCpus.Some?
  {
    && p <= parallelism as real && p <= c.declaredSlots as real && p <= host.allowedCpus.value as real
    && (host.quota.Limited? ==> p <= host.quota.equivalents)
    && (p == parallelism as real || p == c.declaredSlots as real || p == host.allowedCpus.value as real
        || (host.quota.Limited? && p == host.quota.equivalents))
  }

  lemma {:induction false} EffectiveBounded(host: Option<Host>, c: Composition, parallelism: int) returns (p: real)
    requires FallbackReason(host, c) == None
    ensures host.Some? && host.value.allowedCpus.Some? && p == Effective(host.value, c, parallelism)
    ensures Fewest(p, host.value, c, parallelism)
  {
    p := Effective(host.value, c, parallelism);
  }

  /** Discovery is complete enough to plan from, and the composition fits the memory it found. */
  predicate Ready(host: Option<Host>, c: Composition) {
    && host.Some? && host.value.allowedCpus.Some? && !host.value.quota.UnknownQuota?
    && host.value.memoryKnown && host.value.memoryLimit.Some? && host.value.capacityComplete
    && host.value.memoryLimit.value > 0 && host.value.memoryLimit.value >= c.memoryMib * 1048576
  }

  /**
   The plan adapts exactly on a ready host where every source of processors offers some; otherwise it keeps the
   move's envelope.
   */
  lemma {:induction false} AdaptsIff(e: Envelope, wall: int, parallelism: int, host: Option<Host>, c: Composition)
    requires ValidEnvelope(e) && BoundedForMove(e, wall, parallelism).Ok?
    ensures var r := Planned(BoundedForMove(e, wall, parallelism).value, parallelism, host, c);
            && r.Ok?
            && (r.value.effective.Some? <==>
                  && Ready(host, c) && c.declaredSlots > 0 && host.value.allowedCpus.value > 0
                  && (host.value.quota.Limited? ==> host.value.quota.equivalents > 0.0))
            && (r.value.effective.Some? ==>
                Ready(host, c) && Fewest(r.value.effective.value, host.value, c, parallelism))
  {
    hide ValidEnvelope, Clamped, BoundedForMove, Scaled, Spread;
    PlanNeverFails(e, wall, parallelism, host, c);
    BoundedAccepted(e, wall, parallelism);
    assert FallbackReason(host, c) == None <==> Ready(host, c);
    if FallbackReason(host, c) == None { var p := EffectiveBounded(host, c, parallelism); }
  }

  lemma {:induction false} ScaledWithin(base: Envelope, p: real)
    requires ValidEnvelope(base) && PositiveCpuOnly(base) && p > 0.0
    ensures Scaled(base, p).Ok? ==>
              var r := Scaled(base, p).value;
              ValidEnvelope(r) && r.wall == base.wall && r.cpu <= base.cpu && r.gpu == 0.0
  {
    hide ValidEnvelope, Clamped, Spread;
    PositiveProduct(base.wall, p);
    ClampAccepted(base, base.wall, Min(base.cpu, Spread(base.wall, p)));
  }
}
