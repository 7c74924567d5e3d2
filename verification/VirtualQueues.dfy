/**
 The virtual low-latency queue (Annex O of CM-SP-MULPIv3.1): an estimate, in time units, of how long the admitted
 low-latency packets take to drain at the maximum rate.
 */
module VirtualQueues {
  import opened DocsisTypes

  /** Nanoseconds to send so many bytes. */
  function ServiceTime(bytes: nat, rate: nat): nat
    requires 0 < rate
  {
    bytes * 8 * 1_000_000_000 / rate
  }

  /** The whole nanoseconds in which the rate does not send more than the bytes; one more, and it sends them all. */
  lemma ServiceTimeIsMost(bytes: nat, rate: nat, n: nat)
    requires 0 < rate
    ensures n <= ServiceTime(bytes, rate) <==> n * rate <= bytes * 8 * 1_000_000_000
    ensures BytesAtRate(ServiceTime(bytes, rate), rate) <= bytes <= BytesAtRate(ServiceTime(bytes, rate) + 1, rate)
  {
    var time := ServiceTime(bytes, rate);
    QuotientIsMost(bytes * 8 * 1_000_000_000, rate, n);
    QuotientIsMost(bytes * 8 * 1_000_000_000, rate, time);
    QuotientIsMost(bytes * 8 * 1_000_000_000, rate, time + 1);
    BytesAtRateIsMost(time + 1, rate, bytes);
    BytesAtRateIsMost(time, rate, bytes + 1);
  }

  /** A backlog that drains one unit per time unit from a given moment. */
  datatype Backlog = Backlog(level: nat, at: int)

  function At(b: Backlog, now: int): int {
    Max(b.level - (now - b.at), 0)
  }

  function Fed(b: Backlog, service: nat, now: int): Backlog {
    Backlog(At(b, now) + service, now)
  }

  /**
   What happens to the virtual queue: a packet, which queue protection may sanction and the buffer
   may have no room for; a delay query; and an alignment that may raise the estimate.
   */
  datatype Event =
    | Arrival(bytes: nat, sanctioned: bool, room: bool, time: int)
    | Query(time: int)
    | Align(excess: nat)

  function Admits(vq: Backlog, e: Event, rate: nat, limit: int): bool
    requires 0 < rate && e.Arrival?
  {
    !e.sanctioned && Fed(vq, ServiceTime(e.bytes, rate), e.time).level < limit && e.room
  }

  function Next(vq: Backlog, e: Event, rate: nat, limit: int): Backlog
    requires 0 < rate
  {
    match e
    case Arrival(bytes, _, _, time) =>
      if Admits(vq, e, rate, limit) then Fed(vq, ServiceTime(bytes, rate), time) else Backlog(At(vq, time), time)
    case Query(time) => Backlog(At(vq, time), time)
    case Align(excess) => vq.(level := Max(vq.level, excess))
  }

  type Seconds = x: real | 0.0 <= x

  // ----- How much the actual queue exceeds what it may hold

  /** The smoothing factor, the guaranteed grant rate in bits per second, and its interval in seconds. */
  datatype Alignment = Alignment(alpha: real, ggr: nat, aqConstant: real, pgsInterval: Seconds) {
    predicate Valid(rate: nat) {
      0.0 <= alpha <= 1.0 && ggr <= rate && 0.0 <= aqConstant
    }

    /** The smoothed queue length, in whole bytes, moves towards the actual one and never past it. */
    function Smoothed(average: nat, actual: nat): (r: nat)
      requires 0.0 <= alpha <= 1.0
      ensures Min(average, actual) <= r <= Max(average, actual)
    {
      PartOf(alpha, (actual - average) as real);
      RoundedDown(average, actual, Part(alpha, (actual - average) as real));
      (average as real + Part(alpha, (actual - average) as real)).Floor
    }

    function Allowed(rate: nat, loopDelay: Seconds): nat
      requires Valid(rate)
    {
      NonNegativeProduct(loopDelay, (rate - ggr) as real);
      NonNegativeProduct(ggr as real, pgsInterval);
      NonNegativeProduct(aqConstant, ggr as real * pgsInterval / 8.0);
      (loopDelay * (rate - ggr) as real / 8.0 + aqConstant * (ggr as real * pgsInterval / 8.0)).Floor
    }

    /** The delay of the bytes in excess. */
    function Excess(rate: nat, average: nat, loopDelay: Seconds): nat
      requires Valid(rate) && 0 < rate
    {
      ServiceTime(Max(average - Allowed(rate, loopDelay), 0), rate)
    }
  }

  function Part(alpha: real, x: real): real {
    alpha * x
  }

  lemma PartOf(alpha: real, x: real)
    requires 0.0 <= alpha <= 1.0
    ensures x >= 0.0 ==> 0.0 <= Part(alpha, x) <= x
    ensures x <= 0.0 ==> x <= Part(alpha, x) <= 0.0
  {
    var y := if x >= 0.0 then x else -x;
    NonNegativeProduct(alpha, y);
    NonNegativeProduct(1.0 - alpha, y);
    assert (1.0 - alpha) * y == y - alpha * y;
    assert alpha * (-x) == -(alpha * x);
  }

  lemma NonNegativeProduct(x: real, y: real)
    requires x >= 0.0 && y >= 0.0
    ensures x * y >= 0.0
  {
  }

  lemma RoundedDown(average: nat, actual: nat, step: real)
    requires actual >= average ==> 0.0 <= step <= (actual - average) as real
    requires actual <= average ==> (actual - average) as real <= step <= 0.0
    ensures Min(average, actual) <= (average as real + step).Floor <= Max(average, actual)
  {
  }

  /** The average that is never rounded. */
  function Mean(alpha: real, mean: real, actuals: seq<nat>): real
    decreases |actuals|
  {
    if actuals == [] then mean else Mean(alpha, Mixed(alpha, mean, actuals[0]), actuals[1..])
  }

  function Mixed(alpha: real, mean: real, actual: nat): real {
    Part(1.0 - alpha, mean) + Part(alpha, actual as real)
  }

  function Averaged(a: Alignment, average: nat, actuals: seq<nat>): nat
    requires 0.0 <= a.alpha <= 1.0
    decreases |actuals|
  {
    if actuals == [] then average else Averaged(a, a.Smoothed(average, actuals[0]), actuals[1..])
  }

  /** Rounding down at every step never takes the average further than 1/alpha below the exact one. */
  lemma {:induction false} SmoothingTracksMean(a: Alignment, average: nat, mean: real, actuals: seq<nat>)
    requires 0.0 <= a.alpha <= 1.0 && 0.0 <= mean - average as real && Part(a.alpha, mean - average as real) <= 1.0
    ensures var r := Averaged(a, average, actuals) as real;
            var exact := Mean(a.alpha, mean, actuals);
            r <= exact && Part(a.alpha, exact - r) <= 1.0
    decreases |actuals|
  {
    if actuals != [] {
      SmoothedIsMixed(a, average, actuals[0]);
      ErrorStays(a.alpha, mean, average as real, actuals[0], a.Smoothed(average, actuals[0]) as real);
      SmoothingTracksMean(a, a.Smoothed(average, actuals[0]), Mixed(a.alpha, mean, actuals[0]), actuals[1..]);
    }
  }

  /** One step is the mix of average and actual length, rounded down. */
  lemma SmoothedIsMixed(a: Alignment, average: nat, actual: nat)
    requires 0.0 <= a.alpha <= 1.0
    ensures var r := a.Smoothed(average, actual) as real;
            r <= (1.0 - a.alpha) * average as real + a.alpha * actual as real < r + 1.0
    ensures var r := a.Smoothed(average, actual) as real;
            r <= Mixed(a.alpha, average as real, actual) < r + 1.0
  {
    StepIsMix(a.alpha, average as real, actual as real);
  }

  lemma StepIsMix(alpha: real, x: real, y: real)
    ensures x + alpha * (y - x) == (1.0 - alpha) * x + alpha * y
  {
  }

  lemma ErrorStays(alpha: real, mean: real, average: real, actual: nat, r: real)
    requires 0.0 <= alpha <= 1.0 && 0.0 <= mean - average && Part(alpha, mean - average) <= 1.0
    requires r <= Mixed(alpha, average, actual) < r + 1.0
    ensures 0.0 <= Mixed(alpha, mean, actual) - r
    ensures Part(alpha, Mixed(alpha, mean, actual) - r) <= 1.0
  {
    var d := mean - average;
    var e := Mixed(alpha, mean, actual) - r;
    assert Mixed(alpha, mean, actual) - Mixed(alpha, average, actual) == (1.0 - alpha) * d;
    NonNegativeProduct(1.0 - alpha, d);
    NonNegativeProduct(alpha, (1.0 - alpha) * d + 1.0 - e);
    NonNegativeProduct(1.0 - alpha, 1.0 - alpha * d);
    assert alpha * ((1.0 - alpha) * d + 1.0 - e) == (1.0 - alpha) * (alpha * d) + alpha - alpha * e;
    assert (1.0 - alpha) * (1.0 - alpha * d) == 1.0 - alpha - (1.0 - alpha) * (alpha * d);
  }

  /**
   The allowed length: what the rate beyond the guaranteed one sends in the loop delay, and so many times what the guaranteed
   rate sends between two grants, in whole bytes of eight bits.
   */
  lemma AllowedIsWholeBytes(a: Alignment, rate: nat, loopDelay: Seconds)
    requires a.Valid(rate)
    ensures var bits := loopDelay * (rate - a.ggr) as real + a.aqConstant * (a.ggr as real * a.pgsInterval);
            8.0 * a.Allowed(rate, loopDelay) as real <= bits < 8.0 * (a.Allowed(rate, loopDelay) as real + 1.0)
  {
  }

  /** What an alignment finds: the actual queue length, and the loop delay in seconds. */
  datatype Sample = Sample(actual: nat, loopDelay: Seconds)

  predicate Within(a: Alignment, rate: nat, sample: Sample, bound: nat)
    requires a.Valid(rate)
  {
    sample.actual <= bound <= a.Allowed(rate, sample.loopDelay)
  }

  /** Excess delays over a run of alignments. */
  function Excesses(a: Alignment, rate: nat, average: nat, samples: seq<Sample>): seq<nat>
    requires a.Valid(rate) && 0 < rate
    decreases |samples|
  {
    if samples == [] then []
    else
      var average' := a.Smoothed(average, samples[0].actual);
      [a.Excess(rate, average', samples[0].loopDelay)] + Excesses(a, rate, average', samples[1..])
  }

  /** An actual queue that stays within what it may hold never raises the estimate. */
  lemma {:induction false} QuietQueueNeverRaises(a: Alignment, rate: nat, average: nat, samples: seq<Sample>, bound: nat)
    requires a.Valid(rate) && 0 < rate && average <= bound
    requires forall i | 0 <= i < |samples| :: Within(a, rate, samples[i], bound)
    ensures forall e | e in Excesses(a, rate, average, samples) :: e == 0
    decreases |samples|
  {
    if samples != [] {
      assert Within(a, rate, samples[0], bound);
      assert forall i | 0 <= i < |samples[1..]| :: samples[1..][i] == samples[i + 1];
      NoBytesNoTime(rate);
      QuietQueueNeverRaises(a, rate, a.Smoothed(average, samples[0].actual), samples[1..], bound);
    }
  }

  predicate AtLeast(a: Alignment, rate: nat, sample: Sample, bound: nat, allowed: nat)
    requires a.Valid(rate)
  {
    bound <= sample.actual && a.Allowed(rate, sample.loopDelay) <= allowed
  }

  /** An actual queue that stays above what it may hold raises the estimate, every time, to at least the delay of the excess. */
  lemma {:induction false} LongQueueRaises(a: Alignment, rate: nat, average: nat, samples: seq<Sample>, bound: nat, allowed: nat)
    requires a.Valid(rate) && 0 < rate && allowed <= bound <= average
    requires forall i | 0 <= i < |samples| :: AtLeast(a, rate, samples[i], bound, allowed)
    ensures forall e | e in Excesses(a, rate, average, samples) :: ServiceTime(bound - allowed, rate) <= e
    decreases |samples|
  {
    if samples != [] {
      assert AtLeast(a, rate, samples[0], bound, allowed);
      assert forall i | 0 <= i < |samples[1..]| :: samples[1..][i] == samples[i + 1];
      var next := a.Smoothed(average, samples[0].actual);
      ServiceTimeMonotone(bound - allowed, Max(next - a.Allowed(rate, samples[0].loopDelay), 0), rate);
      LongQueueRaises(a, rate, next, samples[1..], bound, allowed);
    }
  }

  lemma ServiceTimeMonotone(a: nat, b: nat, rate: nat)
    requires 0 < rate && a <= b
    ensures ServiceTime(a, rate) <= ServiceTime(b, rate)
  {
    ServiceTimeIsMost(a, rate, ServiceTime(a, rate));
    ServiceTimeIsMost(b, rate, ServiceTime(a, rate));
  }

  class VirtualQueue {
    const rate: nat
    const limit: int
    const alignment: Alignment
    var vq: int
    var tLast: int
    var average: nat

    ghost predicate Valid()
      reads this
    {
      0 < rate && 0 <= vq && alignment.Valid(rate)
    }

    function Now(): Backlog
      requires 0 <= vq
      reads this
    {
      Backlog(vq, tLast)
    }

    constructor (rate: nat, limit: int, alignment: Alignment)
      requires 0 < rate && alignment.Valid(rate)
      ensures Valid() && Now() == Backlog(0, 0) && average == 0
      ensures this.rate == rate && this.limit == limit && this.alignment == alignment
    {
      this.rate, this.limit, this.alignment := rate, limit, alignment;
      vq, tLast, average := 0, 0, 0;
    }

    /** The delay that a packet of this size would see, and the virtual queue with the packet in it. */
    method QDelayCoupledV(bytes: nat, now: int) returns (delay: int)
      requires Valid()
      modifies this`vq, this`tLast
      ensures Valid() && Now() == Fed(old(Now()), ServiceTime(bytes, rate), now) && delay == vq
    {
      vq := vq - (now - tLast);
      if vq < 0 {
        vq := 0;
      }
      vq := vq + ServiceTime(bytes, rate);
      tLast := now;
      delay := vq;
    }

    method DecreaseVq(bytes: nat)
      requires Valid()
      modifies this`vq
      ensures Valid() && vq == Max(old(vq) - ServiceTime(bytes, rate), 0)
    {
      vq := vq - ServiceTime(bytes, rate);
      if vq < 0 {
        vq := 0;
      }
    }

    /** Smooth the actual queue length, and raise the estimate to the delay of the bytes that are in excess. */
    method AlignVq(actual: nat, loopDelay: Seconds) returns (aligned: bool)
      requires Valid()
      modifies this`vq, this`average
      ensures Valid() && average == alignment.Smoothed(old(average), actual)
      ensures var excess := alignment.Excess(rate, average, loopDelay);
              Now() == Next(old(Now()), Align(excess), rate, limit) && aligned == (excess > old(vq))
    {
      aligned := false;
      average := alignment.Smoothed(average, actual);
      var allowed := alignment.Allowed(rate, loopDelay);
      NoBytesNoTime(rate);
      if average > allowed {
        var excess := ServiceTime(average - allowed, rate);
        if excess > vq {
          vq := excess;
          aligned := true;
        }
      }
    }

    /**
     A low-latency arrival: the estimate includes the packet from the start, and takes it out again if
     the packet is sanctioned or there is no room. room is the answer of the real queue.
     */
    method Arrive(bytes: nat, sanctioned: bool, room: bool, now: int) returns (admitted: bool)
      requires Valid()
      modifies this`vq, this`tLast
      ensures Valid()
      ensures var level, service := Max(old(vq) - (now - old(tLast)), 0), ServiceTime(bytes, rate);
              && (admitted <==> !sanctioned && room && level + service < limit)
              && vq == (if admitted then level + service else level)
              && tLast == now
      ensures var e := Arrival(bytes, sanctioned, room, now);
              admitted == Admits(old(Now()), e, rate, limit) && Now() == Next(old(Now()), e, rate, limit)
    {
      var delay := QDelayCoupledV(bytes, now);
      if sanctioned {
        DecreaseVq(bytes);
        return false;
      }
      var again := QDelayCoupledV(0, now);
      NoBytesNoTime(rate);
      var isSpace := again < limit;
      if isSpace && room {
        return true;
      }
      DecreaseVq(bytes);
      return false;
    }
  }

  lemma NoBytesNoTime(rate: nat)
    requires 0 < rate
    ensures ServiceTime(0, rate) == 0
  {
  }

  // ----- The virtual queue against the fluid backlog of the admitted packets

  function TimeOf(e: Event, at: int): int {
    match e
    case Arrival(_, _, _, time) => time
    case Query(time) => time
    case Align(_) => at
  }

  predicate Timely(es: seq<Event>, from: int) {
    es == [] || (from <= TimeOf(es[0], from) && Timely(es[1..], TimeOf(es[0], from)))
  }

  function Final(vq: Backlog, es: seq<Event>, rate: nat, limit: int): Backlog
    requires 0 < rate
    decreases |es|
  {
    if es == [] then vq else Final(Next(vq, es[0], rate, limit), es[1..], rate, limit)
  }

  /** An admitted packet: when it came and how long it takes to send. */
  datatype Packet = Packet(service: nat, time: int)

  function Admitted(vq: Backlog, es: seq<Event>, rate: nat, limit: int): seq<Packet>
    requires 0 < rate
    decreases |es|
  {
    if es == [] then []
    else
      (if es[0].Arrival? && Admits(vq, es[0], rate, limit) then [Packet(ServiceTime(es[0].bytes, rate), es[0].time)] else [])
      + Admitted(Next(vq, es[0], rate, limit), es[1..], rate, limit)
  }

  /**
   One more event: a packet is admitted if and only if it is not sanctioned, there is room, and the drained level plus
   its own service time is below the limit; a packet that is not admitted leaves the drained level.
   */
  lemma {:induction false} OneMoreEvent(vq: Backlog, es: seq<Event>, e: Event, rate: nat, limit: int)
    requires 0 < rate
    ensures var before, after := Final(vq, es, rate, limit), Final(vq, es + [e], rate, limit);
            var drained := Max(before.level - (TimeOf(e, before.at) - before.at), 0);
            var fits := e.Arrival? && !e.sanctioned && e.room && drained + ServiceTime(e.bytes, rate) < limit;
            && Admitted(vq, es + [e], rate, limit)
               == Admitted(vq, es, rate, limit) + (if fits then [Packet(ServiceTime(e.bytes, rate), e.time)] else [])
            && after.level == (if e.Align? then Max(before.level, e.excess)
                               else drained + if fits then ServiceTime(e.bytes, rate) else 0)
            && after.at == TimeOf(e, before.at)
    decreases |es|
  {
    if es == [] {
      assert es + [e] == [e] && [e][1..] == [];
      assert Final(Next(vq, e, rate, limit), [], rate, limit) == Next(vq, e, rate, limit);
      assert Admitted(Next(vq, e, rate, limit), [], rate, limit) == [];
    } else {
      assert (es + [e])[0] == es[0] && (es + [e])[1..] == es[1..] + [e];
      OneMoreEvent(Next(vq, es[0], rate, limit), es[1..], e, rate, limit);
    }
  }

  /** Sanctioned packets, and those without room, replaced by queries at the same time. */
  function WithQueries(es: seq<Event>): seq<Event> {
    if es == [] then []
    else [if es[0].Arrival? && (es[0].sanctioned || !es[0].room) then Query(es[0].time) else es[0]] + WithQueries(es[1..])
  }

  /** Over a whole run, they leave no more trace than a query. */
  lemma {:induction false} SanctionedLeaveNoTrace(vq: Backlog, es: seq<Event>, rate: nat, limit: int)
    requires 0 < rate
    ensures Admitted(vq, WithQueries(es), rate, limit) == Admitted(vq, es, rate, limit)
    ensures Final(vq, WithQueries(es), rate, limit) == Final(vq, es, rate, limit)
    decreases |es|
  {
    if es != [] {
      assert WithQueries(es)[1..] == WithQueries(es[1..]);
      SanctionedLeaveNoTrace(Next(vq, es[0], rate, limit), es[1..], rate, limit);
    }
  }

  /** A queue that holds the admitted packets and nothing else, and drains at the maximum rate. */
  function Fluid(b: Backlog, ps: seq<Packet>): Backlog
    decreases |ps|
  {
    if ps == [] then b else Fluid(Fed(b, ps[0].service, ps[0].time), ps[1..])
  }

  predicate NeverRaised(vq: Backlog, es: seq<Event>, rate: nat, limit: int)
    requires 0 < rate
    decreases |es|
  {
    es == [] ||
    ((es[0].Align? ==> es[0].excess <= vq.level) && NeverRaised(Next(vq, es[0], rate, limit), es[1..], rate, limit))
  }

  /**
   The virtual queue is never below the fluid backlog of the admitted packets alone, and equals it unless an
   alignment raised it: rejected and sanctioned packets, and queries, leave no trace.
   */
  lemma {:induction false} VirtualQueueBoundsFluid(vq: Backlog, fluid: Backlog, es: seq<Event>, rate: nat, limit: int)
    requires 0 < rate && Timely(es, vq.at)
    requires fluid.at <= vq.at && At(fluid, vq.at) <= vq.level
    ensures var v := Final(vq, es, rate, limit);
            var f := Fluid(fluid, Admitted(vq, es, rate, limit));
            && f.at <= v.at && At(f, v.at) <= v.level
            && (At(fluid, vq.at) == vq.level && NeverRaised(vq, es, rate, limit) ==> At(f, v.at) == v.level)
    decreases |es|
  {
    if es != [] {
      var e := es[0];
      var vq' := Next(vq, e, rate, limit);
      var rest := Admitted(vq', es[1..], rate, limit);
      if e.Arrival? && Admits(vq, e, rate, limit) {
        var p := Packet(ServiceTime(e.bytes, rate), e.time);
        assert ([p] + rest)[1..] == rest;
        VirtualQueueBoundsFluid(vq', Fed(fluid, p.service, p.time), es[1..], rate, limit);
      } else {
        assert [] + rest == rest;
        VirtualQueueBoundsFluid(vq', fluid, es[1..], rate, limit);
      }
    }
  }

  /** The virtual queue is the fluid backlog of the admitted packets, throughout the run. */
  predicate TracksFluid(vq: Backlog, fluid: Backlog, es: seq<Event>, rate: nat, limit: int)
    requires 0 < rate
    decreases |es|
  {
    && At(fluid, vq.at) == vq.level
    && (es == [] ||
        (var e := es[0];
         var fluid' := if e.Arrival? && Admits(vq, e, rate, limit) then Fed(fluid, ServiceTime(e.bytes, rate), e.time) else fluid;
         TracksFluid(Next(vq, e, rate, limit), fluid', es[1..], rate, limit)))
  }

  /** It is so exactly if no alignment ever raises the estimate. */
  lemma {:induction false} TracksFluidIffNeverRaised(vq: Backlog, fluid: Backlog, es: seq<Event>, rate: nat, limit: int)
    requires 0 < rate && Timely(es, vq.at)
    requires fluid.at <= vq.at && At(fluid, vq.at) == vq.level
    ensures TracksFluid(vq, fluid, es, rate, limit) <==> NeverRaised(vq, es, rate, limit)
    decreases |es|
  {
    if es != [] {
      var e := es[0];
      var vq' := Next(vq, e, rate, limit);
      var fluid' := if e.Arrival? && Admits(vq, e, rate, limit) then Fed(fluid, ServiceTime(e.bytes, rate), e.time) else fluid;
      if At(fluid', vq'.at) == vq'.level {
        TracksFluidIffNeverRaised(vq', fluid', es[1..], rate, limit);
      } else {
        assert e.Align?;
      }
    }
  }

  /** At any later time, too, the drained virtual queue is no shorter than the drained fluid backlog. */
  lemma StaysAbove(v: Backlog, f: Backlog, now: int)
    requires f.at <= v.at <= now && At(f, v.at) <= v.level
    ensures At(f, now) <= At(v, now)
    ensures At(f, v.at) == v.level ==> At(f, now) == At(v, now)
  {
  }

  /** Every admitted packet finds the virtual queue, itself included, below the limit. */
  lemma AdmittedWithinLimit(vq: Backlog, e: Event, fluid: Backlog, rate: nat, limit: int)
    requires 0 < rate && e.Arrival? && Admits(vq, e, rate, limit) && vq.at <= e.time
    requires fluid.at <= vq.at && At(fluid, vq.at) <= vq.level
    ensures At(Fed(fluid, ServiceTime(e.bytes, rate), e.time), e.time) < limit
  {
    StaysAbove(vq, fluid, e.time);
  }

  // ----- The fluid backlog in closed form

  /** What is left at the last arrival if the queue was never empty since the k-th packet came. */
  function Busy(ps: seq<Packet>, k: nat): int
    requires k < |ps|
  {
    var n := |ps| - 1;
    if k == n then ps[n].service else Busy(ps[..n], k) - (ps[n].time - ps[n - 1].time) + ps[n].service
  }

  predicate InOrder(ps: seq<Packet>) {
    forall i | 0 < i < |ps| :: ps[i - 1].time <= ps[i].time
  }

  lemma {:induction false} FluidLast(b: Backlog, ps: seq<Packet>, p: Packet)
    ensures Fluid(b, ps + [p]) == Fed(Fluid(b, ps), p.service, p.time)
    decreases |ps|
  {
    if ps == [] {
      assert [] + [p] == [p] && [p][1..] == [];
      assert Fluid(Fed(b, p.service, p.time), []) == Fed(b, p.service, p.time);
    } else {
      assert (ps + [p])[1..] == ps[1..] + [p];
      FluidLast(Fed(b, ps[0].service, ps[0].time), ps[1..], p);
    }
  }

  /** The fluid backlog, from empty, is the longest of the busy periods that end now. */
  lemma {:induction false} FluidIsLongestBusyPeriod(ps: seq<Packet>)
    requires ps != [] && InOrder(ps)
    ensures var f := Fluid(Backlog(0, ps[0].time), ps);
            && f.at == ps[|ps| - 1].time
            && (forall k | 0 <= k < |ps| :: Busy(ps, k) <= f.level)
            && (exists k | 0 <= k < |ps| :: Busy(ps, k) == f.level)
    decreases |ps|
  {
    var n := |ps| - 1;
    var b := Backlog(0, ps[0].time);
    FluidLast(b, ps[..n], ps[n]);
    assert ps == ps[..n] + [ps[n]];
    assert Busy(ps, n) == ps[n].service;
    if n > 0 {
      FluidIsLongestBusyPeriod(ps[..n]);
      var f := Fluid(b, ps[..n]);
      var k :| 0 <= k < n && Busy(ps[..n], k) == f.level;
      OneMorePacket(ps, k);
      forall j | 0 <= j < n ensures Busy(ps, j) <= Fluid(b, ps).level {
        assert Busy(ps[..n], j) <= f.level;
        OneMorePacket(ps, j);
      }
    }
  }

  lemma OneMorePacket(ps: seq<Packet>, k: nat)
    requires k < |ps| - 1
    ensures var n := |ps| - 1;
            Busy(ps, k) == Busy(ps[..n], k) - (ps[n].time - ps[n - 1].time) + ps[n].service
  {
  }
}
