/** The counters that replace coin tosses: ECN marking of low-latency packets, and early drops of classic ones. */
module DerandomisedCounters {

  // ----- Recur

  function Recurred(count: real, likelihood: real): (bool, real) {
    if count + likelihood > 1.0 then (true, count + likelihood - 1.0) else (false, count + likelihood)
  }

  class Marker {
    var count: real

    constructor ()
      ensures count == 0.0
    {
      count := 0.0;
    }

    /** Add a likelihood; true marks the packet. */
    method Recur(likelihood: real) returns (mark: bool)
      requires 0.0 <= likelihood <= 1.0
      modifies this
      ensures (mark, count) == Recurred(old(count), likelihood)
      ensures mark <==> old(count) + likelihood > 1.0
      ensures count == old(count) + likelihood - if mark then 1.0 else 0.0
    {
      count := count + likelihood;
      if count > 1.0 {
        count := count - 1.0;
        mark := true;
      } else {
        mark := false;
      }
    }
  }

  function Marks(count: real, likelihoods: seq<real>): nat
    decreases |likelihoods|
  {
    if likelihoods == [] then 0
    else
      var (mark, next) := Recurred(count, likelihoods[0]);
      (if mark then 1 else 0) + Marks(next, likelihoods[1..])
  }

  function Sum(xs: seq<real>): real {
    if xs == [] then 0.0 else xs[0] + Sum(xs[1..])
  }

  predicate Likelihoods(xs: seq<real>) {
    forall i | 0 <= i < |xs| :: 0.0 <= xs[i] <= 1.0
  }

  /** Over any run, the marks differ from the accumulated likelihoods by at most one. */
  lemma {:induction false} MarksTrackLikelihoods(count: real, likelihoods: seq<real>)
    requires 0.0 <= count <= 1.0 && Likelihoods(likelihoods)
    ensures count + Sum(likelihoods) - 1.0 <= Marks(count, likelihoods) as real <= count + Sum(likelihoods)
    decreases |likelihoods|
  {
    if likelihoods != [] {
      var (mark, next) := Recurred(count, likelihoods[0]);
      assert forall i | 0 <= i < |likelihoods[1..]| :: likelihoods[1..][i] == likelihoods[i + 1];
      MarksTrackLikelihoods(next, likelihoods[1..]);
    }
  }

  // ----- DropEarly

  datatype BurstState = NoBurst | InBurst | InBurstProtecting

  datatype PieParams = PieParams(probLow: real, probHigh: real, meanPktSize: nat, maxBurst: real, bufferSize: nat) {
    predicate Valid() {
      0.0 < probLow <= probHigh && 0 < meanPktSize
    }
  }

  datatype Pie = Pie(accuProb: real, burstState: BurstState, burstAllowance: real)

  /**
   What an arriving classic packet finds: the drop probability, the queue and packet sizes, the random draw, and
   whether the delay was below half the target at the last update.
   */
  datatype Input = Input(dropProb: real, queueBytes: nat, packetSize: nat, draw: real, shortDelay: bool)

  function Scaled(p: PieParams, i: Input): real
    requires p.Valid()
  {
    RealMin(RelativeProb(p, i), p.probLow)
  }

  /** The drop probability, relative to a packet of mean size. */
  function RelativeProb(p: PieParams, i: Input): real
    requires p.Valid()
  {
    i.dropProb * i.packetSize as real / p.meanPktSize as real
  }

  lemma RelativeProbIsProportional(p: PieParams, i: Input)
    requires p.Valid()
    ensures RelativeProb(p, i) * p.meanPktSize as real == i.dropProb * i.packetSize as real
  {
  }

  /** Whether the packet's drop probability is added to the accumulator at all. */
  predicate Accumulates(p: PieParams, s: Pie, i: Input) {
    s.burstAllowance <= 0.0 && (s.burstState == NoBurst ==> i.queueBytes >= p.bufferSize / 3)
  }

  function Cleared(s: Pie, i: Input): real {
    if i.dropProb == 0.0 then 0.0 else s.accuProb
  }

  function RealMin(x: real, y: real): real {
    if x < y then x else y
  }

  /** Packets that are let pass before their probability is accumulated: in a protected burst, or before a burst. */
  predicate Protected(p: PieParams, s: Pie, i: Input) {
    s.burstAllowance > 0.0 || (s.burstState == NoBurst && i.queueBytes < p.bufferSize / 3)
  }

  /** Packets that are let pass after it is: short delays, and short queues. */
  predicate Spared(p: PieParams, i: Input) {
    (i.shortDelay && i.dropProb < 0.2) || i.queueBytes <= 2 * p.meanPktSize
  }

  /** The accumulated probability decides, with the draw in between. */
  predicate Drops(p: PieParams, s: Pie, i: Input)
    requires p.Valid()
  {
    var accu := Cleared(s, i) + Scaled(p, i);
    && Accumulates(p, s, i)
    && !(i.shortDelay && i.dropProb < 0.2)
    && i.queueBytes > 2 * p.meanPktSize
    && accu >= p.probLow
    && (accu >= p.probHigh || i.draw <= Scaled(p, i))
  }

  function Dropped(p: PieParams, s: Pie, i: Input): Pie
    requires p.Valid()
  {
    if s.burstAllowance > 0.0 then s
    else if !Accumulates(p, s, i) then s.(accuProb := Cleared(s, i))
    else
      var burst := if s.burstState == NoBurst then InBurst else s.burstState;
      if !Drops(p, s, i) then Pie(Cleared(s, i) + Scaled(p, i), burst, s.burstAllowance)
      else if burst == InBurst then Pie(0.0, InBurstProtecting, p.maxBurst)
      else Pie(0.0, burst, s.burstAllowance)
  }

  class PieDropper {
    const p: PieParams
    var accuProb: real
    var burstState: BurstState
    var burstAllowance: real

    function Now(): Pie
      reads this
    {
      Pie(accuProb, burstState, burstAllowance)
    }

    constructor (p: PieParams)
      requires p.Valid()
      ensures this.p == p && Now() == Pie(0.0, NoBurst, 0.0)
    {
      this.p := p;
      accuProb, burstState, burstAllowance := 0.0, NoBurst, 0.0;
    }

    method DropEarly(i: Input) returns (drop: bool)
      requires p.Valid()
      modifies this
      ensures drop == Drops(p, old(Now()), i) && Now() == Dropped(p, old(Now()), i)
      ensures var scaled := RealMin(RelativeProb(p, i), p.probLow);
              var accu := (if i.dropProb == 0.0 then 0.0 else old(accuProb)) + scaled;
              var exempt := Protected(p, old(Now()), i) || Spared(p, i);
              && (drop <==> !exempt && (accu >= p.probHigh || (accu >= p.probLow && i.draw <= scaled)))
              && (old(burstAllowance) > 0.0 ==> Now() == old(Now()))
              && (drop ==> accuProb == 0.0)
              && (!drop && !Protected(p, old(Now()), i) ==> accuProb == accu)
              && (Protected(p, old(Now()), i) && i.dropProb != 0.0 ==> accuProb == old(accuProb))
              && (i.dropProb == 0.0 && old(burstAllowance) <= 0.0 && Protected(p, old(Now()), i) ==> accuProb == 0.0)
              && burstState == (if Protected(p, old(Now()), i) then old(burstState)
                                else if drop then InBurstProtecting
                                else if old(burstState) == NoBurst then InBurst else old(burstState))
              && burstAllowance == (if drop && old(burstState) != InBurstProtecting then p.maxBurst else old(burstAllowance))
    {
      if burstAllowance > 0.0 {
        return false;
      }
      if i.dropProb == 0.0 {
        accuProb := 0.0;
      }
      if burstState == NoBurst {
        if i.queueBytes < p.bufferSize / 3 {
          return false;
        } else {
          burstState := InBurst;
        }
      }
      var prob := Scaled(p, i);
      accuProb := accuProb + prob;
      if i.shortDelay && i.dropProb < 0.2 {
        return false;
      } else if i.queueBytes <= 2 * p.meanPktSize {
        return false;
      }
      var earlyDrop := true;
      if accuProb < p.probLow {
        earlyDrop := false;
      } else if accuProb >= p.probHigh {
        earlyDrop := true;
      } else if i.draw > prob {
        earlyDrop := false;
      }
      if !earlyDrop {
        return false;
      }
      accuProb := 0.0;
      if burstState == InBurst {
        burstState := InBurstProtecting;
        burstAllowance := p.maxBurst;
      }
      return true;
    }
  }

  /** A classic packet arrives, or the periodic update sets the burst state. */
  datatype Event = Packet(input: Input) | Update(burstState: BurstState, burstAllowance: real)

  function Step(p: PieParams, s: Pie, e: Event): Pie
    requires p.Valid()
  {
    match e
    case Packet(i) => Dropped(p, s, i)
    case Update(b, a) => s.(burstState := b, burstAllowance := a)
  }

  /** The scaled probabilities that were accumulated; spared is the part of packets that were let pass after that. */
  datatype DropTotals = DropTotals(drops: nat, probability: real, spared: real, cleared: real, final: Pie)

  /** Drops over a run, the probabilities, and what was cleared because the drop probability was zero. */
  function RunDrops(p: PieParams, s: Pie, es: seq<Event>): DropTotals
    requires p.Valid()
    decreases |es|
  {
    if es == [] then DropTotals(0, 0.0, 0.0, 0.0, s)
    else
      var t := RunDrops(p, Step(p, s, es[0]), es[1..]);
      if es[0].Packet? then
        var i := es[0].input;
        var x := if Accumulates(p, s, i) then Scaled(p, i) else 0.0;
        DropTotals(t.drops + (if Drops(p, s, i) then 1 else 0), t.probability + x,
                   t.spared + (if Spared(p, i) then x else 0.0),
                   t.cleared + (if s.burstAllowance <= 0.0 then s.accuProb - Cleared(s, i) else 0.0), t.final)
      else t
  }

  predicate NonNegative(es: seq<Event>) {
    forall k | 0 <= k < |es| && es[k].Packet? :: es[k].input.dropProb >= 0.0
  }

  lemma DropIsPaidFor(p: PieParams, s: Pie, i: Input)
    requires p.Valid() && i.dropProb >= 0.0 && s.accuProb >= 0.0
    ensures var s' := Dropped(p, s, i);
            && s'.accuProb >= 0.0
            && s'.accuProb + (if Drops(p, s, i) then p.probLow else 0.0)
               <= s.accuProb + if Accumulates(p, s, i) then Scaled(p, i) else 0.0
  {
    ScaledNonNegative(p, i);
  }

  function Times(n: nat, x: real): real {
    if n == 0 then 0.0 else Times(n - 1, x) + x
  }

  lemma {:induction false} TimesIsProduct(n: nat, x: real)
    ensures Times(n, x) == n as real * x
  {
    if n > 0 {
      TimesIsProduct(n - 1, x);
    }
  }

  lemma {:induction false} RunPays(p: PieParams, s: Pie, es: seq<Event>)
    requires p.Valid() && NonNegative(es) && s.accuProb >= 0.0
    ensures var t := RunDrops(p, s, es);
            t.final.accuProb >= 0.0 && Times(t.drops, p.probLow) + t.final.accuProb <= s.accuProb + t.probability
    decreases |es|
  {
    if es != [] {
      var tail := es[1..];
      assert forall k | 0 <= k < |tail| :: tail[k] == es[k + 1];
      if es[0].Packet? {
        assert es[0].input.dropProb >= 0.0;
        DropIsPaidFor(p, s, es[0].input);
      }
      RunPays(p, Step(p, s, es[0]), tail);
    }
  }

  /** Over any run, each drop is paid for by the low threshold's worth of accumulated drop probability. */
  lemma DropsArePaidFor(p: PieParams, s: Pie, es: seq<Event>)
    requires p.Valid() && NonNegative(es) && s.accuProb >= 0.0
    ensures var t := RunDrops(p, s, es);
            t.final.accuProb >= 0.0 && t.drops as real * p.probLow + t.final.accuProb <= s.accuProb + t.probability
  {
    RunPays(p, s, es);
    TimesIsProduct(RunDrops(p, s, es).drops, p.probLow);
  }

  function BothThresholds(p: PieParams): real {
    p.probHigh + p.probLow
  }

  /** The accumulator holds less than the high threshold, and what spared packets added since. */
  lemma {:induction false} RunKeepsUp(p: PieParams, s: Pie, es: seq<Event>, spared: real)
    requires p.Valid() && NonNegative(es) && 0.0 <= s.accuProb < p.probHigh + spared && 0.0 <= spared
    ensures var t := RunDrops(p, s, es);
            s.accuProb + t.probability
            < Times(t.drops, BothThresholds(p)) + t.cleared + spared + t.spared + p.probHigh
    decreases |es|
  {
    if es != [] {
      var tail := es[1..];
      assert forall k | 0 <= k < |tail| :: tail[k] == es[k + 1];
      if es[0].Packet? {
        assert es[0].input.dropProb >= 0.0;
        var spared' := PacketKeepsUp(p, s, es[0].input, spared);
        RunKeepsUp(p, Step(p, s, es[0]), tail, spared');
      } else {
        RunKeepsUp(p, Step(p, s, es[0]), tail, spared);
      }
    }
  }

  lemma PacketKeepsUp(p: PieParams, s: Pie, i: Input, spared: real) returns (spared': real)
    requires p.Valid() && i.dropProb >= 0.0 && 0.0 <= s.accuProb < p.probHigh + spared && 0.0 <= spared
    ensures var s' := Dropped(p, s, i);
            var x := if Accumulates(p, s, i) then Scaled(p, i) else 0.0;
            && 0.0 <= spared' && 0.0 <= s'.accuProb < p.probHigh + spared'
            && s.accuProb + x + spared' - s'.accuProb
               <= (if Drops(p, s, i) then BothThresholds(p) else 0.0)
                  + (if s.burstAllowance <= 0.0 then s.accuProb - Cleared(s, i) else 0.0)
                  + spared + if Spared(p, i) then x else 0.0
  {
    ScaledNonNegative(p, i);
    var x := if Accumulates(p, s, i) then Scaled(p, i) else 0.0;
    spared' := if Drops(p, s, i) then 0.0 else if Spared(p, i) then spared + x else spared;
  }

  /**
   Drops keep up with the drop probability: over any run, what is accumulated is paid out in drops, at most both
   thresholds per drop, except for less than the high threshold, what zero drop probabilities clear, and what
   spared packets add.
   */
  lemma DropsKeepUp(p: PieParams, s: Pie, es: seq<Event>)
    requires p.Valid() && NonNegative(es) && 0.0 <= s.accuProb < p.probHigh
    ensures var t := RunDrops(p, s, es);
            PaidInDrops(s.accuProb + t.probability - t.cleared - t.spared - p.probHigh, t.drops, BothThresholds(p))
  {
    var t := RunDrops(p, s, es);
    RunKeepsUp(p, s, es, 0.0);
    PaidTimes(s.accuProb + t.probability - t.cleared - t.spared - p.probHigh, t.drops, BothThresholds(p));
  }

  /** The amount is less than n times x. */
  predicate PaidInDrops(amount: real, n: nat, x: real) {
    amount < n as real * x
  }

  lemma PaidTimes(amount: real, n: nat, x: real)
    requires amount < Times(n, x)
    ensures PaidInDrops(amount, n, x)
  {
    TimesIsProduct(n, x);
  }

  /** A packet that is not let pass is always dropped at the high threshold, and never below the low one. */
  lemma DropDecision(p: PieParams, s: Pie, i: Input)
    requires p.Valid() && !Protected(p, s, i) && !Spared(p, i)
    ensures var scaled := RealMin(RelativeProb(p, i), p.probLow);
            var accu := (if i.dropProb == 0.0 then 0.0 else s.accuProb) + scaled;
            && (accu >= p.probHigh ==> Drops(p, s, i))
            && (accu < p.probLow ==> !Drops(p, s, i))
            && (p.probLow <= accu < p.probHigh ==> (Drops(p, s, i) <==> i.draw <= scaled))
            && (!Drops(p, s, i) ==> Dropped(p, s, i).accuProb == accu < p.probHigh)
  {
  }

  /** The drop that starts the protection of a burst is the last one until the allowance is updated. */
  lemma {:induction false} ProtectedUntilUpdate(p: PieParams, s: Pie, i: Input, es: seq<Event>)
    requires p.Valid() && 0.0 < p.maxBurst && s.burstState != InBurstProtecting && Drops(p, s, i)
    requires forall k | 0 <= k < |es| :: es[k].Packet?
    ensures RunDrops(p, Dropped(p, s, i), es).drops == 0
  {
    NoDropsInProtection(p, Dropped(p, s, i), es);
  }

  lemma {:induction false} NoDropsInProtection(p: PieParams, s: Pie, es: seq<Event>)
    requires p.Valid() && 0.0 < s.burstAllowance && forall k | 0 <= k < |es| :: es[k].Packet?
    ensures RunDrops(p, s, es).drops == 0
    decreases |es|
  {
    if es != [] {
      assert forall k | 0 <= k < |es[1..]| :: es[1..][k] == es[k + 1];
      NoDropsInProtection(p, Step(p, s, es[0]), es[1..]);
    }
  }

  lemma ScaledNonNegative(p: PieParams, i: Input)
    requires p.Valid() && i.dropProb >= 0.0
    ensures Scaled(p, i) >= 0.0
  {
    assert i.dropProb * i.packetSize as real >= 0.0;
  }
}
