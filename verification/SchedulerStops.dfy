/** When the scheduler stops, over a whole run. */
module SchedulerStops {
  import opened DocsisTypes
  import opened Allocation
  import opened PgsTiming
  import opened UpstreamSchedulers
  import opened SchedulerRuns

  /** The failure that ends a run, if there is one. */
  function Stops(cfg: Config, s: State, es: seq<Event>): Option<Failure>
    requires cfg.Valid()
    decreases |es|
  {
    if es == [] then None
    else if !es[0].Interval? then Stops(cfg, Receive(s, es[0]), es[1..])
    else
      var r := MapStep(cfg, s, es[0].tick);
      if r.Failed? then Some(r.failure) else Stops(cfg, r.state, es[1..])
  }

  /** Free minislots of the MAPs of a run. */
  function Frees(es: seq<Event>): seq<nat> {
    if es == [] then [] else (if es[0].Interval? then [es[0].tick.free] else []) + Frees(es[1..])
  }

  /** MAPs are at least a MAP interval apart, and the first one from a time that may lie before time 0. */
  predicate Paced(cfg: Config, es: seq<Event>, from: int)
    decreases |es|
  {
    if es == [] then true
    else if es[0].Interval? then from + cfg.mapInterval <= es[0].tick.now && Paced(cfg, es[1..], es[0].tick.now)
    else Paced(cfg, es[1..], from)
  }

  /** Guaranteed grants that a MAP can hold at their interval. */
  function MostGuaranteed(cfg: Config): nat
    requires cfg.Valid()
  {
    if cfg.pgs.None? then 0
    else ((cfg.ch.MinislotsPerMap() + cfg.pgs.value.interval - 1) / cfg.pgs.value.interval) * cfg.pgs.value.size
  }

  /** The most that any MAP can grant: full buckets, or the guaranteed grants. */
  function MostInAnyMap(cfg: Config): nat
    requires cfg.Valid()
  {
    Max(Min(cfg.ch.MinislotCeil(Min(cfg.maxTrafficBurst, cfg.peakBurst)), cfg.ch.MinislotsPerMap()), MostGuaranteed(cfg))
  }

  /** The sustained rate, in a MAP interval and with the burst, allows the most that any MAP can grant. */
  predicate RateSuffices(cfg: Config)
    requires cfg.Valid()
  {
    cfg.ch.MinislotsToBytes(MostInAnyMap(cfg)) <= BytesAtRate(cfg.mapInterval, cfg.maxSustainedRate) + cfg.maxTrafficBurst
  }

  lemma PlanIsSmall(cfg: Config, s: State, free: nat)
    requires cfg.Valid() && PlanFor(cfg, s, free).Some?
    ensures PlanFor(cfg, s, free).value.minislots <= MostGuaranteed(cfg)
  {
    if cfg.pgs.Some? && free > 0 {
      var pgs, length := cfg.pgs.value, cfg.ch.MinislotsPerMap();
      var times := DueTimes(s.lastPgsGrantTime, pgs.interval, s.allocStartTime + length);
      DueTimesAreArithmetic(s.lastPgsGrantTime, pgs.interval, s.allocStartTime + length);
      assert times != [] ==> times[|times| - 1] < s.allocStartTime + length;
      FewerThan(length, pgs.interval, s.lastPgsGrantTime, s.allocStartTime, |times|);
      MulMonotone(|times|, (length + pgs.interval - 1) / pgs.interval, pgs.size);
    }
  }

  lemma FewerThan(length: nat, interval: nat, last: int, start: int, count: nat)
    requires 0 < interval && (count > 0 ==> start <= last + interval && last + count * interval < start + length)
    ensures count <= (length + interval - 1) / interval
  {
    var x := length + interval - 1;
    var q := x / interval;
    assert x == interval * q + x % interval;
    if q + 1 <= count {
      MulMonotone(q + 1, count, interval);
      assert false;
    }
  }

  /** With MAPs an interval apart, such a rate is never exceeded; the first drain is not checked. */
  lemma PacedMapConforms(cfg: Config, s: State, tick: Tick, from: int)
    requires Inv(cfg, s) && RateSuffices(cfg) && tick.free <= cfg.ch.MinislotsPerMap() && PlanFor(cfg, s, tick.free).Some?
    requires (s.lastDrain > 0 ==> s.lastDrain <= from) && from + cfg.mapInterval <= tick.now
    ensures MapStep(cfg, s, tick).Generated? && MapStep(cfg, s, tick).state.lastDrain <= tick.now
  {
    if s.lastDrain > 0 {
      BytesAtRateMonotone(cfg.mapInterval, Elapsed(s.lastDrain, tick.now), cfg.maxSustainedRate);
    }
    PlanIsSmall(cfg, s, tick.free);
    MulMonotone(MostMinislots(cfg, s, tick.free), MostInAnyMap(cfg), cfg.ch.capacity);
    MostWithinRate(cfg, s, tick);
  }

  /** Every MAP an interval after the last drain is within the rate. */
  ghost predicate NoMapIsRefused(cfg: Config)
    requires cfg.Valid()
  {
    forall s, tick | Inv(cfg, s) && IntervalLater(cfg, s, tick) :: MapStep(cfg, s, tick) != Failed(RateExceeded)
  }

  predicate IntervalLater(cfg: Config, s: State, tick: Tick) {
    tick.free <= cfg.ch.MinislotsPerMap() && s.lastDrain + cfg.mapInterval <= tick.now
  }

  /** Without guaranteed grants, this is exactly the rate that suffices. */
  lemma NoMapIsRefusedIff(cfg: Config)
    requires cfg.Valid() && cfg.pgs.None?
    ensures NoMapIsRefused(cfg) <==> RateSuffices(cfg)
  {
    if RateSuffices(cfg) {
      forall s, tick | Inv(cfg, s) && IntervalLater(cfg, s, tick) ensures MapStep(cfg, s, tick) != Failed(RateExceeded) {
        PacedMapConforms(cfg, s, tick, s.lastDrain);
      }
    } else {
      var s := State(map[], 0, 0, 1, 1, 0, 0);
      var tick := Tick(cfg.ch.MinislotsPerMap(), 1 + cfg.mapInterval, 0);
      SaturatedIsRefused(cfg, s, tick, Saturated(cfg, s, tick.free));
      assert IntervalLater(cfg, Saturated(cfg, s, tick.free), tick);
    }
  }

  /** A burst of one and a half minislots, and a sustained rate of nearly nothing. */
  function TightConfig(weight: Weight): Config {
    Config(Channel(100, 10, 4), weight, None, 8, 150, 8_000_000_000, 10_000, 2_000_000, 0)
  }

  /** Full buckets grant two minislots to a classic backlog. */
  lemma TwoMinislots(cfg: Config, s: State, tick: Tick, weight: Weight)
    requires cfg == TightConfig(weight) && tick.free == 40 && 0 <= s.msrTokens
    requires Replenished(cfg, s, tick).msrTokens == 150 && Replenished(cfg, s, tick).peakTokens == 10_000
    requires 200 <= Backlog(s.requests, CLASSIC_SFID) && Backlog(s.requests, LOW_LATENCY_SFID) == 0
    ensures if WithinRate(cfg, s, 200, tick.now) then
              var r := MapStep(cfg, s, tick);
              && r.Generated? && r.state.msrTokens == 0 && r.state.peakTokens == 9_800
              && r.state.lastIncrement == tick.now && r.state.lastDrain == tick.now
              && Backlog(r.state.requests, CLASSIC_SFID) == Backlog(s.requests, CLASSIC_SFID) - 200
              && Backlog(r.state.requests, LOW_LATENCY_SFID) == 0
            else
              MapStep(cfg, s, tick) == Failed(RateExceeded)
  {
    var plan := Plan([], 0, s.lastPgsGrantTime);
    var s1 := Replenished(cfg, s, tick);
    assert Allocated(cfg, s1, 40, 0) == (2, 0) by {
      CeilMonotone(cfg.ch, 200, Backlog(s.requests, CLASSIC_SFID));
    }
    ScheduleServes(cfg, plan, 2, 0, tick.draw);
    MapStepGuarantees(cfg, s, tick);
  }

  /**
   The error comes up in a run from the start: two MAPs that grant the burst, rounded up to minislots, an
   interval apart, with the bytes of the first one reported as unused in between.
   */
  lemma RateErrorFromStart(weight: Weight)
    ensures var s := State(map[], 150, 0, 0, 0, 40, 40);
            var es := [Request(CLASSIC_SFID, 1_000), Interval(Tick(40, 1_000_000, 0)), Unused(200), Interval(Tick(40, 3_000_000, 0))];
            Inv(TightConfig(weight), s) && Stops(TightConfig(weight), s, es) == Some(RateExceeded)
  {
    var cfg, s := TightConfig(weight), State(map[], 150, 0, 0, 0, 40, 40);
    var one, two := Tick(40, 1_000_000, 0), Tick(40, 3_000_000, 0);
    var last: seq<Event> := [Interval(two)];
    var unused: seq<Event> := [Unused(200)] + last;
    var first: seq<Event> := [Interval(one)] + unused;
    var es: seq<Event> := [Request(CLASSIC_SFID, 1_000)] + first;
    assert es == [Request(CLASSIC_SFID, 1_000), Interval(one), Unused(200), Interval(two)];
    assert es[1..] == first && first[1..] == unused && unused[1..] == last;
    var s1 := Receive(s, es[0]);
    TwoMinislots(cfg, s1, one, weight);
    var s2 := MapStep(cfg, s1, one).state;
    var s3 := Receive(s2, Unused(200));
    TwoMinislots(cfg, s3, two, weight);
    assert Stops(cfg, s3, last) == Some(RateExceeded);
    assert Stops(cfg, s2, unused) == Some(RateExceeded);
    assert Stops(cfg, s1, first) == Some(RateExceeded);
  }

  /** A MAP that can be laid out is generated, and the next one starts where it ends. */
  lemma MapGoesOn(cfg: Config, s: State, tick: Tick, from: int) returns (next: State)
    requires Inv(cfg, s) && RateSuffices(cfg) && tick.free <= cfg.ch.MinislotsPerMap() && PlanFor(cfg, s, tick.free).Some?
    requires (s.lastDrain > 0 ==> s.lastDrain <= from) && from + cfg.mapInterval <= tick.now
    ensures MapStep(cfg, s, tick).Generated? && next == MapStep(cfg, s, tick).state
    ensures Inv(cfg, next) && next.lastDrain <= tick.now
    ensures next.allocStartTime == s.allocStartTime + cfg.ch.MinislotsPerMap()
    ensures next.lastPgsGrantTime == PlanFor(cfg, s, tick.free).value.last
  {
    PacedMapConforms(cfg, s, tick, from);
    MapStepGuarantees(cfg, s, tick);
    StepFollowsPlan(cfg, s, tick);
    next := MapStep(cfg, s, tick).state;
  }

  /** The guaranteed grants, if there are any, can be laid out in all MAPs with these free minislots. */
  predicate CanBeLaidOut(cfg: Config, lastPgsGrantTime: int, allocStartTime: nat, frees: seq<nat>)
    requires cfg.Valid()
  {
    cfg.pgs.Some? ==> Served(cfg.pgs.value, cfg.ch.MinislotsPerMap(), lastPgsGrantTime, allocStartTime, frees).Some?
  }

  lemma LaidOutStep(cfg: Config, s: State, free: nat, frees: seq<nat>)
    requires cfg.Valid() && frees != [] && frees[0] == free
    ensures CanBeLaidOut(cfg, s.lastPgsGrantTime, s.allocStartTime, frees)
       <==> && PlanFor(cfg, s, free).Some?
            && CanBeLaidOut(cfg, PlanFor(cfg, s, free).value.last, s.allocStartTime + cfg.ch.MinislotsPerMap(), frees[1..])
  {
  }

  /** A run goes on to its end exactly as long as the guaranteed grants can be laid out. */
  predicate LikeServed(cfg: Config, s: State, es: seq<Event>)
    requires cfg.Valid()
  {
    && (Stops(cfg, s, es).None? <==> CanBeLaidOut(cfg, s.lastPgsGrantTime, s.allocStartTime, Frees(es)))
    && (Stops(cfg, s, es).Some? ==> Stops(cfg, s, es).value == NegativePgsOffset)
  }

  lemma ReceiptLikeServed(cfg: Config, s: State, es: seq<Event>)
    requires cfg.Valid() && es != [] && !es[0].Interval? && LikeServed(cfg, Receive(s, es[0]), es[1..])
    ensures LikeServed(cfg, s, es)
  {
    assert Frees(es) == [] + Frees(es[1..]) == Frees(es[1..]);
  }

  lemma MapLikeServed(cfg: Config, s: State, es: seq<Event>, next: State)
    requires cfg.Valid() && es != [] && es[0].Interval? && PlanFor(cfg, s, es[0].tick.free).Some?
    requires MapStep(cfg, s, es[0].tick).Generated? && next == MapStep(cfg, s, es[0].tick).state
    requires next.allocStartTime == s.allocStartTime + cfg.ch.MinislotsPerMap()
    requires next.lastPgsGrantTime == PlanFor(cfg, s, es[0].tick.free).value.last
    requires LikeServed(cfg, next, es[1..])
    ensures LikeServed(cfg, s, es)
  {
    assert Frees(es)[0] == es[0].tick.free && Frees(es)[1..] == Frees(es[1..]);
    LaidOutStep(cfg, s, es[0].tick.free, Frees(es));
    assert Stops(cfg, s, es) == Stops(cfg, next, es[1..]);
  }

  lemma NoPlanLikeServed(cfg: Config, s: State, es: seq<Event>)
    requires Inv(cfg, s) && es != [] && es[0].Interval? && PlanFor(cfg, s, es[0].tick.free).None?
    ensures LikeServed(cfg, s, es)
  {
    assert Frees(es)[0] == es[0].tick.free;
    LaidOutStep(cfg, s, es[0].tick.free, Frees(es));
    assert Stops(cfg, s, es) == Some(NegativePgsOffset);
  }

  lemma {:induction false} StopsLikeServed(cfg: Config, s: State, es: seq<Event>, from: int)
    requires Inv(cfg, s) && RateSuffices(cfg) && Admissible(cfg, es) && Paced(cfg, es, from) && (s.lastDrain > 0 ==> s.lastDrain <= from)
    ensures LikeServed(cfg, s, es)
    decreases |es|
  {
    if es != [] {
      assert forall i | 0 <= i < |es[1..]| :: es[1..][i] == es[i + 1];
      if !es[0].Interval? {
        StopsLikeServed(cfg, Receive(s, es[0]), es[1..], from);
        ReceiptLikeServed(cfg, s, es);
      } else if PlanFor(cfg, s, es[0].tick.free).None? {
        NoPlanLikeServed(cfg, s, es);
      } else {
        var next := MapGoesOn(cfg, s, es[0].tick, from);
        StopsLikeServed(cfg, next, es[1..], es[0].tick.now);
        MapLikeServed(cfg, s, es, next);
      }
    }
  }

  /**
   When the scheduler stops: with MAPs an interval apart and a sufficient rate, it runs for ever without guaranteed
   grants; with them it stops, on a negative offset, if and only if a MAP with a grant due has no free minislot and
   a later MAP has one.
   */
  lemma SchedulerStopsIffLeftBehind(cfg: Config, s: State, es: seq<Event>, from: int)
    requires Inv(cfg, s) && RateSuffices(cfg) && Admissible(cfg, es) && Paced(cfg, es, from) && (s.lastDrain > 0 ==> s.lastDrain <= from)
    requires cfg.pgs.Some? ==> s.allocStartTime <= s.lastPgsGrantTime + cfg.pgs.value.interval
    ensures Stops(cfg, s, es).Some?
       <==> && cfg.pgs.Some?
            && LeftBehind(cfg.pgs.value, cfg.ch.MinislotsPerMap(), s.lastPgsGrantTime, s.allocStartTime, Frees(es))
    ensures Stops(cfg, s, es).Some? ==> Stops(cfg, s, es).value == NegativePgsOffset
  {
    StopsLikeServed(cfg, s, es, from);
    if cfg.pgs.Some? {
      StopsIffLeftBehind(cfg.pgs.value, cfg.ch.MinislotsPerMap(), s.lastPgsGrantTime, s.allocStartTime, Frees(es));
    }
  }

  lemma {:induction false} FreesAbove(es: seq<Event>, size: nat)
    requires forall i | 0 <= i < |es| && es[i].Interval? :: size < es[i].tick.free
    ensures forall i | 0 <= i < |Frees(es)| :: size < Frees(es)[i]
  {
    if es != [] {
      assert forall i | 0 <= i < |es[1..]| :: es[1..][i] == es[i + 1];
      FreesAbove(es[1..], size);
    }
  }

  /**
   The guarantee is kept: with MAPs an interval apart, a sufficient rate, and more free minislots than a guaranteed
   grant needs, every MAP of the run is generated and every due time is granted in the MAP that contains it.
   */
  lemma GuaranteeIsKept(cfg: Config, s: State, es: seq<Event>, from: int, first: nat, m: nat)
    requires Inv(cfg, s) && RateSuffices(cfg) && Admissible(cfg, es) && Paced(cfg, es, from) && (s.lastDrain > 0 ==> s.lastDrain <= from)
    requires cfg.pgs.Some? && forall i | 0 <= i < |es| && es[i].Interval? :: cfg.pgs.value.size < es[i].tick.free
    requires s.allocStartTime <= s.lastPgsGrantTime + cfg.pgs.value.interval && (m > 0 ==> s.lastPgsGrantTime < s.allocStartTime)
    requires s.lastPgsGrantTime + cfg.pgs.value.interval == first + m * cfg.pgs.value.interval
    ensures Stops(cfg, s, es).None? && EveryDueTimeServed(cfg, s, es, first)
  {
    FreesAbove(es, cfg.pgs.value.size);
    SchedulerStopsIffLeftBehind(cfg, s, es, from);
    GuaranteedService(cfg, s, es, first, m);
  }
}
