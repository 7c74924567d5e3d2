/** What the upstream scheduler guarantees over a whole run. */
module SchedulerRuns {
  import opened DocsisTypes
  import opened GrantPlacement
  import opened PgsTiming
  import opened UpstreamSchedulers

  datatype Event = Request(sfid: nat, bytes: nat) | Unused(bytes: nat) | Interval(tick: Tick)

  /** Requests and refunds between the MAPs. */
  function Receive(s: State, e: Event): State
    requires !e.Interval?
  {
    if e.Request? then s.(requests := s.requests[e.sfid := Backlog(s.requests, e.sfid) + e.bytes])
    else s.(msrTokens := s.msrTokens + e.bytes)
  }

  predicate Admissible(cfg: Config, es: seq<Event>) {
    forall i | 0 <= i < |es| && es[i].Interval? :: es[i].tick.free <= cfg.ch.MinislotsPerMap()
  }

  // ----- Rate conformance

  /**
   Totals over a run, up to the first failure if there is one: bytes, and the time for which tokens came in;
   overshoot is what rounding and PGS may add.
   */
  datatype Totals = Totals(granted: nat, refunded: nat, msrTokens: nat, peakTokens: nat, elapsed: nat,
                           intervals: nat, overshoot: nat, final: State)

  function GrantedBytes(cfg: Config, r: Outcome): nat
    requires r.Generated?
  {
    cfg.ch.MinislotsToBytes(r.schedule.cMinislots + r.schedule.lMinislots)
  }

  /** One MAP exceeds the tokens by less than a minislot, or else is no more than its guaranteed grants. */
  function Overshoot(cfg: Config, s: State, tick: Tick): nat
    requires cfg.ch.Valid() && (cfg.pgs.Some? ==> 0 < cfg.pgs.value.interval)
  {
    var plan := PlanFor(cfg, s, tick.free);
    Max(cfg.ch.capacity - 1, if plan.Some? then cfg.ch.MinislotsToBytes(plan.value.minislots) else 0)
  }

  function Run(cfg: Config, s: State, es: seq<Event>): Totals
    requires cfg.ch.Valid() && (cfg.pgs.Some? ==> 0 < cfg.pgs.value.interval)
    decreases |es|
  {
    if es == [] then Totals(0, 0, 0, 0, 0, 0, 0, s)
    else if !es[0].Interval? then
      var t := Run(cfg, Receive(s, es[0]), es[1..]);
      if es[0].Unused? then t.(refunded := t.refunded + es[0].bytes) else t
    else
      var tick := es[0].tick;
      var r := MapStep(cfg, s, tick);
      if r.Failed? then Totals(0, 0, 0, 0, 0, 0, 0, s)
      else
        var t := Run(cfg, r.state, es[1..]);
        t.(granted := t.granted + GrantedBytes(cfg, r), intervals := t.intervals + 1,
           msrTokens := t.msrTokens + MsrIncrement(cfg, s, tick), peakTokens := t.peakTokens + PeakIncrement(cfg, s, tick),
           elapsed := t.elapsed + IncrementTime(cfg, s, tick.now), overshoot := t.overshoot + Overshoot(cfg, s, tick))
  }

  /** Bytes are at most what the bucket held plus the overshoot, and are taken from the bucket. */
  lemma DrainPays(tokens: nat, bytes: nat, overshoot: nat)
    requires bytes <= tokens + overshoot
    ensures bytes + Drained(tokens, bytes) <= tokens + overshoot
  {
  }

  /** What is scheduled, in bytes, against the tokens there are. */
  lemma ScheduledBytes(cfg: Config, s: State, plan: Plan, tick: Tick, r: Outcome)
    requires cfg.ch.Valid() && tick.free <= cfg.ch.MinislotsPerMap() && PlanFits(cfg, plan)
    requires r == BestEffortStep(cfg, s, plan, tick) && r.Generated?
    ensures GrantedBytes(cfg, r) <= Max(AvailableTokens(s) + cfg.ch.capacity - 1, cfg.ch.MinislotsToBytes(plan.minislots))
  {
    var (c, l) := Allocated(cfg, s, tick.free, plan.minislots);
    AllocatedFits(cfg, s, tick.free, plan.minislots);
    AllocatedWithinTokens(cfg, s, tick.free, plan.minislots);
    assert r.schedule.cMinislots == c && r.schedule.lMinislots <= Max(l, plan.minislots) by {
      ScheduleServes(cfg, plan, c, l, tick.draw);
    }
    MulMonotone(r.schedule.cMinislots + r.schedule.lMinislots, c + Max(l, plan.minislots), cfg.ch.capacity);
  }

  /** Either nothing is granted and charged, or the buckets pay. */
  lemma NothingOrPaid(cfg: Config, s: State, plan: Plan, tick: Tick, r: Outcome)
    requires cfg.ch.Valid() && r == BestEffortStep(cfg, s, plan, tick) && r.Generated?
    ensures GrantedBytes(cfg, r) == 0 || r == Sent(cfg, Charged(cfg, s, r.schedule, tick.now), r.schedule)
    ensures 0 <= s.msrTokens ==> r.state.msrTokens <= s.msrTokens
    ensures r.state.peakTokens <= s.peakTokens
  {
  }

  lemma BestEffortIsPaid(cfg: Config, s: State, plan: Plan, tick: Tick, r: Outcome, overshoot: nat)
    requires cfg.ch.Valid() && tick.free <= cfg.ch.MinislotsPerMap() && PlanFits(cfg, plan) && 0 <= s.msrTokens
    requires r == BestEffortStep(cfg, s, plan, tick) && r.Generated?
    requires overshoot == Max(cfg.ch.capacity - 1, cfg.ch.MinislotsToBytes(plan.minislots))
    ensures GrantedBytes(cfg, r) + r.state.msrTokens <= s.msrTokens + overshoot
    ensures GrantedBytes(cfg, r) + r.state.peakTokens <= s.peakTokens + overshoot
  {
    ScheduledBytes(cfg, s, plan, tick, r);
    NothingOrPaid(cfg, s, plan, tick, r);
    BytesAdd(cfg.ch, r.schedule.cMinislots, r.schedule.lMinislots);
    DrainPays(s.msrTokens, GrantedBytes(cfg, r), overshoot);
    DrainPays(s.peakTokens, GrantedBytes(cfg, r), overshoot);
  }

  /** One MAP costs both buckets what it grants, less the overshoot. */
  lemma TokensPayForTheMap(cfg: Config, s: State, tick: Tick)
    requires Inv(cfg, s) && tick.free <= cfg.ch.MinislotsPerMap()
    ensures var r := MapStep(cfg, s, tick);
            r.Generated? ==>
              && GrantedBytes(cfg, r) + r.state.msrTokens <= s.msrTokens + MsrIncrement(cfg, s, tick) + Overshoot(cfg, s, tick)
              && GrantedBytes(cfg, r) + r.state.peakTokens <= s.peakTokens + PeakIncrement(cfg, s, tick) + Overshoot(cfg, s, tick)
  {
    var plan := PlanFor(cfg, s, tick.free);
    if MapStep(cfg, s, tick).Generated? {
      PlanIsWellFormed(cfg, s, tick.free);
      BestEffortIsPaid(cfg, Replenished(cfg, s, tick).(lastPgsGrantTime := plan.value.last), plan.value, tick,
                       MapStep(cfg, s, tick), Overshoot(cfg, s, tick));
    }
  }

  /**
   Rate conformance over a run: granted bytes less refunds never exceed the initial sustained-rate tokens
   plus all increments plus the overshoot, granted bytes never exceed the peak-rate tokens likewise, and the
   sustained-rate bucket never goes negative.
   */
  lemma {:induction false} RateConformance(cfg: Config, s: State, es: seq<Event>)
    requires Inv(cfg, s) && Admissible(cfg, es)
    ensures var t := Run(cfg, s, es);
            && t.granted + t.final.msrTokens <= s.msrTokens + t.msrTokens + t.refunded + t.overshoot
            && t.granted + t.final.peakTokens <= s.peakTokens + t.peakTokens + t.overshoot
            && 0 <= t.final.msrTokens
    decreases |es|
  {
    if es != [] {
      var tail := es[1..];
      assert forall i | 0 <= i < |tail| :: tail[i] == es[i + 1];
      if !es[0].Interval? {
        RateConformance(cfg, Receive(s, es[0]), tail);
      } else {
        var r := MapStep(cfg, s, es[0].tick);
        if r.Generated? {
          MapStepGuarantees(cfg, s, es[0].tick);
          TokensPayForTheMap(cfg, s, es[0].tick);
          RateConformance(cfg, r.state, tail);
        }
      }
    }
  }

  /** Without guaranteed grants, every MAP overshoots by less than a minislot. */
  lemma {:induction false} OvershootWithoutPgs(cfg: Config, s: State, es: seq<Event>)
    requires cfg.ch.Valid() && cfg.pgs.None?
    ensures var t := Run(cfg, s, es);
            t.overshoot == t.intervals * (cfg.ch.capacity - 1)
    decreases |es|
  {
    if es != [] {
      if !es[0].Interval? {
        OvershootWithoutPgs(cfg, Receive(s, es[0]), es[1..]);
      } else {
        var r := MapStep(cfg, s, es[0].tick);
        if r.Generated? {
          OvershootWithoutPgs(cfg, r.state, es[1..]);
          MulDistributes(Run(cfg, r.state, es[1..]).intervals, 1, cfg.ch.capacity - 1);
        }
      }
    }
  }

  /** The same bounds without guaranteed grants: a minislot less one byte per MAP. */
  lemma RateConformanceWithoutPgs(cfg: Config, s: State, es: seq<Event>)
    requires Inv(cfg, s) && Admissible(cfg, es) && cfg.pgs.None?
    ensures var t := Run(cfg, s, es);
            && t.granted - t.refunded <= s.msrTokens + t.msrTokens + t.intervals * (cfg.ch.capacity - 1)
            && t.granted <= s.peakTokens + t.peakTokens + t.intervals * (cfg.ch.capacity - 1)
  {
    RateConformance(cfg, s, es);
    OvershootWithoutPgs(cfg, s, es);
  }

  /** All tokens of a run together are no more than the rates give in the time for which they came in. */
  lemma {:induction false} TokensWithinRate(cfg: Config, s: State, es: seq<Event>)
    requires cfg.Valid()
    ensures var t := Run(cfg, s, es);
            && t.msrTokens <= BytesAtRate(t.elapsed, cfg.maxSustainedRate)
            && t.peakTokens <= BytesAtRate(t.elapsed, cfg.peakRate)
    decreases |es|
  {
    if es != [] {
      if !es[0].Interval? {
        TokensWithinRate(cfg, Receive(s, es[0]), es[1..]);
      } else {
        var tick := es[0].tick;
        var r := MapStep(cfg, s, tick);
        if r.Generated? {
          TokensWithinRate(cfg, r.state, es[1..]);
          var rest := Run(cfg, r.state, es[1..]).elapsed;
          BytesAtRateAdd(rest, IncrementTime(cfg, s, tick.now), cfg.maxSustainedRate);
          BytesAtRateAdd(rest, IncrementTime(cfg, s, tick.now), cfg.peakRate);
        }
      }
    }
  }

  /** The clock never runs backwards. */
  predicate Timely(es: seq<Event>, from: nat)
    decreases |es|
  {
    if es == [] then true
    else if es[0].Interval? then from <= es[0].tick.now && Timely(es[1..], es[0].tick.now)
    else Timely(es[1..], from)
  }

  /** MAPs of the run that count a whole interval, because no increment after time 0 was recorded before. */
  function Unrecorded(cfg: Config, s: State, es: seq<Event>): nat
    requires cfg.Valid()
    decreases |es|
  {
    if es == [] then 0
    else if !es[0].Interval? then Unrecorded(cfg, Receive(s, es[0]), es[1..])
    else
      var r := MapStep(cfg, s, es[0].tick);
      if r.Failed? then 0 else (if s.lastIncrement == 0 then 1 else 0) + Unrecorded(cfg, r.state, es[1..])
  }

  predicate AfterTime0(es: seq<Event>) {
    forall i | 0 <= i < |es| && es[i].Interval? :: 0 < es[i].tick.now
  }

  /** Once a MAP was generated after time 0, there is no further such MAP. */
  lemma {:induction false} UnrecordedOnce(cfg: Config, s: State, es: seq<Event>)
    requires cfg.Valid() && AfterTime0(es)
    ensures Unrecorded(cfg, s, es) <= if s.lastIncrement == 0 then 1 else 0
    decreases |es|
  {
    if es != [] {
      assert forall i | 0 <= i < |es[1..]| :: es[1..][i] == es[i + 1];
      if !es[0].Interval? {
        UnrecordedOnce(cfg, Receive(s, es[0]), es[1..]);
      } else if MapStep(cfg, s, es[0].tick).Generated? {
        UnrecordedOnce(cfg, MapStep(cfg, s, es[0].tick).state, es[1..]);
      }
    }
  }

  /** Tokens come in for the time that passes, and a whole interval for each MAP before which nothing was recorded. */
  lemma {:induction false} ElapsedIsTime(cfg: Config, s: State, es: seq<Event>)
    requires cfg.Valid() && Timely(es, s.lastIncrement)
    ensures var t := Run(cfg, s, es);
            && s.lastIncrement <= t.final.lastIncrement
            && t.elapsed <= t.final.lastIncrement - s.lastIncrement + Unrecorded(cfg, s, es) * cfg.mapInterval
            && (0 < s.lastIncrement ==> t.elapsed == t.final.lastIncrement - s.lastIncrement)
    decreases |es|
  {
    if es != [] {
      if !es[0].Interval? {
        ElapsedIsTime(cfg, Receive(s, es[0]), es[1..]);
      } else {
        var r := MapStep(cfg, s, es[0].tick);
        if r.Generated? {
          ElapsedIsTime(cfg, r.state, es[1..]);
          MulDistributes(Unrecorded(cfg, r.state, es[1..]), 1, cfg.mapInterval);
        }
      }
    }
  }

  /**
   The rate shaper over a run without guaranteed grants, from the start at time 0 or from any time after: granted less
   refunded bytes are at most the tokens at the start, what the sustained rate gives in the time that passed, and a
   minislot less one byte per MAP; and granted bytes likewise with the peak rate. A start at time 0 counts a MAP
   interval more.
   */
  lemma RateConformanceOverTime(cfg: Config, s: State, es: seq<Event>, time: nat)
    requires Inv(cfg, s) && Admissible(cfg, es) && cfg.pgs.None? && Timely(es, s.lastIncrement) && AfterTime0(es)
    requires time == Run(cfg, s, es).final.lastIncrement - s.lastIncrement + if s.lastIncrement == 0 then cfg.mapInterval else 0
    ensures var t := Run(cfg, s, es);
            && t.granted - t.refunded
               <= s.msrTokens + BytesAtRate(time, cfg.maxSustainedRate) + t.intervals * (cfg.ch.capacity - 1)
            && t.granted <= s.peakTokens + BytesAtRate(time, cfg.peakRate) + t.intervals * (cfg.ch.capacity - 1)
  {
    var t := Run(cfg, s, es);
    assert t.elapsed <= time by {
      ElapsedIsTime(cfg, s, es);
      UnrecordedOnce(cfg, s, es);
      MulMonotone(Unrecorded(cfg, s, es), if s.lastIncrement == 0 then 1 else 0, cfg.mapInterval);
    }
    TokensWithinRate(cfg, s, es);
    RateConformanceWithoutPgs(cfg, s, es);
    BytesAtRateMonotone(t.elapsed, time, cfg.maxSustainedRate);
    BytesAtRateMonotone(t.elapsed, time, cfg.peakRate);
  }

  // ----- Guaranteed service

  /** In every MAP of the run, each of the times first, first + interval, ... that falls into it has its grant. */
  ghost predicate EveryDueTimeServed(cfg: Config, s: State, es: seq<Event>, first: nat)
    requires cfg.ch.Valid() && cfg.pgs.Some? && 0 < cfg.pgs.value.interval
    decreases |es|
  {
    if es == [] then true
    else if !es[0].Interval? then EveryDueTimeServed(cfg, Receive(s, es[0]), es[1..], first)
    else
      var r := MapStep(cfg, s, es[0].tick);
      if r.Failed? then r.failure == RateExceeded
      else
        && DueTimesServed(cfg, s.allocStartTime, r.schedule.grants, first)
        && EveryDueTimeServed(cfg, r.state, es[1..], first)
  }

  ghost predicate DueTimesServed(cfg: Config, allocStartTime: nat, gs: seq<Grant>, first: nat)
    requires cfg.pgs.Some?
  {
    forall j: nat :: DueServed(cfg, allocStartTime, gs, first, j)
  }

  predicate DueServed(cfg: Config, allocStartTime: nat, gs: seq<Grant>, first: nat, j: nat)
    requires cfg.pgs.Some?
  {
    var t := first + j * cfg.pgs.value.interval;
    allocStartTime <= t < allocStartTime + cfg.ch.MinislotsPerMap() ==>
      Keeps(Grant(LOW_LATENCY_SFID, t - allocStartTime, cfg.pgs.value.size), gs)
  }

  lemma {:induction false} GrantsAtContains(times: seq<int>, from: int, length: nat, k: nat)
    requires NotBefore(times, from) && k < |times|
    ensures Grant(LOW_LATENCY_SFID, times[k] - from, length) in GrantsAt(times, from, length)
  {
    if k > 0 {
      GrantsAtContains(times[1..], from, length, k - 1);
    }
  }

  /** A time of the progression that falls into the MAP is one of the due times. */
  lemma DueTimeIndex(last: int, interval: nat, from: nat, limit: nat, first: nat, m: nat, j: nat) returns (k: nat)
    requires 0 < interval && (m > 0 ==> last < from) && last + interval == first + m * interval
    requires from <= first + j * interval < limit
    ensures k < |DueTimes(last, interval, limit)| && DueTimes(last, interval, limit)[k] == first + j * interval
  {
    var times := DueTimes(last, interval, limit);
    DueTimesAreArithmetic(last, interval, limit);
    assert (j + 1) * interval == j * interval + interval;
    if j < m {
      MulMonotone(j + 1, m, interval);
      assert false;
    }
    k := j - m;
    assert k * interval == j * interval - m * interval;
    assert (k + 1) * interval == k * interval + interval;
    if |times| <= k {
      MulMonotone(|times| + 1, k + 1, interval);
      assert false;
    }
  }

  lemma DueTimeIsServed(cfg: Config, s: State, tick: Tick, first: nat, m: nat, j: nat)
    requires Inv(cfg, s) && cfg.pgs.Some? && cfg.pgs.value.size < tick.free <= cfg.ch.MinislotsPerMap()
    requires s.allocStartTime <= s.lastPgsGrantTime + cfg.pgs.value.interval && (m > 0 ==> s.lastPgsGrantTime < s.allocStartTime)
    requires s.lastPgsGrantTime + cfg.pgs.value.interval == first + m * cfg.pgs.value.interval
    requires MapStep(cfg, s, tick).Generated?
    ensures DueServed(cfg, s.allocStartTime, MapStep(cfg, s, tick).schedule.grants, first, j)
  {
    var pgs, limit := cfg.pgs.value, s.allocStartTime + cfg.ch.MinislotsPerMap();
    var t := first + j * pgs.interval;
    if s.allocStartTime <= t < limit {
      var k := DueTimeIndex(s.lastPgsGrantTime, pgs.interval, s.allocStartTime, limit, first, m, j);
      PlanHolds(cfg, s, tick.free, k);
      var plan := PlanFor(cfg, s, tick.free).value;
      var gs := MapStep(cfg, s, tick).schedule.grants;
      assert Survives(Guaranteed(plan), gs) by {
        MapStepGuarantees(cfg, s, tick);
      }
      assert Keeps(Grant(LOW_LATENCY_SFID, t - s.allocStartTime, pgs.size), gs);
    }
  }

  lemma PlanHolds(cfg: Config, s: State, free: nat, k: nat)
    requires Inv(cfg, s) && cfg.pgs.Some? && cfg.pgs.value.size < free
    requires s.allocStartTime <= s.lastPgsGrantTime + cfg.pgs.value.interval
    requires k < |DueTimes(s.lastPgsGrantTime, cfg.pgs.value.interval, s.allocStartTime + cfg.ch.MinislotsPerMap())|
    ensures var times := DueTimes(s.lastPgsGrantTime, cfg.pgs.value.interval, s.allocStartTime + cfg.ch.MinislotsPerMap());
            && NotBefore(times, s.allocStartTime)
            && PlanFor(cfg, s, free).Some?
            && Grant(LOW_LATENCY_SFID, times[k] - s.allocStartTime, cfg.pgs.value.size)
               in Guaranteed(PlanFor(cfg, s, free).value)
  {
    var pgs, limit := cfg.pgs.value, s.allocStartTime + cfg.ch.MinislotsPerMap();
    var times := DueTimes(s.lastPgsGrantTime, pgs.interval, limit);
    DueTimesNotBefore(s.lastPgsGrantTime, pgs.interval, s.allocStartTime, limit);
    GrantsAtContains(times, s.allocStartTime, pgs.size, k);
    MulMonotone(1, |times|, pgs.size);
  }

  /**
   Guaranteed service over a run: if every MAP has more free minislots than a guaranteed grant needs, then no
   offset is ever negative, and each time first + j * interval is granted, at that very minislot and with at
   least the guaranteed size, in the MAP that contains it, whatever best effort asks for.
   */
  lemma {:induction false} GuaranteedService(cfg: Config, s: State, es: seq<Event>, first: nat, m: nat)
    requires Inv(cfg, s) && cfg.pgs.Some? && Admissible(cfg, es)
    requires forall i | 0 <= i < |es| && es[i].Interval? :: cfg.pgs.value.size < es[i].tick.free
    requires s.allocStartTime <= s.lastPgsGrantTime + cfg.pgs.value.interval && (m > 0 ==> s.lastPgsGrantTime < s.allocStartTime)
    requires s.lastPgsGrantTime + cfg.pgs.value.interval == first + m * cfg.pgs.value.interval
    ensures EveryDueTimeServed(cfg, s, es, first)
    decreases |es|
  {
    if es != [] {
      var tail, interval := es[1..], cfg.pgs.value.interval;
      assert forall i | 0 <= i < |tail| :: tail[i] == es[i + 1];
      if !es[0].Interval? {
        GuaranteedService(cfg, Receive(s, es[0]), tail, first, m);
      } else {
        var tick := es[0].tick;
        var r := MapStep(cfg, s, tick);
        assert (r.Failed? ==> r.failure == RateExceeded) by {
          MapStepGuarantees(cfg, s, tick);
        }
        if r.Generated? {
          DueTimesServedInMap(cfg, s, tick, first, m);
          var m' := ServiceGoesOn(cfg, s, tick, first, m);
          GuaranteedService(cfg, r.state, tail, first, m');
        }
      }
    }
  }

  /** The next MAP goes on where this one ends. */
  lemma ServiceGoesOn(cfg: Config, s: State, tick: Tick, first: nat, m: nat) returns (m': nat)
    requires Inv(cfg, s) && cfg.pgs.Some? && cfg.pgs.value.size < tick.free <= cfg.ch.MinislotsPerMap()
    requires s.allocStartTime <= s.lastPgsGrantTime + cfg.pgs.value.interval && (m > 0 ==> s.lastPgsGrantTime < s.allocStartTime)
    requires s.lastPgsGrantTime + cfg.pgs.value.interval == first + m * cfg.pgs.value.interval
    requires MapStep(cfg, s, tick).Generated?
    ensures var next := MapStep(cfg, s, tick).state;
            && Inv(cfg, next)
            && next.allocStartTime <= next.lastPgsGrantTime + cfg.pgs.value.interval
            && (m' > 0 ==> next.lastPgsGrantTime < next.allocStartTime)
            && next.lastPgsGrantTime + cfg.pgs.value.interval == first + m' * cfg.pgs.value.interval
  {
    var interval, limit := cfg.pgs.value.interval, s.allocStartTime + cfg.ch.MinislotsPerMap();
    var n := |DueTimes(s.lastPgsGrantTime, interval, limit)|;
    m' := m + n;
    MapStepGuarantees(cfg, s, tick);
    LastDueTime(cfg, s, tick);
    MulDistributes(m, n, interval);
    MulDistributes(n, 1, interval);
  }

  lemma DueTimesServedInMap(cfg: Config, s: State, tick: Tick, first: nat, m: nat)
    requires Inv(cfg, s) && cfg.pgs.Some? && cfg.pgs.value.size < tick.free <= cfg.ch.MinislotsPerMap()
    requires s.allocStartTime <= s.lastPgsGrantTime + cfg.pgs.value.interval && (m > 0 ==> s.lastPgsGrantTime < s.allocStartTime)
    requires s.lastPgsGrantTime + cfg.pgs.value.interval == first + m * cfg.pgs.value.interval
    requires MapStep(cfg, s, tick).Generated?
    ensures DueTimesServed(cfg, s.allocStartTime, MapStep(cfg, s, tick).schedule.grants, first)
  {
    forall j: nat
      ensures DueServed(cfg, s.allocStartTime, MapStep(cfg, s, tick).schedule.grants, first, j)
    {
      DueTimeIsServed(cfg, s, tick, first, m, j);
    }
  }

  lemma LastDueTime(cfg: Config, s: State, tick: Tick)
    requires Inv(cfg, s) && cfg.pgs.Some? && cfg.pgs.value.size < tick.free <= cfg.ch.MinislotsPerMap()
    requires s.allocStartTime <= s.lastPgsGrantTime + cfg.pgs.value.interval
    requires MapStep(cfg, s, tick).Generated?
    ensures var limit := s.allocStartTime + cfg.ch.MinislotsPerMap();
            var n := |DueTimes(s.lastPgsGrantTime, cfg.pgs.value.interval, limit)|;
            var last := MapStep(cfg, s, tick).state.lastPgsGrantTime;
            && last == s.lastPgsGrantTime + n * cfg.pgs.value.interval
            && limit <= s.lastPgsGrantTime + (n + 1) * cfg.pgs.value.interval
            && (n > 0 || s.lastPgsGrantTime < limit ==> last < limit)
  {
    var limit := s.allocStartTime + cfg.ch.MinislotsPerMap();
    StepFollowsPlan(cfg, s, tick);
    DueTimesAreArithmetic(s.lastPgsGrantTime, cfg.pgs.value.interval, limit);
    if s.lastPgsGrantTime < limit {
      LastBeforeLimit(s.lastPgsGrantTime, cfg.pgs.value.interval, limit);
    }
  }

  lemma StepFollowsPlan(cfg: Config, s: State, tick: Tick)
    requires cfg.Valid() && MapStep(cfg, s, tick).Generated?
    ensures PlanFor(cfg, s, tick.free).Some?
    ensures MapStep(cfg, s, tick).state.lastPgsGrantTime == PlanFor(cfg, s, tick.free).value.last
  {
  }

  lemma LastBeforeLimit(last: int, interval: nat, limit: int)
    requires 0 < interval && last < limit
    ensures LastBefore(last, interval, limit) < limit
    decreases limit - last
  {
    if last + interval < limit {
      LastBeforeLimit(last + interval, interval, limit);
    }
  }
}
