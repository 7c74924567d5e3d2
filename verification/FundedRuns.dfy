/** What the token buckets give: tokens come in at the rates, and a demand that lasts is granted them. */
module FundedRuns {
  import opened DocsisTypes
  import opened GrantLists
  import opened Allocation
  import opened GrantPlacement
  import opened PgsTiming
  import opened UpstreamSchedulers
  import opened SchedulerRuns
  import opened SchedulerStops
  import opened BacklogRuns

  // ----- Tokens come in

  function MsrPerInterval(cfg: Config): nat {
    BytesAtRate(cfg.mapInterval, cfg.maxSustainedRate)
  }

  function PeakPerInterval(cfg: Config): nat {
    BytesAtRate(cfg.mapInterval, cfg.peakRate)
  }

  /** The next increment counts at least a MAP interval. */
  predicate IntervalPassed(cfg: Config, s: State, now: nat) {
    s.lastIncrement > 0 ==> s.lastIncrement + cfg.mapInterval <= now
  }

  lemma IncrementsAtLeast(cfg: Config, s: State, tick: Tick)
    requires IntervalPassed(cfg, s, tick.now)
    ensures MsrPerInterval(cfg) <= MsrIncrement(cfg, s, tick) && PeakPerInterval(cfg) <= PeakIncrement(cfg, s, tick)
  {
    BytesAtRateMonotone(cfg.mapInterval, IncrementTime(cfg, s, tick.now), cfg.maxSustainedRate);
    BytesAtRateMonotone(cfg.mapInterval, IncrementTime(cfg, s, tick.now), cfg.peakRate);
  }

  lemma ChargedKeepsTheRest(cfg: Config, s: State, sched: Schedule, now: nat, s': State)
    requires s' == Charged(cfg, s, sched, now)
    ensures var bytes := cfg.ch.MinislotsToBytes(sched.cMinislots + sched.lMinislots);
            && s.msrTokens <= s'.msrTokens + bytes && s.peakTokens <= s'.peakTokens + bytes
            && s'.lastIncrement == s.lastIncrement
  {
    BytesAdd(cfg.ch, sched.cMinislots, sched.lMinislots);
  }

  /** A MAP takes no more tokens than the bytes that it grants. */
  lemma DrainKeepsTheRest(cfg: Config, s: State, plan: Plan, tick: Tick, r: Outcome)
    requires cfg.ch.Valid() && r == BestEffortStep(cfg, s, plan, tick) && r.Generated?
    ensures s.msrTokens <= r.state.msrTokens + GrantedBytes(cfg, r)
    ensures s.peakTokens <= r.state.peakTokens + GrantedBytes(cfg, r)
    ensures r.state.lastIncrement == s.lastIncrement
  {
    ChargedKeepsTheRest(cfg, s, r.schedule, tick.now, Charged(cfg, s, r.schedule, tick.now));
    SentOrCharged(cfg, s, plan, tick, r);
  }

  lemma SentOrCharged(cfg: Config, s: State, plan: Plan, tick: Tick, r: Outcome)
    requires cfg.ch.Valid() && r == BestEffortStep(cfg, s, plan, tick) && r.Generated?
    ensures exists s' | s' == s || s' == Charged(cfg, s, r.schedule, tick.now) ::
              r.state == s'.(allocStartTime := s'.allocStartTime + cfg.ch.MinislotsPerMap())
  {
    assert r == Sent(cfg, s, r.schedule) || r == Sent(cfg, Charged(cfg, s, r.schedule, tick.now), r.schedule);
  }

  /** A bucket after an increment and a grant. */
  predicate Fills(before: int, perInterval: nat, burst: nat, granted: nat, after: int) {
    Min(before + perInterval, burst) <= after + granted
  }

  /** Both buckets, after n MAPs. */
  predicate BothFill(cfg: Config, s: State, n: nat, granted: nat, s': State) {
    && Fills(s.msrTokens, n * MsrPerInterval(cfg), cfg.maxTrafficBurst, granted, s'.msrTokens)
    && Fills(s.peakTokens, n * PeakPerInterval(cfg), cfg.peakBurst, granted, s'.peakTokens)
  }

  lemma MapFills(cfg: Config, s: State, tick: Tick, r: Outcome)
    requires cfg.Valid() && IntervalPassed(cfg, s, tick.now) && r == MapStep(cfg, s, tick) && r.Generated?
    ensures BothFill(cfg, s, 1, GrantedBytes(cfg, r), r.state)
    ensures r.state.lastIncrement == tick.now
  {
    IncrementsAtLeast(cfg, s, tick);
    var plan := PlanFor(cfg, s, tick.free).value;
    DrainKeepsTheRest(cfg, Replenished(cfg, s, tick).(lastPgsGrantTime := plan.last), plan, tick, r);
  }

  lemma FillsAdd(before: int, perInterval: nat, burst: nat, granted: nat, middle: int, n: nat, more: nat, after: int)
    requires Fills(before, 1 * perInterval, burst, granted, middle) && Fills(middle, n * perInterval, burst, more, after)
    ensures Fills(before, (n + 1) * perInterval, burst, granted + more, after)
  {
    MulDistributes(n, 1, perInterval);
  }

  lemma BothFillAdd(cfg: Config, s: State, granted: nat, middle: State, n: nat, more: nat, s': State)
    requires BothFill(cfg, s, 1, granted, middle) && BothFill(cfg, middle, n, more, s')
    ensures BothFill(cfg, s, n + 1, granted + more, s')
  {
    FillsAdd(s.msrTokens, MsrPerInterval(cfg), cfg.maxTrafficBurst, granted, middle.msrTokens, n, more, s'.msrTokens);
    FillsAdd(s.peakTokens, PeakPerInterval(cfg), cfg.peakBurst, granted, middle.peakTokens, n, more, s'.peakTokens);
  }

  /**
   Tokens are not lost: over any run with MAPs at least an interval apart, what is left in a bucket and what was granted
   are at least what was there and the whole bytes of the rate per interval, MAP by MAP, or else the burst.
   */
  lemma {:induction false} TokensComeIn(cfg: Config, s: State, es: seq<Event>, from: int)
    requires cfg.Valid() && Paced(cfg, es, from) && (s.lastIncrement > 0 ==> s.lastIncrement <= from)
    ensures var t := Run(cfg, s, es);
            BothFill(cfg, s, t.intervals, t.granted, t.final)
    decreases |es|
  {
    if es != [] {
      if !es[0].Interval? {
        TokensComeIn(cfg, Receive(s, es[0]), es[1..], from);
      } else {
        var r := MapStep(cfg, s, es[0].tick);
        if r.Generated? {
          MapFills(cfg, s, es[0].tick, r);
          TokensComeIn(cfg, r.state, es[1..], es[0].tick.now);
          var t := Run(cfg, r.state, es[1..]);
          BothFillAdd(cfg, s, GrantedBytes(cfg, r), r.state, t.intervals, t.granted, t.final);
        }
      }
    }
  }

  /** MAPs exactly an interval apart. */
  predicate Steady(cfg: Config, es: seq<Event>, from: int)
    decreases |es|
  {
    if es == [] then true
    else if es[0].Interval? then from + cfg.mapInterval == es[0].tick.now && Steady(cfg, es[1..], es[0].tick.now)
    else es[0].Request? && Steady(cfg, es[1..], from)
  }

  function BucketAfter(before: int, n: nat, perInterval: nat, burst: nat): int {
    Min(before + n * perInterval, burst)
  }

  lemma BucketAdds(before: int, n: nat, perInterval: nat, burst: nat)
    ensures BucketAfter(BucketAfter(before, 1, perInterval, burst), n, perInterval, burst) == BucketAfter(before, n + 1, perInterval, burst)
  {
    MulDistributes(n, 1, perInterval);
  }

  lemma IdleMap(cfg: Config, s: State, tick: Tick, r: Outcome)
    requires cfg.Valid() && r == MapStep(cfg, s, tick) && r.Generated? && GrantedBytes(cfg, r) == 0 && 0 <= s.msrTokens
    requires s.lastIncrement > 0 ==> s.lastIncrement + cfg.mapInterval == tick.now
    ensures r.state.msrTokens == BucketAfter(s.msrTokens, 1, MsrPerInterval(cfg), cfg.maxTrafficBurst)
    ensures r.state.peakTokens == BucketAfter(s.peakTokens, 1, PeakPerInterval(cfg), cfg.peakBurst)
    ensures r.state.lastIncrement == tick.now
  {
    var plan := PlanFor(cfg, s, tick.free).value;
    var s1 := Replenished(cfg, s, tick).(lastPgsGrantTime := plan.last);
    DrainKeepsTheRest(cfg, s1, plan, tick, r);
    NothingOrPaid(cfg, s1, plan, tick, r);
  }

  /** While nothing is granted, n MAPs an interval apart raise a bucket by n times the whole bytes per interval, up to the burst. */
  lemma {:induction false} IdleMapsFillTheBuckets(cfg: Config, s: State, es: seq<Event>, from: int)
    requires cfg.Valid() && Steady(cfg, es, from) && (s.lastIncrement > 0 ==> s.lastIncrement == from)
    requires 0 <= s.msrTokens <= cfg.maxTrafficBurst && s.peakTokens <= cfg.peakBurst && Run(cfg, s, es).granted == 0
    ensures var t := Run(cfg, s, es);
            && t.final.msrTokens == BucketAfter(s.msrTokens, t.intervals, MsrPerInterval(cfg), cfg.maxTrafficBurst)
            && t.final.peakTokens == BucketAfter(s.peakTokens, t.intervals, PeakPerInterval(cfg), cfg.peakBurst)
    decreases |es|
  {
    if es != [] {
      if !es[0].Interval? {
        IdleMapsFillTheBuckets(cfg, Receive(s, es[0]), es[1..], from);
      } else {
        var r := MapStep(cfg, s, es[0].tick);
        if r.Generated? {
          IdleMap(cfg, s, es[0].tick, r);
          IdleMapsFillTheBuckets(cfg, r.state, es[1..], es[0].tick.now);
          BucketAdds(s.msrTokens, Run(cfg, r.state, es[1..]).intervals, MsrPerInterval(cfg), cfg.maxTrafficBurst);
          BucketAdds(s.peakTokens, Run(cfg, r.state, es[1..]).intervals, PeakPerInterval(cfg), cfg.peakBurst);
        }
      }
    }
  }

  // ----- Funding

  /** The tokens that every MAP has, whatever the ones before it took. */
  function TokensPerInterval(cfg: Config): nat {
    Min(Min(MsrPerInterval(cfg), cfg.maxTrafficBurst), Min(PeakPerInterval(cfg), cfg.peakBurst))
  }

  lemma TokensAtLeast(cfg: Config, s: State, tick: Tick)
    requires 0 <= s.msrTokens && IntervalPassed(cfg, s, tick.now)
    ensures TokensPerInterval(cfg) <= AvailableTokens(Replenished(cfg, s, tick))
  {
    IncrementsAtLeast(cfg, s, tick);
  }

  /** The minislots that every MAP has, if congestion leaves so many free. */
  function MinislotsPerInterval(cfg: Config, free: nat): nat
    requires cfg.ch.Valid()
  {
    Min(cfg.ch.MinislotCeil(TokensPerInterval(cfg)), free)
  }

  /** The rates, the bursts and the free minislots have something for a flow, beyond the guaranteed grants for classic. */
  predicate Funds(cfg: Config, free: nat, sfid: nat)
    requires cfg.Valid()
  {
    if sfid == CLASSIC_SFID then MinislotsPerInterval(cfg, free) > MostGuaranteed(cfg)
    else MinislotsPerInterval(cfg, free) * cfg.weight >= 256
  }

  lemma MapIsFunded(cfg: Config, s: State, tick: Tick, sfid: nat)
    requires cfg.Valid() && 0 <= s.msrTokens && IntervalPassed(cfg, s, tick.now) && Funds(cfg, tick.free, sfid)
    ensures FundedFor(cfg, s, tick, sfid)
  {
    TokensAtLeast(cfg, s, tick);
    CeilMonotone(cfg.ch, TokensPerInterval(cfg), AvailableTokens(Replenished(cfg, s, tick)));
    MulMonotone(MinislotsPerInterval(cfg, tick.free), Available(cfg, s, tick), cfg.weight);
    if PlanFor(cfg, s, tick.free).Some? {
      PlanIsSmall(cfg, s, tick.free);
    }
  }

  /** Such rates fund every MAP of every run with MAPs an interval apart. */
  lemma {:induction false} PacedRunIsFunded(cfg: Config, s: State, es: seq<Event>, from: int, sfid: nat)
    requires Inv(cfg, s) && Admissible(cfg, es) && Paced(cfg, es, from) && (s.lastIncrement > 0 ==> s.lastIncrement <= from)
    requires forall i | 0 <= i < |es| && es[i].Interval? :: Funds(cfg, es[i].tick.free, sfid)
    ensures AlwaysFundedFor(cfg, s, es, sfid)
    decreases |es|
  {
    if es != [] {
      var tail := es[1..];
      assert forall i | 0 <= i < |tail| :: tail[i] == es[i + 1];
      if !es[0].Interval? {
        PacedRunIsFunded(cfg, Receive(s, es[0]), tail, from, sfid);
      } else {
        var r := MapStep(cfg, s, es[0].tick);
        if r.Generated? {
          MapIsFunded(cfg, s, es[0].tick, sfid);
          MapFills(cfg, s, es[0].tick, r);
          assert Inv(cfg, r.state) by {
            MapStepGuarantees(cfg, s, es[0].tick);
          }
          PacedRunIsFunded(cfg, r.state, tail, es[0].tick.now, sfid);
        }
      }
    }
  }

  /** A run that does not stop generates all of its MAPs. */
  lemma {:induction false} AllMapsGenerated(cfg: Config, s: State, es: seq<Event>)
    requires cfg.Valid() && Stops(cfg, s, es).None?
    ensures Run(cfg, s, es).intervals == |Frees(es)|
    decreases |es|
  {
    if es != [] {
      AllMapsGenerated(cfg, if es[0].Interval? then MapStep(cfg, s, es[0].tick).state else Receive(s, es[0]), es[1..]);
    }
  }

  lemma NothingStopsWithoutPgs(cfg: Config, s: State, es: seq<Event>, from: int)
    requires Inv(cfg, s) && Admissible(cfg, es) && Paced(cfg, es, from) && cfg.pgs.None? && RateSuffices(cfg)
    requires s.lastDrain > 0 ==> s.lastDrain <= from
    ensures Run(cfg, s, es).intervals == |Frees(es)|
  {
    SchedulerStopsIffLeftBehind(cfg, s, es, from);
    AllMapsGenerated(cfg, s, es);
  }

  /** The configuration and the free minislots decide: n MAPs an interval apart take n minislots' worth off a flow's backlog. */
  lemma PacedBacklogDrains(cfg: Config, s: State, es: seq<Event>, from: int, sfid: nat)
    requires Inv(cfg, s) && Admissible(cfg, es) && Paced(cfg, es, from) && ServiceFlow(sfid)
    requires s.lastIncrement > 0 ==> s.lastIncrement <= from
    requires forall i | 0 <= i < |es| && es[i].Interval? :: Funds(cfg, es[i].tick.free, sfid)
    requires forall i | 0 <= i < |es| && es[i].Request? :: es[i].sfid != sfid
    ensures var t := Run(cfg, s, es);
            Backlog(t.final.requests, sfid) <= Max(Backlog(s.requests, sfid) - t.intervals * cfg.ch.capacity, 0)
  {
    PacedRunIsFunded(cfg, s, es, from, sfid);
    BacklogDrains(cfg, s, es, sfid);
  }

  // ----- The rate is delivered

  /** Both backlogs together, and the free minislots, could take a MAP's tokens. */
  predicate Asks(cfg: Config, s: State, tick: Tick) {
    && TokensPerInterval(cfg) <= Backlog(s.requests, CLASSIC_SFID) + Backlog(s.requests, LOW_LATENCY_SFID)
    && TokensPerInterval(cfg) <= cfg.ch.MinislotsToBytes(tick.free)
  }

  predicate AlwaysAsks(cfg: Config, s: State, es: seq<Event>)
    requires cfg.Valid()
    decreases |es|
  {
    if es == [] then true
    else if !es[0].Interval? then AlwaysAsks(cfg, Receive(s, es[0]), es[1..])
    else
      var r := MapStep(cfg, s, es[0].tick);
      r.Generated? ==> Asks(cfg, s, es[0].tick) && AlwaysAsks(cfg, r.state, es[1..])
  }

  lemma AllocatedDelivers(cfg: Config, s: State, free: nat, pgs: nat)
    requires cfg.Valid() && TokensPerInterval(cfg) <= AvailableTokens(s)
    requires TokensPerInterval(cfg) <= Backlog(s.requests, CLASSIC_SFID) + Backlog(s.requests, LOW_LATENCY_SFID)
    requires TokensPerInterval(cfg) <= cfg.ch.MinislotsToBytes(free)
    ensures var (c, l) := Allocated(cfg, s, free, pgs);
            TokensPerInterval(cfg) <= cfg.ch.MinislotsToBytes(c + l)
  {
    var tokens, cB, lB := AvailableTokens(s), Backlog(s.requests, CLASSIC_SFID), Backlog(s.requests, LOW_LATENCY_SFID);
    var (c, l) := Allocated(cfg, s, free, pgs);
    if 0 < TokensPerInterval(cfg) {
      AllocateGuarantees(cfg.ch, cfg.weight, free, pgs, tokens, cB, lB);
      HoldsAll(cfg.ch, tokens, TokensPerInterval(cfg), c + l);
      HoldsBoth(cfg.ch, cB, lB, c + l);
      if free <= c + l {
        MulMonotone(free, c + l, cfg.ch.capacity);
      }
    }
  }

  lemma HoldsAll(ch: Channel, bytes: nat, some: nat, minislots: nat)
    requires ch.Valid() && some <= bytes
    ensures ch.MinislotCeil(bytes) <= minislots ==> some <= ch.MinislotsToBytes(minislots)
  {
    ch.MinislotCeilIsLeast(bytes, minislots);
  }

  lemma HoldsBoth(ch: Channel, a: nat, b: nat, minislots: nat)
    requires ch.Valid()
    ensures ch.MinislotCeil(a) + ch.MinislotCeil(b) <= minislots ==> a + b <= ch.MinislotsToBytes(minislots)
  {
    ch.MinislotCeilIsLeast(a, ch.MinislotCeil(a));
    ch.MinislotCeilIsLeast(b, ch.MinislotCeil(b));
    BytesAdd(ch, ch.MinislotCeil(a), ch.MinislotCeil(b));
    if ch.MinislotCeil(a) + ch.MinislotCeil(b) <= minislots {
      MulMonotone(ch.MinislotCeil(a) + ch.MinislotCeil(b), minislots, ch.capacity);
    }
  }

  lemma BestEffortDelivers(cfg: Config, s: State, plan: Plan, tick: Tick, r: Outcome)
    requires cfg.Valid() && tick.free <= cfg.ch.MinislotsPerMap() && PlanFits(cfg, plan)
    requires Asks(cfg, s, tick) && TokensPerInterval(cfg) <= AvailableTokens(s)
    requires r == BestEffortStep(cfg, s, plan, tick) && r.Generated?
    ensures TokensPerInterval(cfg) <= GrantedBytes(cfg, r)
  {
    var (c, l) := Allocated(cfg, s, tick.free, plan.minislots);
    assert TokensPerInterval(cfg) <= cfg.ch.MinislotsToBytes(c + l) by {
      AllocatedDelivers(cfg, s, tick.free, plan.minislots);
    }
    AllocatedIsScheduled(cfg, s, plan, tick, r, c, l);
    MulMonotone(c + l, r.schedule.cMinislots + r.schedule.lMinislots, cfg.ch.capacity);
  }

  lemma AllocatedIsScheduled(cfg: Config, s: State, plan: Plan, tick: Tick, r: Outcome, c: nat, l: nat)
    requires cfg.Valid() && tick.free <= cfg.ch.MinislotsPerMap() && PlanFits(cfg, plan)
    requires r == BestEffortStep(cfg, s, plan, tick) && r.Generated? && (c, l) == Allocated(cfg, s, tick.free, plan.minislots)
    ensures r.schedule.cMinislots == c && l <= r.schedule.lMinislots
  {
    AllocatedFits(cfg, s, tick.free, plan.minislots);
    ScheduleServes(cfg, plan, c, l, tick.draw);
  }

  lemma MapDelivers(cfg: Config, s: State, tick: Tick, r: Outcome)
    requires Inv(cfg, s) && tick.free <= cfg.ch.MinislotsPerMap() && IntervalPassed(cfg, s, tick.now) && Asks(cfg, s, tick)
    requires r == MapStep(cfg, s, tick) && r.Generated?
    ensures TokensPerInterval(cfg) <= GrantedBytes(cfg, r)
  {
    var plan := PlanFor(cfg, s, tick.free).value;
    PlanIsWellFormed(cfg, s, tick.free);
    TokensAtLeast(cfg, s, tick);
    BestEffortDelivers(cfg, Replenished(cfg, s, tick).(lastPgsGrantTime := plan.last), plan, tick, r);
  }

  /**
   The rate is delivered: with MAPs at least an interval apart and demand for it, every MAP grants the tokens of an interval,
   which are the lesser of the two rates' and the two bursts.
   */
  lemma {:induction false} RateIsDelivered(cfg: Config, s: State, es: seq<Event>, from: int)
    requires Inv(cfg, s) && Admissible(cfg, es) && Paced(cfg, es, from) && (s.lastIncrement > 0 ==> s.lastIncrement <= from)
    requires AlwaysAsks(cfg, s, es)
    ensures var t := Run(cfg, s, es);
            t.intervals * TokensPerInterval(cfg) <= t.granted
    decreases |es|
  {
    if es != [] {
      var tail := es[1..];
      assert forall i | 0 <= i < |tail| :: tail[i] == es[i + 1];
      if !es[0].Interval? {
        RateIsDelivered(cfg, Receive(s, es[0]), tail, from);
      } else {
        var r := MapStep(cfg, s, es[0].tick);
        if r.Generated? {
          MapDelivers(cfg, s, es[0].tick, r);
          MapFills(cfg, s, es[0].tick, r);
          assert Inv(cfg, r.state) by {
            MapStepGuarantees(cfg, s, es[0].tick);
          }
          RateIsDelivered(cfg, r.state, tail, es[0].tick.now);
          MulDistributes(Run(cfg, r.state, tail).intervals, 1, TokensPerInterval(cfg));
        }
      }
    }
  }
}
