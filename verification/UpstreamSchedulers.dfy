/** The CMTS upstream scheduler: requests in, one MAP message per MAP interval out, rate-shaped by two token buckets. */
module UpstreamSchedulers {
  import opened DocsisTypes
  import opened GrantLists
  import opened Allocation
  import opened GrantPlacement
  import opened MapMessages
  import opened PgsTiming
  import opened PgsGrids

  /** The channel, the service flows' parameters, and times in nanoseconds and rates in bits per second. */
  datatype Config = Config(ch: Channel, weight: Weight, pgs: Option<Pgs>,
                           maxSustainedRate: nat, maxTrafficBurst: nat, peakRate: nat, peakBurst: nat,
                           mapInterval: nat, minReqGntDelaySlots: nat) {
    predicate Valid() {
      ch.Valid() && ch.MinislotsPerMap() < UINT32 && (pgs.Some? ==> pgs.value.Valid())
    }
  }

  /** What the scheduler remembers between MAPs. */
  datatype State = State(requests: map<nat, nat>, msrTokens: int, peakTokens: nat, lastIncrement: nat, lastDrain: nat,
                         allocStartTime: nat, lastPgsGrantTime: int)

  /** What a MAP interval brings from outside: free minislots (congestion), the time, and the random start of the grants. */
  datatype Tick = Tick(free: nat, now: nat, draw: nat)

  datatype Failure = NegativePgsOffset | UnableToAllocate | RateExceeded | OverlappingGrants

  datatype Outcome = Generated(state: State, schedule: Schedule, message: MapMessage) | Failed(failure: Failure)

  function Backlog(requests: map<nat, nat>, sfid: nat): nat {
    if sfid in requests then requests[sfid] else 0
  }

  predicate Inv(cfg: Config, s: State) {
    && cfg.Valid()
    && 0 <= s.msrTokens
    && (cfg.pgs.Some? ==> NeverCrosses(cfg.ch, cfg.pgs.value, s.lastPgsGrantTime - s.allocStartTime))
  }

  // ----- The steps of one MAP interval

  function PlanFor(cfg: Config, s: State, free: nat): Option<Plan>
    requires cfg.pgs.Some? ==> 0 < cfg.pgs.value.interval
  {
    if cfg.pgs.None? then Some(Plan([], 0, s.lastPgsGrantTime))
    else Planned(cfg.pgs.value, s.lastPgsGrantTime, s.allocStartTime, s.allocStartTime + cfg.ch.MinislotsPerMap(), free)
  }

  /** The clock never runs backwards. */
  function Elapsed(since: nat, now: nat): nat {
    Max(now - since, 0)
  }

  /** The time for which tokens come in; the first MAP, when nothing was recorded yet, counts a whole interval. */
  function IncrementTime(cfg: Config, s: State, now: nat): nat {
    if s.lastIncrement == 0 then cfg.mapInterval else Elapsed(s.lastIncrement, now)
  }

  function MsrIncrement(cfg: Config, s: State, tick: Tick): nat {
    BytesAtRate(IncrementTime(cfg, s, tick.now), cfg.maxSustainedRate)
  }

  function PeakIncrement(cfg: Config, s: State, tick: Tick): nat {
    BytesAtRate(IncrementTime(cfg, s, tick.now), cfg.peakRate)
  }

  function Replenished(cfg: Config, s: State, tick: Tick): State {
    s.(msrTokens := Min(s.msrTokens + MsrIncrement(cfg, s, tick), cfg.maxTrafficBurst),
       peakTokens := Min(s.peakTokens + PeakIncrement(cfg, s, tick), cfg.peakBurst),
       lastIncrement := tick.now)
  }

  function AvailableTokens(s: State): nat {
    if s.msrTokens <= 0 then 0 else Min(s.msrTokens, s.peakTokens)
  }

  /** Minislots allocated to best effort, PGS included; s is the state after the token increment. */
  function Allocated(cfg: Config, s: State, free: nat, pgsMinislots: nat): (nat, nat)
    requires cfg.ch.Valid()
  {
    var cBacklog, lBacklog := Backlog(s.requests, CLASSIC_SFID), Backlog(s.requests, LOW_LATENCY_SFID);
    if AvailableTokens(s) > 0 && (cBacklog > 0 || lBacklog > 0) then
      Allocate(cfg.ch, cfg.weight, free, pgsMinislots, AvailableTokens(s), cBacklog, lBacklog)
    else (0, 0)
  }

  predicate NothingToGrant(plan: Plan, c: nat, l: nat) {
    c == 0 && l == 0 && plan.grants == []
  }

  function ScheduleFor(cfg: Config, plan: Plan, c: nat, l: nat, draw: nat): Option<Schedule> {
    if NothingToGrant(plan, c, l) then Some(Schedule([], 0, 0))
    else if plan.minislots > 0 then Scheduled(cfg.ch.MinislotsPerMap(), plan.grants, c, l)
    else Some(Schedule(BackToBack(c, l, StartFor(cfg, c, l, draw)), c, l))
  }

  /** The random start: any minislot that leaves room for both grants. */
  function StartFor(cfg: Config, c: nat, l: nat, draw: nat): nat {
    Min(draw, Max(cfg.ch.MinislotsPerMap() - (c + l), 0))
  }

  /** Every start that leaves room can be drawn, and no other. */
  lemma StartIsAny(cfg: Config, c: nat, l: nat, draw: nat)
    requires c + l <= cfg.ch.MinislotsPerMap()
    ensures StartFor(cfg, c, l, draw) + c + l <= cfg.ch.MinislotsPerMap()
    ensures draw + c + l <= cfg.ch.MinislotsPerMap() ==> StartFor(cfg, c, l, draw) == draw
  {
  }

  function Drained(tokens: int, decrement: nat): nat {
    if tokens > decrement then tokens - decrement else 0
  }

  /** Charge the granted bytes to the token buckets and the request backlogs. */
  function Charged(cfg: Config, s: State, sched: Schedule, now: nat): State {
    var cBytes, lBytes := cfg.ch.MinislotsToBytes(sched.cMinislots), cfg.ch.MinislotsToBytes(sched.lMinislots);
    s.(msrTokens := Drained(s.msrTokens, cBytes + lBytes),
       peakTokens := Drained(s.peakTokens, cBytes + lBytes),
       lastDrain := now,
       requests := s.requests[CLASSIC_SFID := Max(Backlog(s.requests, CLASSIC_SFID) - cBytes, 0)]
                             [LOW_LATENCY_SFID := Max(Backlog(s.requests, LOW_LATENCY_SFID) - lBytes, 0)])
  }

  /**
   The sustained rate allows so many bytes since the last drain; the first drain is not checked. Comparing
   whole bytes with a rounded-down allowance is the same as comparing them with the exact one.
   */
  predicate WithinRate(cfg: Config, s: State, bytes: nat, now: nat) {
    s.lastDrain > 0 ==> bytes <= BytesAtRate(Elapsed(s.lastDrain, now), cfg.maxSustainedRate) + cfg.maxTrafficBurst
  }

  predicate Conforms(cfg: Config, s: State, sched: Schedule, now: nat) {
    WithinRate(cfg, s, cfg.ch.MinislotsToBytes(sched.cMinislots) + cfg.ch.MinislotsToBytes(sched.lMinislots), now)
  }

  function MessageFor(cfg: Config, s: State, gs: seq<Grant>): MapMessage {
    MapMessage(Backlog(s.requests, CLASSIC_SFID) > 0 || Backlog(s.requests, LOW_LATENCY_SFID) > 0,
               s.allocStartTime, s.allocStartTime - cfg.minReqGntDelaySlots, Printed(gs))
  }

  /** One MAP interval, from the state before it to the state after it and the message sent. */
  function MapStep(cfg: Config, s: State, tick: Tick): Outcome
    requires cfg.ch.Valid() && (cfg.pgs.Some? ==> 0 < cfg.pgs.value.interval)
  {
    var plan := PlanFor(cfg, s, tick.free);
    if plan.None? then Failed(NegativePgsOffset)
    else
      BestEffortStep(cfg, Replenished(cfg, s, tick).(lastPgsGrantTime := plan.value.last), plan.value, tick)
  }

  /** The rest of the interval, after the guaranteed grants are planned and the tokens have come in. */
  function BestEffortStep(cfg: Config, s: State, plan: Plan, tick: Tick): Outcome
    requires cfg.ch.Valid()
  {
    var (c, l) := Allocated(cfg, s, tick.free, plan.minislots);
    var sched := ScheduleFor(cfg, plan, c, l, tick.draw);
    if sched.None? then Failed(UnableToAllocate)
    else if NothingToGrant(plan, c, l) then Sent(cfg, s, sched.value)
    else if !Conforms(cfg, s, sched.value, tick.now) then Failed(RateExceeded)
    else Sent(cfg, Charged(cfg, s, sched.value, tick.now), sched.value)
  }

  function Sent(cfg: Config, s: State, sched: Schedule): Outcome {
    if !InOrder(sched.grants) then Failed(OverlappingGrants)
    else Generated(s.(allocStartTime := s.allocStartTime + cfg.ch.MinislotsPerMap()), sched,
                   MessageFor(cfg, s, sched.grants))
  }

  /** The plan for the due times, none of which is before the MAP. */
  function LaidOut(pgs: Pgs, last: int, from: int, limit: int, length: nat): Plan
    requires 0 < pgs.interval && (from <= last + pgs.interval || limit <= last + pgs.interval)
  {
    DueTimesNotBefore(last, pgs.interval, from, limit);
    var times := DueTimes(last, pgs.interval, limit);
    Plan(GrantsAt(times, from, length), |times| * length, LastBefore(last, pgs.interval, limit))
  }

  function OntoPlan(grants: seq<Grant>, minislots: nat, rest: Plan): Plan {
    Plan(grants + rest.grants, minislots + rest.minislots, rest.last)
  }

  lemma LaidOutStep(pgs: Pgs, last: int, from: int, limit: int, length: nat, grants: seq<Grant>, minislots: nat)
    requires 0 < pgs.interval && from <= last + pgs.interval < limit
    ensures OntoPlan(grants, minislots, LaidOut(pgs, last, from, limit, length))
         == OntoPlan(grants + [Grant(LOW_LATENCY_SFID, last + pgs.interval - from, length)], minislots + length,
                     LaidOut(pgs, last + pgs.interval, from, limit, length))
  {
    DueTimesNotBefore(last, pgs.interval, from, limit);
    DueTimesNotBefore(last + pgs.interval, pgs.interval, from, limit);
    var times, rest := DueTimes(last, pgs.interval, limit), DueTimes(last + pgs.interval, pgs.interval, limit);
    assert times[1..] == rest;
    assert |times| * length == length + |rest| * length;
    var g := Grant(LOW_LATENCY_SFID, last + pgs.interval - from, length);
    assert grants + ([g] + GrantsAt(rest, from, length)) == grants + [g] + GrantsAt(rest, from, length);
  }

  // ----- What a step guarantees

  /** A plan that the placement can work with. */
  predicate PlanFits(cfg: Config, plan: Plan) {
    && plan.minislots <= cfg.ch.MinislotsPerMap()
    && (plan.minislots > 0 ==>
          && WellFormedPgs(plan.grants, 0, cfg.ch.MinislotsPerMap())
          && plan.grants != []
          && plan.minislots == Minislots(plan.grants, LOW_LATENCY_SFID))
  }

  /** The guaranteed grants that have to be found in the schedule. */
  function Guaranteed(plan: Plan): seq<Grant> {
    if plan.minislots > 0 then plan.grants else []
  }

  /** With PGS grants on a grid, every plan is a legal input of the placement, and the grid is kept. */
  lemma PlanIsWellFormed(cfg: Config, s: State, free: nat)
    requires Inv(cfg, s) && PlanFor(cfg, s, free).Some?
    ensures var plan := PlanFor(cfg, s, free).value;
            && PlanFits(cfg, plan)
            && (cfg.pgs.Some? ==>
                  NeverCrosses(cfg.ch, cfg.pgs.value, plan.last - (s.allocStartTime + cfg.ch.MinislotsPerMap())))
  {
    var plan := PlanFor(cfg, s, free).value;
    if cfg.pgs.Some? {
      if free == 0 {
        NeverCrossesInNextMap(cfg.ch, cfg.pgs.value, s.lastPgsGrantTime - s.allocStartTime);
      } else {
        LaidOutPlanFits(cfg, s, free);
      }
    }
  }

  lemma LaidOutPlanFits(cfg: Config, s: State, free: nat)
    requires Inv(cfg, s) && cfg.pgs.Some? && 0 < free && PlanFor(cfg, s, free).Some?
    ensures var plan := PlanFor(cfg, s, free).value;
            && PlanFits(cfg, plan)
            && NeverCrosses(cfg.ch, cfg.pgs.value, plan.last - (s.allocStartTime + cfg.ch.MinislotsPerMap()))
  {
    var plan, ch, pgs := PlanFor(cfg, s, free).value, cfg.ch, cfg.pgs.value;
    var grid, phase := OnFinestGrid(ch, pgs, s.lastPgsGrantTime - s.allocStartTime);
    GridIsKept(ch, pgs, s.lastPgsGrantTime, s.allocStartTime, grid, phase);
    assert NeverCrosses(ch, pgs, plan.last - (s.allocStartTime + ch.MinislotsPerMap())) by {
      NextOnGrid(ch, pgs, plan.last - s.allocStartTime, grid, phase);
      OnAnyGrid(ch, pgs, plan.last - (s.allocStartTime + ch.MinislotsPerMap()), grid, phase);
    }
    LaidOutGrantsFit(ch, pgs, s.lastPgsGrantTime, s.allocStartTime);
  }

  /** Grants that never cross are a legal input of the placement. */
  lemma LaidOutGrantsFit(ch: Channel, pgs: Pgs, last: int, allocStartTime: int)
    requires pgs.Valid() && ch.MinislotsPerMap() < UINT32
    requires last + pgs.interval < allocStartTime + ch.MinislotsPerMap() ==> allocStartTime <= last + pgs.interval
    requires Spaced(DueTimes(last, pgs.interval, allocStartTime + ch.MinislotsPerMap()), pgs, allocStartTime + ch.MinislotsPerMap())
    ensures var times := DueTimes(last, pgs.interval, allocStartTime + ch.MinislotsPerMap());
            && NotBefore(times, allocStartTime)
            && var gs := GrantsAt(times, allocStartTime, pgs.size);
            && WellFormedPgs(gs, 0, ch.MinislotsPerMap()) && |gs| == |times|
            && Minislots(gs, LOW_LATENCY_SFID) == |times| * pgs.size <= ch.MinislotsPerMap()
  {
    GrantsAtWellFormed(ch, pgs, last, allocStartTime);
    GrantsAtSum(pgs, last, allocStartTime, allocStartTime + ch.MinislotsPerMap());
    OccupiedFits(GrantsAt(DueTimes(last, pgs.interval, allocStartTime + ch.MinislotsPerMap()), allocStartTime, pgs.size),
                 0, ch.MinislotsPerMap());
  }

  /** The allocation never asks for more than the MAP holds, so there is no way to run out of minislots. */
  lemma AllocatedFits(cfg: Config, s: State, free: nat, pgsMinislots: nat)
    requires cfg.ch.Valid() && free <= cfg.ch.MinislotsPerMap() && pgsMinislots <= cfg.ch.MinislotsPerMap()
    ensures var (c, l) := Allocated(cfg, s, free, pgsMinislots);
            c + Max(l, pgsMinislots) <= cfg.ch.MinislotsPerMap()
  {
    var cB, lB := Backlog(s.requests, CLASSIC_SFID), Backlog(s.requests, LOW_LATENCY_SFID);
    AllocateGuarantees(cfg.ch, cfg.weight, free, pgsMinislots, AvailableTokens(s), cB, lB);
  }

  /** The allocation exceeds the lesser token bucket by less than a minislot, or is no more than the PGS grants. */
  lemma AllocatedWithinTokens(cfg: Config, s: State, free: nat, pgsMinislots: nat)
    requires cfg.ch.Valid()
    ensures var (c, l) := Allocated(cfg, s, free, pgsMinislots);
            cfg.ch.MinislotsToBytes(c + Max(l, pgsMinislots))
            <= Max(AvailableTokens(s) + cfg.ch.capacity - 1, cfg.ch.MinislotsToBytes(pgsMinislots))
  {
    var ch := cfg.ch;
    var (c, l) := Allocated(cfg, s, free, pgsMinislots);
    var tokens := AvailableTokens(s);
    var cB, lB := Backlog(s.requests, CLASSIC_SFID), Backlog(s.requests, LOW_LATENCY_SFID);
    if tokens > 0 && (cB > 0 || lB > 0) {
      AllocateGuarantees(ch, cfg.weight, free, pgsMinislots, tokens, cB, lB);
      ch.MinislotCeilIsLeast(tokens, 0);
      if c + l <= ch.MinislotCeil(tokens) {
        MulMonotone(c + l, ch.MinislotCeil(tokens), ch.capacity);
      }
    }
  }

  /** What ScheduleGrant demands of its caller. */
  lemma ReadyToSchedule(cfg: Config, s: State, s1: State, tick: Tick, c: nat, l: nat)
    requires Inv(cfg, s) && tick.free <= cfg.ch.MinislotsPerMap() && PlanFor(cfg, s, tick.free).Some?
    requires (c, l) == Allocated(cfg, s1, tick.free, PlanFor(cfg, s, tick.free).value.minislots)
    ensures var plan := PlanFor(cfg, s, tick.free).value;
            && (plan.minislots > 0 ==>
                  && WellFormedPgs(plan.grants, 0, cfg.ch.MinislotsPerMap())
                  && plan.minislots == Minislots(plan.grants, LOW_LATENCY_SFID))
            && (plan.minislots == 0 ==>
                  && c + l <= cfg.ch.MinislotsPerMap()
                  && StartFor(cfg, c, l, tick.draw) <= cfg.ch.MinislotsPerMap() - (c + l))
  {
    PlanIsWellFormed(cfg, s, tick.free);
    AllocatedFits(cfg, s1, tick.free, PlanFor(cfg, s, tick.free).value.minislots);
  }

  lemma ScheduleServes(cfg: Config, plan: Plan, c: nat, l: nat, draw: nat)
    requires cfg.ch.Valid() && c + Max(l, plan.minislots) <= cfg.ch.MinislotsPerMap()
    requires PlanFits(cfg, plan)
    ensures var sched := ScheduleFor(cfg, plan, c, l, draw);
            && sched.Some?
            && Serves(sched.value, cfg.ch.MinislotsPerMap(), Guaranteed(plan), c, l)
  {
    if !NothingToGrant(plan, c, l) {
      if plan.minislots > 0 {
        ScheduledServes(cfg.ch.MinislotsPerMap(), plan.grants, c, l);
      } else {
        BackToBackServes(cfg.ch.MinislotsPerMap(), c, l, StartFor(cfg, c, l, draw));
      }
    }
  }

  /**
   A MAP interval from a valid state: the only failures are a guaranteed grant left behind by a MAP
   without free minislots, and a grant beyond the sustained rate. Otherwise the grants are disjoint and
   inside the MAP, keep the guaranteed grants, the modem reads back exactly the bytes that are charged,
   and each backlog falls by the granted bytes, but not below zero.
   */
  lemma MapStepGuarantees(cfg: Config, s: State, tick: Tick)
    requires Inv(cfg, s) && tick.free <= cfg.ch.MinislotsPerMap()
    ensures var r := MapStep(cfg, s, tick);
            && (r.Failed? ==> r.failure == NegativePgsOffset || r.failure == RateExceeded)
            && (r.Generated? ==>
                  && Inv(cfg, r.state)
                  && r.state.allocStartTime == s.allocStartTime + cfg.ch.MinislotsPerMap()
                  && Placed(r.schedule.grants, 0, cfg.ch.MinislotsPerMap())
                  && Survives(Guaranteed(PlanFor(cfg, s, tick.free).value), r.schedule.grants)
                  && GrantsReachTheModem(cfg, s, r))
  {
    var plan := PlanFor(cfg, s, tick.free);
    if plan.Some? {
      var s1 := Replenished(cfg, s, tick).(lastPgsGrantTime := plan.value.last);
      var r := BestEffortStep(cfg, s1, plan.value, tick);
      assert PlanFits(cfg, plan.value) by {
        PlanIsWellFormed(cfg, s, tick.free);
      }
      BestEffortGuarantees(cfg, s1, plan.value, tick, r);
      if r.Generated? {
        ReplenishedBacklog(cfg, s, s1, r);
        assert Inv(cfg, r.state) by {
          PlanIsWellFormed(cfg, s, tick.free);
        }
      }
    }
  }

  /** What reaches the modem does not depend on the tokens. */
  lemma ReplenishedBacklog(cfg: Config, s: State, s1: State, r: Outcome)
    requires r.Generated? && s.requests == s1.requests && GrantsReachTheModem(cfg, s1, r)
    ensures GrantsReachTheModem(cfg, s, r)
  {
  }

  lemma BestEffortGuarantees(cfg: Config, s: State, plan: Plan, tick: Tick, r: Outcome)
    requires cfg.ch.Valid() && tick.free <= cfg.ch.MinislotsPerMap() && PlanFits(cfg, plan)
    requires r == BestEffortStep(cfg, s, plan, tick)
    ensures r.Failed? ==> r.failure == RateExceeded
    ensures r.Generated? ==>
              && (0 <= s.msrTokens ==> 0 <= r.state.msrTokens)
              && r.state.allocStartTime == s.allocStartTime + cfg.ch.MinislotsPerMap()
              && r.state.lastPgsGrantTime == s.lastPgsGrantTime
              && Placed(r.schedule.grants, 0, cfg.ch.MinislotsPerMap())
              && Survives(Guaranteed(plan), r.schedule.grants)
              && GrantsReachTheModem(cfg, s, r)
  {
    AllocatedFits(cfg, s, tick.free, plan.minislots);
    var (c, l) := Allocated(cfg, s, tick.free, plan.minislots);
    ScheduleServes(cfg, plan, c, l, tick.draw);
    var sched := ScheduleFor(cfg, plan, c, l, tick.draw).value;
    if NothingToGrant(plan, c, l) {
      SentReaches(cfg, s, s, sched, Sent(cfg, s, sched));
    } else if Conforms(cfg, s, sched, tick.now) {
      var charged := Charged(cfg, s, sched, tick.now);
      SentReaches(cfg, s, charged, sched, Sent(cfg, charged, sched));
    }
  }

  /** A schedule that is sent with the backlogs charged for it. */
  lemma SentReaches(cfg: Config, s: State, charged: State, sched: Schedule, r: Outcome)
    requires Placed(sched.grants, 0, cfg.ch.MinislotsPerMap())
    requires sched.cMinislots == Minislots(sched.grants, CLASSIC_SFID)
    requires sched.lMinislots == Minislots(sched.grants, LOW_LATENCY_SFID)
    requires Backlog(charged.requests, CLASSIC_SFID)
          == Max(Backlog(s.requests, CLASSIC_SFID) - cfg.ch.MinislotsToBytes(sched.cMinislots), 0)
    requires Backlog(charged.requests, LOW_LATENCY_SFID)
          == Max(Backlog(s.requests, LOW_LATENCY_SFID) - cfg.ch.MinislotsToBytes(sched.lMinislots), 0)
    requires r == Sent(cfg, charged, sched)
    ensures r.Generated? && r.schedule == sched && GrantsReachTheModem(cfg, s, r)
  {
    BytesSurviveTheMap(sched.grants, 0, cfg.ch.MinislotsPerMap());
  }

  /** The time of a drain is recorded exactly when something is scheduled or a guaranteed grant was due. */
  lemma DrainIsRecorded(cfg: Config, s: State, tick: Tick)
    requires Inv(cfg, s) && tick.free <= cfg.ch.MinislotsPerMap() && MapStep(cfg, s, tick).Generated?
    ensures var r := MapStep(cfg, s, tick);
            && PlanFor(cfg, s, tick.free).Some?
            && r.state.lastIncrement == tick.now
            && r.state.lastDrain == if r.schedule.grants == [] && PlanFor(cfg, s, tick.free).value.grants == [] then s.lastDrain else tick.now
  {
    var plan := PlanFor(cfg, s, tick.free).value;
    var s1 := Replenished(cfg, s, tick).(lastPgsGrantTime := plan.last);
    PlanIsWellFormed(cfg, s, tick.free);
    SomethingIsScheduled(cfg, s1, plan, tick, MapStep(cfg, s, tick));
  }

  lemma SomethingIsScheduled(cfg: Config, s: State, plan: Plan, tick: Tick, r: Outcome)
    requires cfg.Valid() && tick.free <= cfg.ch.MinislotsPerMap() && PlanFits(cfg, plan)
    requires r == BestEffortStep(cfg, s, plan, tick) && r.Generated?
    ensures r.state.lastIncrement == s.lastIncrement
    ensures r.state.lastDrain == if r.schedule.grants == [] && plan.grants == [] then s.lastDrain else tick.now
  {
    var (c, l) := Allocated(cfg, s, tick.free, plan.minislots);
    AllocatedFits(cfg, s, tick.free, plan.minislots);
    ScheduleServes(cfg, plan, c, l, tick.draw);
    assert r.schedule.grants == [] ==> c == 0 && l == 0;
  }

  /** A guaranteed grant is left behind exactly when it was due before this MAP and this MAP has free minislots. */
  lemma NegativeOffsetIffLeftBehind(cfg: Config, s: State, tick: Tick)
    requires Inv(cfg, s) && tick.free <= cfg.ch.MinislotsPerMap()
    ensures MapStep(cfg, s, tick) == Failed(NegativePgsOffset)
       <==> && cfg.pgs.Some? && 0 < tick.free
            && s.lastPgsGrantTime + cfg.pgs.value.interval < s.allocStartTime
  {
  }

  /** Per service flow, the message carries the charged minislots and the backlog is reduced by their bytes. */
  predicate GrantsReachTheModem(cfg: Config, s: State, r: Outcome)
    requires r.Generated?
  {
    var m := Parsed(r.message.ies);
    && r.message.ies == Printed(r.schedule.grants)
    && m.Some?
    && Lengths(m.value.classic) == r.schedule.cMinislots
    && Lengths(m.value.lowLatency) == r.schedule.lMinislots
    && Backlog(r.state.requests, CLASSIC_SFID)
       == Max(Backlog(s.requests, CLASSIC_SFID) - cfg.ch.MinislotsToBytes(r.schedule.cMinislots), 0)
    && Backlog(r.state.requests, LOW_LATENCY_SFID)
       == Max(Backlog(s.requests, LOW_LATENCY_SFID) - cfg.ch.MinislotsToBytes(r.schedule.lMinislots), 0)
    && (r.message.dataGrantPending <==>
          Backlog(r.state.requests, CLASSIC_SFID) > 0 || Backlog(r.state.requests, LOW_LATENCY_SFID) > 0)
  }

  /**
   The fatal rate error cannot happen if a minislot less one byte of tokens arrives between drains, and the MAP's
   guaranteed grants alone are within the rate.
   */
  lemma RateIsNotExceeded(cfg: Config, s: State, tick: Tick)
    requires Inv(cfg, s) && tick.free <= cfg.ch.MinislotsPerMap() && PlanFor(cfg, s, tick.free).Some?
    requires s.lastDrain > 0 ==> cfg.ch.capacity - 1 <= BytesAtRate(Elapsed(s.lastDrain, tick.now), cfg.maxSustainedRate)
    requires WithinRate(cfg, s, cfg.ch.MinislotsToBytes(PlanFor(cfg, s, tick.free).value.minislots), tick.now)
    ensures MapStep(cfg, s, tick).Generated?
  {
    var plan := PlanFor(cfg, s, tick.free).value;
    var s1 := Replenished(cfg, s, tick).(lastPgsGrantTime := plan.last);
    PlanIsWellFormed(cfg, s, tick.free);
    var (c, l) := Allocated(cfg, s1, tick.free, plan.minislots);
    AllocatedFits(cfg, s1, tick.free, plan.minislots);
    AllocatedWithinTokens(cfg, s1, tick.free, plan.minislots);
    ScheduleServes(cfg, plan, c, l, tick.draw);
    BytesAdd(cfg.ch, c, Max(l, plan.minislots));
    MapStepGuarantees(cfg, s, tick);
  }

  lemma BytesAdd(ch: Channel, a: nat, b: nat)
    ensures ch.MinislotsToBytes(a) + ch.MinislotsToBytes(b) == ch.MinislotsToBytes(a + b)
  {
  }

  /** The most minislots that a MAP can grant, whatever the tokens and the backlogs. */
  function MostMinislots(cfg: Config, s: State, free: nat): nat
    requires cfg.Valid() && PlanFor(cfg, s, free).Some?
  {
    Max(Min(cfg.ch.MinislotCeil(Min(cfg.maxTrafficBurst, cfg.peakBurst)), free), PlanFor(cfg, s, free).value.minislots)
  }

  lemma CeilMonotone(ch: Channel, a: nat, b: nat)
    requires ch.Valid() && a <= b
    ensures ch.MinislotCeil(a) <= ch.MinislotCeil(b)
  {
    ch.MinislotCeilIsLeast(b, ch.MinislotCeil(b));
    ch.MinislotCeilIsLeast(a, ch.MinislotCeil(b));
  }

  lemma GrantsAtMost(cfg: Config, s: State, s1: State, tick: Tick, plan: Plan)
    requires Inv(cfg, s) && PlanFor(cfg, s, tick.free) == Some(plan)
    requires s1 == Replenished(cfg, s, tick).(lastPgsGrantTime := plan.last)
    ensures var (c, l) := Allocated(cfg, s1, tick.free, plan.minislots);
            c + Max(l, plan.minislots) <= MostMinislots(cfg, s, tick.free)
  {
    var tokens := AvailableTokens(s1);
    var cB, lB := Backlog(s1.requests, CLASSIC_SFID), Backlog(s1.requests, LOW_LATENCY_SFID);
    CeilMonotone(cfg.ch, tokens, Min(cfg.maxTrafficBurst, cfg.peakBurst));
    AllocateGuarantees(cfg.ch, cfg.weight, tick.free, plan.minislots, tokens, cB, lB);
  }

  /** If the rate allows the most that a MAP can grant, the MAP is generated. */
  lemma MostWithinRate(cfg: Config, s: State, tick: Tick)
    requires Inv(cfg, s) && tick.free <= cfg.ch.MinislotsPerMap() && PlanFor(cfg, s, tick.free).Some?
    requires WithinRate(cfg, s, cfg.ch.MinislotsToBytes(MostMinislots(cfg, s, tick.free)), tick.now)
    ensures MapStep(cfg, s, tick).Generated?
  {
    var plan := PlanFor(cfg, s, tick.free).value;
    var s1 := Replenished(cfg, s, tick).(lastPgsGrantTime := plan.last);
    var (c, l) := Allocated(cfg, s1, tick.free, plan.minislots);
    GrantsAtMost(cfg, s, s1, tick, plan);
    MulMonotone(c + Max(l, plan.minislots), MostMinislots(cfg, s, tick.free), cfg.ch.capacity);
    BytesAdd(cfg.ch, c, Max(l, plan.minislots));
    PlanIsWellFormed(cfg, s, tick.free);
    AllocatedFits(cfg, s1, tick.free, plan.minislots);
    ScheduleServes(cfg, plan, c, l, tick.draw);
    MapStepGuarantees(cfg, s, tick);
  }

  /** Full buckets, and a classic backlog as large as a MAP can serve. */
  function Saturated(cfg: Config, s: State, free: nat): State
    requires cfg.Valid() && PlanFor(cfg, s, free).Some?
  {
    s.(msrTokens := cfg.maxTrafficBurst, peakTokens := cfg.peakBurst,
       requests := map[CLASSIC_SFID := cfg.ch.MinislotsToBytes(MostMinislots(cfg, s, free))])
  }

  lemma SaturatedGrantsMost(cfg: Config, s: State, s1: State, tick: Tick, plan: Plan)
    requires Inv(cfg, s) && PlanFor(cfg, s, tick.free) == Some(plan)
    requires s1 == Replenished(cfg, Saturated(cfg, s, tick.free), tick).(lastPgsGrantTime := plan.last)
    ensures var (c, l) := Allocated(cfg, s1, tick.free, plan.minislots);
            c + Max(l, plan.minislots) == MostMinislots(cfg, s, tick.free)
  {
    var most, tokens := MostMinislots(cfg, s, tick.free), Min(cfg.maxTrafficBurst, cfg.peakBurst);
    var cB := cfg.ch.MinislotsToBytes(most);
    assert AvailableTokens(s1) == tokens && Backlog(s1.requests, CLASSIC_SFID) == cB && Backlog(s1.requests, LOW_LATENCY_SFID) == 0;
    AllocateGuarantees(cfg.ch, cfg.weight, tick.free, plan.minislots, tokens, cB, 0);
    CeilOfMinislots(cfg.ch, most);
    cfg.ch.MinislotCeilIsLeast(0, 0);
  }

  lemma CeilOfMinislots(ch: Channel, minislots: nat)
    requires ch.Valid()
    ensures ch.MinislotCeil(ch.MinislotsToBytes(minislots)) == minislots
    ensures ch.MinislotsToBytes(minislots) == 0 <==> minislots == 0
  {
    ch.MinislotCeilIsLeast(ch.MinislotsToBytes(minislots), minislots);
    if minislots > 0 {
      MulMonotone(1, minislots, ch.capacity);
      ch.MinislotCeilIsLeast(ch.MinislotsToBytes(minislots), minislots - 1);
      assert (minislots - 1) * ch.capacity == minislots * ch.capacity - ch.capacity;
    }
  }

  /**
   The fatal rate error is reachable: for the MAP and the time since the last drain, there are tokens and backlogs
   with which it comes up if and only if the most that the MAP can grant exceeds the rate.
   */
  lemma RateErrorIff(cfg: Config, s: State, tick: Tick)
    requires Inv(cfg, s) && tick.free <= cfg.ch.MinislotsPerMap()
    ensures (exists s' | SameTiming(s, s') && Inv(cfg, s') :: MapStep(cfg, s', tick) == Failed(RateExceeded))
       <==> && PlanFor(cfg, s, tick.free).Some?
            && !WithinRate(cfg, s, cfg.ch.MinislotsToBytes(MostMinislots(cfg, s, tick.free)), tick.now)
  {
    if s' :| SameTiming(s, s') && Inv(cfg, s') && MapStep(cfg, s', tick) == Failed(RateExceeded) {
      if WithinRate(cfg, s, cfg.ch.MinislotsToBytes(MostMinislots(cfg, s, tick.free)), tick.now) {
        MostWithinRate(cfg, s', tick);
      }
    }
    if PlanFor(cfg, s, tick.free).Some? && !WithinRate(cfg, s, cfg.ch.MinislotsToBytes(MostMinislots(cfg, s, tick.free)), tick.now) {
      SaturatedIsRefused(cfg, s, tick, Saturated(cfg, s, tick.free));
    }
  }

  predicate SameTiming(s: State, s': State) {
    s'.allocStartTime == s.allocStartTime && s'.lastPgsGrantTime == s.lastPgsGrantTime && s'.lastDrain == s.lastDrain
  }

  lemma SaturatedIsRefused(cfg: Config, s: State, tick: Tick, s': State)
    requires Inv(cfg, s) && tick.free <= cfg.ch.MinislotsPerMap() && PlanFor(cfg, s, tick.free).Some?
    requires !WithinRate(cfg, s, cfg.ch.MinislotsToBytes(MostMinislots(cfg, s, tick.free)), tick.now)
    requires s' == Saturated(cfg, s, tick.free)
    ensures Inv(cfg, s') && SameTiming(s, s') && MapStep(cfg, s', tick) == Failed(RateExceeded)
  {
    var plan := PlanFor(cfg, s, tick.free).value;
    var s1 := Replenished(cfg, s', tick).(lastPgsGrantTime := plan.last);
    assert PlanFits(cfg, plan) by {
      PlanIsWellFormed(cfg, s, tick.free);
    }
    SaturatedGrantsMost(cfg, s, s1, tick, plan);
    SameDrain(cfg, s, s1, cfg.ch.MinislotsToBytes(MostMinislots(cfg, s, tick.free)), tick.now);
    MostIsRefused(cfg, s1, plan, tick, MostMinislots(cfg, s, tick.free));
    assert PlanFor(cfg, s', tick.free) == Some(plan);
    assert MapStep(cfg, s', tick) == BestEffortStep(cfg, s1, plan, tick);
  }

  lemma SameDrain(cfg: Config, s: State, s': State, bytes: nat, now: nat)
    requires s'.lastDrain == s.lastDrain
    ensures WithinRate(cfg, s', bytes, now) == WithinRate(cfg, s, bytes, now)
  {
  }

  lemma MostIsRefused(cfg: Config, s: State, plan: Plan, tick: Tick, most: nat)
    requires cfg.Valid() && tick.free <= cfg.ch.MinislotsPerMap() && PlanFits(cfg, plan)
    requires var (c, l) := Allocated(cfg, s, tick.free, plan.minislots);
             c + Max(l, plan.minislots) == most
    requires !WithinRate(cfg, s, cfg.ch.MinislotsToBytes(most), tick.now)
    ensures BestEffortStep(cfg, s, plan, tick) == Failed(RateExceeded)
  {
    var (c, l) := Allocated(cfg, s, tick.free, plan.minislots);
    CeilOfMinislots(cfg.ch, most);
    BytesAdd(cfg.ch, c, Max(l, plan.minislots));
    AllocatedFits(cfg, s, tick.free, plan.minislots);
    ScheduleServes(cfg, plan, c, l, tick.draw);
  }

  /** PGS, and a MAP without a free minislot: the next one has a free minislot and fails. */
  lemma StarvedMapStopsTheScheduler(weight: Weight)
    ensures var cfg := Config(Channel(10, 20, 4), weight, Some(Pgs(20, 5)), 0, 0, 0, 0, 0, 0);
            var s := State(map[], 0, 0, 0, 0, 80, 60);
            && Inv(cfg, s)
            && MapStep(cfg, s, Tick(0, 0, 0)).Generated?
            && MapStep(cfg, MapStep(cfg, s, Tick(0, 0, 0)).state, Tick(1, 0, 0)) == Failed(NegativePgsOffset)
  {
    var cfg := Config(Channel(10, 20, 4), weight, Some(Pgs(20, 5)), 0, 0, 0, 0, 0, 0);
    var s := State(map[], 0, 0, 0, 0, 80, 60);
    OneFrameNeverCrosses(cfg.ch, cfg.pgs.value, 1, -1);
    RateIsNotExceeded(cfg, s, Tick(0, 0, 0));
    MapStepGuarantees(cfg, s, Tick(0, 0, 0));
    NegativeOffsetIffLeftBehind(cfg, MapStep(cfg, s, Tick(0, 0, 0)).state, Tick(1, 0, 0));
  }

  // ----- The scheduler object

  class UpstreamScheduler {
    const cfg: Config
    var requests: map<nat, nat>
    var msrTokens: int
    var peakTokens: nat
    var lastIncrement: nat
    var lastDrain: nat
    var allocStartTime: nat
    var lastPgsGrantTime: int

    function Now(): State
      reads this
    {
      State(requests, msrTokens, peakTokens, lastIncrement, lastDrain, allocStartTime, lastPgsGrantTime)
    }

    predicate Valid()
      reads this
    {
      Inv(cfg, Now())
    }

    /**
     Provision and start the scheduler. The first guaranteed grant goes to the given frame of the first MAP; the
     source stops at start-up when that frame is not in the MAP. It does not look at the size of the grants.
     */
    constructor (cfg: Config, allocStartTime: nat, firstPgsGrantFrameOffset: nat, now: nat)
      requires cfg.Valid()
      requires firstPgsGrantFrameOffset < cfg.ch.framesPerMap
      ensures this.cfg == cfg
      ensures Valid() <==>
                (cfg.pgs.Some? ==>
                   NeverCrosses(cfg.ch, cfg.pgs.value,
                                firstPgsGrantFrameOffset * cfg.ch.minislotsPerFrame - cfg.pgs.value.interval))
      ensures requests == map[] && msrTokens == cfg.maxTrafficBurst && peakTokens == 0
      ensures lastIncrement == now && lastDrain == now
      ensures this.allocStartTime == allocStartTime
      ensures cfg.pgs.Some? ==>
                && lastPgsGrantTime + cfg.pgs.value.interval
                   == allocStartTime + firstPgsGrantFrameOffset * cfg.ch.minislotsPerFrame
                && lastPgsGrantTime + cfg.pgs.value.interval < allocStartTime + cfg.ch.MinislotsPerMap()
    {
      this.cfg := cfg;
      this.requests := map[];
      this.msrTokens, this.peakTokens := cfg.maxTrafficBurst, 0;
      this.lastIncrement, this.lastDrain := now, now;
      this.allocStartTime := allocStartTime;
      var interval: nat := if cfg.pgs.Some? then cfg.pgs.value.interval else 0;
      this.lastPgsGrantTime := allocStartTime + firstPgsGrantFrameOffset * cfg.ch.minislotsPerFrame - interval;
      MulMonotone(firstPgsGrantFrameOffset + 1, cfg.ch.framesPerMap, cfg.ch.minislotsPerFrame);
      assert (firstPgsGrantFrameOffset + 1) * cfg.ch.minislotsPerFrame
          == firstPgsGrantFrameOffset * cfg.ch.minislotsPerFrame + cfg.ch.minislotsPerFrame;
    }

    /** A request adds to the backlog of its flow. */
    method ReceiveRequest(sfid: nat, bytes: nat)
      requires Valid()
      modifies this`requests
      ensures Valid()
      ensures requests == old(requests)[sfid := Backlog(old(requests), sfid) + bytes]
    {
      if sfid !in requests {
        requests := requests[sfid := bytes];
      } else {
        requests := requests[sfid := requests[sfid] + bytes];
      }
    }

    /** Bytes that were granted but not used go back to the sustained-rate bucket. */
    method ReceiveUnusedGrantUpdate(unused: nat)
      requires Valid()
      modifies this`msrTokens
      ensures Valid() && msrTokens == old(msrTokens) + unused
    {
      msrTokens := msrTokens + unused;
    }

    /** Lay out the guaranteed grants of this MAP; None is a negative offset. */
    method LayOutPgsGrants(free: nat) returns (r: Option<Plan>)
      requires Valid()
      modifies this`lastPgsGrantTime
      ensures r == PlanFor(cfg, old(Now()), free)
      ensures r.Some? ==> lastPgsGrantTime == r.value.last
    {
      if cfg.pgs.None? {
        return Some(Plan([], 0, lastPgsGrantTime));
      }
      var pgs, next := cfg.pgs.value, allocStartTime + cfg.ch.MinislotsPerMap();
      var grants: seq<Grant>, pgsMinislots: nat := [], 0;
      var i := lastPgsGrantTime + pgs.interval;
      ghost var length: nat := if pgs.size < free then pgs.size else 0;
      ghost var timely := allocStartTime <= i || next <= i;
      while i < next && free != 0
        invariant i == lastPgsGrantTime + pgs.interval
        invariant free == 0 || !timely ==> lastPgsGrantTime == old(lastPgsGrantTime) && grants == [] && pgsMinislots == 0
        invariant timely ==> allocStartTime <= i || next <= i
        invariant free != 0 && timely ==>
                    OntoPlan(grants, pgsMinislots, LaidOut(pgs, lastPgsGrantTime, allocStartTime, next, length))
                    == LaidOut(pgs, old(lastPgsGrantTime), allocStartTime, next, length)
        decreases next - i
      {
        ghost var last := lastPgsGrantTime;
        lastPgsGrantTime := i;
        var lLength := 0;
        ghost var minislotsBefore := pgsMinislots;
        if pgs.size < free {
          lLength := pgs.size;
          pgsMinislots := pgsMinislots + pgs.size;
        }
        var offset := i - allocStartTime;
        if offset < 0 {
          return None;
        }
        LaidOutStep(pgs, last, allocStartTime, next, length, grants, minislotsBefore);
        grants := grants + [Grant(LOW_LATENCY_SFID, offset, lLength)];
        i := i + pgs.interval;
      }
      assert grants + [] == grants;
      return Some(Plan(grants, pgsMinislots, lastPgsGrantTime));
    }

    /** Tokens for the time since the last increment come in, up to the burst sizes. */
    method IncrementTokenBucketCounters(now: nat)
      modifies this`msrTokens, this`peakTokens, this`lastIncrement
      ensures Now() == old(Replenished(cfg, Now(), Tick(0, now, 0)))
      ensures var time := if old(lastIncrement) == 0 then cfg.mapInterval else Max(now - old(lastIncrement), 0);
              && msrTokens == Min(old(msrTokens) + BytesAtRate(time, cfg.maxSustainedRate), cfg.maxTrafficBurst)
              && peakTokens == Min(old(peakTokens) + BytesAtRate(time, cfg.peakRate), cfg.peakBurst)
              && lastIncrement == now
    {
      var interval := IncrementTime(cfg, Now(), now);
      msrTokens := msrTokens + BytesAtRate(interval, cfg.maxSustainedRate);
      if msrTokens > cfg.maxTrafficBurst {
        msrTokens := cfg.maxTrafficBurst;
      }
      peakTokens := peakTokens + BytesAtRate(interval, cfg.peakRate);
      if peakTokens > cfg.peakBurst {
        peakTokens := cfg.peakBurst;
      }
      lastIncrement := now;
    }

    /** Charge granted bytes to both buckets, which stop at zero; false is the fatal rate violation. */
    method DecrementTokenBucketCounters(decrement: nat, now: nat) returns (conforming: bool)
      modifies this`msrTokens, this`peakTokens, this`lastDrain
      ensures msrTokens == Drained(old(msrTokens), decrement)
      ensures peakTokens == Drained(old(peakTokens), decrement)
      ensures lastDrain == now
      ensures conforming == WithinRate(cfg, old(Now()), decrement, now)
    {
      if msrTokens > decrement {
        msrTokens := msrTokens - decrement;
      } else {
        msrTokens := 0;
      }
      if peakTokens > decrement {
        peakTokens := peakTokens - decrement;
      } else {
        peakTokens := 0;
      }
      var interval := Elapsed(lastDrain, now);
      conforming := true;
      if lastDrain > 0 {
        conforming := decrement <= BytesAtRate(interval, cfg.maxSustainedRate) + cfg.maxTrafficBurst;
      }
      lastDrain := now;
    }

    /** Take granted minislots off the backlog of a flow. */
    method DecrementBacklog(sfid: nat, minislots: nat)
      modifies this`requests
      ensures requests == old(requests)[sfid := Max(Backlog(old(requests), sfid) - cfg.ch.MinislotsToBytes(minislots), 0)]
    {
      var bytes, backlog := cfg.ch.MinislotsToBytes(minislots), Backlog(requests, sfid);
      if minislots != 0 && backlog > bytes {
        requests := requests[sfid := backlog - bytes];
      } else if minislots != 0 && backlog <= bytes {
        requests := requests[sfid := 0];
      } else {
        requests := requests[sfid := backlog];
      }
    }

    /** Divide the minislots that the tokens and the free capacity allow between the backlogs. */
    method AllocateBestEffort(free: nat, pgsMinislots: nat) returns (c: nat, l: nat)
      requires cfg.ch.Valid()
      ensures (c, l) == Allocated(cfg, Now(), free, pgsMinislots)
      ensures cfg.ch.MinislotsToBytes(c + l) <= Max(AvailableTokens(Now()) + cfg.ch.capacity - 1, cfg.ch.MinislotsToBytes(pgsMinislots))
    {
      var availableTokens := if msrTokens <= 0 then 0 else Min(msrTokens, peakTokens);
      var cBacklog, lBacklog := Backlog(requests, CLASSIC_SFID), Backlog(requests, LOW_LATENCY_SFID);
      c, l := 0, 0;
      if availableTokens > 0 && (cBacklog != 0 || lBacklog != 0) {
        var allocation := Allocate(cfg.ch, cfg.weight, free, pgsMinislots, availableTokens, cBacklog, lBacklog);
        c, l := allocation.0, allocation.1;
      }
      AllocatedWithinTokens(cfg, Now(), free, pgsMinislots);
      MulMonotone(c + l, c + Max(l, pgsMinislots), cfg.ch.capacity);
    }

    /** Charge a schedule to the token buckets and the backlogs; false is the fatal rate violation. */
    method ChargeGrants(sched: Schedule, now: nat) returns (conforming: bool)
      modifies this`msrTokens, this`peakTokens, this`lastDrain, this`requests
      ensures Now() == Charged(cfg, old(Now()), sched, now)
      ensures conforming == Conforms(cfg, old(Now()), sched, now)
    {
      var bytes := cfg.ch.MinislotsToBytes(sched.cMinislots) + cfg.ch.MinislotsToBytes(sched.lMinislots);
      conforming := DecrementTokenBucketCounters(bytes, now);
      DecrementBacklog(CLASSIC_SFID, sched.cMinislots);
      DecrementBacklog(LOW_LATENCY_SFID, sched.lMinislots);
    }

    /** Print the MAP and move on to the next interval. */
    method SendMap(sched: Schedule) returns (r: Outcome)
      modifies this`allocStartTime
      ensures r == Sent(cfg, old(Now()), sched)
      ensures r.Generated? ==> Now() == r.state
      ensures r.Generated? ==>
                && r.message.allocStartTime == old(allocStartTime)
                && r.message.ackTime + cfg.minReqGntDelaySlots == old(allocStartTime)
                && allocStartTime == old(allocStartTime) + cfg.ch.MinislotsPerMap()
    {
      var ies := BuildMapMessage(sched.grants);
      if ies.None? {
        return Failed(OverlappingGrants);
      }
      var pending := Backlog(requests, CLASSIC_SFID) > 0 || Backlog(requests, LOW_LATENCY_SFID) > 0;
      var message := MapMessage(pending, allocStartTime, allocStartTime - cfg.minReqGntDelaySlots, ies.value);
      allocStartTime := allocStartTime + cfg.ch.MinislotsPerMap();
      return Generated(Now(), sched, message);
    }

    /** One MAP interval: the MAP message, with the grants it carries, or the reason why the scheduler stops. */
    method GenerateMap(tick: Tick) returns (r: Outcome)
      requires Valid() && tick.free <= cfg.ch.MinislotsPerMap()
      modifies this
      ensures r == MapStep(cfg, old(Now()), tick)
      ensures r.Generated? ==> Valid() && Now() == r.state
    {
      ghost var before := Now();
      var planned := LayOutPgsGrants(tick.free);
      if planned.None? {
        return Failed(NegativePgsOffset);
      }
      var plan := planned.value;
      IncrementTokenBucketCounters(tick.now);
      ghost var s1 := Now();
      assert s1 == Replenished(cfg, before, tick).(lastPgsGrantTime := plan.last);
      var c, l := AllocateBestEffort(tick.free, plan.minislots);
      var sched := Schedule([], 0, 0);
      if c != 0 || l != 0 || plan.grants != [] {
        var start := StartFor(cfg, c, l, tick.draw);
        ReadyToSchedule(cfg, before, s1, tick, c, l);
        var scheduled := ScheduleGrant(cfg.ch.MinislotsPerMap(), plan.grants, plan.minislots, c, l, start);
        if scheduled.None? {
          return Failed(UnableToAllocate);
        }
        sched := scheduled.value;
        var conforming := ChargeGrants(sched, tick.now);
        if !conforming {
          return Failed(RateExceeded);
        }
      }
      r := SendMap(sched);
      assert r == BestEffortStep(cfg, s1, plan, tick);
      assert r.Generated? ==> Valid() by {
        MapStepGuarantees(cfg, before, tick);
      }
    }
  }
}
