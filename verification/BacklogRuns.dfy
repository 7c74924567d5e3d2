/** Which flow a MAP serves, and how long a backlog takes to drain. */
module BacklogRuns {
  import opened DocsisTypes
  import opened GrantLists
  import opened Allocation
  import opened UpstreamSchedulers
  import opened SchedulerRuns

  /** Minislots that tokens and congestion leave for a MAP. */
  function Available(cfg: Config, s: State, tick: Tick): nat
    requires cfg.ch.Valid()
  {
    Min(cfg.ch.MinislotCeil(AvailableTokens(Replenished(cfg, s, tick))), tick.free)
  }

  /**
   Exactly when a flow is granted minislots beyond its guaranteed grants: classic, if it has a backlog and more is
   available than the guaranteed grants take; low latency, if its backlog needs more than these and so does its
   weighted share, or classic leaves something over.
   */
  lemma WhoIsGranted(cfg: Config, s: State, tick: Tick)
    requires Inv(cfg, s) && tick.free <= cfg.ch.MinislotsPerMap() && MapStep(cfg, s, tick).Generated?
    ensures PlanFor(cfg, s, tick.free).Some?
    ensures var sched := MapStep(cfg, s, tick).schedule;
            var pgs := PlanFor(cfg, s, tick.free).value.minislots;
            var d := DemandOf(cfg.ch, tick.free, pgs, AvailableTokens(Replenished(cfg, s, tick)),
                              Backlog(s.requests, CLASSIC_SFID), Backlog(s.requests, LOW_LATENCY_SFID));
            && d.available == Available(cfg, s, tick)
            && (sched.cMinislots > 0 <==> Backlog(s.requests, CLASSIC_SFID) > 0 && d.available > pgs)
            && (sched.lMinislots > pgs <==>
                  d.maxL > pgs && (d.available > d.maxC + pgs || d.Budget() * cfg.weight / 256 > pgs))
  {
    PlanIsWellFormed(cfg, s, tick.free);
    var plan := PlanFor(cfg, s, tick.free).value;
    var s1 := Replenished(cfg, s, tick).(lastPgsGrantTime := plan.last);
    var cB, lB := Backlog(s.requests, CLASSIC_SFID), Backlog(s.requests, LOW_LATENCY_SFID);
    var d := DemandOf(cfg.ch, tick.free, plan.minislots, AvailableTokens(s1), cB, lB);
    NoDemand(cfg.ch, AvailableTokens(s1));
    NoDemand(cfg.ch, cB);
    NoDemand(cfg.ch, lB);
    WhoIsServed(d, cfg.weight);
    ShareWithinBudget(d, cfg.weight);
    AllocatedFits(cfg, s1, tick.free, plan.minislots);
    var (c, l) := Allocated(cfg, s1, tick.free, plan.minislots);
    ScheduleServes(cfg, plan, c, l, tick.draw);
  }

  lemma NoDemand(ch: Channel, bytes: nat)
    requires ch.Valid()
    ensures ch.MinislotCeil(bytes) == 0 <==> bytes == 0
  {
    ch.MinislotCeilIsLeast(bytes, 0);
  }

  /** A MAP that has something for a flow, whatever the other flow asks for. */
  predicate FundedFor(cfg: Config, s: State, tick: Tick, sfid: nat)
    requires cfg.Valid()
  {
    var plan := PlanFor(cfg, s, tick.free);
    var pgs := if plan.Some? then plan.value.minislots else 0;
    if sfid == CLASSIC_SFID then Available(cfg, s, tick) > pgs
    else Available(cfg, s, tick) * cfg.weight >= 256 || pgs > 0
  }

  /** Such a MAP takes at least a minislot's worth off the flow's backlog. */
  lemma BacklogFalls(cfg: Config, s: State, tick: Tick, sfid: nat)
    requires Inv(cfg, s) && tick.free <= cfg.ch.MinislotsPerMap() && MapStep(cfg, s, tick).Generated?
    requires ServiceFlow(sfid) && FundedFor(cfg, s, tick, sfid)
    ensures var r := MapStep(cfg, s, tick);
            && (Backlog(s.requests, sfid) > 0 ==>
                  0 < if sfid == CLASSIC_SFID then r.schedule.cMinislots else r.schedule.lMinislots)
            && Backlog(r.state.requests, sfid) <= Max(Backlog(s.requests, sfid) - cfg.ch.capacity, 0)
  {
    var r := MapStep(cfg, s, tick);
    MapStepGuarantees(cfg, s, tick);
    if Backlog(s.requests, sfid) > 0 {
      if sfid == CLASSIC_SFID {
        WhoIsGranted(cfg, s, tick);
        AtLeastACapacity(cfg.ch, r.schedule.cMinislots);
      } else {
        LowLatencyIsGranted(cfg, s, tick);
        AtLeastACapacity(cfg.ch, r.schedule.lMinislots);
      }
    }
  }

  lemma AtLeastACapacity(ch: Channel, minislots: nat)
    requires 0 < minislots
    ensures ch.capacity <= ch.MinislotsToBytes(minislots)
  {
    MulMonotone(1, minislots, ch.capacity);
  }

  lemma LowLatencyIsGranted(cfg: Config, s: State, tick: Tick)
    requires Inv(cfg, s) && tick.free <= cfg.ch.MinislotsPerMap() && MapStep(cfg, s, tick).Generated?
    requires FundedFor(cfg, s, tick, LOW_LATENCY_SFID) && Backlog(s.requests, LOW_LATENCY_SFID) > 0
    ensures MapStep(cfg, s, tick).schedule.lMinislots > 0
  {
    PlanIsWellFormed(cfg, s, tick.free);
    var plan := PlanFor(cfg, s, tick.free).value;
    var s1 := Replenished(cfg, s, tick).(lastPgsGrantTime := plan.last);
    var cB, lB := Backlog(s.requests, CLASSIC_SFID), Backlog(s.requests, LOW_LATENCY_SFID);
    var d := DemandOf(cfg.ch, tick.free, plan.minislots, AvailableTokens(s1), cB, lB);
    NoDemand(cfg.ch, AvailableTokens(s1));
    NoDemand(cfg.ch, lB);
    if plan.minislots == 0 {
      LowLatencyIsServed(d, cfg.weight);
    }
    AllocatedFits(cfg, s1, tick.free, plan.minislots);
    var (c, l) := Allocated(cfg, s1, tick.free, plan.minislots);
    ScheduleServes(cfg, plan, c, l, tick.draw);
  }

  predicate AlwaysFundedFor(cfg: Config, s: State, es: seq<Event>, sfid: nat)
    requires cfg.Valid()
    decreases |es|
  {
    if es == [] then true
    else if !es[0].Interval? then AlwaysFundedFor(cfg, Receive(s, es[0]), es[1..], sfid)
    else
      var r := MapStep(cfg, s, es[0].tick);
      r.Generated? ==> FundedFor(cfg, s, es[0].tick, sfid) && AlwaysFundedFor(cfg, r.state, es[1..], sfid)
  }

  /**
   A backlog drains: n MAPs with something for the flow take n minislots' worth off it, however much the other flow
   asks for meanwhile.
   */
  lemma {:induction false} BacklogDrains(cfg: Config, s: State, es: seq<Event>, sfid: nat)
    requires Inv(cfg, s) && Admissible(cfg, es) && ServiceFlow(sfid) && AlwaysFundedFor(cfg, s, es, sfid)
    requires forall i | 0 <= i < |es| && es[i].Request? :: es[i].sfid != sfid
    ensures var t := Run(cfg, s, es);
            Backlog(t.final.requests, sfid) <= Max(Backlog(s.requests, sfid) - t.intervals * cfg.ch.capacity, 0)
    decreases |es|
  {
    if es != [] {
      var tail := es[1..];
      assert forall i | 0 <= i < |tail| :: tail[i] == es[i + 1];
      if !es[0].Interval? {
        BacklogDrains(cfg, Receive(s, es[0]), tail, sfid);
      } else {
        var r := MapStep(cfg, s, es[0].tick);
        if r.Generated? {
          assert Inv(cfg, r.state) by {
            MapStepGuarantees(cfg, s, es[0].tick);
          }
          assert Backlog(r.state.requests, sfid) <= Max(Backlog(s.requests, sfid) - cfg.ch.capacity, 0) by {
            BacklogFalls(cfg, s, es[0].tick, sfid);
          }
          BacklogDrains(cfg, r.state, tail, sfid);
          OneMoreMap(Backlog(s.requests, sfid), Backlog(r.state.requests, sfid), Run(cfg, r.state, tail).intervals, cfg.ch.capacity);
        }
      }
    }
  }

  lemma OneMoreMap(before: nat, after: nat, n: nat, capacity: nat)
    requires after <= Max(before - capacity, 0)
    ensures Max(after - n * capacity, 0) <= Max(before - (n + 1) * capacity, 0)
  {
    MulDistributes(n, 1, capacity);
  }
}
