/**
 The request/grant protocol between modem and scheduler, with requests and MAP messages in flight. Any
 interleaving of requests, their arrival, MAP generation, MAP arrival and refunds is a run.
 */
module RequestGrantProtocol {
  import opened DocsisTypes
  import opened GrantLists
  import opened MapMessages
  import opened UpstreamSchedulers
  import opened BacklogRuns
  import Funded = FundedRuns
  import Stops = SchedulerStops
  import Runs = SchedulerRuns

  datatype Request = Request(sfid: nat, bytes: nat)

  /** outstanding is what the modem believes it has asked for and not been granted, by flow. */
  datatype System = System(cmts: State, outstanding: map<nat, nat>, requests: seq<Request>, maps: seq<MapMessage>)

  datatype Event =
    | Ask(sfid: nat, bytes: nat)
    | RequestArrives(index: nat)
    | Generate(tick: Tick)
    | MapArrives(index: nat)
    | Refund(bytes: nat)

  predicate Enabled(cfg: Config, s: System, e: Event) {
    match e
    case Ask(sfid, _) => ServiceFlow(sfid)
    case RequestArrives(index) => index < |s.requests|
    case Generate(tick) => tick.free <= cfg.ch.MinislotsPerMap()
    case MapArrives(index) => index < |s.maps|
    case Refund(_) => true
  }

  function Without<T>(s: seq<T>, i: nat): seq<T>
    requires i < |s|
  {
    s[..i] + s[i + 1..]
  }

  /** Bytes that the modem finds for a flow in a MAP. */
  function BytesIn(cfg: Config, m: MapMessage, sfid: nat): nat {
    var p := Parsed(m.ies);
    if p.None? then 0
    else cfg.ch.MinislotsToBytes(Lengths(if sfid == CLASSIC_SFID then p.value.classic else p.value.lowLatency))
  }

  /** The modem takes the granted bytes off its outstanding requests. */
  function Answered(cfg: Config, outstanding: map<nat, nat>, m: MapMessage): map<nat, nat> {
    outstanding[CLASSIC_SFID := Max(Backlog(outstanding, CLASSIC_SFID) - BytesIn(cfg, m, CLASSIC_SFID), 0)]
               [LOW_LATENCY_SFID := Max(Backlog(outstanding, LOW_LATENCY_SFID) - BytesIn(cfg, m, LOW_LATENCY_SFID), 0)]
  }

  /** None: the scheduler stopped. */
  function Step(cfg: Config, s: System, e: Event): Option<System>
    requires cfg.ch.Valid() && (cfg.pgs.Some? ==> 0 < cfg.pgs.value.interval) && Enabled(cfg, s, e)
  {
    match e
    case Ask(sfid, bytes) =>
      Some(s.(outstanding := s.outstanding[sfid := Backlog(s.outstanding, sfid) + bytes],
              requests := s.requests + [Request(sfid, bytes)]))
    case RequestArrives(index) =>
      var r := s.requests[index];
      Some(s.(cmts := Runs.Receive(s.cmts, Runs.Request(r.sfid, r.bytes)), requests := Without(s.requests, index)))
    case Generate(tick) =>
      var r := MapStep(cfg, s.cmts, tick);
      if r.Failed? then None else Some(s.(cmts := r.state, maps := s.maps + [r.message]))
    case MapArrives(index) =>
      Some(s.(outstanding := Answered(cfg, s.outstanding, s.maps[index]), maps := Without(s.maps, index)))
    case Refund(bytes) =>
      Some(s.(cmts := Runs.Receive(s.cmts, Runs.Unused(bytes))))
  }

  function Exec(cfg: Config, s: System, es: seq<Event>): Option<System>
    requires cfg.ch.Valid() && (cfg.pgs.Some? ==> 0 < cfg.pgs.value.interval)
    decreases |es|
  {
    if es == [] then Some(s)
    else if !Enabled(cfg, s, es[0]) then None
    else
      var next := Step(cfg, s, es[0]);
      if next.None? then None else Exec(cfg, next.value, es[1..])
  }

  // ----- What is in flight

  function RequestedBytes(rs: seq<Request>, sfid: nat): nat {
    if rs == [] then 0 else (if rs[0].sfid == sfid then rs[0].bytes else 0) + RequestedBytes(rs[1..], sfid)
  }

  function GrantedBytes(cfg: Config, ms: seq<MapMessage>, sfid: nat): nat {
    if ms == [] then 0 else BytesIn(cfg, ms[0], sfid) + GrantedBytes(cfg, ms[1..], sfid)
  }

  lemma {:induction false} RequestedConcat(a: seq<Request>, b: seq<Request>, sfid: nat)
    ensures RequestedBytes(a + b, sfid) == RequestedBytes(a, sfid) + RequestedBytes(b, sfid)
  {
    if a == [] {
      assert a + b == b;
    } else {
      RequestedConcat(a[1..], b, sfid);
      assert (a + b)[1..] == a[1..] + b;
    }
  }

  lemma RequestedWithout(rs: seq<Request>, i: nat, sfid: nat)
    requires i < |rs|
    ensures RequestedBytes(rs, sfid) == RequestedBytes(Without(rs, i), sfid) + if rs[i].sfid == sfid then rs[i].bytes else 0
  {
    assert rs == rs[..i] + ([rs[i]] + rs[i + 1..]);
    RequestedConcat(rs[..i], [rs[i]] + rs[i + 1..], sfid);
    RequestedConcat([rs[i]], rs[i + 1..], sfid);
    RequestedConcat(rs[..i], rs[i + 1..], sfid);
  }

  lemma {:induction false} GrantedConcat(cfg: Config, a: seq<MapMessage>, b: seq<MapMessage>, sfid: nat)
    ensures GrantedBytes(cfg, a + b, sfid) == GrantedBytes(cfg, a, sfid) + GrantedBytes(cfg, b, sfid)
  {
    if a == [] {
      assert a + b == b;
    } else {
      GrantedConcat(cfg, a[1..], b, sfid);
      assert (a + b)[1..] == a[1..] + b;
    }
  }

  lemma GrantedWithout(cfg: Config, ms: seq<MapMessage>, i: nat, sfid: nat)
    requires i < |ms|
    ensures GrantedBytes(cfg, ms, sfid) == GrantedBytes(cfg, Without(ms, i), sfid) + BytesIn(cfg, ms[i], sfid)
  {
    assert ms == ms[..i] + ([ms[i]] + ms[i + 1..]);
    GrantedConcat(cfg, ms[..i], [ms[i]] + ms[i + 1..], sfid);
    GrantedConcat(cfg, [ms[i]], ms[i + 1..], sfid);
    GrantedConcat(cfg, ms[..i], ms[i + 1..], sfid);
  }

  // ----- The invariant

  /** What a flow has outstanding is in the scheduler's backlog, in a request in flight, or in a MAP in flight. */
  predicate Covered(cfg: Config, s: System, sfid: nat) {
    Backlog(s.outstanding, sfid)
    <= Backlog(s.cmts.requests, sfid) + RequestedBytes(s.requests, sfid) + GrantedBytes(cfg, s.maps, sfid)
  }

  predicate Readable(ms: seq<MapMessage>) {
    forall i | 0 <= i < |ms| :: Parsed(ms[i].ies).Some?
  }

  ghost predicate SystemInv(cfg: Config, s: System) {
    && Inv(cfg, s.cmts)
    && Readable(s.maps)
    && Covered(cfg, s, CLASSIC_SFID)
    && Covered(cfg, s, LOW_LATENCY_SFID)
  }

  lemma RequestStepKeepsCover(cfg: Config, s: System, e: Event, sfid: nat)
    requires Inv(cfg, s.cmts) && Enabled(cfg, s, e) && (e.Ask? || e.RequestArrives? || e.Refund?) && Covered(cfg, s, sfid)
    ensures Covered(cfg, Step(cfg, s, e).value, sfid)
  {
    match e
    case Ask(flow, bytes) => RequestedConcat(s.requests, [Request(flow, bytes)], sfid);
    case RequestArrives(index) => RequestedWithout(s.requests, index, sfid);
    case Refund(_) =>
  }

  /** A generated MAP moves bytes from the backlog into flight, and no fewer than it takes off. */
  lemma GenerateKeepsCover(cfg: Config, s: System, tick: Tick, sfid: nat)
    requires Inv(cfg, s.cmts) && Enabled(cfg, s, Generate(tick)) && Step(cfg, s, Generate(tick)).Some?
    requires ServiceFlow(sfid) && Covered(cfg, s, sfid)
    ensures Covered(cfg, Step(cfg, s, Generate(tick)).value, sfid)
  {
    MapStepGuarantees(cfg, s.cmts, tick);
    GrantedConcat(cfg, s.maps, [MapStep(cfg, s.cmts, tick).message], sfid);
  }

  lemma MapArrivalKeepsCover(cfg: Config, s: System, index: nat, sfid: nat)
    requires Inv(cfg, s.cmts) && Enabled(cfg, s, MapArrives(index)) && ServiceFlow(sfid) && Covered(cfg, s, sfid)
    ensures Covered(cfg, Step(cfg, s, MapArrives(index)).value, sfid)
  {
    GrantedWithout(cfg, s.maps, index, sfid);
  }

  lemma StepKeepsInv(cfg: Config, s: System, e: Event)
    requires SystemInv(cfg, s) && Enabled(cfg, s, e) && Step(cfg, s, e).Some?
    ensures SystemInv(cfg, Step(cfg, s, e).value)
  {
    match e
    case Generate(tick) =>
      MapStepGuarantees(cfg, s.cmts, tick);
      GenerateKeepsCover(cfg, s, tick, CLASSIC_SFID);
      GenerateKeepsCover(cfg, s, tick, LOW_LATENCY_SFID);
    case MapArrives(index) =>
      MapArrivalKeepsCover(cfg, s, index, CLASSIC_SFID);
      MapArrivalKeepsCover(cfg, s, index, LOW_LATENCY_SFID);
    case _ =>
      RequestStepKeepsCover(cfg, s, e, CLASSIC_SFID);
      RequestStepKeepsCover(cfg, s, e, LOW_LATENCY_SFID);
  }

  /**
   No outstanding request is ever lost: after any run, the bytes a flow has outstanding are at most its
   backlog at the scheduler plus its bytes in requests and MAPs in flight, and every MAP in flight is readable.
   */
  lemma {:induction false} NoRequestIsLost(cfg: Config, s: System, es: seq<Event>)
    requires SystemInv(cfg, s) && Exec(cfg, s, es).Some?
    ensures SystemInv(cfg, Exec(cfg, s, es).value)
    decreases |es|
  {
    if es != [] {
      StepKeepsInv(cfg, s, es[0]);
      NoRequestIsLost(cfg, Step(cfg, s, es[0]).value, es[1..]);
    }
  }

  /** Bytes that a flow asks for in a run, and bytes for it in the MAPs that arrive. */
  function Asked(es: seq<Event>, sfid: nat): nat {
    if es == [] then 0 else (if es[0].Ask? && es[0].sfid == sfid then es[0].bytes else 0) + Asked(es[1..], sfid)
  }

  function Arrived(cfg: Config, s: System, es: seq<Event>, sfid: nat): nat
    requires cfg.Valid() && Exec(cfg, s, es).Some?
    decreases |es|
  {
    if es == [] then 0
    else
      (if es[0].MapArrives? then BytesIn(cfg, s.maps[es[0].index], sfid) else 0)
      + Arrived(cfg, Step(cfg, s, es[0]).value, es[1..], sfid)
  }

  /** Nothing that was asked for is forgotten: it is outstanding until as many bytes of MAPs have arrived. */
  lemma {:induction false} AskedIsOutstandingOrGranted(cfg: Config, s: System, es: seq<Event>, sfid: nat)
    requires cfg.Valid() && ServiceFlow(sfid) && Exec(cfg, s, es).Some?
    ensures Backlog(s.outstanding, sfid) + Asked(es, sfid)
         <= Backlog(Exec(cfg, s, es).value.outstanding, sfid) + Arrived(cfg, s, es, sfid)
    decreases |es|
  {
    if es != [] {
      AskedIsOutstandingOrGranted(cfg, Step(cfg, s, es[0]).value, es[1..], sfid);
    }
  }

  /** The state in which modem and scheduler start. */
  predicate Initial(cfg: Config, s: System) {
    s.outstanding == map[] && s.requests == [] && s.maps == [] && s.cmts.requests == map[]
  }

  /**
   Progress, flow by flow: whenever a run reaches a state with nothing in flight and a request of a flow outstanding,
   the scheduler knows of it, and its next MAP with something for the flow carries bytes for it. For classic that
   is a MAP in which tokens and congestion leave more than the guaranteed grants take.
   */
  lemma OutstandingRequestsAreServed(cfg: Config, s: System, es: seq<Event>, tick: Tick, sfid: nat)
    requires Initial(cfg, s) && Inv(cfg, s.cmts) && ServiceFlow(sfid) && Exec(cfg, s, es).Some?
    requires var s' := Exec(cfg, s, es).value;
             s'.requests == [] && s'.maps == [] && Backlog(s'.outstanding, sfid) > 0
    requires tick.free <= cfg.ch.MinislotsPerMap() && FundedFor(cfg, Exec(cfg, s, es).value.cmts, tick, sfid)
    ensures var r := MapStep(cfg, Exec(cfg, s, es).value.cmts, tick);
            r.Generated? ==> BytesIn(cfg, r.message, sfid) > 0
  {
    NoRequestIsLost(cfg, s, es);
    var cmts := Exec(cfg, s, es).value.cmts;
    if MapStep(cfg, cmts, tick).Generated? {
      BacklogIsServed(cfg, cmts, tick, sfid);
    }
  }

  lemma BacklogIsServed(cfg: Config, s: State, tick: Tick, sfid: nat)
    requires Inv(cfg, s) && tick.free <= cfg.ch.MinislotsPerMap() && MapStep(cfg, s, tick).Generated?
    requires ServiceFlow(sfid) && Backlog(s.requests, sfid) > 0 && FundedFor(cfg, s, tick, sfid)
    ensures BytesIn(cfg, MapStep(cfg, s, tick).message, sfid) > 0
  {
    var sched := MapStep(cfg, s, tick).schedule;
    MapStepGuarantees(cfg, s, tick);
    BacklogFalls(cfg, s, tick, sfid);
    AtLeastACapacity(cfg.ch, if sfid == CLASSIC_SFID then sched.cMinislots else sched.lMinislots);
  }

  /**
   The same from the configuration: rates and bursts that have something for the flow in every MAP serve it in the next
   one, if that comes an interval after the last.
   */
  lemma OutstandingRequestsAreServedNext(cfg: Config, s: System, es: seq<Event>, tick: Tick, sfid: nat)
    requires Initial(cfg, s) && Inv(cfg, s.cmts) && ServiceFlow(sfid) && Exec(cfg, s, es).Some?
    requires var s' := Exec(cfg, s, es).value;
             && s'.requests == [] && s'.maps == [] && Backlog(s'.outstanding, sfid) > 0
             && Funded.IntervalPassed(cfg, s'.cmts, tick.now)
    requires tick.free <= cfg.ch.MinislotsPerMap() && Funded.Funds(cfg, tick.free, sfid)
    ensures var r := MapStep(cfg, Exec(cfg, s, es).value.cmts, tick);
            r.Generated? ==> BytesIn(cfg, r.message, sfid) > 0
  {
    var cmts := Exec(cfg, s, es).value.cmts;
    assert Inv(cfg, cmts) by {
      NoRequestIsLost(cfg, s, es);
    }
    Funded.MapIsFunded(cfg, cmts, tick, sfid);
    OutstandingRequestsAreServed(cfg, s, es, tick, sfid);
  }

  /**
   The n MAPs it takes: once a flow's requests are all at the scheduler, n MAPs with something for the flow leave
   nothing of them if n minislots hold them, whatever the other flow asks for meanwhile.
   */
  lemma OutstandingRequestsDrain(cfg: Config, s: System, es: seq<Event>, later: seq<Runs.Event>, sfid: nat)
    requires SystemInv(cfg, s) && ServiceFlow(sfid) && Exec(cfg, s, es).Some?
    requires var cmts := Exec(cfg, s, es).value.cmts;
             && Runs.Admissible(cfg, later) && AlwaysFundedFor(cfg, cmts, later, sfid)
             && (forall i | 0 <= i < |later| && later[i].Request? :: later[i].sfid != sfid)
             && Backlog(cmts.requests, sfid) <= cfg.ch.MinislotsToBytes(Runs.Run(cfg, cmts, later).intervals)
    ensures Backlog(Runs.Run(cfg, Exec(cfg, s, es).value.cmts, later).final.requests, sfid) == 0
  {
    var cmts := Exec(cfg, s, es).value.cmts;
    assert Inv(cfg, cmts) by {
      NoRequestIsLost(cfg, s, es);
    }
    DrainsToNothing(cfg, cmts, later, sfid);
  }

  lemma DrainsToNothing(cfg: Config, cmts: State, later: seq<Runs.Event>, sfid: nat)
    requires Inv(cfg, cmts) && ServiceFlow(sfid) && Runs.Admissible(cfg, later) && AlwaysFundedFor(cfg, cmts, later, sfid)
    requires forall i | 0 <= i < |later| && later[i].Request? :: later[i].sfid != sfid
    requires Backlog(cmts.requests, sfid) <= cfg.ch.MinislotsToBytes(Runs.Run(cfg, cmts, later).intervals)
    ensures Backlog(Runs.Run(cfg, cmts, later).final.requests, sfid) == 0
  {
    BacklogDrains(cfg, cmts, later, sfid);
  }

  /** Without guaranteed grants, the configuration decides: MAPs an interval apart drain what so many minislots hold. */
  lemma OutstandingRequestsDrainByRate(cfg: Config, s: System, es: seq<Event>, later: seq<Runs.Event>, from: int, sfid: nat)
    requires SystemInv(cfg, s) && ServiceFlow(sfid) && Exec(cfg, s, es).Some? && cfg.pgs.None? && Stops.RateSuffices(cfg)
    requires var cmts := Exec(cfg, s, es).value.cmts;
             && (cmts.lastIncrement > 0 ==> cmts.lastIncrement <= from) && (cmts.lastDrain > 0 ==> cmts.lastDrain <= from)
             && Backlog(cmts.requests, sfid) <= cfg.ch.MinislotsToBytes(|Stops.Frees(later)|)
    requires Runs.Admissible(cfg, later) && Stops.Paced(cfg, later, from)
    requires forall i | 0 <= i < |later| && later[i].Interval? :: Funded.Funds(cfg, later[i].tick.free, sfid)
    requires forall i | 0 <= i < |later| && later[i].Request? :: later[i].sfid != sfid
    ensures Backlog(Runs.Run(cfg, Exec(cfg, s, es).value.cmts, later).final.requests, sfid) == 0
  {
    var cmts := Exec(cfg, s, es).value.cmts;
    assert Inv(cfg, cmts) by {
      NoRequestIsLost(cfg, s, es);
    }
    Funded.NothingStopsWithoutPgs(cfg, cmts, later, from);
    Funded.PacedRunIsFunded(cfg, cmts, later, from, sfid);
    DrainsToNothing(cfg, cmts, later, sfid);
  }
}
