/**
 Scheduler and modem together: MAPs travel to the modem, the modem sends what they grant, and what it does not use is
 reported back and refunded. Requests are arbitrary.
 */
module ClosedLoops {
  import opened DocsisTypes
  import opened GrantLists
  import opened MapMessages
  import opened CmPipelines
  import opened FrameSplit
  import Cmts = UpstreamSchedulers
  import Runs = SchedulerRuns
  import Cal = GrantCalendars
  import Drain = MapDrain
  import Modem = ModemRuns

  /** Bytes granted, sent, reported as used, and refunded; tokens that came in, for how long, and what PGS and rounding add. */
  datatype Books = Books(granted: nat, sent: nat, reported: nat, refunded: nat,
                         msrTokens: nat, elapsed: nat, intervals: nat, overshoot: nat)

  datatype Loop = Loop(cmts: Cmts.State, inFlight: seq<MapMessage>, classic: Modem.Device, lowLatency: Modem.Device, books: Books)

  datatype Event =
    | Ask(sfid: nat, bytes: nat)
    | Generate(tick: Cmts.Tick)
    | Deliver(first: nat)
    | Act(low: bool, action: Modem.Action)

  /** The modem can take the grants of a MAP that starts with this frame, as far as time is concerned. */
  predicate InTime(t: Cal.Timing, d: Modem.Device, first: nat, gs: seq<Grant>)
    requires t.Valid()
  {
    gs != [] ==>
      var at := Modem.Start(t, first) - t.mapProcessing;
      && d.endFrame <= first && d.station.now <= at && Cal.NotBefore(d.station.calendar, at)
      && d.station.horizon <= at + t.mapProcessing && at <= Cal.BurstTime(t, gs[0], at + t.mapProcessing)
  }

  predicate Occurs(cfg: Cmts.Config, t: Cal.Timing, s: Loop, e: Event)
    requires t.Valid()
  {
    match e
    case Ask(_, _) => true
    case Generate(tick) => tick.free <= cfg.ch.MinislotsPerMap() && s.cmts.lastIncrement <= tick.now
    case Deliver(first) =>
      && s.inFlight != []
      && var p := Parsed(s.inFlight[0].ies);
      && (p.Some? ==> InTime(t, s.classic, first, p.value.classic) && InTime(t, s.lowLatency, first, p.value.lowLatency))
    case Act(low, a) => !a.Arrive? && Modem.Possible(t, if low then s.lowLatency else s.classic, a)
  }

  /** The grants of a MAP reach a flow, if there are any. */
  function Delivered(t: Cal.Timing, d: Modem.Device, first: nat, gs: seq<Grant>): Modem.Device
    requires t.Valid()
  {
    if gs != [] && Modem.Possible(t, d, Modem.Arrive(first, gs)) then Modem.After(t, d, Modem.Arrive(first, gs)) else d
  }

  /** What a flow's job does to the flow, and the bytes that it sends and reports. */
  datatype Effect = Effect(device: Modem.Device, sent: nat, used: nat, unused: nat)

  function Acted(t: Cal.Timing, d: Modem.Device, a: Modem.Action): Effect
    requires t.Valid() && Modem.Possible(t, d, a)
  {
    if a.Run? && !Modem.RunsRight(t, d, d.station.calendar[0]) then Effect(d, 0, 0, 0)
    else
      var d' := Modem.After(t, d, a);
      if a.Run? && d.station.calendar[0].job.Frame? then Effect(d', Max(d'.modem.used - d.modem.used, 0), 0, 0)
      else if a.Run? && d.station.calendar[0].job.Dump? then Effect(d', 0, Max(d.granted - d.modem.unused, 0), d.modem.unused)
      else Effect(d', 0, 0, 0)
  }

  /** None: the scheduler stopped, or a message could not be read. */
  function Step(cfg: Cmts.Config, t: Cal.Timing, s: Loop, e: Event): Option<Loop>
    requires cfg.Valid() && t.Valid() && Occurs(cfg, t, s, e)
  {
    var b := s.books;
    match e
    case Ask(sfid, bytes) => Some(s.(cmts := Runs.Receive(s.cmts, Runs.Request(sfid, bytes))))
    case Generate(tick) =>
      var r := Cmts.MapStep(cfg, s.cmts, tick);
      if r.Failed? then None
      else
        Some(s.(cmts := r.state, inFlight := s.inFlight + [r.message],
                books := b.(granted := b.granted + Runs.GrantedBytes(cfg, r),
                            msrTokens := b.msrTokens + Cmts.MsrIncrement(cfg, s.cmts, tick),
                            elapsed := b.elapsed + Cmts.IncrementTime(cfg, s.cmts, tick.now),
                            intervals := b.intervals + 1,
                            overshoot := b.overshoot + Runs.Overshoot(cfg, s.cmts, tick))))
    case Deliver(first) =>
      var p := Parsed(s.inFlight[0].ies);
      if p.None? then None
      else
        Some(s.(inFlight := s.inFlight[1..],
                classic := Delivered(t, s.classic, first, p.value.classic),
                lowLatency := Delivered(t, s.lowLatency, first, p.value.lowLatency)))
    case Act(low, a) => Some(Applied(s, low, Acted(t, if low then s.lowLatency else s.classic, a)))
  }

  function Applied(s: Loop, low: bool, f: Effect): Loop {
    var b := s.books;
    var s' := if low then s.(lowLatency := f.device) else s.(classic := f.device);
    s'.(cmts := Runs.Receive(s.cmts, Runs.Unused(f.unused)),
        books := b.(sent := b.sent + f.sent, reported := b.reported + f.used, refunded := b.refunded + f.unused))
  }

  function Exec(cfg: Cmts.Config, t: Cal.Timing, s: Loop, es: seq<Event>): Option<Loop>
    requires cfg.Valid() && t.Valid()
    decreases |es|
  {
    if es == [] then Some(s)
    else if !Occurs(cfg, t, s, es[0]) then None
    else
      var next := Step(cfg, t, s, es[0]);
      if next.None? then None else Exec(cfg, t, next.value, es[1..])
  }

  // ----- Minislots that are granted and not reported yet

  function Unreported(maps: seq<Modem.MapGrants>): nat {
    if maps == [] then 0 else Lengths(maps[0].grants) + Unreported(maps[1..])
  }

  function Carried(m: MapMessage): nat {
    var p := Parsed(m.ies);
    if p.Some? then Lengths(p.value.classic) + Lengths(p.value.lowLatency) else 0
  }

  function Travelling(ms: seq<MapMessage>): nat {
    if ms == [] then 0 else Carried(ms[0]) + Travelling(ms[1..])
  }

  lemma {:induction false} UnreportedAppend(maps: seq<Modem.MapGrants>, last: Modem.MapGrants)
    ensures Unreported(maps + [last]) == Unreported(maps) + Lengths(last.grants)
  {
    if maps == [] {
      assert maps + [last] == [last] && [last][1..] == [];
    } else {
      UnreportedAppend(maps[1..], last);
      assert (maps + [last])[1..] == maps[1..] + [last];
    }
  }

  lemma {:induction false} TravellingAppend(ms: seq<MapMessage>, last: MapMessage)
    ensures Travelling(ms + [last]) == Travelling(ms) + Carried(last)
  {
    if ms == [] {
      assert ms + [last] == [last] && [last][1..] == [];
    } else {
      TravellingAppend(ms[1..], last);
      assert (ms + [last])[1..] == ms[1..] + [last];
    }
  }

  // ----- The invariant

  /** A message that the modem can read, with grants that fit the MAP. */
  predicate Fitting(ch: Channel, m: MapMessage) {
    var p := Parsed(m.ies);
    p.Some? && Placed(p.value.classic, 0, ch.MinislotsPerMap()) && Placed(p.value.lowLatency, 0, ch.MinislotsPerMap())
  }

  predicate AllFitting(ch: Channel, ms: seq<MapMessage>) {
    forall i | 0 <= i < |ms| :: Fitting(ch, ms[i])
  }

  /** Minislots that are granted and not reported yet. */
  function Open(s: Loop): nat {
    Travelling(s.inFlight) + Unreported(s.classic.maps) + Unreported(s.lowLatency.maps)
  }

  /** Every byte granted was reported as used, was refunded, or is still to be reported; every byte sent is a used one. */
  predicate Balanced(ch: Channel, s: Loop) {
    var b := s.books;
    && b.granted == b.reported + b.refunded + ch.MinislotsToBytes(Open(s))
    && b.sent == b.reported + s.classic.modem.used + s.lowLatency.modem.used
  }

  /** The sustained-rate tokens at the start, and those that came in, pay for what is granted and not refunded. */
  predicate Paid(s: Loop, tokens: nat) {
    s.books.granted + s.cmts.msrTokens <= tokens + s.books.msrTokens + s.books.refunded + s.books.overshoot
  }

  predicate BooksInv(cfg: Cmts.Config, s: Loop, tokens: nat) {
    && cfg.Valid() && Cmts.Inv(cfg, s.cmts) && AllFitting(cfg.ch, s.inFlight)
    && Balanced(cfg.ch, s) && Paid(s, tokens)
    && s.books.msrTokens <= BytesAtRate(s.books.elapsed, cfg.maxSustainedRate)
  }

  ghost predicate DevicesInv(t: Cal.Timing, s: Loop) {
    Modem.DeviceInv(t, s.classic) && Modem.DeviceInv(t, s.lowLatency)
  }

  // ----- MAPs

  lemma PrintedFits(ch: Channel, gs: seq<Grant>, m: MapMessage)
    requires Placed(gs, 0, ch.MinislotsPerMap()) && m.ies == Printed(gs)
    ensures Fitting(ch, m)
  {
    BytesSurviveTheMap(gs, 0, ch.MinislotsPerMap());
  }

  lemma CarriedAsCharged(cfg: Cmts.Config, s: Cmts.State, r: Cmts.Outcome)
    requires r.Generated? && Cmts.GrantsReachTheModem(cfg, s, r)
    ensures Runs.GrantedBytes(cfg, r) == cfg.ch.MinislotsToBytes(Carried(r.message))
  {
  }

  lemma GeneratedFits(cfg: Cmts.Config, s: Cmts.State, tick: Cmts.Tick, r: Cmts.Outcome)
    requires Cmts.Inv(cfg, s) && tick.free <= cfg.ch.MinislotsPerMap() && r == Cmts.MapStep(cfg, s, tick) && r.Generated?
    ensures Cmts.Inv(cfg, r.state) && Fitting(cfg.ch, r.message)
    ensures Runs.GrantedBytes(cfg, r) == cfg.ch.MinislotsToBytes(Carried(r.message))
  {
    Cmts.MapStepGuarantees(cfg, s, tick);
    CarriedAsCharged(cfg, s, r);
    PrintedFits(cfg.ch, r.schedule.grants, r.message);
  }

  lemma AddBytes(ch: Channel, a: nat, b: nat)
    ensures ch.MinislotsToBytes(a + b) == ch.MinislotsToBytes(a) + ch.MinislotsToBytes(b)
  {
  }

  lemma GenerateKeepsBooks(cfg: Cmts.Config, s: Loop, tick: Cmts.Tick, r: Cmts.Outcome, tokens: nat, s': Loop)
    requires cfg.Valid() && Cmts.Inv(cfg, s.cmts) && Balanced(cfg.ch, s) && Paid(s, tokens)
    requires tick.free <= cfg.ch.MinislotsPerMap() && r == Cmts.MapStep(cfg, s.cmts, tick) && r.Generated?
    requires s'.cmts == r.state && s'.inFlight == s.inFlight + [r.message]
    requires s'.classic == s.classic && s'.lowLatency == s.lowLatency
    requires s'.books == s.books.(granted := s.books.granted + Runs.GrantedBytes(cfg, r),
                                  msrTokens := s.books.msrTokens + Cmts.MsrIncrement(cfg, s.cmts, tick),
                                  elapsed := s'.books.elapsed, intervals := s'.books.intervals,
                                  overshoot := s.books.overshoot + Runs.Overshoot(cfg, s.cmts, tick))
    ensures Balanced(cfg.ch, s') && Paid(s', tokens)
  {
    GeneratedFits(cfg, s.cmts, tick, r);
    TravellingAppend(s.inFlight, r.message);
    AddBytes(cfg.ch, Open(s), Carried(r.message));
    Runs.TokensPayForTheMap(cfg, s.cmts, tick);
  }

  lemma DeliveryArrives(t: Cal.Timing, d: Modem.Device, first: nat, gs: seq<Grant>, d': Modem.Device)
    requires Modem.DeviceInv(t, d) && InTime(t, d, first, gs) && Placed(gs, 0, t.ch.MinislotsPerMap())
    requires d' == Delivered(t, d, first, gs)
    ensures Modem.DeviceInv(t, d')
    ensures Unreported(d'.maps) == Unreported(d.maps) + Lengths(gs) && d'.modem == d.modem
  {
    if gs != [] {
      assert Modem.Possible(t, d, Modem.Arrive(first, gs));
      Modem.ActionKeepsDevice(t, d, Modem.Arrive(first, gs));
      UnreportedAppend(d.maps, Modem.MapGrants(first, gs));
    }
  }

  // ----- Jobs

  /** What a job leaves of the MAPs to report, and of the bytes sent for them. */
  predicate BooksMatch(ch: Channel, d: Modem.Device, f: Effect) {
    && ch.MinislotsToBytes(Unreported(d.maps)) == ch.MinislotsToBytes(Unreported(f.device.maps)) + f.used + f.unused
    && d.modem.used + f.sent == f.device.modem.used + f.used
  }

  lemma JobEffect(t: Cal.Timing, d: Modem.Device, a: Modem.Action, f: Effect)
    requires Modem.DeviceInv(t, d) && Modem.Possible(t, d, a) && !a.Arrive? && f == Acted(t, d, a)
    ensures Modem.DeviceInv(t, f.device) && BooksMatch(t.ch, d, f)
  {
    Modem.ActionKeepsDevice(t, d, a);
    if a.Run? {
      JobBooks(t, d, a.bytes, f);
    }
  }

  lemma JobBooks(t: Cal.Timing, d: Modem.Device, bytes: nat, f: Effect)
    requires t.Valid() && Modem.Possible(t, d, Modem.Run(bytes)) && Modem.RunsRight(t, d, d.station.calendar[0])
    requires Modem.Counters(t, d) && f == Acted(t, d, Modem.Run(bytes))
    ensures BooksMatch(t.ch, d, f)
  {
    if d.station.calendar[0].job.Dump? {
      AddBytes(t.ch, Lengths(d.maps[0].grants), Unreported(d.maps[1..]));
    }
  }

  lemma ActKeepsBooks(ch: Channel, s: Loop, low: bool, f: Effect, tokens: nat, s': Loop)
    requires Balanced(ch, s) && Paid(s, tokens) && s' == Applied(s, low, f)
    requires BooksMatch(ch, if low then s.lowLatency else s.classic, f)
    ensures Balanced(ch, s') && Paid(s', tokens)
  {
    var d, other := if low then s.lowLatency else s.classic, if low then s.classic else s.lowLatency;
    AddBytes(ch, Travelling(s.inFlight) + Unreported(other.maps), Unreported(d.maps));
    AddBytes(ch, Travelling(s.inFlight) + Unreported(other.maps), Unreported(f.device.maps));
  }

  // ----- Steps

  lemma AskKeepsBooks(cfg: Cmts.Config, s: Loop, sfid: nat, bytes: nat, tokens: nat, s': Loop)
    requires BooksInv(cfg, s, tokens) && s' == s.(cmts := Runs.Receive(s.cmts, Runs.Request(sfid, bytes)))
    ensures BooksInv(cfg, s', tokens)
  {
  }

  lemma GenerateKeepsInv(cfg: Cmts.Config, t: Cal.Timing, s: Loop, tick: Cmts.Tick, tokens: nat, s': Loop)
    requires BooksInv(cfg, s, tokens) && t.Valid()
    requires Occurs(cfg, t, s, Generate(tick)) && Step(cfg, t, s, Generate(tick)) == Some(s')
    ensures BooksInv(cfg, s', tokens)
  {
    var r := Cmts.MapStep(cfg, s.cmts, tick);
    GeneratedFits(cfg, s.cmts, tick, r);
    GenerateKeepsBooks(cfg, s, tick, r, tokens, s');
    BytesAtRateAdd(s.books.elapsed, Cmts.IncrementTime(cfg, s.cmts, tick.now), cfg.maxSustainedRate);
  }

  lemma DeliverKeepsDevices(t: Cal.Timing, s: Loop, first: nat, p: ParsedMap, s': Loop)
    requires DevicesInv(t, s)
    requires Placed(p.classic, 0, t.ch.MinislotsPerMap()) && Placed(p.lowLatency, 0, t.ch.MinislotsPerMap())
    requires t.Valid() && InTime(t, s.classic, first, p.classic) && InTime(t, s.lowLatency, first, p.lowLatency)
    requires s'.classic == Delivered(t, s.classic, first, p.classic)
    requires s'.lowLatency == Delivered(t, s.lowLatency, first, p.lowLatency)
    ensures DevicesInv(t, s') && Taken(s, p, s')
  {
    DeliveryArrives(t, s.classic, first, p.classic, s'.classic);
    DeliveryArrives(t, s.lowLatency, first, p.lowLatency, s'.lowLatency);
  }

  /** The flows have the grants of a MAP to report. */
  predicate Taken(s: Loop, p: ParsedMap, s': Loop) {
    && s'.classic.modem == s.classic.modem && s'.lowLatency.modem == s.lowLatency.modem
    && Unreported(s'.classic.maps) == Unreported(s.classic.maps) + Lengths(p.classic)
    && Unreported(s'.lowLatency.maps) == Unreported(s.lowLatency.maps) + Lengths(p.lowLatency)
  }

  /** A message that arrives leaves the open minislots as they are. */
  lemma TakenKeepsBooks(cfg: Cmts.Config, s: Loop, tokens: nat, s': Loop)
    requires BooksInv(cfg, s, tokens) && s.inFlight != [] && Parsed(s.inFlight[0].ies).Some?
    requires Taken(s, Parsed(s.inFlight[0].ies).value, s')
    requires s'.inFlight == s.inFlight[1..] && s'.cmts == s.cmts && s'.books == s.books
    ensures BooksInv(cfg, s', tokens)
  {
    assert Open(s') == Open(s);
  }

  lemma DeliverKeepsInv(cfg: Cmts.Config, t: Cal.Timing, s: Loop, first: nat, tokens: nat, s': Loop, p: ParsedMap)
    requires BooksInv(cfg, s, tokens) && DevicesInv(t, s) && t.Valid() && t.ch == cfg.ch
    requires s.inFlight != [] && Parsed(s.inFlight[0].ies) == Some(p)
    requires InTime(t, s.classic, first, p.classic) && InTime(t, s.lowLatency, first, p.lowLatency)
    requires s'.classic == Delivered(t, s.classic, first, p.classic)
    requires s'.lowLatency == Delivered(t, s.lowLatency, first, p.lowLatency)
    requires s'.inFlight == s.inFlight[1..] && s'.cmts == s.cmts && s'.books == s.books
    ensures BooksInv(cfg, s', tokens) && DevicesInv(t, s')
  {
    assert Fitting(cfg.ch, s.inFlight[0]);
    DeliverKeepsDevices(t, s, first, p, s');
    TakenKeepsBooks(cfg, s, tokens, s');
  }

  lemma AppliedKeepsBooks(cfg: Cmts.Config, s: Loop, low: bool, f: Effect, tokens: nat, s': Loop)
    requires BooksInv(cfg, s, tokens) && s' == Applied(s, low, f)
    requires BooksMatch(cfg.ch, if low then s.lowLatency else s.classic, f)
    ensures BooksInv(cfg, s', tokens)
  {
    ActKeepsBooks(cfg.ch, s, low, f, tokens, s');
  }

  lemma AppliedKeepsDevices(t: Cal.Timing, s: Loop, low: bool, f: Effect, s': Loop)
    requires DevicesInv(t, s) && Modem.DeviceInv(t, f.device) && s' == Applied(s, low, f)
    ensures DevicesInv(t, s')
  {
  }

  lemma ActKeepsInv(cfg: Cmts.Config, t: Cal.Timing, s: Loop, low: bool, a: Modem.Action, tokens: nat, s': Loop)
    requires BooksInv(cfg, s, tokens) && DevicesInv(t, s) && t.Valid() && t.ch == cfg.ch
    requires Occurs(cfg, t, s, Act(low, a)) && Step(cfg, t, s, Act(low, a)) == Some(s')
    ensures BooksInv(cfg, s', tokens) && DevicesInv(t, s')
  {
    var d := if low then s.lowLatency else s.classic;
    var f := Acted(t, d, a);
    JobEffect(t, d, a, f);
    AppliedKeepsBooks(cfg, s, low, f, tokens, s');
    AppliedKeepsDevices(t, s, low, f, s');
  }

  lemma StepKeepsInv(cfg: Cmts.Config, t: Cal.Timing, s: Loop, e: Event, tokens: nat, s': Loop)
    requires BooksInv(cfg, s, tokens) && DevicesInv(t, s) && t.Valid() && t.ch == cfg.ch
    requires Occurs(cfg, t, s, e) && Step(cfg, t, s, e) == Some(s')
    ensures BooksInv(cfg, s', tokens) && DevicesInv(t, s')
  {
    match e
    case Ask(sfid, bytes) => AskKeepsBooks(cfg, s, sfid, bytes, tokens, s');
    case Generate(tick) => GenerateKeepsInv(cfg, t, s, tick, tokens, s');
    case Deliver(first) => DeliverKeepsInv(cfg, t, s, first, tokens, s', Parsed(s.inFlight[0].ies).value);
    case Act(low, a) => ActKeepsInv(cfg, t, s, low, a, tokens, s');
  }

  lemma {:induction false} ExecKeepsInv(cfg: Cmts.Config, t: Cal.Timing, s: Loop, es: seq<Event>, tokens: nat)
    requires BooksInv(cfg, s, tokens) && DevicesInv(t, s) && t.Valid() && t.ch == cfg.ch && Exec(cfg, t, s, es).Some?
    ensures BooksInv(cfg, Exec(cfg, t, s, es).value, tokens) && DevicesInv(t, Exec(cfg, t, s, es).value)
    decreases |es|
  {
    if es != [] {
      var next := Step(cfg, t, s, es[0]).value;
      StepKeepsInv(cfg, t, s, es[0], tokens, next);
      ExecKeepsInv(cfg, t, next, es[1..], tokens);
    }
  }

  // ----- What the modem sends

  lemma {:induction false} SharesAtMostLengths(gs: seq<Grant>, frames: nat, m: nat)
    ensures ShareSum(gs, frames, m) <= Lengths(gs)
  {
    if gs == [] {
      NoShares(frames, m);
    } else {
      SharesAtMostLengths(gs[1..], frames, m);
      ShareSumSplits(gs, frames, m);
      OverlapSumIsLength(gs[0], frames, m);
    }
  }

  lemma {:induction false} LengthsOfAll(maps: seq<Modem.MapGrants>, m: nat)
    ensures Lengths(Modem.AllGrants(maps, m)) == Unreported(maps)
  {
    if maps != [] {
      var own, rest := Drain.Shifted(maps[0].grants, maps[0].first * m), Modem.AllGrants(maps[1..], m);
      LengthsOfAll(maps[1..], m);
      Modem.ShiftedLengths(maps[0].grants, maps[0].first * m);
      LengthsConcat(own, rest);
    }
  }

  lemma {:induction false} LengthsConcat(a: seq<Grant>, b: seq<Grant>)
    ensures Lengths(a + b) == Lengths(a) + Lengths(b)
  {
    if a == [] {
      assert a + b == b;
    } else {
      LengthsConcat(a[1..], b);
      assert (a + b)[1..] == a[1..] + b;
    }
  }

  /** A flow never sends more than its MAPs grant. */
  lemma SentWithinGrants(t: Cal.Timing, d: Modem.Device)
    requires Modem.LinkInv(t, d)
    ensures d.modem.used <= t.ch.MinislotsToBytes(Unreported(d.maps))
  {
    var l := Modem.LinkOf(t, d);
    SentWithinShares(l, d.modem);
    SharesWithinMaps(d.maps, d.modem.frame, l.minislotsPerFrame);
    SharesToBytes(t.ch, d.modem.used, ShareSum(l.grants, d.modem.frame, l.minislotsPerFrame), Unreported(d.maps));
  }

  lemma SentWithinShares(l: Drain.Link, m: Drain.Modem)
    requires l.Valid() && Drain.Inv(l, m)
    ensures m.used <= l.capacity * ShareSum(l.grants, m.frame, l.minislotsPerFrame)
  {
  }

  lemma SharesToBytes(ch: Channel, used: nat, share: nat, minislots: nat)
    requires used <= ch.capacity * share && share <= minislots
    ensures used <= ch.MinislotsToBytes(minislots)
  {
    MulMonotone(share, minislots, ch.capacity);
  }

  lemma SharesWithinMaps(maps: seq<Modem.MapGrants>, frames: nat, m: nat)
    ensures ShareSum(Modem.AllGrants(maps, m), frames, m) <= Unreported(maps)
  {
    LengthsOfAll(maps, m);
    SharesAtMostLengths(Modem.AllGrants(maps, m), frames, m);
  }

  /** What is sent is granted and not refunded. */
  lemma SentIsGranted(ch: Channel, s: Loop)
    requires Balanced(ch, s)
    requires s.classic.modem.used <= ch.MinislotsToBytes(Unreported(s.classic.maps))
    requires s.lowLatency.modem.used <= ch.MinislotsToBytes(Unreported(s.lowLatency.maps))
    ensures s.books.sent + s.books.refunded <= s.books.granted
    ensures s.books.reported + s.books.refunded <= s.books.granted
    ensures Open(s) == 0 ==> s.books.sent == s.books.reported && s.books.sent + s.books.refunded == s.books.granted
  {
    AddBytes(ch, Unreported(s.classic.maps), Unreported(s.lowLatency.maps));
    AddBytes(ch, Travelling(s.inFlight), Unreported(s.classic.maps) + Unreported(s.lowLatency.maps));
  }

  /** Nothing was granted or sent yet. */
  predicate Initial(s: Loop) {
    && s.inFlight == [] && s.classic == Modem.IDLE && s.lowLatency == Modem.IDLE
    && s.books == Books(0, 0, 0, 0, 0, 0, 0, 0)
  }

  predicate AfterTime0(es: seq<Event>) {
    forall i | 0 <= i < |es| && es[i].Generate? :: 0 < es[i].tick.now
  }

  /** Tokens come in for the time that passes, and a MAP interval more from a start at time 0. */
  lemma {:induction false} ElapsedOfRun(cfg: Cmts.Config, t: Cal.Timing, s: Loop, es: seq<Event>)
    requires cfg.Valid() && t.Valid() && AfterTime0(es) && Exec(cfg, t, s, es).Some?
    ensures var s' := Exec(cfg, t, s, es).value;
            && s.cmts.lastIncrement <= s'.cmts.lastIncrement
            && s'.books.elapsed - s.books.elapsed
               <= s'.cmts.lastIncrement - s.cmts.lastIncrement + if s.cmts.lastIncrement == 0 then cfg.mapInterval else 0
    decreases |es|
  {
    if es != [] {
      assert forall i | 0 <= i < |es[1..]| :: es[1..][i] == es[i + 1];
      var next := Step(cfg, t, s, es[0]).value;
      ElapsedOfStep(cfg, t, s, es[0], next);
      ElapsedOfRun(cfg, t, next, es[1..]);
    }
  }

  lemma ElapsedOfStep(cfg: Cmts.Config, t: Cal.Timing, s: Loop, e: Event, s': Loop)
    requires cfg.Valid() && t.Valid() && Occurs(cfg, t, s, e) && Step(cfg, t, s, e) == Some(s')
    requires e.Generate? ==> 0 < e.tick.now
    ensures s.cmts.lastIncrement <= s'.cmts.lastIncrement
    ensures if e.Generate? then
              && 0 < s'.cmts.lastIncrement
              && s'.books.elapsed - s.books.elapsed
                 == if s.cmts.lastIncrement == 0 then cfg.mapInterval else s'.cmts.lastIncrement - s.cmts.lastIncrement
            else
              s'.books.elapsed == s.books.elapsed && s'.cmts.lastIncrement == s.cmts.lastIncrement
  {
  }

  /**
   The loop conforms to the rate: over any run, however MAPs travel and the modem's jobs interleave, the bytes that
   the modem sends, both flows together, are at most the tokens at the start, what the sustained rate gives in the
   time that passed, and what rounding and PGS add. Unused grants do not count, as they are refunded. A start at
   time 0 counts a MAP interval more.
   */
  lemma SentWithinRate(cfg: Cmts.Config, t: Cal.Timing, s: Loop, es: seq<Event>, time: nat)
    requires cfg.Valid() && t.Valid() && t.ch == cfg.ch && Cmts.Inv(cfg, s.cmts) && Initial(s)
    requires AfterTime0(es) && Exec(cfg, t, s, es).Some?
    requires time == Exec(cfg, t, s, es).value.cmts.lastIncrement - s.cmts.lastIncrement
                     + if s.cmts.lastIncrement == 0 then cfg.mapInterval else 0
    ensures var s' := Exec(cfg, t, s, es).value;
            && 0 <= s'.cmts.msrTokens
            && s'.books.sent + s'.cmts.msrTokens
               <= s.cmts.msrTokens + BytesAtRate(time, cfg.maxSustainedRate) + s'.books.overshoot
  {
    var s' := Exec(cfg, t, s, es).value;
    ElapsedOfRun(cfg, t, s, es);
    RunBooks(cfg, t, s, es, s');
    BytesAtRateMonotone(s'.books.elapsed, time, cfg.maxSustainedRate);
  }

  /** What the books say after any run. */
  lemma RunBooks(cfg: Cmts.Config, t: Cal.Timing, s: Loop, es: seq<Event>, s': Loop)
    requires cfg.Valid() && t.Valid() && t.ch == cfg.ch && Cmts.Inv(cfg, s.cmts) && Initial(s)
    requires Exec(cfg, t, s, es) == Some(s')
    ensures Cmts.Inv(cfg, s'.cmts) && Balanced(cfg.ch, s') && Paid(s', s.cmts.msrTokens)
    ensures s'.books.msrTokens <= BytesAtRate(s'.books.elapsed, cfg.maxSustainedRate)
    ensures s'.books.sent + s'.books.refunded <= s'.books.granted
    ensures s'.books.reported + s'.books.refunded <= s'.books.granted
    ensures Open(s') == 0 ==> s'.books.sent == s'.books.reported && s'.books.sent + s'.books.refunded == s'.books.granted
  {
    assert BooksInv(cfg, s', s.cmts.msrTokens) && DevicesInv(t, s') by {
      InitialInv(cfg, t, s);
      ExecKeepsInv(cfg, t, s, es, s.cmts.msrTokens);
    }
    SentWithinGrants(t, s'.classic);
    SentWithinGrants(t, s'.lowLatency);
    SentIsGranted(cfg.ch, s');
  }

  lemma InitialInv(cfg: Cmts.Config, t: Cal.Timing, s: Loop)
    requires cfg.Valid() && t.Valid() && t.ch == cfg.ch && Cmts.Inv(cfg, s.cmts) && Initial(s)
    ensures BooksInv(cfg, s, s.cmts.msrTokens) && DevicesInv(t, s)
  {
    Modem.IdleDeviceInv(t);
    assert Open(s) == 0;
  }

  /**
   Bytes are conserved: reported and refunded bytes never exceed what is granted, and once every MAP is reported, the
   bytes sent are the bytes reported as used, and with the refunds they are the bytes granted.
   */
  lemma BytesAreConserved(cfg: Cmts.Config, t: Cal.Timing, s: Loop, es: seq<Event>)
    requires cfg.Valid() && t.Valid() && t.ch == cfg.ch && Cmts.Inv(cfg, s.cmts) && Initial(s)
    requires Exec(cfg, t, s, es).Some?
    ensures var s' := Exec(cfg, t, s, es).value;
            var b := s'.books;
            && b.reported + b.refunded <= b.granted
            && b.sent == b.reported + s'.classic.modem.used + s'.lowLatency.modem.used
            && (s'.inFlight == [] && s'.classic.maps == [] && s'.lowLatency.maps == [] ==>
                  b.sent == b.reported && b.sent + b.refunded == b.granted)
  {
    RunBooks(cfg, t, s, es, Exec(cfg, t, s, es).value);
  }

  /** Without guaranteed grants, the overshoot is a minislot less one byte per MAP. */
  predicate RoundingOnly(cfg: Cmts.Config, a: Books, b: Books) {
    && a.intervals <= b.intervals
    && b.overshoot - a.overshoot == (b.intervals - a.intervals) * (cfg.ch.capacity - 1)
  }

  lemma RoundingAdds(cfg: Cmts.Config, a: Books, b: Books, c: Books)
    requires cfg.ch.Valid() && RoundingOnly(cfg, a, b) && RoundingOnly(cfg, b, c)
    ensures RoundingOnly(cfg, a, c)
  {
    MulDistributes(b.intervals - a.intervals, c.intervals - b.intervals, cfg.ch.capacity - 1);
  }

  lemma {:induction false} OvershootOfRun(cfg: Cmts.Config, t: Cal.Timing, s: Loop, es: seq<Event>)
    requires cfg.Valid() && t.Valid() && cfg.pgs.None? && Exec(cfg, t, s, es).Some?
    ensures RoundingOnly(cfg, s.books, Exec(cfg, t, s, es).value.books)
    decreases |es|
  {
    if es != [] {
      var next := Step(cfg, t, s, es[0]).value;
      OvershootOfStep(cfg, t, s, es[0], next);
      OvershootOfRun(cfg, t, next, es[1..]);
      RoundingAdds(cfg, s.books, next.books, Exec(cfg, t, next, es[1..]).value.books);
    }
  }

  lemma OvershootOfStep(cfg: Cmts.Config, t: Cal.Timing, s: Loop, e: Event, s': Loop)
    requires cfg.Valid() && t.Valid() && cfg.pgs.None? && Occurs(cfg, t, s, e) && Step(cfg, t, s, e) == Some(s')
    ensures RoundingOnly(cfg, s.books, s'.books)
  {
    if e.Generate? {
      assert Runs.Overshoot(cfg, s.cmts, e.tick) == cfg.ch.capacity - 1;
      RoundingOfMap(cfg, s.books, s'.books);
    } else {
      assert s'.books.overshoot == s.books.overshoot && s'.books.intervals == s.books.intervals;
    }
  }

  lemma RoundingOfMap(cfg: Cmts.Config, a: Books, b: Books)
    requires b.intervals == a.intervals + 1 && b.overshoot == a.overshoot + cfg.ch.capacity - 1
    ensures RoundingOnly(cfg, a, b)
  {
  }

  /** The same bound without guaranteed grants: a minislot less one byte per MAP. */
  lemma SentWithinRateWithoutPgs(cfg: Cmts.Config, t: Cal.Timing, s: Loop, es: seq<Event>, time: nat)
    requires cfg.Valid() && t.Valid() && t.ch == cfg.ch && Cmts.Inv(cfg, s.cmts) && Initial(s) && cfg.pgs.None?
    requires AfterTime0(es) && Exec(cfg, t, s, es).Some?
    requires time == Exec(cfg, t, s, es).value.cmts.lastIncrement - s.cmts.lastIncrement
                     + if s.cmts.lastIncrement == 0 then cfg.mapInterval else 0
    ensures var b := Exec(cfg, t, s, es).value.books;
            b.sent <= s.cmts.msrTokens + BytesAtRate(time, cfg.maxSustainedRate) + b.intervals * (cfg.ch.capacity - 1)
  {
    SentWithinRate(cfg, t, s, es, time);
    OvershootOfRun(cfg, t, s, es);
  }
}
