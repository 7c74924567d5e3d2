/**
 The modem's calendar for one service flow: what a MAP message makes it do, and when. Jobs run in order of time, and
 jobs of the same time in the order in which they were scheduled, as the simulator does it.
 */
module GrantCalendars {
  import opened DocsisTypes
  import opened GrantLists
  import opened CmPipelines
  import opened FrameSplit
  import opened CableModemFlows

  datatype Timing = Timing(ch: Channel, frameDuration: nat, mapProcessing: nat, burstPreparation: nat) {
    predicate Valid() {
      ch.Valid() && 0 < frameDuration
    }

    function FrameTime(start: int, frame: nat): int {
      start + frame * frameDuration
    }

    function MapEnd(start: int): int {
      FrameTime(start, ch.framesPerMap)
    }
  }

  datatype Job = Request | Prepare(minislots: nat) | Load(grantBytes: nat) | Frame(minislots: nat) | Dump

  datatype Kind = Requesting | Bursting | Sending

  function KindOf(job: Job): Kind {
    match job
    case Request => Requesting
    case Prepare(_) => Bursting
    case _ => Sending
  }

  datatype Entry = Entry(time: int, job: Job)

  // ----- The calendar

  predicate SortedFrom(cal: seq<Entry>, time: int) {
    cal == [] || (time <= cal[0].time && SortedFrom(cal[1..], cal[0].time))
  }

  /** Behind everything that is due at the same time or earlier. */
  function Schedule(cal: seq<Entry>, e: Entry): seq<Entry> {
    if cal == [] || e.time < cal[0].time then [e] + cal else [cal[0]] + Schedule(cal[1..], e)
  }

  function ScheduleAll(cal: seq<Entry>, es: seq<Entry>): seq<Entry>
    decreases |es|
  {
    if es == [] then cal else ScheduleAll(Schedule(cal, es[0]), es[1..])
  }

  /** The entries of one kind, in order. */
  function Of(cal: seq<Entry>, kind: Kind): seq<Entry> {
    if cal == [] then []
    else (if KindOf(cal[0].job) == kind then [cal[0]] else []) + Of(cal[1..], kind)
  }

  predicate Until(es: seq<Entry>, time: int) {
    forall e | e in es :: e.time <= time
  }

  predicate NotBefore(es: seq<Entry>, time: int) {
    forall e | e in es :: time <= e.time
  }

  predicate FramesBefore(es: seq<Entry>, time: int) {
    forall e | e in es && e.job.Frame? :: e.time < time
  }

  lemma {:induction false} OfSelects(cal: seq<Entry>, kind: Kind)
    ensures forall e :: e in Of(cal, kind) <==> e in cal && KindOf(e.job) == kind
  {
    if cal != [] {
      OfSelects(cal[1..], kind);
      assert cal == [cal[0]] + cal[1..];
    }
  }

  lemma {:induction false} SortedIsNotBefore(cal: seq<Entry>, time: int)
    requires SortedFrom(cal, time)
    ensures NotBefore(cal, time)
  {
    if cal != [] {
      SortedIsNotBefore(cal[1..], cal[0].time);
      assert cal == [cal[0]] + cal[1..];
    }
  }

  lemma {:induction false} ScheduleAdds(cal: seq<Entry>, e: Entry, time: int)
    requires SortedFrom(cal, time) && time <= e.time
    ensures SortedFrom(Schedule(cal, e), time)
    ensures forall x :: x in Schedule(cal, e) <==> x in cal || x == e
  {
    if cal == [] || e.time < cal[0].time {
      assert ([e] + cal)[1..] == cal;
    } else {
      ScheduleAdds(cal[1..], e, cal[0].time);
      assert Schedule(cal, e)[1..] == Schedule(cal[1..], e);
      assert cal == [cal[0]] + cal[1..];
    }
  }

  lemma {:induction false} NoneOf(cal: seq<Entry>, kind: Kind)
    requires forall e | e in cal :: KindOf(e.job) != kind
    ensures Of(cal, kind) == []
  {
    if cal != [] {
      NoneOf(cal[1..], kind);
    }
  }

  /** What is scheduled behind all entries of its kind becomes the last of them, and leaves the other kinds alone. */
  lemma {:induction false} ScheduleLast(cal: seq<Entry>, e: Entry, kind: Kind, time: int)
    requires SortedFrom(cal, time)
    requires KindOf(e.job) == kind ==> Until(Of(cal, kind), e.time)
    ensures Of(Schedule(cal, e), kind) == if KindOf(e.job) == kind then Of(cal, kind) + [e] else Of(cal, kind)
  {
    if cal == [] || e.time < cal[0].time {
      assert ([e] + cal)[1..] == cal && [] + Of(cal, kind) == Of(cal, kind);
      if cal != [] && KindOf(e.job) == kind {
        OfSelects(cal, kind);
        SortedIsNotBefore(cal, cal[0].time);
        NoneOf(cal, kind);
      }
    } else {
      var head := if KindOf(cal[0].job) == kind then [cal[0]] else [];
      assert Of(cal, kind) == head + Of(cal[1..], kind);
      ScheduleLast(cal[1..], e, kind, cal[0].time);
      assert Schedule(cal, e)[1..] == Schedule(cal[1..], e);
    }
  }

  /** The same for a list of jobs whose entries of this kind come in order of time. */
  lemma {:induction false} ScheduleAllLast(cal: seq<Entry>, es: seq<Entry>, kind: Kind, time: int, last: int)
    requires SortedFrom(cal, time) && NotBefore(es, time)
    requires Until(Of(cal, kind), last) && SortedFrom(Of(es, kind), last)
    ensures Of(ScheduleAll(cal, es), kind) == Of(cal, kind) + Of(es, kind)
    decreases |es|
  {
    if es == [] {
      assert Of(cal, kind) + [] == Of(cal, kind);
    } else {
      var e, tail := es[0], es[1..];
      FirstOf(es, kind);
      ScheduleAdds(cal, e, time);
      ScheduleLast(cal, e, kind, time);
      if KindOf(e.job) == kind {
        ScheduleAllLast(Schedule(cal, e), tail, kind, time, e.time);
        Regroup(Of(cal, kind), e, Of(tail, kind));
      } else {
        ScheduleAllLast(Schedule(cal, e), tail, kind, time, last);
      }
    }
  }

  lemma FirstOf(es: seq<Entry>, kind: Kind)
    requires es != []
    ensures es[0] in es && forall x | x in es[1..] :: x in es
    ensures KindOf(es[0].job) != kind ==> Of(es, kind) == Of(es[1..], kind)
    ensures KindOf(es[0].job) == kind ==>
              Of(es, kind) != [] && Of(es, kind)[0] == es[0] && Of(es, kind)[1..] == Of(es[1..], kind)
  {
    assert [] + Of(es[1..], kind) == Of(es[1..], kind);
    assert ([es[0]] + Of(es[1..], kind))[1..] == Of(es[1..], kind);
  }

  lemma Regroup(a: seq<Entry>, e: Entry, b: seq<Entry>)
    ensures a + [e] + b == a + ([e] + b)
  {
  }

  lemma {:induction false} ScheduleAllAdds(cal: seq<Entry>, es: seq<Entry>, time: int)
    requires SortedFrom(cal, time) && NotBefore(es, time)
    ensures SortedFrom(ScheduleAll(cal, es), time)
    ensures forall x :: x in ScheduleAll(cal, es) <==> x in cal || x in es
    decreases |es|
  {
    if es != [] {
      assert es == [es[0]] + es[1..];
      ScheduleAdds(cal, es[0], time);
      ScheduleAllAdds(Schedule(cal, es[0]), es[1..], time);
    }
  }

  // ----- What a MAP schedules

  function BurstEntries(t: Timing, gs: seq<Grant>, start: int): seq<Entry>
    requires t.Valid()
  {
    if gs == [] then []
    else
      var time := BurstTime(t, gs[0], start);
      [Entry(time, Request), Entry(time, Prepare(gs[0].length))] + BurstEntries(t, gs[1..], start)
  }

  /** A job for every frame with minislots, from a frame on, and the report one tick after the last of them. */
  function SendEntries(t: Timing, gs: seq<Grant>, start: int, frame: nat, lastSend: int): seq<Entry>
    requires t.Valid() && frame <= t.ch.framesPerMap
    decreases t.ch.framesPerMap - frame
  {
    if frame == t.ch.framesPerMap then [Entry(lastSend + 1, Dump)]
    else
      var share := Share(gs, frame, t.ch.minislotsPerFrame);
      if share > 0 then
        [Entry(t.FrameTime(start, frame), Frame(share))] + SendEntries(t, gs, start, frame + 1, t.FrameTime(start, frame))
      else
        SendEntries(t, gs, start, frame + 1, lastSend)
  }

  function LoadAndSend(t: Timing, gs: seq<Grant>, start: int): seq<Entry>
    requires t.Valid()
  {
    var grantBytes := Total(GrantItems(gs, t.ch.capacity, start, t.ch.minislotsPerFrame, t.frameDuration));
    [Entry(start, Load(grantBytes))] + SendEntries(t, gs, start, 0, start)
  }

  /** The grant that a burst is prepared for, as it stands in the grant pipeline. */
  function GrantOf(t: Timing, e: Entry): seq<Item> {
    if e.job.Prepare? then [Item(e.job.minislots * t.ch.capacity, e.time + t.burstPreparation)] else []
  }

  function Items(t: Timing, es: seq<Entry>): seq<Item> {
    if es == [] then [] else GrantOf(t, es[0]) + Items(t, es[1..])
  }

  /** Loads, frames and reports: a MAP is loaded, then its frames are sent, then it is reported. */
  predicate Nested(es: seq<Entry>, loaded: bool) {
    if es == [] then !loaded
    else
      match es[0].job
      case Load(_) => !loaded && Nested(es[1..], true)
      case Frame(_) => loaded && Nested(es[1..], loaded)
      case Dump => loaded && Nested(es[1..], false)
      case _ => Nested(es[1..], loaded)
  }

  lemma {:induction false} NestedConcat(a: seq<Entry>, b: seq<Entry>, loaded: bool)
    requires Nested(a, loaded) && Nested(b, false)
    ensures Nested(a + b, loaded)
  {
    if a == [] {
      assert a + b == b;
    } else {
      assert (a + b)[1..] == a[1..] + b;
      NestedConcat(a[1..], b, if a[0].job.Load? then true else if a[0].job.Dump? then false else loaded);
    }
  }

  lemma ItemsRegroup(a: seq<Item>, b: seq<Item>, c: seq<Item>)
    ensures a + b + c == a + (b + c)
  {
  }

  lemma {:induction false} ItemsConcat(t: Timing, a: seq<Entry>, b: seq<Entry>)
    ensures Items(t, a + b) == Items(t, a) + Items(t, b)
  {
    if a == [] {
      assert a + b == b;
    } else {
      ItemsConcat(t, a[1..], b);
      assert (a + b)[1..] == a[1..] + b;
      ItemsRegroup(GrantOf(t, a[0]), Items(t, a[1..]), Items(t, b));
    }
  }

  lemma FirstFramesAscend(m: nat, a: nat, b: nat, k: nat)
    requires 0 < m && a <= b
    ensures a / m * k <= b / m * k
  {
    assert a == m * (a / m) + a % m && b == m * (b / m) + b % m;
    if b / m < a / m {
      MulMonotone(b / m + 1, a / m, m);
    }
    MulMonotone(a / m, b / m, k);
  }

  /** The bursts of a MAP, one for each item that it adds to the grant pipeline. */
  lemma {:induction false} BurstsOfMap(t: Timing, gs: seq<Grant>, start: int, from: nat)
    requires t.Valid() && Placed(gs, from, t.ch.MinislotsPerMap())
    ensures var m := t.ch.minislotsPerFrame;
            var es := BurstEntries(t, gs, start);
            && Items(t, Of(es, Bursting)) == GrantItems(gs, t.ch.capacity, start, m, t.frameDuration)
            && Of(es, Sending) == []
  {
    if gs != [] {
      var g, rest := gs[0], BurstEntries(t, gs[1..], start);
      var time := BurstTime(t, g, start);
      var both := [Entry(time, Request), Entry(time, Prepare(g.length))];
      BurstsOfMap(t, gs[1..], start, g.End());
      assert BurstEntries(t, gs, start) == both + rest;
      BothEntries(t, both, rest);
      FirstGrantItem(t, gs, start, GrantOf(t, both[1])[0]);
    }
  }

  function BurstTime(t: Timing, g: Grant, start: int): int
    requires t.Valid()
  {
    t.FrameTime(start, FrameOf(g, t.ch.minislotsPerFrame)) - t.burstPreparation
  }

  lemma FirstGrantItem(t: Timing, gs: seq<Grant>, start: int, item: Item)
    requires t.Valid() && gs != [] && 0 < gs[0].length
    requires item == Item(gs[0].length * t.ch.capacity, BurstTime(t, gs[0], start) + t.burstPreparation)
    ensures var m := t.ch.minislotsPerFrame;
            GrantItems(gs, t.ch.capacity, start, m, t.frameDuration)
            == [item] + GrantItems(gs[1..], t.ch.capacity, start, m, t.frameDuration)
  {
  }

  lemma {:induction false} BurstsAscend(t: Timing, gs: seq<Grant>, start: int, from: nat, time: int)
    requires t.Valid() && Placed(gs, from, t.ch.MinislotsPerMap())
    requires gs != [] ==> time <= BurstTime(t, gs[0], start)
    ensures SortedFrom(Of(BurstEntries(t, gs, start), Bursting), time)
  {
    if gs != [] {
      var at := BurstTime(t, gs[0], start);
      FirstFrameTime(t, gs, start, from);
      BurstsAscend(t, gs[1..], start, gs[0].End(), at);
      BothEntries(t, [Entry(at, Request), Entry(at, Prepare(gs[0].length))], BurstEntries(t, gs[1..], start));
    }
  }

  /** They are due between the first one and the MAP's end, less the preparation time. */
  lemma {:induction false} BurstTimes(t: Timing, gs: seq<Grant>, start: int, from: nat, earliest: int)
    requires t.Valid() && Placed(gs, from, t.ch.MinislotsPerMap())
    requires gs != [] ==> earliest <= BurstTime(t, gs[0], start)
    ensures var es := BurstEntries(t, gs, start);
            NotBefore(es, earliest) && Until(es, t.MapEnd(start) - t.burstPreparation)
  {
    if gs != [] {
      FirstFrameTime(t, gs, start, from);
      BurstTimes(t, gs[1..], start, gs[0].End(), earliest);
      TwoMore(BurstEntries(t, gs[1..], start), BurstTime(t, gs[0], start), gs[0].length, earliest, t.MapEnd(start) - t.burstPreparation);
    }
  }

  lemma TwoMore(rest: seq<Entry>, time: int, minislots: nat, from: int, to: int)
    requires NotBefore(rest, from) && Until(rest, to) && from <= time <= to
    ensures var es := [Entry(time, Request), Entry(time, Prepare(minislots))] + rest;
            NotBefore(es, from) && Until(es, to)
  {
  }

  /** Bursts in order, and inside the MAP. */
  lemma FirstFrameTime(t: Timing, gs: seq<Grant>, start: int, from: nat)
    requires t.Valid() && gs != [] && Placed(gs, from, t.ch.MinislotsPerMap())
    ensures start - t.burstPreparation <= BurstTime(t, gs[0], start) <= t.MapEnd(start) - t.burstPreparation
    ensures 1 < |gs| ==> BurstTime(t, gs[0], start) <= BurstTime(t, gs[1], start)
  {
    var g, m := gs[0], t.ch.minislotsPerFrame;
    PlacedIsDisjoint(gs, from, t.ch.MinislotsPerMap());
    FrameOfBounds(g, m);
    FrameInside(t.ch, FrameOf(g, m), g.offset);
    MulMonotone(0, FrameOf(g, m), t.frameDuration);
    MulMonotone(FrameOf(g, m), t.ch.framesPerMap, t.frameDuration);
    if 1 < |gs| {
      FirstFramesAscend(m, g.offset, gs[1].offset, t.frameDuration);
    }
  }

  /** A request and a burst in front of other entries. */
  lemma BothEntries(t: Timing, both: seq<Entry>, rest: seq<Entry>)
    requires |both| == 2 && both[0].job.Request? && both[1].job.Prepare?
    ensures var bursts := Of(both + rest, Bursting);
            && bursts == [both[1]] + Of(rest, Bursting)
            && bursts[0] == both[1] && bursts[1..] == Of(rest, Bursting)
            && Items(t, bursts) == GrantOf(t, both[1]) + Items(t, Of(rest, Bursting))
    ensures Of(both + rest, Sending) == Of(rest, Sending)
  {
    assert (both + rest)[1..] == [both[1]] + rest;
    assert ([both[1]] + rest)[1..] == rest;
    assert [] + Of(rest, Sending) == Of(rest, Sending);
    assert [] + ([both[1]] + Of(rest, Bursting)) == [both[1]] + Of(rest, Bursting);
    assert ([both[1]] + Of(rest, Bursting))[1..] == Of(rest, Bursting);
  }

  lemma SortedWiden(es: seq<Entry>, time: int, later: int)
    requires time <= later && SortedFrom(es, later)
    ensures SortedFrom(es, time)
  {
  }

  /** The frames of a MAP: in order, before its end, and reported before the next MAP can start. */
  lemma {:induction false} SendsOfMap(t: Timing, gs: seq<Grant>, start: int, frame: nat, lastSend: int)
    requires t.Valid() && frame <= t.ch.framesPerMap
    requires lastSend < t.FrameTime(start, frame) || (frame == 0 && lastSend == start)
    ensures var es := SendEntries(t, gs, start, frame, lastSend);
            && SortedFrom(es, lastSend)
            && Of(es, Sending) == es && Of(es, Bursting) == []
            && Until(es, t.MapEnd(start))
            && FramesBefore(es, t.MapEnd(start))
            && Nested(es, true)
    decreases t.ch.framesPerMap - frame
  {
    if frame < t.ch.framesPerMap {
      var time, share := t.FrameTime(start, frame), Share(gs, frame, t.ch.minislotsPerFrame);
      assert time < t.FrameTime(start, frame + 1) <= t.MapEnd(start) by {
        MulDistributes(frame, 1, t.frameDuration);
        MulMonotone(frame + 1, t.ch.framesPerMap, t.frameDuration);
      }
      if share > 0 {
        SendsOfMap(t, gs, start, frame + 1, time);
        OneMoreSend(Entry(time, Frame(share)), SendEntries(t, gs, start, frame + 1, time), lastSend, t.MapEnd(start));
      } else {
        SendsOfMap(t, gs, start, frame + 1, lastSend);
      }
    } else {
      assert [Entry(lastSend + 1, Dump)][1..] == [];
    }
  }

  lemma OneMoreSend(e: Entry, rest: seq<Entry>, lastSend: int, end: int)
    requires e.job.Frame? && lastSend <= e.time < end && SortedFrom(rest, e.time)
    requires Of(rest, Sending) == rest && Of(rest, Bursting) == [] && Until(rest, end) && FramesBefore(rest, end) && Nested(rest, true)
    ensures var es := [e] + rest;
            && SortedFrom(es, lastSend) && Of(es, Sending) == es && Of(es, Bursting) == []
            && Until(es, end) && FramesBefore(es, end) && Nested(es, true)
  {
    assert ([e] + rest)[1..] == rest;
  }

  // ----- Bursts before their frames

  /** Behind a frame there are only bursts of later frames. */
  predicate Waits(t: Timing, cal: seq<Entry>) {
    cal == [] ||
    ((cal[0].job.Frame? ==> NotBefore(Of(cal[1..], Bursting), cal[0].time - t.burstPreparation + 1)) && Waits(t, cal[1..]))
  }

  lemma {:induction false} ScheduleWaits(t: Timing, cal: seq<Entry>, e: Entry, time: int)
    requires SortedFrom(cal, time) && time <= e.time && Waits(t, cal)
    requires e.job.Prepare? ==> FramesBefore(cal, e.time + t.burstPreparation)
    ensures Waits(t, Schedule(cal, e))
  {
    if cal == [] || e.time < cal[0].time {
      assert ([e] + cal)[1..] == cal;
      OfSelects(cal, Bursting);
      if cal != [] {
        SortedIsNotBefore(cal, cal[0].time);
      }
    } else {
      assert cal == [cal[0]] + cal[1..];
      ScheduleWaits(t, cal[1..], e, cal[0].time);
      assert Schedule(cal, e)[1..] == Schedule(cal[1..], e);
      ScheduleAdds(cal[1..], e, cal[0].time);
      OfSelects(cal[1..], Bursting);
      OfSelects(Schedule(cal[1..], e), Bursting);
    }
  }

  /** Bursts of a MAP are for frames behind all frames scheduled before. */
  lemma {:induction false} ScheduleAllWaits(t: Timing, cal: seq<Entry>, es: seq<Entry>, time: int, end: int)
    requires SortedFrom(cal, time) && NotBefore(es, time) && Waits(t, cal)
    requires Of(es, Bursting) == [] || (Of(es, Sending) == [] && FramesBefore(cal, end) && NotBefore(es, end - t.burstPreparation))
    ensures Waits(t, ScheduleAll(cal, es))
    decreases |es|
  {
    if es != [] {
      assert es == [es[0]] + es[1..];
      OfSelects(es, Bursting);
      OfSelects(es, Sending);
      ScheduleWaits(t, cal, es[0], time);
      ScheduleAdds(cal, es[0], time);
      ScheduleAllWaits(t, Schedule(cal, es[0]), es[1..], time, end);
    }
  }

  // ----- Runs

  /** The modem between jobs; latest is the time of the burst prepared last, horizon the end of the last MAP. */
  datatype Station = Station(now: int, calendar: seq<Entry>, pipeline: seq<Item>, loaded: bool, latest: int, horizon: int)

  datatype Step = MapArrives(at: int, grants: seq<Grant>) | AskLater(at: int, time: int) | RunNext

  /**
   MAPs arrive with the grants of consecutive intervals; nothing happens before what is due earlier. A burst that
   would have to be prepared before its MAP arrives makes the source stop; the first one is the earliest.
   */
  predicate Enabled(t: Timing, s: Station, step: Step)
    requires t.Valid()
  {
    match step
    case MapArrives(at, gs) =>
      && s.now <= at && NotBefore(s.calendar, at)
      && gs != [] && Placed(gs, 0, t.ch.MinislotsPerMap())
      && s.horizon <= at + t.mapProcessing
      && at <= BurstTime(t, gs[0], at + t.mapProcessing)
    case AskLater(at, time) => s.now <= at <= time && NotBefore(s.calendar, at)
    case RunNext => s.calendar != []
  }

  /** What the source asserts when a job runs, and what the steps of the modem rely on. */
  predicate Proper(t: Timing, s: Station, e: Entry) {
    match e.job
    case Request => RequestReady(s.pipeline, e.time)
    case Prepare(minislots) =>
      && 0 < Eligible(s.pipeline, e.time + t.burstPreparation)
      && BurstReady(s.pipeline, minislots, t.ch.capacity, e.time + t.burstPreparation, s.latest)
    case Load(_) => !s.loaded
    case Frame(_) => s.loaded && (s.pipeline != [] ==> e.time < s.pipeline[0].time)
    case Dump => s.loaded
  }

  function WithMap(t: Timing, s: Station, at: int, gs: seq<Grant>): Station
    requires t.Valid()
  {
    var start := at + t.mapProcessing;
    s.(now := at, horizon := t.MapEnd(start),
       calendar := ScheduleAll(ScheduleAll(s.calendar, BurstEntries(t, gs, start)), LoadAndSend(t, gs, start)),
       pipeline := s.pipeline + GrantItems(gs, t.ch.capacity, start, t.ch.minislotsPerFrame, t.frameDuration))
  }

  function Next(t: Timing, s: Station, step: Step): Station
    requires t.Valid() && Enabled(t, s, step)
    requires step.RunNext? ==> Proper(t, s, s.calendar[0])
  {
    match step
    case MapArrives(at, gs) => WithMap(t, s, at, gs)
    case AskLater(at, time) => s.(now := at, calendar := Schedule(s.calendar, Entry(time, Request)))
    case RunNext =>
      var e := s.calendar[0];
      var s' := s.(now := e.time, calendar := s.calendar[1..]);
      match e.job
      case Request => s'
      case Prepare(_) => s'.(pipeline := s.pipeline[1..], latest := e.time + t.burstPreparation)
      case Load(_) => s'.(loaded := true)
      case Frame(_) => s'
      case Dump => s'.(loaded := false)
  }

  predicate NonEmpty(items: seq<Item>) {
    forall i | i in items :: 0 < i.bytes
  }

  /** What was loaded is reported before the next load, bursts come before their frames, and all is due before the horizon. */
  ghost predicate CalendarInv(t: Timing, cal: seq<Entry>, now: int, loaded: bool, horizon: int) {
    && SortedFrom(cal, now)
    && Nested(Of(cal, Sending), loaded)
    && Waits(t, cal)
    && Until(Of(cal, Bursting), horizon - t.burstPreparation)
    && Until(Of(cal, Sending), horizon)
    && FramesBefore(cal, horizon)
  }

  ghost predicate Inv(t: Timing, s: Station) {
    && CalendarInv(t, s.calendar, s.now, s.loaded, s.horizon)
    && s.pipeline == Items(t, Of(s.calendar, Bursting))
    && NonEmpty(s.pipeline)
    && s.latest <= s.now + t.burstPreparation
  }

  lemma {:induction false} GrantItemsNonEmpty(t: Timing, gs: seq<Grant>, start: int)
    requires t.Valid()
    ensures NonEmpty(GrantItems(gs, t.ch.capacity, start, t.ch.minislotsPerFrame, t.frameDuration))
  {
    if gs != [] {
      GrantItemsNonEmpty(t, gs[1..], start);
      if gs[0].length > 0 {
        MulMonotone(1, gs[0].length, t.ch.capacity);
      }
    }
  }

  /** The first pending burst is not yet due, and neither is its grant. */
  lemma FirstBurst(t: Timing, s: Station)
    requires t.Valid() && Inv(t, s) && s.calendar != [] && s.pipeline != []
    ensures s.calendar[0].time + t.burstPreparation <= s.pipeline[0].time
  {
    var bursts := Of(s.calendar, Bursting);
    OfSelects(s.calendar, Bursting);
    SortedIsNotBefore(s.calendar, s.calendar[0].time);
    assert bursts != [] && bursts[0] in bursts;
  }

  /** Behind a frame, the first pending burst is for a later grant. */
  lemma FrameWaits(t: Timing, s: Station)
    requires t.Valid() && Inv(t, s) && s.calendar != [] && s.calendar[0].job.Frame? && s.pipeline != []
    ensures s.calendar[0].time < s.pipeline[0].time
  {
    var bursts := Of(s.calendar[1..], Bursting);
    FirstOf(s.calendar, Bursting);
    assert bursts[0] in bursts;
    OfSelects(s.calendar[1..], Bursting);
  }

  /** A burst finds its own grant. */
  lemma BurstFindsGrant(t: Timing, s: Station)
    requires t.Valid() && Inv(t, s) && s.calendar != [] && s.calendar[0].job.Prepare?
    ensures s.pipeline != [] && [s.pipeline[0]] == GrantOf(t, s.calendar[0]) && 0 < s.pipeline[0].bytes
  {
    FirstOf(s.calendar, Bursting);
    assert s.pipeline[0] in s.pipeline;
  }

  /** In every state that keeps the invariant, the next job finds what it needs. */
  lemma NextIsProper(t: Timing, s: Station)
    requires t.Valid() && Inv(t, s) && s.calendar != []
    ensures Proper(t, s, s.calendar[0])
  {
    match s.calendar[0].job
    case Request =>
      if s.pipeline != [] {
        FirstBurst(t, s);
      }
    case Prepare(_) => BurstFindsGrant(t, s);
    case Frame(_) =>
      FirstOf(s.calendar, Sending);
      if s.pipeline != [] {
        FrameWaits(t, s);
      }
    case _ => FirstOf(s.calendar, Sending);
  }

  /** Taking the first entry off the calendar leaves what was due behind it. */
  lemma Taken(t: Timing, cal: seq<Entry>, horizon: int)
    requires cal != [] && Waits(t, cal) && FramesBefore(cal, horizon)
    requires Until(Of(cal, Bursting), horizon - t.burstPreparation) && Until(Of(cal, Sending), horizon)
    ensures var rest := cal[1..];
            && Waits(t, rest) && FramesBefore(rest, horizon)
            && Until(Of(rest, Bursting), horizon - t.burstPreparation) && Until(Of(rest, Sending), horizon)
    ensures Items(t, Of(cal, Bursting)) == GrantOf(t, cal[0]) + Items(t, Of(cal[1..], Bursting))
  {
    FirstOf(cal, Bursting);
    FirstOf(cal, Sending);
    assert [] + Items(t, Of(cal[1..], Bursting)) == Items(t, Of(cal[1..], Bursting));
  }

  lemma RunKeepsInv(t: Timing, s: Station)
    requires t.Valid() && Inv(t, s) && s.calendar != [] && Proper(t, s, s.calendar[0])
    ensures Inv(t, Next(t, s, RunNext))
  {
    var e, rest := s.calendar[0], s.calendar[1..];
    Taken(t, s.calendar, s.horizon);
    FirstOf(s.calendar, Sending);
    var pipeline := Next(t, s, RunNext).pipeline;
    assert pipeline == Items(t, Of(rest, Bursting));
    assert forall i | i in pipeline :: i in s.pipeline;
  }

  /** Scheduling the bursts of a MAP behind those of the MAPs before. */
  lemma BurstsBehind(t: Timing, cal: seq<Entry>, bs: seq<Entry>, at: int, horizon: int)
    requires SortedFrom(cal, at) && Waits(t, cal) && FramesBefore(cal, horizon)
    requires Until(Of(cal, Bursting), horizon - t.burstPreparation)
    requires NotBefore(bs, at) && NotBefore(bs, horizon - t.burstPreparation)
    requires SortedFrom(Of(bs, Bursting), horizon - t.burstPreparation) && Of(bs, Sending) == []
    ensures var cal' := ScheduleAll(cal, bs);
            && SortedFrom(cal', at) && Waits(t, cal') && FramesBefore(cal', horizon)
            && Of(cal', Bursting) == Of(cal, Bursting) + Of(bs, Bursting)
            && Of(cal', Sending) == Of(cal, Sending)
  {
    ScheduleAllLast(cal, bs, Bursting, at, horizon - t.burstPreparation);
    OfSelects(bs, Sending);
    NoneAdded(cal, bs, at, Sending);
    ScheduleAllAdds(cal, bs, at);
    ScheduleAllWaits(t, cal, bs, at, horizon);
  }

  /** The bursts that a MAP schedules, against what the MAPs before left. */
  lemma BurstsOfNewMap(t: Timing, gs: seq<Grant>, start: int, at: int, horizon: int)
    requires t.Valid() && Placed(gs, 0, t.ch.MinislotsPerMap())
    requires horizon <= start && (gs != [] ==> at <= BurstTime(t, gs[0], start))
    ensures var bs := BurstEntries(t, gs, start);
            && NotBefore(bs, at) && NotBefore(bs, horizon - t.burstPreparation)
            && SortedFrom(Of(bs, Bursting), horizon - t.burstPreparation)
            && Of(bs, Sending) == []
  {
    if gs != [] {
      FirstFrameTime(t, gs, start, 0);
    }
    BurstTimes(t, gs, start, 0, at);
    BurstTimes(t, gs, start, 0, horizon - t.burstPreparation);
    BurstsOfMap(t, gs, start, 0);
    BurstsAscend(t, gs, start, 0, horizon - t.burstPreparation);
  }

  /** The calendar after a MAP arrived. */
  lemma CalendarOfMap(t: Timing, cal: seq<Entry>, loaded: bool, horizon: int, at: int, gs: seq<Grant>, start: int)
    requires t.Valid() && Placed(gs, 0, t.ch.MinislotsPerMap())
    requires horizon <= start && at <= start && (gs != [] ==> at <= BurstTime(t, gs[0], start))
    requires SortedFrom(cal, at) && Waits(t, cal) && FramesBefore(cal, horizon)
    requires Until(Of(cal, Bursting), horizon - t.burstPreparation)
    requires Until(Of(cal, Sending), horizon) && Nested(Of(cal, Sending), loaded)
    ensures var bs, ss := BurstEntries(t, gs, start), LoadAndSend(t, gs, start);
            var cal' := ScheduleAll(ScheduleAll(cal, bs), ss);
            && SortedFrom(cal', at) && Waits(t, cal')
            && Of(cal', Bursting) == Of(cal, Bursting) + Of(bs, Bursting)
            && Of(cal', Sending) == Of(cal, Sending) + ss && Nested(Of(cal', Sending), loaded)
            && FramesBefore(cal', t.MapEnd(start))
  {
    var bs, ss := BurstEntries(t, gs, start), LoadAndSend(t, gs, start);
    BurstsOfNewMap(t, gs, start, at, horizon);
    BurstsBehind(t, cal, bs, at, horizon);
    LoadAndSendOfMap(t, gs, start);
    StartBeforeEnd(t, start);
    SendsBehind(t, cal, loaded, horizon, ScheduleAll(cal, bs), ss, at, start, t.MapEnd(start));
  }

  lemma StartBeforeEnd(t: Timing, start: int)
    requires t.Valid()
    ensures start <= t.MapEnd(start)
  {
    MulMonotone(0, t.ch.framesPerMap, t.frameDuration);
  }

  lemma CalendarAfter(t: Timing, cal: seq<Entry>, now: int, loaded: bool, horizon: int, at: int, gs: seq<Grant>, start: int,
                      cal': seq<Entry>, end: int)
    requires t.Valid() && CalendarInv(t, cal, now, loaded, horizon) && NotBefore(cal, at) && Placed(gs, 0, t.ch.MinislotsPerMap())
    requires horizon <= start && at <= start && (gs != [] ==> at <= BurstTime(t, gs[0], start))
    requires cal' == ScheduleAll(ScheduleAll(cal, BurstEntries(t, gs, start)), LoadAndSend(t, gs, start)) && end == t.MapEnd(start)
    ensures CalendarInv(t, cal', at, loaded, end)
    ensures Of(cal', Bursting) == Of(cal, Bursting) + Of(BurstEntries(t, gs, start), Bursting)
  {
    SortedAt(cal, now, at);
    CalendarOfMap(t, cal, loaded, horizon, at, gs, start);
    Horizon(t, cal, horizon, gs, start);
  }

  lemma MapKeepsCalendar(t: Timing, s: Station, at: int, gs: seq<Grant>, s': Station, start: int)
    requires t.Valid() && CalendarInv(t, s.calendar, s.now, s.loaded, s.horizon) && Enabled(t, s, MapArrives(at, gs))
    requires start == at + t.mapProcessing && s' == WithMap(t, s, at, gs)
    ensures CalendarInv(t, s'.calendar, s'.now, s'.loaded, s'.horizon)
    ensures Of(s'.calendar, Bursting) == Of(s.calendar, Bursting) + Of(BurstEntries(t, gs, start), Bursting)
  {
    CalendarAfter(t, s.calendar, s.now, s.loaded, s.horizon, at, gs, start, s'.calendar, t.MapEnd(start));
  }

  /** The jobs of the new MAP come last. */
  lemma MapAddsSends(t: Timing, s: Station, at: int, gs: seq<Grant>, s': Station, start: int, sends: seq<Entry>)
    requires t.Valid() && CalendarInv(t, s.calendar, s.now, s.loaded, s.horizon) && Enabled(t, s, MapArrives(at, gs))
    requires start == at + t.mapProcessing && s' == WithMap(t, s, at, gs) && sends == LoadAndSend(t, gs, start)
    ensures Of(s'.calendar, Sending) == Of(s.calendar, Sending) + sends
  {
    SortedAt(s.calendar, s.now, at);
    CalendarOfMap(t, s.calendar, s.loaded, s.horizon, at, gs, start);
  }

  lemma MapKeepsPipeline(t: Timing, s: Station, at: int, gs: seq<Grant>, s': Station, start: int)
    requires t.Valid() && Placed(gs, 0, t.ch.MinislotsPerMap())
    requires s.pipeline == Items(t, Of(s.calendar, Bursting)) && NonEmpty(s.pipeline)
    requires start == at + t.mapProcessing && s' == WithMap(t, s, at, gs)
    requires Of(s'.calendar, Bursting) == Of(s.calendar, Bursting) + Of(BurstEntries(t, gs, start), Bursting)
    ensures s'.pipeline == Items(t, Of(s'.calendar, Bursting)) && NonEmpty(s'.pipeline)
  {
    PipelineOfMap(t, s.calendar, gs, start);
  }

  lemma MapKeepsInv(t: Timing, s: Station, at: int, gs: seq<Grant>, s': Station, start: int)
    requires t.Valid() && Inv(t, s) && Enabled(t, s, MapArrives(at, gs))
    requires start == at + t.mapProcessing && s' == WithMap(t, s, at, gs)
    ensures Inv(t, s')
  {
    MapKeepsCalendar(t, s, at, gs, s', start);
    MapKeepsPipeline(t, s, at, gs, s', start);
  }

  lemma PipelineOfMap(t: Timing, cal: seq<Entry>, gs: seq<Grant>, start: int)
    requires t.Valid() && Placed(gs, 0, t.ch.MinislotsPerMap())
    ensures var items := GrantItems(gs, t.ch.capacity, start, t.ch.minislotsPerFrame, t.frameDuration);
            && Items(t, Of(cal, Bursting) + Of(BurstEntries(t, gs, start), Bursting)) == Items(t, Of(cal, Bursting)) + items
            && NonEmpty(items)
  {
    BurstsOfMap(t, gs, start, 0);
    ItemsConcat(t, Of(cal, Bursting), Of(BurstEntries(t, gs, start), Bursting));
    GrantItemsNonEmpty(t, gs, start);
  }

  /** The new horizon is behind everything scheduled. */
  lemma Horizon(t: Timing, cal: seq<Entry>, horizon: int, gs: seq<Grant>, start: int)
    requires t.Valid() && Placed(gs, 0, t.ch.MinislotsPerMap()) && horizon <= start
    requires Until(Of(cal, Bursting), horizon - t.burstPreparation) && Until(Of(cal, Sending), horizon)
    ensures var bs, ss := BurstEntries(t, gs, start), LoadAndSend(t, gs, start);
            && Until(Of(cal, Bursting) + Of(bs, Bursting), t.MapEnd(start) - t.burstPreparation)
            && Until(Of(cal, Sending) + ss, t.MapEnd(start))
  {
    StartBeforeEnd(t, start);
    if gs != [] {
      FirstFrameTime(t, gs, start, 0);
    }
    BurstTimes(t, gs, start, 0, start - t.burstPreparation);
    LoadAndSendOfMap(t, gs, start);
    OfSelects(BurstEntries(t, gs, start), Bursting);
  }

  lemma SortedAt(cal: seq<Entry>, now: int, at: int)
    requires SortedFrom(cal, now) && NotBefore(cal, at)
    ensures SortedFrom(cal, at)
  {
    if cal != [] {
      assert cal[0] in cal;
    }
  }

  lemma LoadAndSendOfMap(t: Timing, gs: seq<Grant>, start: int)
    requires t.Valid()
    ensures var es := LoadAndSend(t, gs, start);
            && SortedFrom(es, start)
            && Of(es, Sending) == es && Of(es, Bursting) == []
            && Until(es, t.MapEnd(start))
            && FramesBefore(es, t.MapEnd(start))
            && Nested(es, false)
  {
    var es, rest := LoadAndSend(t, gs, start), SendEntries(t, gs, start, 0, start);
    SendsOfMap(t, gs, start, 0, start);
    MulMonotone(0, t.ch.framesPerMap, t.frameDuration);
    assert es[1..] == rest;
    assert [] + Of(rest, Bursting) == Of(rest, Bursting);
  }

  /** Scheduling the frames of a MAP behind those of the MAPs before. */
  lemma SendsBehind(t: Timing, before: seq<Entry>, loaded: bool, horizon: int, cal: seq<Entry>, ss: seq<Entry>,
                    at: int, start: int, end: int)
    requires SortedFrom(cal, at) && at <= start && horizon <= start && Waits(t, cal)
    requires Of(cal, Sending) == Of(before, Sending)
    requires Until(Of(before, Sending), horizon) && Nested(Of(before, Sending), loaded)
    requires SortedFrom(ss, start) && Of(ss, Sending) == ss && Of(ss, Bursting) == [] && Nested(ss, false)
    requires FramesBefore(cal, horizon) && FramesBefore(ss, end) && horizon <= end
    ensures var cal' := ScheduleAll(cal, ss);
            && SortedFrom(cal', at) && Waits(t, cal')
            && Of(cal', Bursting) == Of(cal, Bursting)
            && Of(cal', Sending) == Of(before, Sending) + ss && Nested(Of(cal', Sending), loaded)
            && FramesBefore(cal', end)
  {
    SortedIsNotBefore(ss, start);
    SortedWiden(ss, horizon, start);
    ScheduleAllLast(cal, ss, Sending, at, horizon);
    ScheduleAllAdds(cal, ss, at);
    ScheduleAllWaits(t, cal, ss, at, start);
    NoneAdded(cal, ss, at, Bursting);
    NestedConcat(Of(before, Sending), ss, loaded);
  }

  lemma {:induction false} NoneAdded(cal: seq<Entry>, es: seq<Entry>, at: int, kind: Kind)
    requires SortedFrom(cal, at) && NotBefore(es, at) && Of(es, kind) == []
    ensures Of(ScheduleAll(cal, es), kind) == Of(cal, kind)
    decreases |es|
  {
    if es != [] {
      assert es == [es[0]] + es[1..];
      OfSelects(es, kind);
      FirstOf(es, kind);
      ScheduleLast(cal, es[0], kind, at);
      ScheduleAdds(cal, es[0], at);
      NoneAdded(Schedule(cal, es[0]), es[1..], at, kind);
    }
  }

  lemma AskKeepsInv(t: Timing, s: Station, at: int, time: int)
    requires t.Valid() && Inv(t, s) && Enabled(t, s, AskLater(at, time))
    ensures Inv(t, Next(t, s, AskLater(at, time)))
  {
    var e := Entry(time, Request);
    SortedAt(s.calendar, s.now, at);
    ScheduleAdds(s.calendar, e, at);
    ScheduleWaits(t, s.calendar, e, at);
    ScheduleLast(s.calendar, e, Bursting, at);
    ScheduleLast(s.calendar, e, Sending, at);
  }

  lemma StepKeepsInv(t: Timing, s: Station, step: Step)
    requires t.Valid() && Inv(t, s) && Enabled(t, s, step)
    ensures step.RunNext? ==> Proper(t, s, s.calendar[0])
    ensures Inv(t, Next(t, s, step))
  {
    match step
    case MapArrives(at, gs) => MapKeepsInv(t, s, at, gs, WithMap(t, s, at, gs), at + t.mapProcessing);
    case AskLater(at, time) => AskKeepsInv(t, s, at, time);
    case RunNext =>
      NextIsProper(t, s);
      RunKeepsInv(t, s);
  }

  /** Every job of the run finds what it needs. */
  predicate AlwaysProper(t: Timing, s: Station, steps: seq<Step>)
    requires t.Valid()
    decreases |steps|
  {
    steps == [] || !Enabled(t, s, steps[0]) ||
    ((steps[0].RunNext? ==> Proper(t, s, s.calendar[0])) && AlwaysProper(t, Next(t, s, steps[0]), steps[1..]))
  }

  /**
   However MAPs, requests and jobs follow each other: every burst finds its own grant at the front of the grant
   pipeline, no request finds an overdue grant there, every frame comes after the bursts of the grants that
   have started, and a MAP is loaded only after the one before was reported.
   */
  lemma {:induction false} EveryJobIsProper(t: Timing, s: Station, steps: seq<Step>)
    requires t.Valid() && Inv(t, s)
    ensures AlwaysProper(t, s, steps)
    decreases |steps|
  {
    if steps != [] && Enabled(t, s, steps[0]) {
      StepKeepsInv(t, s, steps[0]);
      EveryJobIsProper(t, Next(t, s, steps[0]), steps[1..]);
    }
  }

  lemma IdleInv(t: Timing)
    requires t.Valid()
    ensures Inv(t, Station(0, [], [], false, 0, 0))
  {
  }
}
