/**
 Runs of one service flow of the modem, from the arrival of MAPs to the reports on their use: the calendar decides
 what runs when, bursts are promised any bytes that fit their grants, and frames use what is eligible.
 */
module ModemRuns {
  import opened DocsisTypes
  import opened GrantLists
  import opened MapMessages
  import opened CmPipelines
  import opened FrameSplit
  import opened CableModemFlows
  import opened GrantCalendars
  import Drain = MapDrain

  /** The grants of a MAP for the flow, and the frame with which the MAP starts. */
  datatype MapGrants = MapGrants(first: nat, grants: seq<Grant>)

  /**
   The calendar and the grant pipeline; the MAPs that are not reported yet; what the flow's transmit pipeline holds and
   what was promised to the bursts of these MAPs; the bytes granted by the loaded MAP, and the time of its last frame.
   */
  datatype Device = Device(station: Station, maps: seq<MapGrants>, modem: Drain.Modem, granted: nat, lastSend: int, endFrame: nat)

  datatype Action = Arrive(first: nat, grants: seq<Grant>) | Ask(at: int, time: int) | Run(bytes: nat)

  function Start(t: Timing, first: nat): int {
    t.FrameTime(0, first)
  }

  function StepOf(t: Timing, a: Action): Step {
    match a
    case Arrive(first, gs) => MapArrives(Start(t, first) - t.mapProcessing, gs)
    case Ask(at, time) => AskLater(at, time)
    case Run(_) => RunNext
  }

  /** A burst is promised no more than its grant. */
  predicate Possible(t: Timing, d: Device, a: Action)
    requires t.Valid()
  {
    && Enabled(t, d.station, StepOf(t, a))
    && (a.Arrive? ==> d.endFrame <= a.first)
    && (a.Run? && d.station.calendar[0].job.Prepare? ==>
          a.bytes <= d.station.calendar[0].job.minislots * t.ch.capacity)
  }

  function Sum(xs: seq<nat>): nat {
    if xs == [] then 0 else xs[0] + Sum(xs[1..])
  }

  /**
   The report of a MAP: the bytes used, as the source computes them, are those sent and those promised to the bursts
   of this MAP, and nothing that was eligible in its last frame is left in the transmit pipeline.
   */
  predicate ReportIsRight(d: Device, e: Entry) {
    && d.maps != []
    && d.granted - d.modem.unused == d.modem.used
    && |d.maps[0].grants| <= |d.modem.prepared|
    && d.granted - d.modem.unused == Sum(d.modem.prepared[..|d.maps[0].grants|])
    && Eligible(d.modem.items, e.time - 1) == 0
  }

  predicate RunsRight(t: Timing, d: Device, e: Entry) {
    && Proper(t, d.station, e)
    && (e.job.Load? ==> d.maps != [])
    && (e.job.Dump? ==> ReportIsRight(d, e))
  }

  function Arrived(t: Timing, d: Device, last: MapGrants): Device {
    d.(maps := d.maps + [last], endFrame := last.first + t.ch.framesPerMap)
  }

  function AfterJob(t: Timing, d: Device, bytes: nat): Device
    requires t.Valid() && Possible(t, d, Run(bytes)) && RunsRight(t, d, d.station.calendar[0])
  {
    var d' := d.(station := Next(t, d.station, RunNext));
    var e, s := d.station.calendar[0], d.modem;
    match e.job
    case Request => d'
    case Prepare(_) =>
      d'.(modem := s.(items := Promised(s.items, bytes, e.time + t.burstPreparation), prepared := s.prepared + [bytes]))
    case Load(grantBytes) =>
      d'.(modem := s.(frame := d.maps[0].first, used := 0, unused := 0), granted := grantBytes, lastSend := e.time)
    case Frame(minislots) =>
      var used := Usable(s.items, minislots * t.ch.capacity, e.time);
      d'.(modem := s.(items := Removed(s.items, used), frame := Max(e.time / t.frameDuration + 1, 0),
                      used := s.used + used, unused := s.unused + minislots * t.ch.capacity - used),
          lastSend := e.time)
    case Dump =>
      d'.(modem := Drain.Modem(s.items, s.prepared[|d.maps[0].grants|..], d.maps[0].first + t.ch.framesPerMap, 0, 0),
          maps := d.maps[1..], granted := 0)
  }

  function After(t: Timing, d: Device, a: Action): Device
    requires t.Valid() && Possible(t, d, a)
    requires a.Run? ==> RunsRight(t, d, d.station.calendar[0])
  {
    match a
    case Arrive(first, gs) => Arrived(t, d, MapGrants(first, gs)).(station := Next(t, d.station, StepOf(t, a)))
    case Ask(_, _) => d.(station := Next(t, d.station, StepOf(t, a)))
    case Run(bytes) => AfterJob(t, d, bytes)
  }

  const IDLE := Device(Station(0, [], [], false, 0, 0), [], Drain.IDLE, 0, 0, 0)

  // ----- The grants of all MAPs that are not reported yet

  function AllGrants(maps: seq<MapGrants>, m: nat): seq<Grant> {
    if maps == [] then [] else Drain.Shifted(maps[0].grants, maps[0].first * m) + AllGrants(maps[1..], m)
  }

  function AllSends(t: Timing, maps: seq<MapGrants>): seq<Entry>
    requires t.Valid()
  {
    if maps == [] then [] else LoadAndSend(t, maps[0].grants, Start(t, maps[0].first)) + AllSends(t, maps[1..])
  }

  predicate MapsInOrder(t: Timing, maps: seq<MapGrants>, from: nat, to: nat) {
    if maps == [] then from <= to
    else
      && from <= maps[0].first
      && Placed(maps[0].grants, 0, t.ch.MinislotsPerMap())
      && MapsInOrder(t, maps[1..], maps[0].first + t.ch.framesPerMap, to)
  }

  lemma {:induction false} ShiftedPlaced(gs: seq<Grant>, start: nat, from: nat, to: nat)
    requires Placed(gs, from, to)
    ensures Placed(Drain.Shifted(gs, start), start + from, start + to)
    ensures |Drain.Shifted(gs, start)| == |gs|
  {
    if gs != [] {
      ShiftedPlaced(gs[1..], start, gs[0].End(), to);
      var g := gs[0].(offset := start + gs[0].offset);
      assert ([g] + Drain.Shifted(gs[1..], start))[1..] == Drain.Shifted(gs[1..], start);
    }
  }

  lemma {:induction false} AllPlaced(t: Timing, maps: seq<MapGrants>, from: nat, to: nat)
    requires t.Valid() && MapsInOrder(t, maps, from, to)
    ensures Placed(AllGrants(maps, t.ch.minislotsPerFrame), from * t.ch.minislotsPerFrame, to * t.ch.minislotsPerFrame)
  {
    var m := t.ch.minislotsPerFrame;
    if maps == [] {
      MulMonotone(from, to, m);
    } else {
      var first := maps[0].first;
      AllPlaced(t, maps[1..], first + t.ch.framesPerMap, to);
      ShiftedPlaced(maps[0].grants, first * m, 0, t.ch.MinislotsPerMap());
      MulDistributes(first, t.ch.framesPerMap, m);
      MulMonotone(from, first, m);
      PlacedWiden(Drain.Shifted(maps[0].grants, first * m), from * m, first * m, first * m + t.ch.MinislotsPerMap());
      PlacedConcat(Drain.Shifted(maps[0].grants, first * m), AllGrants(maps[1..], m),
                   from * m, first * m + t.ch.MinislotsPerMap(), to * m);
    }
  }

  lemma {:induction false} AllAppend(t: Timing, maps: seq<MapGrants>, last: MapGrants, m: nat)
    requires t.Valid()
    ensures AllGrants(maps + [last], m) == AllGrants(maps, m) + Drain.Shifted(last.grants, last.first * m)
    ensures AllSends(t, maps + [last]) == AllSends(t, maps) + LoadAndSend(t, last.grants, Start(t, last.first))
  {
    if maps == [] {
      assert maps + [last] == [last] && [last][1..] == [];
      assert Drain.Shifted(last.grants, last.first * m) + [] == [] + Drain.Shifted(last.grants, last.first * m);
      assert LoadAndSend(t, last.grants, Start(t, last.first)) + [] == [] + LoadAndSend(t, last.grants, Start(t, last.first));
    } else {
      AllAppend(t, maps[1..], last, m);
      assert (maps + [last])[1..] == maps[1..] + [last];
      GrantsRegroup(Drain.Shifted(maps[0].grants, maps[0].first * m), AllGrants(maps[1..], m),
                    Drain.Shifted(last.grants, last.first * m));
      EntriesRegroup(LoadAndSend(t, maps[0].grants, Start(t, maps[0].first)), AllSends(t, maps[1..]),
                     LoadAndSend(t, last.grants, Start(t, last.first)));
    }
  }

  lemma GrantsRegroup(a: seq<Grant>, b: seq<Grant>, c: seq<Grant>)
    ensures a + b + c == a + (b + c)
  {
  }

  lemma EntriesRegroup(a: seq<Entry>, b: seq<Entry>, c: seq<Entry>)
    ensures a + b + c == a + (b + c)
  {
  }

  lemma {:induction false} OrderAppend(t: Timing, maps: seq<MapGrants>, from: nat, to: nat, last: MapGrants)
    requires MapsInOrder(t, maps, from, to) && to <= last.first && Placed(last.grants, 0, t.ch.MinislotsPerMap())
    ensures MapsInOrder(t, maps + [last], from, last.first + t.ch.framesPerMap)
  {
    if maps == [] {
      assert maps + [last] == [last] && [last][1..] == [];
    } else {
      OrderAppend(t, maps[1..], maps[0].first + t.ch.framesPerMap, to, last);
      assert (maps + [last])[1..] == maps[1..] + [last];
    }
  }

  /** Grants at or behind a frame's start. */
  lemma {:induction false} PlacedNoneBefore(gs: seq<Grant>, frame: nat, from: nat, to: nat, m: nat)
    requires 0 < m && frame * m <= from && Placed(gs, from, to)
    ensures Drain.NoneBefore(gs, frame, m)
  {
    if gs != [] {
      PlacedNoneBefore(gs[1..], frame, gs[0].End(), to, m);
      FrameBefore(gs[0], frame, m);
      assert forall i | 0 < i < |gs| :: gs[i] == gs[1..][i - 1];
    }
  }

  lemma {:induction false} NoneBeforeNoShares(gs: seq<Grant>, frames: nat, m: nat)
    requires 0 < m && Drain.NoneBefore(gs, frames, m)
    ensures ShareSum(gs, frames, m) == 0
    ensures forall f: nat | f < frames :: Share(gs, f, m) == 0
  {
    if frames > 0 {
      Drain.LaterGrantsHaveNoShare(gs, frames - 1, m);
      NoneBeforeNoShares(gs, frames - 1, m);
    }
  }

  lemma {:induction false} ShareSumConcat(a: seq<Grant>, b: seq<Grant>, frames: nat, m: nat)
    ensures ShareSum(a + b, frames, m) == ShareSum(a, frames, m) + ShareSum(b, frames, m)
  {
    if frames > 0 {
      ShareSumConcat(a, b, frames - 1, m);
      ShareConcat(a, b, frames - 1, m);
    }
  }

  // ----- What MapDrain's invariant allows

  /** New grants behind the frames that have run. */
  lemma GrantsMayCome(l: Drain.Link, s: Drain.Modem, more: seq<Grant>, end: nat)
    requires l.Valid() && Drain.Inv(l, s)
    requires Placed(l.grants + more, 0, end) && Drain.NoneBefore(more, s.frame, l.minislotsPerFrame)
    ensures Drain.Inv(l.(grants := l.grants + more, end := end), s)
  {
    var l' := l.(grants := l.grants + more, end := end);
    var k := |s.prepared|;
    assert l'.grants[..k] == l.grants[..k];
    forall d | s.frame - 1 <= d ensures Drain.Accounted(l', s, d) {
      assert Drain.Accounted(l, s, d);
    }
    NoneBeforeNoShares(more, s.frame, l.minislotsPerFrame);
    ShareSumConcat(l.grants, more, s.frame, l.minislotsPerFrame);
  }

  /** Frames without minislots may be passed over. */
  lemma {:induction false} FramesMayBeSkipped(l: Drain.Link, s: Drain.Modem, frame: nat)
    requires l.Valid() && Drain.Inv(l, s) && s.frame <= frame
    requires forall f: nat | s.frame <= f < frame :: Share(l.grants, f, l.minislotsPerFrame) == 0
    ensures Drain.Inv(l, s.(frame := frame))
    decreases frame - s.frame
  {
    if s.frame < frame {
      var k := |s.prepared|;
      assert Share(l.grants, s.frame, l.minislotsPerFrame) == 0;
      if k < |l.grants| && l.FirstFrame(k) == s.frame {
        FirstFrameHasShare(l, k);
      }
      EligibleNotNegative(s.items, l.FrameTime(s.frame));
      Drain.FrameKeepsInv(l, s);
      assert Removed(s.items, 0) == s.items;
      FramesMayBeSkipped(l, s.(frame := s.frame + 1), frame);
    }
  }

  lemma EligibleNotNegative(items: seq<Item>, deadline: int)
    ensures Usable(items, 0, deadline) == 0
  {
  }

  lemma FirstFrameHasShare(l: Drain.Link, k: nat)
    requires l.Valid() && k < |l.grants|
    ensures 0 < Share(l.grants, l.FirstFrame(k), l.minislotsPerFrame)
  {
    var m, f := l.minislotsPerFrame, l.FirstFrame(k);
    FirstFrameOverlaps(l, k);
    var own, rest := [l.grants[k]], l.grants[k + 1..];
    assert own[1..] == [];
    assert 0 < Share(own, f, m);
    ShareConcat(own, rest, f, m);
    ShareConcat(l.grants[..k], own + rest, f, m);
    assert l.grants == l.grants[..k] + (own + rest);
  }

  lemma FirstFrameOverlaps(l: Drain.Link, k: nat)
    requires l.Valid() && k < |l.grants|
    ensures 0 < Overlap(l.grants[k], l.FirstFrame(k), l.minislotsPerFrame)
  {
    PlacedIsDisjoint(l.grants, 0, l.end);
    FrameOfBounds(l.grants[k], l.minislotsPerFrame);
  }

  // ----- At the end of a MAP

  lemma {:induction false} PreparedSplit(gs: seq<Grant>, prepared: seq<nat>, n: nat, frame: int, m: nat)
    requires 0 < m && |prepared| == |gs| && n <= |gs|
    ensures Drain.PreparedUpTo(gs, prepared, frame, m)
         == Drain.PreparedUpTo(gs[..n], prepared[..n], frame, m) + Drain.PreparedUpTo(gs[n..], prepared[n..], frame, m)
    decreases n
  {
    if n > 0 {
      PreparedSplit(gs[1..], prepared[1..], n - 1, frame, m);
      assert gs[..n][1..] == gs[1..][..n - 1] && prepared[..n][1..] == prepared[1..][..n - 1];
      assert gs[1..][n - 1..] == gs[n..] && prepared[1..][n - 1..] == prepared[n..];
    } else {
      assert gs[0..] == gs && prepared[0..] == prepared;
    }
  }

  predicate AllUpTo(gs: seq<Grant>, frame: int, m: nat)
    requires 0 < m
  {
    forall i | 0 <= i < |gs| :: FrameOf(gs[i], m) <= frame
  }

  lemma {:induction false} PreparedAll(gs: seq<Grant>, prepared: seq<nat>, frame: int, m: nat)
    requires 0 < m && |prepared| == |gs| && AllUpTo(gs, frame, m)
    ensures Drain.PreparedUpTo(gs, prepared, frame, m) == Sum(prepared)
  {
    if gs != [] {
      assert forall i | 0 <= i < |gs[1..]| :: gs[1..][i] == gs[i + 1];
      PreparedAll(gs[1..], prepared[1..], frame, m);
    }
  }

  lemma {:induction false} PreparedNone(gs: seq<Grant>, prepared: seq<nat>, frame: nat, m: nat)
    requires 0 < m && |prepared| == |gs| && Drain.NoneBefore(gs, frame, m)
    ensures Drain.PreparedUpTo(gs, prepared, frame - 1, m) == 0
  {
    if gs != [] {
      assert forall i | 0 <= i < |gs[1..]| :: gs[1..][i] == gs[i + 1];
      PreparedNone(gs[1..], prepared[1..], frame, m);
    }
  }

  lemma {:induction false} GrantedAll(gs: seq<Grant>, frame: nat, m: nat)
    requires 0 < m && AllUpTo(gs, frame - 1, m)
    ensures Drain.GrantedBefore(gs, frame, m) == Lengths(gs)
  {
    if gs != [] {
      assert forall i | 0 <= i < |gs[1..]| :: gs[1..][i] == gs[i + 1];
      GrantedAll(gs[1..], frame, m);
    }
  }

  lemma {:induction false} GrantedSplit(a: seq<Grant>, b: seq<Grant>, frame: nat, m: nat)
    requires 0 < m && Drain.NoneBefore(b, frame, m)
    ensures Drain.GrantedBefore(a + b, frame, m) == Drain.GrantedBefore(a, frame, m)
  {
    if a == [] {
      assert a + b == b;
      GrantedNone(b, frame, m);
    } else {
      GrantedSplit(a[1..], b, frame, m);
      assert (a + b)[1..] == a[1..] + b;
    }
  }

  lemma {:induction false} GrantedNone(gs: seq<Grant>, frame: nat, m: nat)
    requires 0 < m && Drain.NoneBefore(gs, frame, m)
    ensures Drain.GrantedBefore(gs, frame, m) == 0
  {
    if gs != [] {
      assert forall i | 0 <= i < |gs[1..]| :: gs[1..][i] == gs[i + 1];
      GrantedNone(gs[1..], frame, m);
    }
  }

  lemma {:induction false} FirstIsEarliest(items: seq<Item>)
    requires items != [] && Ordered(items)
    ensures items[0].time <= items[|items| - 1].time
  {
    if 1 < |items| {
      FirstIsEarliest(items[1..]);
    }
  }

  /** The grants of one MAP, and those behind it; the frame with which the MAP ends is the next to run. */
  predicate EndsMap(l: Drain.Link, s: Drain.Modem, n: nat)
    requires l.Valid()
  {
    && n <= |l.grants|
    && Placed(l.grants[..n], 0, s.frame * l.minislotsPerFrame)
    && Drain.NoneBefore(l.grants[n..], s.frame, l.minislotsPerFrame)
  }

  lemma GrantOfMap(l: Drain.Link, s: Drain.Modem, n: nat, i: nat)
    requires l.Valid() && EndsMap(l, s, n) && i < n
    ensures l.grants[i].End() <= s.frame * l.minislotsPerFrame && FrameOf(l.grants[i], l.minislotsPerFrame) < s.frame
  {
    var m := l.minislotsPerFrame;
    PlacedIsDisjoint(l.grants[..n], 0, s.frame * m);
    assert l.grants[..n][i] == l.grants[i];
    FrameBefore(l.grants[i], s.frame, m);
  }

  lemma FrameBefore(g: Grant, frame: nat, m: nat)
    requires 0 < m
    ensures FrameOf(g, m) < frame <==> g.offset < frame * m
  {
    FrameOfBounds(g, m);
    if FrameOf(g, m) < frame {
      MulMonotone(FrameOf(g, m) + 1, frame, m);
    } else {
      MulMonotone(frame, FrameOf(g, m), m);
    }
  }

  lemma GrantBehindMap(l: Drain.Link, s: Drain.Modem, n: nat, i: nat)
    requires l.Valid() && EndsMap(l, s, n) && n <= i < |l.grants|
    ensures s.frame * l.minislotsPerFrame <= l.grants[i].offset && s.frame <= FrameOf(l.grants[i], l.minislotsPerFrame)
  {
    assert l.grants[n..][i - n] == l.grants[i];
    FrameBefore(l.grants[i], s.frame, l.minislotsPerFrame);
  }

  lemma EndIsBoundary(l: Drain.Link, s: Drain.Modem, n: nat)
    requires l.Valid() && Drain.Inv(l, s) && EndsMap(l, s, n)
    ensures Drain.Boundary(l, s.frame) && n <= |s.prepared|
    ensures AllUpTo(l.grants[..n], s.frame - 1, l.minislotsPerFrame)
  {
    forall i | 0 <= i < |l.grants|
      ensures l.grants[i].offset < s.frame * l.minislotsPerFrame ==> l.grants[i].End() <= s.frame * l.minislotsPerFrame
    {
      if i < n {
        GrantOfMap(l, s, n, i);
      } else {
        GrantBehindMap(l, s, n, i);
      }
    }
    forall i | 0 <= i < n ensures FrameOf(l.grants[..n][i], l.minislotsPerFrame) <= s.frame - 1 {
      GrantOfMap(l, s, n, i);
    }
    if |s.prepared| < n {
      GrantOfMap(l, s, n, |s.prepared|);
    }
  }

  /** What the report finds: the bytes used are those promised to the MAP's bursts. */
  lemma ReportAtEnd(l: Drain.Link, s: Drain.Modem, n: nat)
    requires l.Valid() && Drain.Inv(l, s) && EndsMap(l, s, n)
    ensures n <= |s.prepared|
    ensures s.used == Sum(s.prepared[..n])
    ensures s.used + s.unused == l.capacity * Lengths(l.grants[..n])
    ensures Eligible(s.items, l.FrameTime(s.frame - 1)) == 0
  {
    EndIsBoundary(l, s, n);
    Drain.AtBoundary(l, s);
    PreparedAtEnd(l, s, n);
    GrantedAtEnd(l, s, n);
  }

  lemma PreparedAtEnd(l: Drain.Link, s: Drain.Modem, n: nat)
    requires l.Valid() && EndsMap(l, s, n) && n <= |s.prepared| <= |l.grants|
    requires AllUpTo(l.grants[..n], s.frame - 1, l.minislotsPerFrame)
    ensures Drain.PreparedUpTo(l.grants[..|s.prepared|], s.prepared, s.frame - 1, l.minislotsPerFrame) == Sum(s.prepared[..n])
  {
    var m, last: int := l.minislotsPerFrame, s.frame - 1;
    SplitOfPrefix(l.grants, s.prepared, n, last, m);
    assert Drain.PreparedUpTo(l.grants[..n], s.prepared[..n], last, m) == Sum(s.prepared[..n]) by {
      PreparedAll(l.grants[..n], s.prepared[..n], last, m);
    }
    var later := l.grants[n..][..|s.prepared| - n];
    assert Drain.PreparedUpTo(later, s.prepared[n..], last, m) == 0 by {
      assert forall i | 0 <= i < |later| :: later[i] == l.grants[n..][i];
      PreparedNone(later, s.prepared[n..], s.frame, m);
    }
  }

  lemma GrantedAtEnd(l: Drain.Link, s: Drain.Modem, n: nat)
    requires l.Valid() && EndsMap(l, s, n) && AllUpTo(l.grants[..n], s.frame - 1, l.minislotsPerFrame)
    ensures Drain.GrantedBefore(l.grants, s.frame, l.minislotsPerFrame) == Lengths(l.grants[..n])
  {
    assert l.grants == l.grants[..n] + l.grants[n..];
    GrantedSplit(l.grants[..n], l.grants[n..], s.frame, l.minislotsPerFrame);
    GrantedAll(l.grants[..n], s.frame, l.minislotsPerFrame);
  }

  function Forgotten(s: Drain.Modem, n: nat): Drain.Modem
    requires n <= |s.prepared|
  {
    Drain.Modem(s.items, s.prepared[n..], s.frame, 0, 0)
  }

  lemma ForgottenIsAccounted(l: Drain.Link, s: Drain.Modem, n: nat, d: int)
    requires l.Valid() && Drain.Inv(l, s) && EndsMap(l, s, n) && s.frame - 1 <= d
    requires n <= |s.prepared| && Placed(l.grants[n..], 0, l.end)
    ensures Drain.Accounted(l.(grants := l.grants[n..]), Forgotten(s, n), d)
  {
    var m, k := l.minislotsPerFrame, |s.prepared|;
    assert s.used == Sum(s.prepared[..n]) by {
      ReportAtEnd(l, s, n);
    }
    assert Drain.PreparedUpTo(l.grants[..n], s.prepared[..n], d, m) == Sum(s.prepared[..n]) by {
      EndIsBoundary(l, s, n);
      PreparedAll(l.grants[..n], s.prepared[..n], d, m);
    }
    assert Drain.Accounted(l, s, d);
    SplitOfPrefix(l.grants, s.prepared, n, d, m);
  }

  lemma SplitOfPrefix(gs: seq<Grant>, prepared: seq<nat>, n: nat, d: int, m: nat)
    requires 0 < m && n <= |prepared| <= |gs|
    ensures var k := |prepared|;
            Drain.PreparedUpTo(gs[..k], prepared, d, m)
            == Drain.PreparedUpTo(gs[..n], prepared[..n], d, m) + Drain.PreparedUpTo(gs[n..][..k - n], prepared[n..], d, m)
  {
    var k := |prepared|;
    PreparedSplit(gs[..k], prepared, n, d, m);
    assert gs[..k][..n] == gs[..n] && gs[..k][n..] == gs[n..][..k - n];
  }

  lemma WithinSuffix(gs: seq<Grant>, prepared: seq<nat>, capacity: nat, n: nat)
    requires |prepared| == |gs| && n <= |gs| && Drain.WithinGrants(gs, prepared, capacity)
    ensures Drain.WithinGrants(gs[n..], prepared[n..], capacity)
  {
  }

  /** What is left has no frame before its own. */
  lemma NothingLeftBefore(l: Drain.Link, s: Drain.Modem, n: nat, rest: seq<Grant>)
    requires l.Valid() && Drain.Inv(l, s) && EndsMap(l, s, n) && rest == l.grants[n..]
    ensures Eligible(s.items, l.FrameTime(s.frame - 1)) == 0 && ShareSum(rest, s.frame, l.minislotsPerFrame) == 0
  {
    ReportAtEnd(l, s, n);
    NoneBeforeNoShares(rest, s.frame, l.minislotsPerFrame);
  }

  /** The bursts of what is left are within their grants, and first the next one to prepare. */
  lemma ForgottenFits(l: Drain.Link, s: Drain.Modem, n: nat, l': Drain.Link, s': Drain.Modem)
    requires l.Valid() && Drain.Inv(l, s) && n <= |s.prepared| && Placed(l.grants[n..], 0, l.end)
    requires l' == l.(grants := l.grants[n..]) && s' == Forgotten(s, n)
    ensures Drain.WithinGrants(l'.grants[..|s'.prepared|], s'.prepared, l'.capacity)
    ensures |s'.prepared| < |l'.grants| ==> s'.frame <= l'.FirstFrame(|s'.prepared|)
    ensures 0 < |s'.prepared| ==> l'.FirstFrame(|s'.prepared| - 1) == l.FirstFrame(|s.prepared| - 1)
  {
    assert l'.grants[..|s'.prepared|] == l.grants[..|s.prepared|][n..];
    WithinSuffix(l.grants[..|s.prepared|], s.prepared, l.capacity, n);
  }

  function Beyond(l: Drain.Link, s: Drain.Modem): nat
    requires l.Valid() && |s.prepared| <= |l.grants|
  {
    Drain.Beyond(l.grants[..|s.prepared|], s.frame - 1, s.frame * l.minislotsPerFrame, l.minislotsPerFrame)
  }

  lemma NoMinislots(capacity: nat, minislots: nat)
    ensures 0 <= capacity * minislots && capacity * 0 == 0
  {
  }

  lemma ForgetKeepsInv(l: Drain.Link, s: Drain.Modem, n: nat, l': Drain.Link, s': Drain.Modem)
    requires l.Valid() && Drain.Inv(l, s) && EndsMap(l, s, n) && NonEmpty(s.items)
    requires n <= |s.prepared| && Placed(l.grants[n..], 0, l.end)
    requires l' == l.(grants := l.grants[n..]) && s' == Forgotten(s, n)
    ensures Drain.Inv(l', s')
  {
    ForgottenFits(l, s, n, l', s');
    assert s.items != [] ==> n < |s.prepared| by {
      LastItem(l, s, n);
    }
    assert Eligible(s'.items, l'.FrameTime(s'.frame - 1)) == 0 && ShareSum(l'.grants, s'.frame, l'.minislotsPerFrame) == 0 by {
      NothingLeftBefore(l, s, n, l'.grants);
    }
    NoMinislots(l'.capacity, Beyond(l', s'));
    forall d | s'.frame - 1 <= d ensures Drain.Accounted(l', s', d) {
      ForgottenIsAccounted(l, s, n, d);
    }
  }

  /** A reported MAP may be forgotten. */
  lemma MapMayBeForgotten(l: Drain.Link, s: Drain.Modem, n: nat)
    requires l.Valid() && Drain.Inv(l, s) && EndsMap(l, s, n) && NonEmpty(s.items)
    requires n <= |s.prepared| && Placed(l.grants[n..], 0, l.end)
    ensures Drain.Inv(l.(grants := l.grants[n..]), Forgotten(s, n))
  {
    ForgetKeepsInv(l, s, n, l.(grants := l.grants[n..]), Forgotten(s, n));
  }

  /** What the transmit pipeline still holds was promised to later grants. */
  lemma LastItem(l: Drain.Link, s: Drain.Modem, n: nat)
    requires l.Valid() && Drain.Inv(l, s) && EndsMap(l, s, n) && NonEmpty(s.items) && n <= |s.prepared|
    ensures s.items != [] ==> n < |s.prepared|
  {
    if s.items != [] && |s.prepared| == n {
      assert s.items[0] in s.items;
      ReportAtEnd(l, s, n);
      EndIsBoundary(l, s, n);
      assert l.grants[..n][n - 1] == l.grants[n - 1];
      Drain.TimeOrder(l, l.FirstFrame(n - 1), s.frame - 1);
      FirstIsEarliest(s.items);
      assert false;
    }
  }

  // ----- What the calendar says about the frames to come

  /** The next job of a loaded MAP: the frame that is next to have minislots, or the report if there is none. */
  lemma {:induction false} NextSend(t: Timing, gs: seq<Grant>, start: int, frame: nat, lastSend: int) returns (next: nat)
    requires t.Valid() && frame <= t.ch.framesPerMap
    ensures frame <= next <= t.ch.framesPerMap
    ensures forall f: nat | frame <= f < next :: Share(gs, f, t.ch.minislotsPerFrame) == 0
    ensures SendEntries(t, gs, start, next, lastSend) == SendEntries(t, gs, start, frame, lastSend)
    ensures next < t.ch.framesPerMap ==> Share(gs, next, t.ch.minislotsPerFrame) > 0
    decreases t.ch.framesPerMap - frame
  {
    if frame == t.ch.framesPerMap || Share(gs, frame, t.ch.minislotsPerFrame) > 0 {
      next := frame;
    } else {
      next := NextSend(t, gs, start, frame + 1, lastSend);
    }
  }

  /** In a frame of the first MAP, only its own grants have minislots. */
  lemma ShareInMap(t: Timing, maps: seq<MapGrants>, to: nat, frame: nat)
    requires t.Valid() && maps != [] && MapsInOrder(t, maps, 0, to) && frame < t.ch.framesPerMap
    ensures var m := t.ch.minislotsPerFrame;
            Share(AllGrants(maps, m), maps[0].first + frame, m) == Share(maps[0].grants, frame, m)
  {
    var m, first := t.ch.minislotsPerFrame, maps[0].first;
    var rest := AllGrants(maps[1..], m);
    AllPlaced(t, maps[1..], first + t.ch.framesPerMap, to);
    PlacedNoneBefore(rest, first + t.ch.framesPerMap, (first + t.ch.framesPerMap) * m, to * m, m);
    NoneBeforeNoShares(rest, first + t.ch.framesPerMap, m);
    ShareConcat(Drain.Shifted(maps[0].grants, first * m), rest, first + frame, m);
    Drain.ShareOfShifted(maps[0].grants, first, frame, m);
  }

  /** Before the first MAP starts, nothing has minislots. */
  lemma NoShareBeforeMap(t: Timing, maps: seq<MapGrants>, to: nat)
    requires t.Valid() && maps != [] && MapsInOrder(t, maps, 0, to)
    ensures Drain.NoneBefore(AllGrants(maps, t.ch.minislotsPerFrame), maps[0].first, t.ch.minislotsPerFrame)
    ensures forall f: nat | f < maps[0].first :: Share(AllGrants(maps, t.ch.minislotsPerFrame), f, t.ch.minislotsPerFrame) == 0
  {
    var m, first := t.ch.minislotsPerFrame, maps[0].first;
    AllPlaced(t, maps, first, to);
    PlacedNoneBefore(AllGrants(maps, m), first, first * m, to * m, m);
    NoneBeforeNoShares(AllGrants(maps, m), first, m);
  }

  // ----- The grant pipeline

  /** Grants in the numbering of the run, as they stand in the grant pipeline. */
  function Pending(t: Timing, gs: seq<Grant>): seq<Item>
    requires t.Valid()
  {
    GrantItems(gs, t.ch.capacity, 0, t.ch.minislotsPerFrame, t.frameDuration)
  }

  lemma {:induction false} PendingConcat(t: Timing, a: seq<Grant>, b: seq<Grant>)
    requires t.Valid()
    ensures Pending(t, a + b) == Pending(t, a) + Pending(t, b)
  {
    if a == [] {
      assert a + b == b;
    } else {
      PendingConcat(t, a[1..], b);
      assert (a + b)[1..] == a[1..] + b;
      var head := Item(a[0].length * t.ch.capacity, a[0].offset / t.ch.minislotsPerFrame * t.frameDuration);
      assert [head] + (Pending(t, a[1..]) + Pending(t, b)) == [head] + Pending(t, a[1..]) + Pending(t, b);
    }
  }

  lemma ShiftedFrame(first: nat, offset: nat, m: nat, duration: nat)
    requires 0 < m
    ensures (first * m + offset) / m * duration == first * duration + offset / m * duration
  {
    QuotientShifts(first, offset, m);
    MulDistributes(first, offset / m, duration);
  }

  lemma QuotientShifts(first: nat, offset: nat, m: nat)
    requires 0 < m
    ensures (first * m + offset) / m == first + offset / m
  {
    var q, r := offset / m, offset % m;
    assert offset == m * q + r;
    MulDistributes(first, q, m);
    QuotientIs(first * m + offset, m, first + q, r);
  }

  lemma QuotientIs(x: nat, m: nat, q: nat, r: nat)
    requires 0 < m && x == q * m + r && r < m
    ensures x / m == q
  {
    assert x == m * (x / m) + x % m;
    if x / m < q {
      MulMonotone(x / m + 1, q, m);
    } else if q < x / m {
      MulMonotone(q + 1, x / m, m);
    }
  }

  lemma {:induction false} PendingShifted(t: Timing, gs: seq<Grant>, first: nat)
    requires t.Valid()
    ensures var m := t.ch.minislotsPerFrame;
            Pending(t, Drain.Shifted(gs, first * m)) == GrantItems(gs, t.ch.capacity, Start(t, first), m, t.frameDuration)
  {
    if gs != [] {
      var m := t.ch.minislotsPerFrame;
      PendingShifted(t, gs[1..], first);
      ShiftedFrame(first, gs[0].offset, m, t.frameDuration);
      assert Drain.Shifted(gs, first * m)[1..] == Drain.Shifted(gs[1..], first * m);
    }
  }

  lemma {:induction false} GrantBytes(t: Timing, gs: seq<Grant>, start: int)
    requires t.Valid()
    ensures Total(GrantItems(gs, t.ch.capacity, start, t.ch.minislotsPerFrame, t.frameDuration)) == t.ch.capacity * Lengths(gs)
  {
    if gs != [] {
      GrantBytes(t, gs[1..], start);
      assert t.ch.capacity * Lengths(gs) == gs[0].length * t.ch.capacity + t.ch.capacity * Lengths(gs[1..]) by {
        MulDistributes(gs[0].length, Lengths(gs[1..]), t.ch.capacity);
      }
      FirstItem(gs, t.ch.capacity, start, t.ch.minislotsPerFrame, t.frameDuration);
    }
  }

  lemma FirstItem(gs: seq<Grant>, capacity: nat, start: int, m: nat, duration: nat)
    requires gs != [] && 0 < m
    ensures Total(GrantItems(gs, capacity, start, m, duration))
         == gs[0].length * capacity + Total(GrantItems(gs[1..], capacity, start, m, duration))
  {
    var rest := GrantItems(gs[1..], capacity, start, m, duration);
    if gs[0].length > 0 {
      assert GrantItems(gs, capacity, start, m, duration)[1..] == rest;
    }
  }

  lemma {:induction false} ShiftedLengths(gs: seq<Grant>, start: nat)
    ensures Lengths(Drain.Shifted(gs, start)) == Lengths(gs)
  {
    if gs != [] {
      ShiftedLengths(gs[1..], start);
      assert Drain.Shifted(gs, start)[1..] == Drain.Shifted(gs[1..], start);
    }
  }

  /** The first pending grant. */
  lemma FirstPending(t: Timing, l: Drain.Link, k: nat)
    requires t.Valid() && l.Valid() && l.capacity == t.ch.capacity
    requires l.minislotsPerFrame == t.ch.minislotsPerFrame && l.frameDuration == t.frameDuration && k <= |l.grants|
    ensures var items := Pending(t, l.grants[k..]);
            if k == |l.grants| then items == []
            else
              && items != [] && items[0] == Item(l.grants[k].length * t.ch.capacity, l.FrameTime(l.FirstFrame(k)))
              && items[1..] == Pending(t, l.grants[k + 1..])
  {
    if k < |l.grants| {
      PlacedIsDisjoint(l.grants, 0, l.end);
      assert l.grants[k..][0] == l.grants[k] && l.grants[k..][1..] == l.grants[k + 1..];
    }
  }

  // ----- The invariant

  function LinkOf(t: Timing, d: Device): Drain.Link {
    var m := t.ch.minislotsPerFrame;
    Drain.Link(t.ch.capacity, m, t.frameDuration, AllGrants(d.maps, m), d.endFrame * m)
  }

  /** The MAPs that are not reported yet, and what was promised and used of them. */
  ghost predicate LinkInv(t: Timing, d: Device) {
    && t.Valid()
    && MapsInOrder(t, d.maps, 0, d.endFrame) && d.modem.frame <= d.endFrame
    && LinkOf(t, d).Valid() && Drain.Inv(LinkOf(t, d), d.modem) && NonEmpty(d.modem.items)
  }

  /** The jobs that are left to send and report the MAPs. */
  predicate SendsAreLeft(t: Timing, d: Device)
    requires t.Valid()
  {
    var sends := Of(d.station.calendar, Sending);
    if !d.station.loaded then sends == AllSends(t, d.maps)
    else
      && d.maps != []
      && d.maps[0].first <= d.modem.frame <= d.maps[0].first + t.ch.framesPerMap
      && sends == SendEntries(t, d.maps[0].grants, Start(t, d.maps[0].first), d.modem.frame - d.maps[0].first, d.lastSend)
                  + AllSends(t, d.maps[1..])
  }

  predicate Counters(t: Timing, d: Device)
    requires t.Valid()
  {
    if !d.station.loaded then d.modem.used == 0 && d.modem.unused == 0 && (d.maps != [] ==> d.modem.frame <= d.maps[0].first)
    else
      && d.maps != [] && d.granted == t.ch.capacity * Lengths(d.maps[0].grants)
      && d.lastSend <= t.FrameTime(Start(t, d.maps[0].first), t.ch.framesPerMap - 1)
  }

  /** Calendar and MAPs agree: the grants without a burst are those in the grant pipeline. */
  predicate Agree(t: Timing, d: Device)
    requires t.Valid()
  {
    && |d.modem.prepared| <= |LinkOf(t, d).grants|
    && d.station.pipeline == Pending(t, LinkOf(t, d).grants[|d.modem.prepared|..])
    && d.station.horizon == Start(t, d.endFrame)
  }

  ghost predicate DeviceInv(t: Timing, d: Device) {
    LinkInv(t, d) && Agree(t, d) && SendsAreLeft(t, d) && Counters(t, d) && Inv(t, d.station)
  }

  // ----- A MAP arrives, or a request is scheduled

  lemma EndOfMap(t: Timing, first: nat)
    ensures t.MapEnd(Start(t, first)) == Start(t, first + t.ch.framesPerMap)
  {
    MulDistributes(first, t.ch.framesPerMap, t.frameDuration);
  }

  lemma ArrivedMaps(t: Timing, d: Device, last: MapGrants, more: seq<Grant>, m: nat)
    requires t.Valid() && MapsInOrder(t, d.maps, 0, d.endFrame) && d.modem.frame <= d.endFrame
    requires d.endFrame <= last.first && Placed(last.grants, 0, t.ch.MinislotsPerMap())
    requires m == t.ch.minislotsPerFrame && more == Drain.Shifted(last.grants, last.first * m)
    ensures var d' := Arrived(t, d, last);
            && MapsInOrder(t, d'.maps, 0, d'.endFrame)
            && AllGrants(d'.maps, m) == AllGrants(d.maps, m) + more
            && Placed(AllGrants(d'.maps, m), 0, d'.endFrame * m)
    ensures Drain.NoneBefore(more, d.modem.frame, m)
  {
    OrderAppend(t, d.maps, 0, d.endFrame, last);
    AllAppend(t, d.maps, last, m);
    AllPlaced(t, d.maps + [last], 0, last.first + t.ch.framesPerMap);
    assert Drain.NoneBefore(more, d.modem.frame, m) by {
      NewGrantsBehind(last, d.modem.frame, t.ch.MinislotsPerMap(), m);
    }
  }

  lemma NewGrantsBehind(last: MapGrants, frame: nat, length: nat, m: nat)
    requires 0 < m && frame <= last.first && Placed(last.grants, 0, length)
    ensures Drain.NoneBefore(Drain.Shifted(last.grants, last.first * m), frame, m)
  {
    ShiftedPlaced(last.grants, last.first * m, 0, length);
    MulMonotone(frame, last.first, m);
    PlacedNoneBefore(Drain.Shifted(last.grants, last.first * m), frame, last.first * m, last.first * m + length, m);
  }

  lemma ArriveKeepsLink(t: Timing, d: Device, last: MapGrants)
    requires LinkInv(t, d) && d.endFrame <= last.first && Placed(last.grants, 0, t.ch.MinislotsPerMap())
    ensures LinkInv(t, Arrived(t, d, last))
  {
    var l, d' := LinkOf(t, d), Arrived(t, d, last);
    var more, end := Drain.Shifted(last.grants, last.first * l.minislotsPerFrame), d'.endFrame * l.minislotsPerFrame;
    ArrivedMaps(t, d, last, more, l.minislotsPerFrame);
    assert LinkOf(t, d') == l.(grants := l.grants + more, end := end);
    assert Drain.Inv(l.(grants := l.grants + more, end := end), d.modem) by {
      GrantsMayCome(l, d.modem, more, end);
    }
  }

  lemma ArriveKeepsAgreement(t: Timing, d: Device, last: MapGrants, s: Station)
    requires t.Valid() && Agree(t, d)
    requires s.pipeline
          == d.station.pipeline
             + GrantItems(last.grants, t.ch.capacity, Start(t, last.first), t.ch.minislotsPerFrame, t.frameDuration)
    requires s.horizon == t.MapEnd(Start(t, last.first))
    ensures Agree(t, Arrived(t, d, last).(station := s))
  {
    var m, k := t.ch.minislotsPerFrame, |d.modem.prepared|;
    var gs, more := LinkOf(t, d).grants, Drain.Shifted(last.grants, last.first * m);
    assert LinkOf(t, Arrived(t, d, last)).grants == gs + more by {
      AllAppend(t, d.maps, last, m);
    }
    assert Pending(t, (gs + more)[k..]) == Pending(t, gs[k..]) + Pending(t, more) by {
      assert (gs + more)[k..] == gs[k..] + more;
      PendingConcat(t, gs[k..], more);
    }
    PendingShifted(t, last.grants, last.first);
    EndOfMap(t, last.first);
  }

  lemma ArriveKeepsSends(t: Timing, d: Device, last: MapGrants, s: Station)
    requires t.Valid() && SendsAreLeft(t, d) && Counters(t, d) && d.modem.frame <= d.endFrame <= last.first
    requires s.loaded == d.station.loaded
    requires Of(s.calendar, Sending) == Of(d.station.calendar, Sending) + LoadAndSend(t, last.grants, Start(t, last.first))
    ensures SendsAreLeft(t, Arrived(t, d, last).(station := s)) && Counters(t, Arrived(t, d, last).(station := s))
  {
    AllAppend(t, d.maps, last, t.ch.minislotsPerFrame);
    if d.station.loaded {
      AllAppend(t, d.maps[1..], last, t.ch.minislotsPerFrame);
      assert (d.maps + [last])[1..] == d.maps[1..] + [last];
      EntriesRegroup(SendEntries(t, d.maps[0].grants, Start(t, d.maps[0].first), d.modem.frame - d.maps[0].first, d.lastSend),
                     AllSends(t, d.maps[1..]), LoadAndSend(t, last.grants, Start(t, last.first)));
    }
  }

  /** What the station says after a MAP arrived. */
  predicate StationArrived(t: Timing, before: Station, s: Station, last: MapGrants, start: int)
    requires t.Valid()
  {
    && s.loaded == before.loaded && s.horizon == t.MapEnd(start)
    && s.pipeline
       == before.pipeline + GrantItems(last.grants, t.ch.capacity, start, t.ch.minislotsPerFrame, t.frameDuration)
    && Of(s.calendar, Sending) == Of(before.calendar, Sending) + LoadAndSend(t, last.grants, start)
  }

  lemma ArrivedFacts(t: Timing, before: Station, at: int, last: MapGrants, s: Station, start: int, items: seq<Item>, sends: seq<Entry>)
    requires t.Valid() && Inv(t, before) && Enabled(t, before, MapArrives(at, last.grants))
    requires s == WithMap(t, before, at, last.grants) && start == at + t.mapProcessing
    requires sends == LoadAndSend(t, last.grants, start)
    requires items == GrantItems(last.grants, t.ch.capacity, start, t.ch.minislotsPerFrame, t.frameDuration)
    ensures s.loaded == before.loaded && s.horizon == t.MapEnd(start) && s.pipeline == before.pipeline + items
    ensures Of(s.calendar, Sending) == Of(before.calendar, Sending) + sends
  {
    MapAddsSends(t, before, at, last.grants, s, start, sends);
  }

  lemma ArrivedStation(t: Timing, before: Station, at: int, last: MapGrants, s: Station, start: int)
    requires t.Valid() && Inv(t, before) && Enabled(t, before, MapArrives(at, last.grants))
    requires s == WithMap(t, before, at, last.grants) && start == at + t.mapProcessing
    ensures StationArrived(t, before, s, last, start)
  {
    ArrivedFacts(t, before, at, last, s, start,
                 GrantItems(last.grants, t.ch.capacity, start, t.ch.minislotsPerFrame, t.frameDuration),
                 LoadAndSend(t, last.grants, start));
  }

  lemma LinkIgnoresStation(t: Timing, d: Device, s: Station)
    requires LinkInv(t, d)
    ensures LinkInv(t, d.(station := s))
  {
    assert LinkOf(t, d.(station := s)) == LinkOf(t, d);
  }

  lemma ArriveKeepsParts(t: Timing, d: Device, last: MapGrants, s: Station, d': Device)
    requires LinkInv(t, d) && Agree(t, d) && SendsAreLeft(t, d) && Counters(t, d)
    requires d.endFrame <= last.first && Placed(last.grants, 0, t.ch.MinislotsPerMap())
    requires StationArrived(t, d.station, s, last, Start(t, last.first)) && d' == Arrived(t, d, last).(station := s)
    ensures LinkInv(t, d') && Agree(t, d') && SendsAreLeft(t, d') && Counters(t, d')
  {
    assert LinkInv(t, d') by {
      ArriveKeepsLink(t, d, last);
      LinkIgnoresStation(t, Arrived(t, d, last), s);
    }
    assert Agree(t, d') by {
      ArriveKeepsAgreement(t, d, last, s);
    }
    ArriveKeepsSends(t, d, last, s);
  }

  lemma ArriveKeepsInv(t: Timing, d: Device, last: MapGrants, at: int, s: Station, d': Device)
    requires DeviceInv(t, d) && Possible(t, d, Arrive(last.first, last.grants)) && at == Start(t, last.first) - t.mapProcessing
    requires s == WithMap(t, d.station, at, last.grants) && d' == Arrived(t, d, last).(station := s)
    ensures DeviceInv(t, d')
  {
    ArrivedStation(t, d.station, at, last, s, Start(t, last.first));
    MapKeepsInv(t, d.station, at, last.grants, s, Start(t, last.first));
    ArriveKeepsParts(t, d, last, s, d');
  }

  /** A change of the station alone. */
  lemma StationChanges(t: Timing, d: Device, s: Station)
    requires LinkInv(t, d) && Agree(t, d) && SendsAreLeft(t, d) && Counters(t, d)
    requires s.pipeline == d.station.pipeline && s.horizon == d.station.horizon && s.loaded == d.station.loaded
    requires Of(s.calendar, Sending) == Of(d.station.calendar, Sending)
    ensures var d' := d.(station := s);
            LinkInv(t, d') && Agree(t, d') && SendsAreLeft(t, d') && Counters(t, d')
  {
    assert LinkOf(t, d.(station := s)) == LinkOf(t, d);
  }

  lemma AskKeepsDevice(t: Timing, d: Device, at: int, time: int)
    requires DeviceInv(t, d) && Possible(t, d, Ask(at, time))
    ensures DeviceInv(t, After(t, d, Ask(at, time)))
  {
    var s := Next(t, d.station, AskLater(at, time));
    assert Inv(t, s) by {
      AskKeepsInv(t, d.station, at, time);
    }
    assert Of(s.calendar, Sending) == Of(d.station.calendar, Sending) by {
      AskSends(t, d.station, at, time);
    }
    StationChanges(t, d, s);
  }

  lemma AskSends(t: Timing, s: Station, at: int, time: int)
    requires t.Valid() && Inv(t, s) && Enabled(t, s, AskLater(at, time))
    ensures Of(Next(t, s, AskLater(at, time)).calendar, Sending) == Of(s.calendar, Sending)
  {
    SortedAt(s.calendar, s.now, at);
    ScheduleLast(s.calendar, Entry(time, Request), Sending, at);
  }

  // ----- A job runs

  lemma RequestKeepsRest(t: Timing, d: Device)
    requires DeviceInv(t, d) && d.station.calendar != [] && d.station.calendar[0].job.Request?
    requires Proper(t, d.station, d.station.calendar[0])
    ensures var d' := d.(station := Next(t, d.station, RunNext));
            LinkInv(t, d') && Agree(t, d') && SendsAreLeft(t, d') && Counters(t, d')
  {
    assert Of(d.station.calendar[1..], Sending) == Of(d.station.calendar, Sending) by {
      FirstOf(d.station.calendar, Sending);
    }
    StationChanges(t, d, Next(t, d.station, RunNext));
  }

  lemma RequestKeepsDevice(t: Timing, d: Device, bytes: nat)
    requires DeviceInv(t, d) && d.station.calendar != [] && d.station.calendar[0].job.Request?
    ensures RunsRight(t, d, d.station.calendar[0]) && DeviceInv(t, AfterJob(t, d, bytes))
  {
    assert Proper(t, d.station, d.station.calendar[0]) by {
      NextIsProper(t, d.station);
    }
    assert Inv(t, Next(t, d.station, RunNext)) by {
      RunKeepsInv(t, d.station);
    }
    RequestKeepsRest(t, d);
  }

  lemma PromisedNonEmpty(items: seq<Item>, bytes: nat, time: int)
    requires NonEmpty(items)
    ensures NonEmpty(Promised(items, bytes, time))
  {
  }

  lemma {:induction false} RemovedNonEmpty(items: seq<Item>, bytes: nat)
    requires NonEmpty(items)
    ensures NonEmpty(Removed(items, bytes))
  {
    if items != [] && bytes != 0 {
      assert items == [items[0]] + items[1..];
      if items[0].bytes <= bytes {
        RemovedNonEmpty(items[1..], bytes - items[0].bytes);
      }
    }
  }

  /** A burst is promised bytes of the first pending grant. */
  function Promise(d: Device, bytes: nat): Device
    requires d.station.pipeline != []
  {
    var s := d.modem;
    d.(modem := s.(items := Promised(s.items, bytes, d.station.pipeline[0].time), prepared := s.prepared + [bytes]))
  }

  lemma PrepareKeepsLink(t: Timing, d: Device, bytes: nat)
    requires LinkInv(t, d) && Agree(t, d) && d.station.pipeline != [] && bytes <= d.station.pipeline[0].bytes
    ensures LinkInv(t, Promise(d, bytes))
    ensures Agree(t, Promise(d, bytes).(station := d.station.(pipeline := d.station.pipeline[1..])))
  {
    var l, k := LinkOf(t, d), |d.modem.prepared|;
    FirstPending(t, l, k);
    assert Drain.Inv(l, Promise(d, bytes).modem) by {
      Drain.PrepareKeepsInv(l, d.modem, bytes);
    }
    PromisedNonEmpty(d.modem.items, bytes, l.FrameTime(l.FirstFrame(k)));
  }

  lemma PrepareKeepsSends(t: Timing, d: Device, bytes: nat, s: Station)
    requires t.Valid() && SendsAreLeft(t, d) && Counters(t, d) && d.station.pipeline != []
    requires s.loaded == d.station.loaded && Of(s.calendar, Sending) == Of(d.station.calendar, Sending)
    ensures SendsAreLeft(t, Promise(d, bytes).(station := s)) && Counters(t, Promise(d, bytes).(station := s))
  {
  }

  lemma PrepareKeepsRest(t: Timing, d: Device, bytes: nat)
    requires DeviceInv(t, d) && Possible(t, d, Run(bytes)) && d.station.calendar[0].job.Prepare?
    requires Proper(t, d.station, d.station.calendar[0])
    ensures var s := Next(t, d.station, RunNext);
            var d' := Promise(d, bytes).(station := s);
            LinkInv(t, d') && Agree(t, d') && SendsAreLeft(t, d') && Counters(t, d')
  {
    var s := Next(t, d.station, RunNext);
    assert Of(s.calendar, Sending) == Of(d.station.calendar, Sending) by {
      FirstOf(d.station.calendar, Sending);
    }
    PrepareKeepsSends(t, d, bytes, s);
    assert LinkInv(t, Promise(d, bytes).(station := s)) by {
      PrepareKeepsLink(t, d, bytes);
      LinkIgnoresStation(t, Promise(d, bytes), s);
    }
    assert Agree(t, Promise(d, bytes).(station := s)) by {
      PrepareKeepsLink(t, d, bytes);
    }
  }

  lemma AfterPreparation(t: Timing, d: Device, bytes: nat)
    requires t.Valid() && Possible(t, d, Run(bytes)) && d.station.calendar[0].job.Prepare?
    requires RunsRight(t, d, d.station.calendar[0])
    ensures d.station.pipeline != []
    ensures AfterJob(t, d, bytes) == Promise(d, bytes).(station := Next(t, d.station, RunNext))
  {
  }

  lemma PrepareKeepsDevice(t: Timing, d: Device, bytes: nat)
    requires DeviceInv(t, d) && Possible(t, d, Run(bytes)) && d.station.calendar[0].job.Prepare?
    ensures RunsRight(t, d, d.station.calendar[0]) && DeviceInv(t, AfterJob(t, d, bytes))
  {
    assert Proper(t, d.station, d.station.calendar[0]) by {
      NextIsProper(t, d.station);
    }
    assert Inv(t, Next(t, d.station, RunNext)) by {
      RunKeepsInv(t, d.station);
    }
    AfterPreparation(t, d, bytes);
    PrepareKeepsRest(t, d, bytes);
  }

  // ----- A MAP is loaded

  lemma {:induction false} OrderBounds(t: Timing, maps: seq<MapGrants>, from: nat, to: nat)
    requires MapsInOrder(t, maps, from, to)
    ensures from <= to
    ensures maps != [] ==> maps[0].first + t.ch.framesPerMap <= to
  {
    if maps != [] {
      OrderBounds(t, maps[1..], maps[0].first + t.ch.framesPerMap, to);
    }
  }

  /** The first MAP becomes the loaded one. */
  function Loaded(t: Timing, d: Device, s: Station): Device
    requires d.maps != []
  {
    d.(modem := d.modem.(frame := d.maps[0].first, used := 0, unused := 0),
       granted := t.ch.capacity * Lengths(d.maps[0].grants), lastSend := Start(t, d.maps[0].first), station := s)
  }

  lemma LoadIsNext(t: Timing, d: Device)
    requires t.Valid() && SendsAreLeft(t, d) && !d.station.loaded
    requires d.station.calendar != [] && d.station.calendar[0].job.Load?
    ensures d.maps != []
    ensures var e, start := d.station.calendar[0], Start(t, d.maps[0].first);
            && e.time == start && e.job.grantBytes == t.ch.capacity * Lengths(d.maps[0].grants)
            && Of(d.station.calendar[1..], Sending) == SendEntries(t, d.maps[0].grants, start, 0, start) + AllSends(t, d.maps[1..])
  {
    FirstOf(d.station.calendar, Sending);
    assert d.maps != [];
    var start := Start(t, d.maps[0].first);
    var sends := SendEntries(t, d.maps[0].grants, start, 0, start);
    var load := Entry(start, Load(Total(GrantItems(d.maps[0].grants, t.ch.capacity, start, t.ch.minislotsPerFrame, t.frameDuration))));
    EntriesRegroup([load], sends, AllSends(t, d.maps[1..]));
    assert ([load] + (sends + AllSends(t, d.maps[1..])))[1..] == sends + AllSends(t, d.maps[1..]);
    GrantBytes(t, d.maps[0].grants, start);
  }

  lemma LoadKeepsLink(t: Timing, d: Device, s: Station)
    requires LinkInv(t, d) && d.maps != [] && d.modem.frame <= d.maps[0].first && d.modem.used == 0 && d.modem.unused == 0
    ensures LinkInv(t, Loaded(t, d, s))
  {
    NoShareBeforeMap(t, d.maps, d.endFrame);
    OrderBounds(t, d.maps, 0, d.endFrame);
    FramesMayBeSkipped(LinkOf(t, d), d.modem, d.maps[0].first);
    assert LinkOf(t, Loaded(t, d, s)) == LinkOf(t, d);
  }

  lemma LoadKeepsRest(t: Timing, d: Device, s: Station)
    requires t.Valid() && Agree(t, d) && d.maps != []
    requires s.pipeline == d.station.pipeline && s.horizon == d.station.horizon && s.loaded
    requires var start := Start(t, d.maps[0].first);
             Of(s.calendar, Sending) == SendEntries(t, d.maps[0].grants, start, 0, start) + AllSends(t, d.maps[1..])
    ensures var d' := Loaded(t, d, s);
            Agree(t, d') && SendsAreLeft(t, d') && Counters(t, d')
  {
    MulMonotone(0, t.ch.framesPerMap - 1, t.frameDuration);
    assert LinkOf(t, Loaded(t, d, s)) == LinkOf(t, d);
  }

  lemma AfterLoad(t: Timing, d: Device, bytes: nat)
    requires t.Valid() && d.station.calendar != [] && d.station.calendar[0].job.Load? && RunsRight(t, d, d.station.calendar[0])
    requires d.station.calendar[0].time == Start(t, d.maps[0].first)
    requires d.station.calendar[0].job.grantBytes == t.ch.capacity * Lengths(d.maps[0].grants)
    ensures AfterJob(t, d, bytes) == Loaded(t, d, Next(t, d.station, RunNext))
  {
  }

  lemma LoadKeepsDevice(t: Timing, d: Device, bytes: nat)
    requires DeviceInv(t, d) && d.station.calendar != [] && d.station.calendar[0].job.Load?
    ensures RunsRight(t, d, d.station.calendar[0]) && DeviceInv(t, AfterJob(t, d, bytes))
  {
    assert Proper(t, d.station, d.station.calendar[0]) by {
      NextIsProper(t, d.station);
    }
    var s := Next(t, d.station, RunNext);
    assert Inv(t, s) by {
      RunKeepsInv(t, d.station);
    }
    LoadIsNext(t, d);
    AfterLoad(t, d, bytes);
    assert LinkInv(t, Loaded(t, d, s)) by {
      LoadKeepsLink(t, d, s);
    }
    LoadKeepsRest(t, d, s);
  }

  // ----- A frame runs

  /** The jobs of the loaded MAP from a frame on, and those of the MAPs behind it. */
  function SendsFrom(t: Timing, d: Device, next: nat, lastSend: int): seq<Entry>
    requires t.Valid() && d.maps != [] && next <= t.ch.framesPerMap
  {
    SendEntries(t, d.maps[0].grants, Start(t, d.maps[0].first), next, lastSend) + AllSends(t, d.maps[1..])
  }

  /** The frames without minislots that the loaded MAP's next job passes over. */
  lemma SkipInMap(t: Timing, d: Device, next: nat)
    requires LinkInv(t, d) && d.maps != [] && d.maps[0].first <= d.modem.frame <= d.maps[0].first + next
    requires next <= t.ch.framesPerMap
    requires forall f: nat | d.modem.frame - d.maps[0].first <= f < next :: Share(d.maps[0].grants, f, t.ch.minislotsPerFrame) == 0
    ensures LinkInv(t, d.(modem := d.modem.(frame := d.maps[0].first + next)))
  {
    var first := d.maps[0].first;
    forall f: nat | d.modem.frame <= f < first + next ensures Share(LinkOf(t, d).grants, f, t.ch.minislotsPerFrame) == 0 {
      ShareInMap(t, d.maps, d.endFrame, f - first);
    }
    OrderBounds(t, d.maps, 0, d.endFrame);
    SkipKeepsLink(t, d, first + next);
  }

  lemma NextOfMap(t: Timing, d: Device) returns (next: nat)
    requires LinkInv(t, d) && SendsAreLeft(t, d) && d.station.loaded
    ensures d.modem.frame - d.maps[0].first <= next <= t.ch.framesPerMap
    ensures Of(d.station.calendar, Sending) == SendsFrom(t, d, next, d.lastSend)
    ensures next < t.ch.framesPerMap ==>
              var share := Share(d.maps[0].grants, next, t.ch.minislotsPerFrame);
              0 < share == Share(LinkOf(t, d).grants, d.maps[0].first + next, t.ch.minislotsPerFrame)
    ensures LinkInv(t, d.(modem := d.modem.(frame := d.maps[0].first + next)))
  {
    next := NextSend(t, d.maps[0].grants, Start(t, d.maps[0].first), d.modem.frame - d.maps[0].first, d.lastSend);
    SkipInMap(t, d, next);
    if next < t.ch.framesPerMap {
      ShareInMap(t, d.maps, d.endFrame, next);
    }
  }

  lemma SkipKeepsLink(t: Timing, d: Device, frame: nat)
    requires LinkInv(t, d) && d.modem.frame <= frame <= d.endFrame
    requires forall f: nat | d.modem.frame <= f < frame :: Share(LinkOf(t, d).grants, f, t.ch.minislotsPerFrame) == 0
    ensures LinkInv(t, d.(modem := d.modem.(frame := frame)))
  {
    FramesMayBeSkipped(LinkOf(t, d), d.modem, frame);
    assert LinkOf(t, d.(modem := d.modem.(frame := frame))) == LinkOf(t, d);
  }

  /** A frame of the run uses what is eligible. */
  function Sent(t: Timing, d: Device, frame: nat, minislots: nat, s: Station): Device {
    var m := d.modem;
    var used := Usable(m.items, minislots * t.ch.capacity, Start(t, frame));
    d.(modem := m.(items := Removed(m.items, used), frame := frame + 1, used := m.used + used,
                   unused := m.unused + minislots * t.ch.capacity - used),
       lastSend := Start(t, frame), station := s)
  }

  lemma FrameIsNext(t: Timing, d: Device) returns (next: nat)
    requires LinkInv(t, d) && SendsAreLeft(t, d) && d.station.loaded
    requires d.station.calendar != [] && d.station.calendar[0].job.Frame?
    ensures d.maps != [] && d.modem.frame - d.maps[0].first <= next < t.ch.framesPerMap
    ensures var e, frame := d.station.calendar[0], d.maps[0].first + next;
            && e.time == Start(t, frame)
            && e.job.minislots == Share(LinkOf(t, d).grants, frame, t.ch.minislotsPerFrame)
            && Of(d.station.calendar[1..], Sending) == SendsFrom(t, d, next + 1, e.time)
            && LinkInv(t, d.(modem := d.modem.(frame := frame)))
  {
    next := NextOfMap(t, d);
    FirstOf(d.station.calendar, Sending);
    var start, gs := Start(t, d.maps[0].first), d.maps[0].grants;
    MulDistributes(d.maps[0].first, next, t.frameDuration);
    var e := Entry(t.FrameTime(start, next), Frame(Share(gs, next, t.ch.minislotsPerFrame)));
    var rest := SendEntries(t, gs, start, next + 1, e.time);
    EntriesRegroup([e], rest, AllSends(t, d.maps[1..]));
    assert ([e] + (rest + AllSends(t, d.maps[1..])))[1..] == rest + AllSends(t, d.maps[1..]);
  }

  lemma FrameKeepsLink(t: Timing, d: Device, frame: nat, s: Station)
    requires LinkInv(t, d) && d.modem.frame == frame < d.endFrame && Agree(t, d)
    requires d.station.pipeline != [] ==> Start(t, frame) < d.station.pipeline[0].time
    ensures LinkInv(t, Sent(t, d, frame, Share(LinkOf(t, d).grants, frame, t.ch.minislotsPerFrame), s))
  {
    var l, k := LinkOf(t, d), |d.modem.prepared|;
    var minislots := Share(l.grants, frame, t.ch.minislotsPerFrame);
    FirstPending(t, l, k);
    if k < |l.grants| {
      Drain.TimeOrder(l, l.FirstFrame(k), frame);
    }
    assert Drain.Inv(l, Drain.Step(l, d.modem, Drain.Frame)) by {
      Drain.FrameKeepsInv(l, d.modem);
    }
    RemovedNonEmpty(d.modem.items, Usable(d.modem.items, minislots * t.ch.capacity, Start(t, frame)));
    assert Sent(t, d, frame, minislots, s).modem == Drain.Step(l, d.modem, Drain.Frame);
    assert LinkOf(t, Sent(t, d, frame, minislots, s)) == l;
  }

  lemma FrameKeepsRest(t: Timing, d: Device, next: nat, minislots: nat, s: Station)
    requires t.Valid() && Agree(t, d) && Counters(t, d) && d.station.loaded && next < t.ch.framesPerMap
    requires s.pipeline == d.station.pipeline && s.horizon == d.station.horizon && s.loaded
    requires Of(s.calendar, Sending) == SendsFrom(t, d, next + 1, Start(t, d.maps[0].first + next))
    ensures var d' := Sent(t, d, d.maps[0].first + next, minislots, s);
            Agree(t, d') && SendsAreLeft(t, d') && Counters(t, d')
  {
    var d' := Sent(t, d, d.maps[0].first + next, minislots, s);
    MulDistributes(d.maps[0].first, next, t.frameDuration);
    MulMonotone(next, t.ch.framesPerMap - 1, t.frameDuration);
    assert LinkOf(t, d') == LinkOf(t, d);
  }

  lemma AfterFrame(t: Timing, d: Device, frame: nat, bytes: nat)
    requires t.Valid() && d.station.calendar != [] && d.station.calendar[0].job.Frame? && RunsRight(t, d, d.station.calendar[0])
    requires d.station.calendar[0].time == Start(t, frame)
    ensures AfterJob(t, d, bytes) == Sent(t, d, frame, d.station.calendar[0].job.minislots, Next(t, d.station, RunNext))
  {
    QuotientIs(frame * t.frameDuration, t.frameDuration, frame, 0);
  }

  lemma FrameKeepsParts(t: Timing, d: Device, s: Station, next: nat, frame: nat, minislots: nat, d': Device)
    requires t.Valid() && Agree(t, d) && Counters(t, d) && d.station.loaded && next < t.ch.framesPerMap
    requires frame == d.maps[0].first + next < d.endFrame && minislots == Share(LinkOf(t, d).grants, frame, t.ch.minislotsPerFrame)
    requires LinkInv(t, d.(modem := d.modem.(frame := frame)))
    requires d.station.pipeline != [] ==> Start(t, frame) < d.station.pipeline[0].time
    requires s.pipeline == d.station.pipeline && s.horizon == d.station.horizon && s.loaded
    requires Of(s.calendar, Sending) == SendsFrom(t, d, next + 1, Start(t, frame))
    requires d' == Sent(t, d, frame, minislots, s)
    ensures LinkInv(t, d') && Agree(t, d') && SendsAreLeft(t, d') && Counters(t, d')
  {
    FrameLink(t, d, frame, s);
    FrameKeepsRest(t, d, next, minislots, s);
  }

  lemma FrameStep(t: Timing, d: Device, s: Station) returns (frame: nat, d': Device)
    requires LinkInv(t, d) && Agree(t, d) && SendsAreLeft(t, d) && Counters(t, d) && d.station.loaded
    requires d.station.calendar != [] && d.station.calendar[0].job.Frame? && s.calendar == d.station.calendar[1..]
    requires d.station.pipeline != [] ==> d.station.calendar[0].time < d.station.pipeline[0].time
    requires s.pipeline == d.station.pipeline && s.horizon == d.station.horizon && s.loaded
    ensures d.station.calendar[0].time == Start(t, frame)
    ensures d' == Sent(t, d, frame, d.station.calendar[0].job.minislots, s)
    ensures LinkInv(t, d') && Agree(t, d') && SendsAreLeft(t, d') && Counters(t, d')
  {
    var next := FrameIsNext(t, d);
    var minislots := d.station.calendar[0].job.minislots;
    frame := d.maps[0].first + next;
    d' := Sent(t, d, frame, minislots, s);
    OrderBounds(t, d.maps, 0, d.endFrame);
    FrameKeepsParts(t, d, s, next, frame, minislots, d');
  }

  lemma FrameKeepsDevice(t: Timing, d: Device, bytes: nat)
    requires DeviceInv(t, d) && d.station.calendar != [] && d.station.calendar[0].job.Frame?
    ensures RunsRight(t, d, d.station.calendar[0]) && DeviceInv(t, AfterJob(t, d, bytes))
  {
    assert Proper(t, d.station, d.station.calendar[0]) by {
      NextIsProper(t, d.station);
    }
    var s := Next(t, d.station, RunNext);
    assert Inv(t, s) by {
      RunKeepsInv(t, d.station);
    }
    var frame, d' := FrameStep(t, d, s);
    AfterFrame(t, d, frame, bytes);
  }

  lemma FrameLink(t: Timing, d: Device, frame: nat, s: Station)
    requires LinkInv(t, d.(modem := d.modem.(frame := frame))) && Agree(t, d) && frame < d.endFrame
    requires d.station.pipeline != [] ==> Start(t, frame) < d.station.pipeline[0].time
    ensures LinkInv(t, Sent(t, d, frame, Share(LinkOf(t, d).grants, frame, t.ch.minislotsPerFrame), s))
  {
    var skipped := d.(modem := d.modem.(frame := frame));
    assert LinkOf(t, skipped) == LinkOf(t, d);
    FrameKeepsLink(t, skipped, frame, s);
    assert Sent(t, skipped, frame, Share(LinkOf(t, d).grants, frame, t.ch.minislotsPerFrame), s)
        == Sent(t, d, frame, Share(LinkOf(t, d).grants, frame, t.ch.minislotsPerFrame), s);
  }

  // ----- A MAP is reported

  lemma DumpIsNext(t: Timing, d: Device)
    requires LinkInv(t, d) && SendsAreLeft(t, d) && d.station.loaded
    requires d.station.calendar != [] && d.station.calendar[0].job.Dump?
    ensures d.maps != [] && d.station.calendar[0].time == d.lastSend + 1
    ensures Of(d.station.calendar[1..], Sending) == AllSends(t, d.maps[1..])
    ensures LinkInv(t, d.(modem := d.modem.(frame := d.maps[0].first + t.ch.framesPerMap)))
  {
    var next := NextOfMap(t, d);
    FirstOf(d.station.calendar, Sending);
    assert ([Entry(d.lastSend + 1, Dump)] + AllSends(t, d.maps[1..]))[1..] == AllSends(t, d.maps[1..]);
  }

  /** The loaded MAP's grants, and those behind it. */
  lemma LoadedMapEnds(t: Timing, d: Device)
    requires LinkInv(t, d) && d.maps != [] && d.modem.frame == d.maps[0].first + t.ch.framesPerMap
    ensures var l, n := LinkOf(t, d), |d.maps[0].grants|;
            && EndsMap(l, d.modem, n)
            && l.grants[n..] == AllGrants(d.maps[1..], t.ch.minislotsPerFrame) && Placed(l.grants[n..], 0, l.end)
            && Lengths(l.grants[..n]) == Lengths(d.maps[0].grants)
  {
    var m, first, gs := t.ch.minislotsPerFrame, d.maps[0].first, d.maps[0].grants;
    var own, rest := Drain.Shifted(gs, first * m), AllGrants(d.maps[1..], m);
    ShiftedPlaced(gs, first * m, 0, t.ch.MinislotsPerMap());
    ShiftedLengths(gs, first * m);
    assert LinkOf(t, d).grants[..|gs|] == own && LinkOf(t, d).grants[|gs|..] == rest;
    MulDistributes(first, t.ch.framesPerMap, m);
    PlacedWiden(own, 0, first * m, first * m + t.ch.MinislotsPerMap());
    AllPlaced(t, d.maps[1..], first + t.ch.framesPerMap, d.endFrame);
    PlacedNoneBefore(rest, first + t.ch.framesPerMap, (first + t.ch.framesPerMap) * m, d.endFrame * m, m);
    PlacedWiden(rest, 0, (first + t.ch.framesPerMap) * m, d.endFrame * m);
  }

  /** The MAP is reported and forgotten. */
  function Reported(t: Timing, d: Device, s: Station): Device
    requires d.maps != [] && |d.maps[0].grants| <= |d.modem.prepared|
  {
    d.(modem := Drain.Modem(d.modem.items, d.modem.prepared[|d.maps[0].grants|..], d.maps[0].first + t.ch.framesPerMap, 0, 0),
       maps := d.maps[1..], granted := 0, station := s)
  }

  /** What is left of the link when the first MAP is reported. */
  function Behind(t: Timing, d: Device): Drain.Link
    requires d.maps != []
  {
    LinkOf(t, d).(grants := AllGrants(d.maps[1..], t.ch.minislotsPerFrame))
  }

  lemma BehindInv(t: Timing, d: Device)
    requires LinkInv(t, d) && d.maps != [] && d.modem.frame == d.maps[0].first + t.ch.framesPerMap
    ensures |d.maps[0].grants| <= |d.modem.prepared|
    ensures Behind(t, d).Valid() && Drain.Inv(Behind(t, d), Forgotten(d.modem, |d.maps[0].grants|))
  {
    var l, n := LinkOf(t, d), |d.maps[0].grants|;
    LoadedMapEnds(t, d);
    assert n <= |d.modem.prepared| by {
      ReportAtEnd(l, d.modem, n);
    }
    assert Behind(t, d) == l.(grants := l.grants[n..]);
    MapMayBeForgotten(l, d.modem, n);
  }

  lemma DumpKeepsLink(t: Timing, d: Device, s: Station)
    requires LinkInv(t, d) && d.maps != [] && d.modem.frame == d.maps[0].first + t.ch.framesPerMap
    ensures |d.maps[0].grants| <= |d.modem.prepared|
    ensures LinkInv(t, Reported(t, d, s))
  {
    BehindInv(t, d);
    assert MapsInOrder(t, d.maps[1..], 0, d.endFrame) && d.maps[0].first + t.ch.framesPerMap <= d.endFrame by {
      OrderWiden(t, d.maps[1..], 0, d.maps[0].first + t.ch.framesPerMap, d.endFrame);
    }
    ReportedLink(t, d, s);
  }

  lemma ReportedLink(t: Timing, d: Device, s: Station)
    requires t.Valid() && d.maps != [] && |d.maps[0].grants| <= |d.modem.prepared| && NonEmpty(d.modem.items)
    requires d.modem.frame == d.maps[0].first + t.ch.framesPerMap <= d.endFrame && MapsInOrder(t, d.maps[1..], 0, d.endFrame)
    requires Behind(t, d).Valid() && Drain.Inv(Behind(t, d), Forgotten(d.modem, |d.maps[0].grants|))
    ensures LinkInv(t, Reported(t, d, s))
  {
    assert LinkOf(t, Reported(t, d, s)) == Behind(t, d);
    assert Reported(t, d, s).modem == Forgotten(d.modem, |d.maps[0].grants|);
  }

  lemma OrderWiden(t: Timing, maps: seq<MapGrants>, from: nat, later: nat, to: nat)
    requires from <= later && MapsInOrder(t, maps, later, to)
    ensures MapsInOrder(t, maps, from, to) && later <= to
  {
    OrderBounds(t, maps, later, to);
  }

  lemma LastFrameTime(t: Timing, first: nat)
    requires t.Valid()
    ensures t.FrameTime(Start(t, first), t.ch.framesPerMap - 1) == (first + t.ch.framesPerMap - 1) * t.frameDuration
  {
    MulDistributes(first, t.ch.framesPerMap - 1, t.frameDuration);
  }

  lemma DumpReports(t: Timing, d: Device)
    requires LinkInv(t, d) && d.maps != [] && d.modem.frame == d.maps[0].first + t.ch.framesPerMap && Counters(t, d)
    requires d.station.loaded
    ensures ReportIsRight(d, Entry(d.lastSend + 1, Dump))
  {
    UsedAtEnd(t, d);
    assert Eligible(d.modem.items, d.lastSend) == 0 by {
      LastFrameTime(t, d.maps[0].first);
      Drain.EligibleMonotone(d.modem.items, d.lastSend, LinkOf(t, d).FrameTime(d.modem.frame - 1));
    }
  }

  lemma UsedAtEnd(t: Timing, d: Device)
    requires LinkInv(t, d) && d.maps != [] && d.modem.frame == d.maps[0].first + t.ch.framesPerMap
    ensures var n := |d.maps[0].grants|;
            && n <= |d.modem.prepared| && d.modem.used == Sum(d.modem.prepared[..n])
            && d.modem.used + d.modem.unused == t.ch.capacity * Lengths(d.maps[0].grants)
    ensures Eligible(d.modem.items, LinkOf(t, d).FrameTime(d.modem.frame - 1)) == 0
  {
    LoadedMapEnds(t, d);
    var l, n := LinkOf(t, d), |d.maps[0].grants|;
    ReportAtEnd(l, d.modem, n);
    assert l.capacity * Lengths(l.grants[..n]) == t.ch.capacity * Lengths(d.maps[0].grants);
  }

  lemma DumpKeepsRest(t: Timing, d: Device, s: Station)
    requires t.Valid() && Agree(t, d) && d.maps != [] && |d.maps[0].grants| <= |d.modem.prepared|
    requires MapsInOrder(t, d.maps, 0, d.endFrame)
    requires s.pipeline == d.station.pipeline && s.horizon == d.station.horizon && !s.loaded
    requires Of(s.calendar, Sending) == AllSends(t, d.maps[1..])
    ensures var d' := Reported(t, d, s);
            Agree(t, d') && SendsAreLeft(t, d') && Counters(t, d')
  {
    var m, n, k := t.ch.minislotsPerFrame, |d.maps[0].grants|, |d.modem.prepared|;
    var own, rest := Drain.Shifted(d.maps[0].grants, d.maps[0].first * m), AllGrants(d.maps[1..], m);
    assert |own| == n by {
      ShiftedPlaced(d.maps[0].grants, d.maps[0].first * m, 0, t.ch.MinislotsPerMap());
    }
    assert LinkOf(t, d).grants == own + rest && LinkOf(t, Reported(t, d, s)).grants == rest;
    assert (own + rest)[k..] == rest[k - n..];
  }

  lemma DumpKeepsParts(t: Timing, d: Device, s: Station)
    requires LinkInv(t, d) && Agree(t, d) && SendsAreLeft(t, d) && Counters(t, d) && d.station.loaded
    requires d.station.calendar != [] && d.station.calendar[0].job.Dump? && s.calendar == d.station.calendar[1..]
    requires s.pipeline == d.station.pipeline && s.horizon == d.station.horizon && !s.loaded
    ensures ReportIsRight(d, d.station.calendar[0])
    ensures var d' := Reported(t, d, s);
            LinkInv(t, d') && Agree(t, d') && SendsAreLeft(t, d') && Counters(t, d')
  {
    DumpIsNext(t, d);
    var ended := d.(modem := d.modem.(frame := d.maps[0].first + t.ch.framesPerMap));
    DumpReports(t, ended);
    DumpKeepsLink(t, ended, s);
    DumpKeepsRest(t, d, s);
    assert Reported(t, ended, s) == Reported(t, d, s);
  }

  lemma AfterDump(t: Timing, d: Device, bytes: nat)
    requires t.Valid() && d.station.calendar != [] && d.station.calendar[0].job.Dump? && RunsRight(t, d, d.station.calendar[0])
    ensures AfterJob(t, d, bytes) == Reported(t, d, Next(t, d.station, RunNext))
  {
  }

  lemma DumpKeepsDevice(t: Timing, d: Device, bytes: nat)
    requires DeviceInv(t, d) && d.station.calendar != [] && d.station.calendar[0].job.Dump?
    ensures RunsRight(t, d, d.station.calendar[0]) && DeviceInv(t, AfterJob(t, d, bytes))
  {
    assert Proper(t, d.station, d.station.calendar[0]) by {
      NextIsProper(t, d.station);
    }
    var s := Next(t, d.station, RunNext);
    assert Inv(t, s) by {
      RunKeepsInv(t, d.station);
    }
    DumpKeepsParts(t, d, s);
    AfterDump(t, d, bytes);
  }

  // ----- Runs

  lemma ActionKeepsDevice(t: Timing, d: Device, a: Action)
    requires DeviceInv(t, d) && Possible(t, d, a)
    ensures a.Run? ==> RunsRight(t, d, d.station.calendar[0])
    ensures DeviceInv(t, After(t, d, a))
  {
    match a
    case Arrive(_, _) => ArrivalKeepsDevice(t, d, a, After(t, d, a));
    case Ask(at, time) => AskKeepsDevice(t, d, at, time);
    case Run(bytes) => JobKeepsDevice(t, d, bytes);
  }

  lemma ArrivalKeepsDevice(t: Timing, d: Device, a: Action, d': Device)
    requires DeviceInv(t, d) && a.Arrive? && Possible(t, d, a) && d' == After(t, d, a)
    ensures DeviceInv(t, d')
  {
    var at := Start(t, a.first) - t.mapProcessing;
    ArriveKeepsInv(t, d, MapGrants(a.first, a.grants), at, WithMap(t, d.station, at, a.grants), d');
  }

  lemma JobKeepsDevice(t: Timing, d: Device, bytes: nat)
    requires DeviceInv(t, d) && Possible(t, d, Run(bytes))
    ensures RunsRight(t, d, d.station.calendar[0]) && DeviceInv(t, AfterJob(t, d, bytes))
  {
    match d.station.calendar[0].job
    case Request => RequestKeepsDevice(t, d, bytes);
    case Prepare(_) => PrepareKeepsDevice(t, d, bytes);
    case Load(_) => LoadKeepsDevice(t, d, bytes);
    case Frame(_) => FrameKeepsDevice(t, d, bytes);
    case Dump => DumpKeepsDevice(t, d, bytes);
  }

  predicate AlwaysRight(t: Timing, d: Device, actions: seq<Action>)
    requires t.Valid()
    decreases |actions|
  {
    actions == [] || !Possible(t, d, actions[0]) ||
    ((actions[0].Run? ==> RunsRight(t, d, d.station.calendar[0])) && AlwaysRight(t, After(t, d, actions[0]), actions[1..]))
  }

  /**
   However MAPs arrive, requests are scheduled and jobs run, and whatever is promised to the bursts within their
   grants: every report says of its MAP that the bytes used are the bytes promised to the MAP's own bursts, and none
   of these bytes is left in the transmit pipeline.
   */
  lemma {:induction false} EveryReportIsRight(t: Timing, d: Device, actions: seq<Action>)
    requires DeviceInv(t, d)
    ensures AlwaysRight(t, d, actions)
    decreases |actions|
  {
    if actions != [] && Possible(t, d, actions[0]) {
      ActionKeepsDevice(t, d, actions[0]);
      EveryReportIsRight(t, After(t, d, actions[0]), actions[1..]);
    }
  }

  lemma EveryReportFromStart(t: Timing, actions: seq<Action>)
    requires t.Valid()
    ensures AlwaysRight(t, IDLE, actions)
  {
    IdleDeviceInv(t);
    EveryReportIsRight(t, IDLE, actions);
  }

  lemma IdleDeviceInv(t: Timing)
    requires t.Valid()
    ensures DeviceInv(t, IDLE)
  {
    var l := LinkOf(t, IDLE);
    assert l.Valid() && Drain.Inv(l, Drain.IDLE) by {
      Drain.IdleInv(l);
    }
    assert Inv(t, IDLE.station) by {
      GrantCalendars.IdleInv(t);
    }
  }
}
