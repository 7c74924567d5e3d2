/** From the scheduler's MAP to the modem's frames. */
module MapDelivery {
  import opened DocsisTypes
  import opened GrantLists
  import opened MapMessages
  import opened FrameSplit
  import opened UpstreamSchedulers

  lemma {:induction false} SharesByFlow(gs: seq<Grant>, frame: nat, m: nat)
    ensures Share(gs, frame, m) == Share(Classic(gs), frame, m) + Share(NonClassic(gs), frame, m)
  {
    if gs != [] {
      SharesByFlow(gs[1..], frame, m);
      ShareConcat([gs[0]], Classic(gs[1..]), frame, m);
      ShareConcat([gs[0]], NonClassic(gs[1..]), frame, m);
      assert [] + Classic(gs[1..]) == Classic(gs[1..]) && [] + NonClassic(gs[1..]) == NonClassic(gs[1..]);
      assert [gs[0]][1..] == [];
    }
  }

  lemma {:induction false} LengthsAreOccupied(gs: seq<Grant>, from: nat, to: nat)
    requires Placed(gs, from, to)
    ensures Lengths(gs) == Occupied(gs)
  {
    if gs != [] {
      LengthsAreOccupied(gs[1..], gs[0].End(), to);
    }
  }

  lemma PlacedFits(ch: Channel, gs: seq<Grant>)
    requires Placed(gs, 0, ch.MinislotsPerMap())
    ensures FitOf(ch, gs).Fits?
  {
    PlacedIsDisjoint(gs, 0, ch.MinislotsPerMap());
    FitsIffInside(ch, gs);
  }

  /**
   A grant that reaches across the end of the MAP is printed and read back, and then indexes past the modem's last
   frame.
   */
  lemma CrossingGrantOverruns(ch: Channel, gs: seq<Grant>, g: Grant)
    requires InOrder(gs) && AllGranted(gs) && g in gs && g.offset < ch.MinislotsPerMap() < g.End()
    ensures var p := Parsed(Printed(gs));
            p.Some? && FitOf(ch, if g.sfid == CLASSIC_SFID then p.value.classic else p.value.lowLatency).EndsBehind?
  {
    ParsePrintRoundTrip(gs);
    CrossingEndsBehind(ch, gs, g);
  }

  lemma {:induction false} CrossingEndsBehind(ch: Channel, gs: seq<Grant>, g: Grant)
    requires InOrder(gs) && g in gs && g.offset < ch.MinislotsPerMap() < g.End()
    ensures FitOf(ch, if g.sfid == CLASSIC_SFID then Classic(gs) else NonClassic(gs)).EndsBehind?
  {
    var own := if g.sfid == CLASSIC_SFID then Classic(gs) else NonClassic(gs);
    if gs[0] == g {
      assert own[0] == g;
    } else {
      var rest := if g.sfid == CLASSIC_SFID then Classic(gs[1..]) else NonClassic(gs[1..]);
      assert g in gs[1..];
      FirstEndsBefore(gs, g);
      CrossingEndsBehind(ch, gs[1..], g);
      assert own == rest || own[1..] == rest;
    }
  }

  lemma {:induction false} FirstEndsBefore(gs: seq<Grant>, g: Grant)
    requires gs != [] && InOrder(gs) && g in gs[1..]
    ensures gs[0].End() <= g.offset
  {
    if gs[1] != g {
      assert g in gs[1..][1..];
      FirstEndsBefore(gs[1..], g);
    }
  }

  /**
   Every MAP that the scheduler sends can be split over the modem's frames: each flow's grants lie inside the
   MAP, the two flows together never exceed a frame, and the frames of a flow add up to the minislots
   that the scheduler charged to it.
   */
  lemma MapFitsTheFrames(cfg: Config, s: State, tick: Tick, frame: nat)
    requires Inv(cfg, s) && tick.free <= cfg.ch.MinislotsPerMap() && MapStep(cfg, s, tick).Generated?
    ensures var r := MapStep(cfg, s, tick);
            var p := Parsed(r.message.ies);
            var m := cfg.ch.minislotsPerFrame;
            && p.Some?
            && FitOf(cfg.ch, p.value.classic).Fits? && FitOf(cfg.ch, p.value.lowLatency).Fits?
            && Placed(p.value.classic, 0, cfg.ch.MinislotsPerMap())
            && Placed(p.value.lowLatency, 0, cfg.ch.MinislotsPerMap())
            && Share(p.value.classic, frame, m) + Share(p.value.lowLatency, frame, m) <= m
            && ShareSum(p.value.classic, cfg.ch.framesPerMap, m) == r.schedule.cMinislots
            && ShareSum(p.value.lowLatency, cfg.ch.framesPerMap, m) == r.schedule.lMinislots
  {
    var r := MapStep(cfg, s, tick);
    var gs, m, to := r.schedule.grants, cfg.ch.minislotsPerFrame, cfg.ch.MinislotsPerMap();
    MapStepGuarantees(cfg, s, tick);
    BytesSurviveTheMap(gs, 0, to);
    ParsePrintRoundTrip(gs);
    PlacedFits(cfg.ch, Classic(gs));
    PlacedFits(cfg.ch, NonClassic(gs));
    SharesByFlow(gs, frame, m);
    ShareFitsFrame(gs, 0, to, frame, m);
    SharesConserve(Classic(gs), 0, cfg.ch.framesPerMap, m);
    SharesConserve(NonClassic(gs), 0, cfg.ch.framesPerMap, m);
    LengthsAreOccupied(Classic(gs), 0, to);
    LengthsAreOccupied(NonClassic(gs), 0, to);
  }
}
