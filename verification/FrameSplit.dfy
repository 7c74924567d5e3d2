/** How the modem spreads the grants of a MAP over its frames. */
module FrameSplit {
  import opened DocsisTypes
  import opened GrantLists

  /** Length of the part of [from, to) that lies at or above a minislot. */
  function Above(from: nat, to: nat, minislot: nat): nat {
    Max(to - Max(from, minislot), 0)
  }

  /** Minislots that a grant has in a frame: the size of the intersection of the two intervals. */
  function Overlap(g: Grant, frame: nat, minislotsPerFrame: nat): nat {
    Max(Min(g.End(), (frame + 1) * minislotsPerFrame) - Max(g.offset, frame * minislotsPerFrame), 0)
  }

  function Share(gs: seq<Grant>, frame: nat, minislotsPerFrame: nat): nat {
    if gs == [] then 0 else Overlap(gs[0], frame, minislotsPerFrame) + Share(gs[1..], frame, minislotsPerFrame)
  }

  function FrameOf(g: Grant, minislotsPerFrame: nat): nat
    requires 0 < minislotsPerFrame
  {
    g.offset / minislotsPerFrame
  }

  lemma FrameOfBounds(g: Grant, m: nat)
    requires 0 < m
    ensures FrameOf(g, m) * m <= g.offset < (FrameOf(g, m) + 1) * m
  {
    assert g.offset == m * (g.offset / m) + g.offset % m;
    assert (FrameOf(g, m) + 1) * m == FrameOf(g, m) * m + m;
  }

  /** A frame takes from a grant what separates its part above the frame's start from its part above the frame's end. */
  lemma OverlapIsDifference(g: Grant, frame: nat, m: nat)
    ensures Overlap(g, frame, m) == Above(g.offset, g.End(), frame * m) - Above(g.offset, g.End(), (frame + 1) * m)
  {
    assert (frame + 1) * m == frame * m + m;
  }

  /** Disjoint grants never exceed a frame. */
  lemma {:induction false} ShareFitsFrame(gs: seq<Grant>, from: nat, to: nat, frame: nat, m: nat)
    requires Placed(gs, from, to)
    ensures Share(gs, frame, m) <= Max((frame + 1) * m - Max(from, frame * m), 0)
    ensures Share(gs, frame, m) <= m
  {
    assert (frame + 1) * m == frame * m + m;
    if gs != [] {
      ShareFitsFrame(gs[1..], gs[0].End(), to, frame, m);
    }
  }

  function ShareSum(gs: seq<Grant>, frames: nat, m: nat): nat {
    if frames == 0 then 0 else ShareSum(gs, frames - 1, m) + Share(gs, frames - 1, m)
  }

  function OverlapSum(g: Grant, frames: nat, m: nat): nat {
    if frames == 0 then 0 else OverlapSum(g, frames - 1, m) + Overlap(g, frames - 1, m)
  }

  lemma {:induction false} OverlapSumIsLength(g: Grant, frames: nat, m: nat)
    ensures OverlapSum(g, frames, m) == g.length - Above(g.offset, g.End(), frames * m)
  {
    if frames > 0 {
      OverlapSumIsLength(g, frames - 1, m);
      OverlapIsDifference(g, frames - 1, m);
    }
  }

  lemma {:induction false} ShareSumSplits(gs: seq<Grant>, frames: nat, m: nat)
    requires gs != []
    ensures ShareSum(gs, frames, m) == OverlapSum(gs[0], frames, m) + ShareSum(gs[1..], frames, m)
  {
    if frames > 0 {
      ShareSumSplits(gs, frames - 1, m);
    }
  }

  /** The frames of a MAP together get every granted minislot. */
  lemma {:induction false} SharesConserve(gs: seq<Grant>, from: nat, frames: nat, m: nat)
    requires Placed(gs, from, frames * m)
    ensures ShareSum(gs, frames, m) == Occupied(gs)
  {
    if gs == [] {
      NoShares(frames, m);
    } else {
      OccupiedFits(gs[1..], gs[0].End(), frames * m);
      SharesConserve(gs[1..], gs[0].End(), frames, m);
      ShareSumSplits(gs, frames, m);
      OverlapSumIsLength(gs[0], frames, m);
    }
  }

  lemma {:induction false} NoShares(frames: nat, m: nat)
    ensures ShareSum([], frames, m) == 0
  {
    if frames > 0 {
      NoShares(frames - 1, m);
    }
  }

  // ----- The loop over the frames of a grant

  /** Allocation per frame with one more grant in it. */
  predicate AddsGrant(before: seq<nat>, after: seq<nat>, g: Grant, m: nat) {
    |after| == |before| && forall j | 0 <= j < |before| :: after[j] == before[j] + Overlap(g, j, m)
  }

  /** Allocation after a grant's portions are added, frame by frame. */
  function Spread(allocation: seq<nat>, frame: nat, granted: nat, remaining: nat, m: nat): seq<nat>
    requires 0 < m
    decreases remaining
  {
    if frame >= |allocation| then allocation
    else if granted > 0 && remaining > 0 then
      Spread(allocation[frame := allocation[frame] + granted], frame + 1, Min(remaining, m), remaining - Min(remaining, m), m)
    else allocation[frame := allocation[frame] + granted]
  }

  lemma NextFrame(g: Grant, frame: nat, m: nat)
    requires 0 < m && g.offset < (frame + 1) * m && 0 < Above(g.offset, g.End(), (frame + 1) * m)
    ensures var remaining := Above(g.offset, g.End(), (frame + 1) * m);
            && Overlap(g, frame + 1, m) == Min(remaining, m)
            && Above(g.offset, g.End(), (frame + 2) * m) == remaining - Min(remaining, m)
            && g.offset < (frame + 2) * m
  {
    assert (frame + 2) * m == (frame + 1) * m + m;
  }

  lemma {:induction false} SpreadAdds(ch: Channel, allocation: seq<nat>, g: Grant, frame: nat)
    requires ch.Valid() && |allocation| == ch.framesPerMap && g.End() <= ch.MinislotsPerMap()
    requires frame < ch.framesPerMap && g.offset < (frame + 1) * ch.minislotsPerFrame
    requires 0 < Overlap(g, frame, ch.minislotsPerFrame)
    ensures var m := ch.minislotsPerFrame;
            var r := Spread(allocation, frame, Overlap(g, frame, m), Above(g.offset, g.End(), (frame + 1) * m), m);
            && |r| == |allocation|
            && (forall j | 0 <= j < frame :: r[j] == allocation[j])
            && (forall j | frame <= j < |r| :: r[j] == allocation[j] + Overlap(g, j, m))
    decreases ch.framesPerMap - frame
  {
    var m := ch.minislotsPerFrame;
    var granted, remaining := Overlap(g, frame, m), Above(g.offset, g.End(), (frame + 1) * m);
    if remaining > 0 {
      NextFrame(g, frame, m);
      FrameInside(ch, frame + 1, (frame + 1) * m);
      SpreadAdds(ch, allocation[frame := allocation[frame] + granted], g, frame + 1);
    } else {
      forall j | frame < j < |allocation| ensures Overlap(g, j, m) == 0 {
        MulMonotone(frame + 1, j, m);
      }
    }
  }

  /** The minislots of a grant in its current frame, and those in later frames. */
  predicate Portion(g: Grant, frame: nat, granted: int, remaining: int, m: nat) {
    && g.offset < (frame + 1) * m
    && 0 < granted == Overlap(g, frame, m)
    && remaining == Above(g.offset, g.End(), (frame + 1) * m)
  }

  function RoomInFrame(g: Grant, m: nat): nat
    requires 0 < m
  {
    m - g.offset % m
  }

  lemma FirstPortion(g: Grant, m: nat)
    requires 0 < m && 0 < g.length
    ensures var first, room := FrameOf(g, m), RoomInFrame(g, m);
            && 0 < room && first * m <= g.offset && g.offset + room == (first + 1) * m
            && Portion(g, first, Min(room, g.length), Max(g.length - room, 0), m)
  {
    var first := FrameOf(g, m);
    FrameOfBounds(g, m);
    assert g.offset == m * (g.offset / m) + g.offset % m;
    assert (first + 1) * m == first * m + m;
  }

  /** Spreading from a grant's first frame adds its overlap with every frame. */
  lemma SpreadFromStart(ch: Channel, allocation: seq<nat>, g: Grant)
    requires ch.Valid() && |allocation| == ch.framesPerMap && 0 < g.length && g.End() <= ch.MinislotsPerMap()
    ensures var m := ch.minislotsPerFrame;
            var room := RoomInFrame(g, m);
            AddsGrant(allocation, Spread(allocation, FrameOf(g, m), Min(room, g.length), Max(g.length - room, 0), m), g, m)
  {
    var m := ch.minislotsPerFrame;
    var first := FrameOf(g, m);
    FirstPortion(g, m);
    FrameInside(ch, first, g.offset);
    SpreadAdds(ch, allocation, g, first);
    forall j | 0 <= j < first ensures Overlap(g, j, m) == 0 {
      MulMonotone(j + 1, first, m);
    }
  }

  lemma NothingToAdd(allocation: seq<nat>, g: Grant, m: nat)
    requires g.length == 0
    ensures AddsGrant(allocation, allocation, g, m)
  {
  }

  /** A portion in or before the last frame stays inside the MAP if nothing remains, and any other reaches across its end. */
  lemma PortionInMap(ch: Channel, g: Grant, frame: nat, granted: int, remaining: int)
    requires ch.Valid() && Portion(g, frame, granted, remaining, ch.minislotsPerFrame)
    ensures frame < ch.framesPerMap && remaining == 0 ==> g.End() <= ch.MinislotsPerMap()
    ensures frame >= ch.framesPerMap ==> g.End() > ch.MinislotsPerMap()
  {
    if frame < ch.framesPerMap {
      MulMonotone(frame + 1, ch.framesPerMap, ch.minislotsPerFrame);
    } else {
      MulMonotone(ch.framesPerMap, frame, ch.minislotsPerFrame);
    }
  }

  /** One more grant; None is an index past the last frame. */
  method AddGrant(ch: Channel, allocation: seq<nat>, g: Grant) returns (r: Option<seq<nat>>)
    requires ch.Valid() && |allocation| == ch.framesPerMap && g.offset < ch.MinislotsPerMap()
    ensures r.Some? <==> g.End() <= ch.MinislotsPerMap()
    ensures r.Some? ==> AddsGrant(allocation, r.value, g, ch.minislotsPerFrame)
  {
    var m := ch.minislotsPerFrame;
    var startingFrame, remainingInFrame := FrameOf(g, m), RoomInFrame(g, m);
    FrameOfBounds(g, m);
    FrameInside(ch, startingFrame, g.offset);
    if g.length == 0 {
      NothingToAdd(allocation, g, m);
      r := Some(allocation[startingFrame := allocation[startingFrame] + g.length]);
      assert r.value == allocation;
      return;
    }
    FirstPortion(g, m);
    if g.End() <= ch.MinislotsPerMap() {
      SpreadFromStart(ch, allocation, g);
    }
    if remainingInFrame >= g.length {
      PortionInMap(ch, g, startingFrame, g.length, 0);
      return Some(allocation[startingFrame := allocation[startingFrame] + g.length]);
    }
    r := AddPortions(ch, allocation, g, startingFrame, remainingInFrame, g.length - remainingInFrame);
  }

  /** The portions of a grant that spans frames, from its first frame on. */
  method AddPortions(ch: Channel, allocation: seq<nat>, g: Grant, startingFrame: nat, first: nat, rest: nat)
    returns (r: Option<seq<nat>>)
    requires ch.Valid() && |allocation| == ch.framesPerMap && startingFrame < ch.framesPerMap
    requires Portion(g, startingFrame, first, rest, ch.minislotsPerFrame)
    ensures r.Some? <==> g.End() <= ch.MinislotsPerMap()
    ensures r.Some? ==> r.value == Spread(allocation, startingFrame, first, rest, ch.minislotsPerFrame)
  {
    var m, a: seq<nat> := ch.minislotsPerFrame, allocation;
    var frameNumber: nat, granted: nat, remaining: nat := startingFrame, first, rest;
    while granted > 0 && remaining > 0
      invariant |a| == ch.framesPerMap && frameNumber < ch.framesPerMap
      invariant Portion(g, frameNumber, granted, remaining, m)
      invariant Spread(a, frameNumber, granted, remaining, m) == Spread(allocation, startingFrame, first, rest, m)
      decreases remaining
    {
      var nextFrameSlots: nat := Min(remaining, m);
      NextFrame(g, frameNumber, m);
      a := a[frameNumber := a[frameNumber] + granted];
      granted := nextFrameSlots;
      remaining := remaining - nextFrameSlots;
      frameNumber := frameNumber + 1;
      if frameNumber == ch.framesPerMap {
        PortionInMap(ch, g, frameNumber, granted, remaining);
        return None;
      }
    }
    PortionInMap(ch, g, frameNumber, granted, remaining);
    return Some(a[frameNumber := a[frameNumber] + granted]);
  }

  lemma FrameInside(ch: Channel, frame: nat, minislot: nat)
    requires ch.Valid() && frame * ch.minislotsPerFrame <= minislot < ch.MinislotsPerMap()
    ensures frame < ch.framesPerMap
  {
    if ch.framesPerMap <= frame {
      MulMonotone(ch.framesPerMap, frame, ch.minislotsPerFrame);
    }
  }

  predicate Shares(allocation: seq<nat>, gs: seq<Grant>, m: nat) {
    forall j | 0 <= j < |allocation| :: allocation[j] == Share(gs, j, m)
  }

  /**
   How splitting ends: with the minislots per frame, with the abort for a grant that starts behind the MAP, or with an
   index past the last frame.
   */
  datatype Split = Frames(allocation: seq<nat>) | Overshoots | OutOfRange

  datatype Fit = Fits | StartsBehind | EndsBehind

  /** The first grant that is not inside the MAP decides. */
  function FitOf(ch: Channel, gs: seq<Grant>): Fit {
    if gs == [] then Fits
    else if ch.MinislotsPerMap() <= gs[0].offset then StartsBehind
    else if ch.MinislotsPerMap() < gs[0].End() then EndsBehind
    else FitOf(ch, gs[1..])
  }

  lemma {:induction false} FitsIffInside(ch: Channel, gs: seq<Grant>)
    ensures FitOf(ch, gs).Fits? <==>
            forall i | 0 <= i < |gs| :: gs[i].offset < ch.MinislotsPerMap() && gs[i].End() <= ch.MinislotsPerMap()
  {
    if gs != [] {
      FitsIffInside(ch, gs[1..]);
      assert forall i | 0 < i < |gs| :: gs[i] == gs[1..][i - 1];
    }
  }

  method SplitOverFrames(ch: Channel, gs: seq<Grant>) returns (r: Split)
    requires ch.Valid()
    ensures match FitOf(ch, gs)
            case Fits => r.Frames? && |r.allocation| == ch.framesPerMap && Shares(r.allocation, gs, ch.minislotsPerFrame)
            case StartsBehind => r.Overshoots?
            case EndsBehind => r.OutOfRange?
  {
    var m := ch.minislotsPerFrame;
    var allocation := seq(ch.framesPerMap, _ => 0);
    ghost var done, ahead := [], gs;
    for i := 0 to |gs|
      invariant |allocation| == ch.framesPerMap && Shares(allocation, done, m)
      invariant gs == done + ahead && ahead == gs[i..] && FitOf(ch, ahead) == FitOf(ch, gs)
    {
      var startingFrame := FrameOf(gs[i], m);
      FrameOfBounds(gs[i], m);
      if startingFrame >= ch.framesPerMap {
        MulMonotone(ch.framesPerMap, startingFrame, m);
        return Overshoots;
      }
      MulMonotone(startingFrame + 1, ch.framesPerMap, m);
      var added := AddGrant(ch, allocation, gs[i]);
      if added.None? {
        return OutOfRange;
      }
      AddedShares(allocation, added.value, done, gs[i], m);
      allocation := added.value;
      done, ahead := done + [gs[i]], ahead[1..];
    }
    assert done == gs;
    return Frames(allocation);
  }

  lemma AddedShares(before: seq<nat>, after: seq<nat>, done: seq<Grant>, g: Grant, m: nat)
    requires Shares(before, done, m) && AddsGrant(before, after, g, m)
    ensures Shares(after, done + [g], m)
  {
    forall j | 0 <= j < |after| ensures after[j] == Share(done + [g], j, m) {
      ShareConcat(done, [g], j, m);
      assert [g][1..] == [];
    }
  }

  lemma {:induction false} ShareConcat(a: seq<Grant>, b: seq<Grant>, frame: nat, m: nat)
    ensures Share(a + b, frame, m) == Share(a, frame, m) + Share(b, frame, m)
  {
    if a == [] {
      assert a + b == b;
    } else {
      ShareConcat(a[1..], b, frame, m);
      assert (a + b)[1..] == a[1..] + b;
    }
  }
}
