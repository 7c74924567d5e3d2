/**
 Bursts and frames of one service flow over a run. Burst preparation may run ahead of the frames
 in any way, as long as a burst is prepared before its first frame; every frame uses what is
 eligible. Grants are numbered over the whole run, in absolute minislots.
 */
module MapDrain {
  import opened DocsisTypes
  import opened GrantLists
  import opened CmPipelines
  import opened FrameSplit
  import opened CableModemFlows

  datatype Link = Link(capacity: nat, minislotsPerFrame: nat, frameDuration: nat, grants: seq<Grant>, end: nat) {
    predicate Valid() {
      0 < capacity && 0 < minislotsPerFrame && 0 < frameDuration && Placed(grants, 0, end)
    }

    function FrameTime(frame: int): int {
      frame * frameDuration
    }

    function FirstFrame(i: nat): nat
      requires Valid() && i < |grants|
    {
      FrameOf(grants[i], minislotsPerFrame)
    }
  }

  /** The transmit pipeline, the bytes promised to each grant so far, the next frame, and the bytes used and unused so far. */
  datatype Modem = Modem(items: seq<Item>, prepared: seq<nat>, frame: nat, used: nat, unused: nat)

  datatype Event = Prepare(bytes: nat) | Frame

  /** A burst is prepared in grant order, no larger than its grant and before its first frame; a frame waits for its bursts. */
  predicate Enabled(l: Link, s: Modem, e: Event)
    requires l.Valid()
  {
    match e
    case Prepare(bytes) =>
      && |s.prepared| < |l.grants|
      && bytes <= l.grants[|s.prepared|].length * l.capacity
      && s.frame <= l.FirstFrame(|s.prepared|)
    case Frame => |s.prepared| < |l.grants| ==> s.frame < l.FirstFrame(|s.prepared|)
  }

  /** The effect of PrepareBurst and SendFrame on the transmit pipeline. */
  function Step(l: Link, s: Modem, e: Event): Modem
    requires l.Valid() && Enabled(l, s, e)
  {
    match e
    case Prepare(bytes) =>
      s.(items := Promised(s.items, bytes, l.FrameTime(l.FirstFrame(|s.prepared|))), prepared := s.prepared + [bytes])
    case Frame =>
      var opportunity := Share(l.grants, s.frame, l.minislotsPerFrame) * l.capacity;
      var used := Usable(s.items, opportunity, l.FrameTime(s.frame));
      s.(items := Removed(s.items, used), frame := s.frame + 1, used := s.used + used, unused := s.unused + opportunity - used)
  }

  function Exec(l: Link, s: Modem, es: seq<Event>): Option<Modem>
    requires l.Valid()
    decreases |es|
  {
    if es == [] then Some(s)
    else if !Enabled(l, s, es[0]) then None
    else Exec(l, Step(l, s, es[0]), es[1..])
  }

  const IDLE := Modem([], [], 0, 0, 0)

  // ----- Sums over grants

  /** Bytes promised to the grants that start in or before a frame. */
  function PreparedUpTo(gs: seq<Grant>, prepared: seq<nat>, frame: int, m: nat): nat
    requires 0 < m && |prepared| == |gs|
  {
    if gs == [] then 0
    else (if FrameOf(gs[0], m) <= frame then prepared[0] else 0) + PreparedUpTo(gs[1..], prepared[1..], frame, m)
  }

  /** Minislots at or above a minislot, of the grants that start in or before a frame. */
  function Beyond(gs: seq<Grant>, frame: int, minislot: nat, m: nat): nat
    requires 0 < m
  {
    if gs == [] then 0
    else (if FrameOf(gs[0], m) <= frame then Above(gs[0].offset, gs[0].End(), minislot) else 0)
         + Beyond(gs[1..], frame, minislot, m)
  }

  predicate NoneBefore(gs: seq<Grant>, frame: nat, m: nat)
    requires 0 < m
  {
    forall i | 0 <= i < |gs| :: frame <= FrameOf(gs[i], m)
  }

  lemma {:induction false} PreparedAdds(gs: seq<Grant>, prepared: seq<nat>, g: Grant, bytes: nat, frame: int, m: nat)
    requires 0 < m && |prepared| == |gs|
    ensures PreparedUpTo(gs + [g], prepared + [bytes], frame, m)
         == PreparedUpTo(gs, prepared, frame, m) + if FrameOf(g, m) <= frame then bytes else 0
  {
    if gs == [] {
      assert gs + [g] == [g] && prepared + [bytes] == [bytes];
    } else {
      PreparedAdds(gs[1..], prepared[1..], g, bytes, frame, m);
      assert (gs + [g])[1..] == gs[1..] + [g] && (prepared + [bytes])[1..] == prepared[1..] + [bytes];
    }
  }

  lemma {:induction false} BeyondAdds(gs: seq<Grant>, g: Grant, frame: int, minislot: nat, m: nat)
    requires 0 < m
    ensures Beyond(gs + [g], frame, minislot, m)
         == Beyond(gs, frame, minislot, m) + if FrameOf(g, m) <= frame then Above(g.offset, g.End(), minislot) else 0
  {
    if gs == [] {
      assert gs + [g] == [g];
    } else {
      BeyondAdds(gs[1..], g, frame, minislot, m);
      assert (gs + [g])[1..] == gs[1..] + [g];
    }
  }

  lemma LaterGrant(g: Grant, frame: nat, m: nat)
    requires 0 < m && frame < FrameOf(g, m)
    ensures Overlap(g, frame, m) == 0 && (frame + 1) * m <= g.offset
  {
    FrameOfBounds(g, m);
    MulMonotone(frame + 1, FrameOf(g, m), m);
  }

  /** Running a frame takes the frame's share from what lies beyond its start. */
  lemma {:induction false} BeyondStep(gs: seq<Grant>, frame: nat, m: nat)
    requires 0 < m
    ensures Beyond(gs, frame, frame * m, m) == Share(gs, frame, m) + Beyond(gs, frame, (frame + 1) * m, m)
  {
    if gs != [] {
      BeyondStep(gs[1..], frame, m);
      if FrameOf(gs[0], m) <= frame {
        OverlapIsDifference(gs[0], frame, m);
      } else {
        LaterGrant(gs[0], frame, m);
      }
    }
  }

  lemma {:induction false} LaterGrantsHaveNoShare(gs: seq<Grant>, frame: nat, m: nat)
    requires 0 < m && NoneBefore(gs, frame + 1, m)
    ensures Share(gs, frame, m) == 0
  {
    if gs != [] {
      assert frame + 1 <= FrameOf(gs[0], m);
      LaterGrant(gs[0], frame, m);
      assert forall i | 0 <= i < |gs[1..]| :: gs[1..][i] == gs[i + 1];
      LaterGrantsHaveNoShare(gs[1..], frame, m);
    }
  }

  predicate WithinGrants(gs: seq<Grant>, prepared: seq<nat>, capacity: nat)
    requires |prepared| == |gs|
  {
    forall i | 0 <= i < |gs| :: prepared[i] <= gs[i].length * capacity
  }

  /** The bursts of the grants that start in a frame fit the minislots these grants have from there on. */
  lemma {:induction false} NewBurstsFit(gs: seq<Grant>, prepared: seq<nat>, capacity: nat, frame: nat, m: nat)
    requires 0 < m && |prepared| == |gs| && WithinGrants(gs, prepared, capacity)
    ensures PreparedUpTo(gs, prepared, frame, m) - PreparedUpTo(gs, prepared, frame - 1, m)
         <= capacity * (Beyond(gs, frame, frame * m, m) - Beyond(gs, frame - 1, frame * m, m))
  {
    if gs != [] {
      NewBurstsFit(gs[1..], prepared[1..], capacity, frame, m);
      var rest := Beyond(gs[1..], frame, frame * m, m) - Beyond(gs[1..], frame - 1, frame * m, m);
      if FrameOf(gs[0], m) == frame {
        FrameOfBounds(gs[0], m);
        assert capacity * (gs[0].length + rest) == gs[0].length * capacity + capacity * rest;
      }
    }
  }

  // ----- The invariant

  /** Every byte promised to a grant that starts in or before d was used, or is still eligible then. */
  predicate Accounted(l: Link, s: Modem, d: int)
    requires l.Valid() && |s.prepared| <= |l.grants|
  {
    PreparedUpTo(l.grants[..|s.prepared|], s.prepared, d, l.minislotsPerFrame) == s.used + Eligible(s.items, l.FrameTime(d))
  }

  ghost predicate Inv(l: Link, s: Modem)
    requires l.Valid()
  {
    && |s.prepared| <= |l.grants|
    && WithinGrants(l.grants[..|s.prepared|], s.prepared, l.capacity)
    && (|s.prepared| < |l.grants| ==> s.frame <= l.FirstFrame(|s.prepared|))
    && Ordered(s.items)
    && (s.items != [] ==> 0 < |s.prepared| && s.items[|s.items| - 1].time <= l.FrameTime(l.FirstFrame(|s.prepared| - 1)))
    && (forall d | s.frame - 1 <= d :: Accounted(l, s, d))
    // What is eligible is covered by minislots still to come.
    && Eligible(s.items, l.FrameTime(s.frame - 1))
       <= l.capacity * Beyond(l.grants[..|s.prepared|], s.frame - 1, s.frame * l.minislotsPerFrame, l.minislotsPerFrame)
    && s.used + s.unused == l.capacity * ShareSum(l.grants, s.frame, l.minislotsPerFrame)
  }

  lemma TimeOrder(l: Link, a: int, b: int)
    requires l.Valid()
    ensures l.FrameTime(a) <= l.FrameTime(b) <==> a <= b
  {
    if a <= b {
      MulMonotone(0, b - a, l.frameDuration);
      assert b * l.frameDuration == a * l.frameDuration + (b - a) * l.frameDuration;
    } else {
      MulMonotone(1, a - b, l.frameDuration);
      assert a * l.frameDuration == b * l.frameDuration + (a - b) * l.frameDuration;
    }
  }

  lemma FirstFramesOrdered(l: Link, i: nat, j: nat)
    requires l.Valid() && i <= j < |l.grants|
    ensures l.FirstFrame(i) <= l.FirstFrame(j)
  {
    PlacedIsDisjoint(l.grants, 0, l.end);
    var m := l.minislotsPerFrame;
    FrameOfBounds(l.grants[i], m);
    FrameOfBounds(l.grants[j], m);
    if l.FirstFrame(j) < l.FirstFrame(i) {
      MulMonotone(l.FirstFrame(j) + 1, l.FirstFrame(i), m);
    }
  }

  /** A new burst is due no earlier than those before. */
  lemma NewBurstIsLast(l: Link, s: Modem, bytes: nat, time: int)
    requires l.Valid() && Inv(l, s) && Enabled(l, s, Prepare(bytes)) && time == l.FrameTime(l.FirstFrame(|s.prepared|))
    ensures Ordered(Promised(s.items, bytes, time))
  {
    if s.items != [] {
      FirstFramesOrdered(l, |s.prepared| - 1, |s.prepared|);
      TimeOrder(l, l.FirstFrame(|s.prepared| - 1), l.FirstFrame(|s.prepared|));
    }
    AddedOrdered(s.items, Item(bytes, time));
  }

  lemma PrepareAccounts(l: Link, s: Modem, bytes: nat, s': Modem, d: int)
    requires l.Valid() && Inv(l, s) && Enabled(l, s, Prepare(bytes)) && s' == Step(l, s, Prepare(bytes)) && s.frame - 1 <= d
    ensures Accounted(l, s', d)
  {
    var k := |s.prepared|;
    assert Accounted(l, s, d);
    assert l.grants[..k + 1] == l.grants[..k] + [l.grants[k]];
    PreparedAdds(l.grants[..k], s.prepared, l.grants[k], bytes, d, l.minislotsPerFrame);
    AddedTotals(s.items, Item(bytes, l.FrameTime(l.FirstFrame(k))), l.FrameTime(d));
    TimeOrder(l, l.FirstFrame(k), d);
  }

  /** A burst of a frame still to run does not count before that frame. */
  lemma PrepareCovers(l: Link, s: Modem, bytes: nat, s': Modem, from: nat)
    requires l.Valid() && Inv(l, s) && Enabled(l, s, Prepare(bytes)) && s' == Step(l, s, Prepare(bytes))
    requires from == s.frame * l.minislotsPerFrame
    ensures Eligible(s'.items, l.FrameTime(s.frame - 1))
         <= l.capacity * Beyond(l.grants[..|s'.prepared|], s.frame - 1, from, l.minislotsPerFrame)
  {
    var k, before: int := |s.prepared|, s.frame - 1;
    assert Eligible(s'.items, l.FrameTime(before)) == Eligible(s.items, l.FrameTime(before)) by {
      AddedTotals(s.items, Item(bytes, l.FrameTime(l.FirstFrame(k))), l.FrameTime(before));
      TimeOrder(l, l.FirstFrame(k), before);
    }
    assert l.grants[..k + 1] == l.grants[..k] + [l.grants[k]];
    BeyondAdds(l.grants[..k], l.grants[k], before, from, l.minislotsPerFrame);
  }

  lemma PrepareStepKeepsInv(l: Link, s: Modem, bytes: nat, s': Modem)
    requires l.Valid() && Inv(l, s) && Enabled(l, s, Prepare(bytes)) && s' == Step(l, s, Prepare(bytes))
    ensures Inv(l, s')
  {
    var k := |s.prepared|;
    NewBurstIsLast(l, s, bytes, l.FrameTime(l.FirstFrame(k)));
    if k + 1 < |l.grants| {
      FirstFramesOrdered(l, k, k + 1);
    }
    forall d | s.frame - 1 <= d ensures Accounted(l, s', d) {
      PrepareAccounts(l, s, bytes, s', d);
    }
    PrepareCovers(l, s, bytes, s', s.frame * l.minislotsPerFrame);
    if s.items != [] {
      FirstFramesOrdered(l, k - 1, k);
      TimeOrder(l, l.FirstFrame(k - 1), l.FirstFrame(k));
    }
  }

  lemma PrepareKeepsInv(l: Link, s: Modem, bytes: nat)
    requires l.Valid() && Inv(l, s) && Enabled(l, s, Prepare(bytes))
    ensures Inv(l, Step(l, s, Prepare(bytes)))
  {
    PrepareStepKeepsInv(l, s, bytes, Step(l, s, Prepare(bytes)));
  }

  /** The bytes a frame uses are taken from the account of every later deadline. */
  lemma FrameAccounts(l: Link, s: Modem, d: int)
    requires l.Valid() && Inv(l, s) && Enabled(l, s, Frame) && s.frame <= d
    ensures Accounted(l, Step(l, s, Frame), d)
  {
    var used := Step(l, s, Frame).used - s.used;
    assert Accounted(l, s, d);
    EligibleAtMostTotal(s.items, l.FrameTime(s.frame));
    RemovedTakesFromTheFront(s.items, used, l.FrameTime(d));
    TimeOrder(l, s.frame, d);
    EligibleMonotone(s.items, l.FrameTime(s.frame), l.FrameTime(d));
  }

  /** What a frame can use, and what it leaves. */
  lemma FrameUses(l: Link, s: Modem, s': Modem)
    requires l.Valid() && Inv(l, s) && Enabled(l, s, Frame) && s' == Step(l, s, Frame)
    ensures s'.used - s.used <= Eligible(s.items, l.FrameTime(s.frame)) <= Total(s.items)
    ensures Eligible(s'.items, l.FrameTime(s.frame)) == Eligible(s.items, l.FrameTime(s.frame)) - (s'.used - s.used)
    ensures Ordered(s'.items)
  {
    EligibleAtMostTotal(s.items, l.FrameTime(s.frame));
    RemovedTakesFromTheFront(s.items, s'.used - s.used, l.FrameTime(s.frame));
  }

  /** The bursts of the grants that start with the frame fit what these grants have. */
  lemma EligibleBeforeFrame(l: Link, s: Modem, from: nat) returns (before: nat, now: nat)
    requires l.Valid() && Inv(l, s) && from == s.frame * l.minislotsPerFrame
    ensures now == Beyond(l.grants[..|s.prepared|], s.frame, from, l.minislotsPerFrame)
    ensures Eligible(s.items, l.FrameTime(s.frame)) <= l.capacity * before + l.capacity * (now - before)
  {
    var done, m, f: int := l.grants[..|s.prepared|], l.minislotsPerFrame, s.frame;
    before, now := Beyond(done, f - 1, from, m), Beyond(done, f, from, m);
    assert Accounted(l, s, f) && Accounted(l, s, f - 1);
    NewBurstsFit(done, s.prepared, l.capacity, s.frame, m);
  }

  /** A frame takes its minislots from what is prepared. */
  lemma FrameTakesShare(l: Link, s: Modem, from: nat, to: nat)
    requires l.Valid() && |s.prepared| <= |l.grants| && Enabled(l, s, Frame)
    requires from == s.frame * l.minislotsPerFrame && to == (s.frame + 1) * l.minislotsPerFrame
    ensures var done, m := l.grants[..|s.prepared|], l.minislotsPerFrame;
            Beyond(done, s.frame, from, m) == Share(l.grants, s.frame, m) + Beyond(done, s.frame, to, m)
  {
    BeyondStep(l.grants[..|s.prepared|], s.frame, l.minislotsPerFrame);
    ShareIsPrepared(l, s);
  }

  /** What a frame leaves eligible is covered by the minislots of the frames after it. */
  lemma FrameCovers(l: Link, s: Modem, s': Modem, from: nat, to: nat)
    requires l.Valid() && Inv(l, s) && Enabled(l, s, Frame) && s' == Step(l, s, Frame)
    requires from == s.frame * l.minislotsPerFrame && to == (s.frame + 1) * l.minislotsPerFrame
    ensures Eligible(s'.items, l.FrameTime(s.frame))
         <= l.capacity * Beyond(l.grants[..|s.prepared|], s.frame, to, l.minislotsPerFrame)
  {
    FrameUses(l, s, s');
    FrameTakesShare(l, s, from, to);
    var before, now := EligibleBeforeFrame(l, s, from);
    CoveredAfterFrame(l.capacity, before, now, Beyond(l.grants[..|s.prepared|], s.frame, to, l.minislotsPerFrame),
                      Share(l.grants, s.frame, l.minislotsPerFrame), Eligible(s.items, l.FrameTime(s.frame)), s'.used - s.used);
  }

  /** The items that a frame leaves are of grants whose bursts are prepared. */
  lemma FrameLeaves(l: Link, s: Modem, s': Modem)
    requires l.Valid() && Inv(l, s) && Enabled(l, s, Frame) && s' == Step(l, s, Frame)
    ensures s'.items != [] ==>
              0 < |s.prepared| && s'.items[|s'.items| - 1].time <= l.FrameTime(l.FirstFrame(|s.prepared| - 1))
  {
    if s.items != [] {
      RemovedLast(s.items, s'.used - s.used, l.FrameTime(l.FirstFrame(|s.prepared| - 1)));
    }
  }

  lemma FrameStepKeepsInv(l: Link, s: Modem, s': Modem)
    requires l.Valid() && Inv(l, s) && Enabled(l, s, Frame) && s' == Step(l, s, Frame)
    ensures Inv(l, s')
  {
    FrameUses(l, s, s');
    FrameLeaves(l, s, s');
    forall d | s.frame <= d ensures Accounted(l, s', d) {
      FrameAccounts(l, s, d);
    }
    FrameCovers(l, s, s', s.frame * l.minislotsPerFrame, (s.frame + 1) * l.minislotsPerFrame);
    ShareSumStep(l, s.frame);
  }

  lemma FrameKeepsInv(l: Link, s: Modem)
    requires l.Valid() && Inv(l, s) && Enabled(l, s, Frame)
    ensures Inv(l, Step(l, s, Frame))
  {
    FrameStepKeepsInv(l, s, Step(l, s, Frame));
  }

  lemma Distribute(k: nat, a: nat, b: nat)
    ensures k * (a + b) == k * a + b * k
  {
  }

  lemma ShareSumStep(l: Link, frame: nat)
    ensures var m := l.minislotsPerFrame;
            l.capacity * ShareSum(l.grants, frame + 1, m)
            == l.capacity * ShareSum(l.grants, frame, m) + Share(l.grants, frame, m) * l.capacity
  {
    Distribute(l.capacity, ShareSum(l.grants, frame, l.minislotsPerFrame), Share(l.grants, frame, l.minislotsPerFrame));
  }

  lemma CoveredAfterFrame(capacity: nat, before: nat, now: nat, after: nat, share: nat, eligible: nat, used: int)
    requires now == share + after && used == Min(share * capacity, eligible)
    requires eligible <= capacity * before + capacity * (now - before)
    ensures eligible - used <= capacity * after
  {
    assert capacity * before + capacity * (now - before) == capacity * now;
    Distribute(capacity, after, share);
  }

  lemma {:induction false} EligibleMonotone(items: seq<Item>, a: int, b: int)
    requires a <= b
    ensures Eligible(items, a) <= Eligible(items, b)
  {
    if items != [] {
      EligibleMonotone(items[1..], a, b);
    }
  }

  /** Only grants whose bursts are prepared have minislots in the frame about to run. */
  lemma ShareIsPrepared(l: Link, s: Modem)
    requires l.Valid() && |s.prepared| <= |l.grants| && Enabled(l, s, Frame)
    ensures Share(l.grants, s.frame, l.minislotsPerFrame) == Share(l.grants[..|s.prepared|], s.frame, l.minislotsPerFrame)
  {
    var k, m := |s.prepared|, l.minislotsPerFrame;
    var later := l.grants[k..];
    forall i | 0 <= i < |later| ensures s.frame + 1 <= FrameOf(later[i], m) {
      FirstFramesOrdered(l, k, k + i);
    }
    LaterGrantsHaveNoShare(later, s.frame, m);
    assert l.grants == l.grants[..k] + later;
    ShareConcat(l.grants[..k], later, s.frame, m);
  }

  lemma {:induction false} ExecKeepsInv(l: Link, s: Modem, es: seq<Event>)
    requires l.Valid() && Inv(l, s) && Exec(l, s, es).Some?
    ensures Inv(l, Exec(l, s, es).value)
    decreases |es|
  {
    if es != [] {
      if es[0].Frame? {
        FrameKeepsInv(l, s);
      } else {
        PrepareKeepsInv(l, s, es[0].bytes);
      }
      ExecKeepsInv(l, Step(l, s, es[0]), es[1..]);
    }
  }

  lemma IdleInv(l: Link)
    requires l.Valid()
    ensures Inv(l, IDLE)
  {
    assert l.grants[..0] == [];
  }

  // ----- At the end of a MAP

  /** No grant reaches across the start of the frame, as at every MAP boundary. */
  predicate Boundary(l: Link, frame: nat) {
    forall i | 0 <= i < |l.grants| ::
      l.grants[i].offset < frame * l.minislotsPerFrame ==> l.grants[i].End() <= frame * l.minislotsPerFrame
  }

  lemma {:induction false} NothingBeyond(gs: seq<Grant>, frame: nat, m: nat)
    requires 0 < m
    requires forall i | 0 <= i < |gs| :: gs[i].offset < frame * m ==> gs[i].End() <= frame * m
    ensures Beyond(gs, frame - 1, frame * m, m) == 0
  {
    if gs != [] {
      assert forall i | 0 <= i < |gs[1..]| :: gs[1..][i] == gs[i + 1];
      NothingBeyond(gs[1..], frame, m);
      FrameOfBounds(gs[0], m);
      if FrameOf(gs[0], m) <= frame - 1 {
        MulMonotone(FrameOf(gs[0], m) + 1, frame, m);
      }
    }
  }

  /** Minislots of the grants that start before a frame. */
  function GrantedBefore(gs: seq<Grant>, frame: nat, m: nat): nat
    requires 0 < m
  {
    if gs == [] then 0
    else (if FrameOf(gs[0], m) < frame then gs[0].length else 0) + GrantedBefore(gs[1..], frame, m)
  }

  lemma {:induction false} SharesAreGranted(gs: seq<Grant>, frame: nat, m: nat)
    requires 0 < m
    requires forall i | 0 <= i < |gs| :: gs[i].offset < frame * m ==> gs[i].End() <= frame * m
    ensures ShareSum(gs, frame, m) == GrantedBefore(gs, frame, m)
  {
    if gs == [] {
      NoShares(frame, m);
    } else {
      assert forall i | 0 <= i < |gs[1..]| :: gs[1..][i] == gs[i + 1];
      SharesAreGranted(gs[1..], frame, m);
      ShareSumSplits(gs, frame, m);
      OverlapSumIsLength(gs[0], frame, m);
      FrameOfBounds(gs[0], m);
      if FrameOf(gs[0], m) < frame {
        MulMonotone(FrameOf(gs[0], m) + 1, frame, m);
      } else {
        MulMonotone(frame, FrameOf(gs[0], m), m);
      }
    }
  }

  lemma {:induction false} ExecExtends(l: Link, s: Modem, es: seq<Event>)
    requires l.Valid() && Exec(l, s, es).Some?
    ensures s.prepared <= Exec(l, s, es).value.prepared
    decreases |es|
  {
    if es != [] {
      ExecExtends(l, Step(l, s, es[0]), es[1..]);
    }
  }

  lemma {:induction false} LaterPreparationsDoNotCount(gs: seq<Grant>, prepared: seq<nat>, k: nat, frame: int, m: nat)
    requires 0 < m && |prepared| == |gs| && k <= |gs|
    requires forall i | k <= i < |gs| :: frame < FrameOf(gs[i], m)
    ensures PreparedUpTo(gs, prepared, frame, m) == PreparedUpTo(gs[..k], prepared[..k], frame, m)
    decreases |gs|
  {
    if k < |gs| {
      var n := |gs| - 1;
      LaterPreparationsDoNotCount(gs[..n], prepared[..n], k, frame, m);
      assert gs == gs[..n] + [gs[n]] && prepared == prepared[..n] + [prepared[n]];
      PreparedAdds(gs[..n], prepared[..n], gs[n], prepared[n], frame, m);
      assert gs[..n][..k] == gs[..k] && prepared[..n][..k] == prepared[..k];
    } else {
      assert gs[..k] == gs && prepared[..k] == prepared;
    }
  }

  /** At a boundary: what was used is what was promised, and used plus unused is what was granted. */
  lemma AtBoundary(l: Link, s: Modem)
    requires l.Valid() && Inv(l, s) && Boundary(l, s.frame)
    ensures Eligible(s.items, l.FrameTime(s.frame - 1)) == 0
    ensures s.used == PreparedUpTo(l.grants[..|s.prepared|], s.prepared, s.frame - 1, l.minislotsPerFrame)
    ensures s.used + s.unused == l.capacity * GrantedBefore(l.grants, s.frame, l.minislotsPerFrame)
  {
    var m, f: int := l.minislotsPerFrame, s.frame;
    assert Beyond(l.grants[..|s.prepared|], f - 1, s.frame * m, m) == 0 by {
      NothingBeyond(l.grants[..|s.prepared|], s.frame, m);
    }
    assert Accounted(l, s, f - 1);
    assert ShareSum(l.grants, s.frame, m) == GrantedBefore(l.grants, s.frame, m) by {
      SharesAreGranted(l.grants, s.frame, m);
    }
  }

  /**
   Bytes prepared for a MAP leave in that MAP: however preparation and frames interleave, at a MAP
   boundary nothing eligible is left in the transmit pipeline, and the bytes used so far
   are exactly those promised to the grants before the boundary.
   */
  lemma PreparedBytesLeave(l: Link, es: seq<Event>)
    requires l.Valid() && Exec(l, IDLE, es).Some?
    requires Boundary(l, Exec(l, IDLE, es).value.frame)
    ensures var s := Exec(l, IDLE, es).value;
            && |s.prepared| <= |l.grants|
            && Eligible(s.items, l.FrameTime(s.frame - 1)) == 0
            && s.used == PreparedUpTo(l.grants[..|s.prepared|], s.prepared, s.frame - 1, l.minislotsPerFrame)
  {
    IdleInv(l);
    ExecKeepsInv(l, IDLE, es);
    var s := Exec(l, IDLE, es).value;
    AtBoundary(l, s);
  }

  /**
   The report of a MAP interval, between two boundaries of a run: the bytes used are those promised to the
   grants that start in the interval, and used plus unused are the bytes of these grants.
   */
  lemma MapReport(l: Link, es: seq<Event>, es': seq<Event>)
    requires l.Valid() && Exec(l, IDLE, es).Some? && Exec(l, Exec(l, IDLE, es).value, es').Some?
    requires var s := Exec(l, IDLE, es).value;
             Boundary(l, s.frame) && Boundary(l, Exec(l, s, es').value.frame)
    ensures var s := Exec(l, IDLE, es).value;
            var s' := Exec(l, s, es').value;
            var m := l.minislotsPerFrame;
            && |s'.prepared| <= |l.grants|
            && var gs := l.grants[..|s'.prepared|];
            && s'.used - s.used == PreparedUpTo(gs, s'.prepared, s'.frame - 1, m) - PreparedUpTo(gs, s'.prepared, s.frame - 1, m)
            && (s'.used - s.used) + (s'.unused - s.unused)
               == l.capacity * GrantedBefore(l.grants, s'.frame, m) - l.capacity * GrantedBefore(l.grants, s.frame, m)
  {
    var s := Exec(l, IDLE, es).value;
    var s' := Exec(l, s, es').value;
    IdleInv(l);
    ExecKeepsInv(l, IDLE, es);
    ExecKeepsInv(l, s, es');
    ExecExtends(l, s, es');
    ReportBetween(l, s, s');
  }

  lemma ReportBetween(l: Link, s: Modem, s': Modem)
    requires l.Valid() && Inv(l, s) && Inv(l, s') && s.prepared <= s'.prepared
    requires Boundary(l, s.frame) && Boundary(l, s'.frame)
    ensures var gs, m := l.grants[..|s'.prepared|], l.minislotsPerFrame;
            && s'.used - s.used == PreparedUpTo(gs, s'.prepared, s'.frame - 1, m) - PreparedUpTo(gs, s'.prepared, s.frame - 1, m)
            && (s'.used - s.used) + (s'.unused - s.unused)
               == l.capacity * GrantedBefore(l.grants, s'.frame, m) - l.capacity * GrantedBefore(l.grants, s.frame, m)
  {
    AtBoundary(l, s);
    AtBoundary(l, s');
    LaterBursts(l, s, s'.prepared);
  }

  /** Bursts prepared later are of grants that start later. */
  lemma LaterBursts(l: Link, s: Modem, prepared: seq<nat>)
    requires l.Valid() && Inv(l, s) && s.prepared <= prepared && |prepared| <= |l.grants|
    ensures PreparedUpTo(l.grants[..|prepared|], prepared, s.frame - 1, l.minislotsPerFrame)
         == PreparedUpTo(l.grants[..|s.prepared|], s.prepared, s.frame - 1, l.minislotsPerFrame)
  {
    var k, gs := |s.prepared|, l.grants[..|prepared|];
    forall i | k <= i < |gs| ensures s.frame - 1 < FrameOf(gs[i], l.minislotsPerFrame) {
      FirstFramesOrdered(l, k, i);
    }
    LaterPreparationsDoNotCount(gs, prepared, k, s.frame - 1, l.minislotsPerFrame);
    assert gs[..k] == l.grants[..k] && prepared[..k] == s.prepared;
  }

  /** The grants of one MAP, moved to where the MAP starts in the run. */
  function Shifted(gs: seq<Grant>, start: nat): seq<Grant> {
    if gs == [] then [] else [gs[0].(offset := start + gs[0].offset)] + Shifted(gs[1..], start)
  }

  /** The per-frame allocation computed for one MAP is the share of the corresponding frame of the run. */
  lemma {:induction false} ShareOfShifted(gs: seq<Grant>, firstFrame: nat, frame: nat, m: nat)
    ensures Share(Shifted(gs, firstFrame * m), firstFrame + frame, m) == Share(gs, frame, m)
  {
    if gs != [] {
      ShareOfShifted(gs[1..], firstFrame, frame, m);
      assert (firstFrame + frame) * m == firstFrame * m + frame * m;
      assert (firstFrame + frame + 1) * m == firstFrame * m + (frame + 1) * m;
      assert Shifted(gs, firstFrame * m)[1..] == Shifted(gs[1..], firstFrame * m);
    }
  }
}
