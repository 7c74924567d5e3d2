/** What queue protection guarantees over runs: bounded levels, unique ownership, and no interference between flows. */
module FlowIsolation {
  import opened DocsisTypes
  import opened QueueProtections

  datatype Arrival = Arrival(flow: Flow, score: nat, time: int)

  /** The clock never runs backwards. */
  predicate Timely(arrivals: seq<Arrival>, from: int) {
    arrivals == [] || (from <= arrivals[0].time && Timely(arrivals[1..], arrivals[0].time))
  }

  function Final(p: Params, t: Table, arrivals: seq<Arrival>): Table
    requires p.Valid() && |t.buckets| == p.nbuckets + 1
    decreases |arrivals|
  {
    if arrivals == [] then t
    else Final(p, Protect(p, t, arrivals[0].flow, arrivals[0].score, arrivals[0].time).table, arrivals[1..])
  }

  // ----- Ownership

  function ProbeSet(p: Params, f: Flow): seq<nat>
    requires p.Valid()
  {
    Probes(p, f.h32, p.attempts)
  }

  /** A dedicated bucket is in the hash probe set of its owner, who is a known flow. */
  predicate OwnedByProbe(p: Params, t: Table, h: nat)
    requires p.Valid() && h < |t.buckets|
  {
    var o := t.buckets[h].owner;
    o.Some? ==> o.value < |t.flows| && h in ProbeSet(p, t.flows[o.value])
  }

  ghost predicate TableInv(p: Params, t: Table, now: int) {
    && p.Valid() && |t.buckets| == p.nbuckets + 1
    && Distinct(t.flows)
    && (forall h | 0 <= h < p.nbuckets :: OwnedByProbe(p, t, h))
    && (forall h, k | 0 <= h < k < p.nbuckets :: t.buckets[h].owner.Some? ==> t.buckets[h].owner != t.buckets[k].owner)
    && (forall h | 0 <= h <= p.nbuckets :: t.buckets[h].expiry - now <= p.maxScore)
  }

  predicate OwnsNone(p: Params, t: Table, id: nat)
    requires |t.buckets| == p.nbuckets + 1
  {
    forall h | 0 <= h < p.nbuckets :: t.buckets[h].owner != Some(id)
  }

  /** When probing does not find a bucket of the flow, the flow has none. */
  lemma NotFoundMeansNone(p: Params, t: Table, f: Flow, now: int)
    requires TableInv(p, t, now) && !Chosen(p, t, f, now).Owned?
    ensures OwnsNone(p, t, IndexOf(t.flows, f))
  {
    IndexOfFinds(t.flows, f);
    ChooseFinds(t.buckets, IndexOf(t.flows, f), ProbeSet(p, f), None, now);
    forall h | 0 <= h < p.nbuckets ensures t.buckets[h].owner != Some(IndexOf(t.flows, f)) {
      assert OwnedByProbe(p, t, h);
    }
  }

  lemma ProtectKeepsInv(p: Params, t: Table, f: Flow, score: nat, before: int, now: int)
    requires TableInv(p, t, before) && before <= now
    ensures TableInv(p, Protect(p, t, f, score, now).table, now)
  {
    var c, id := Chosen(p, t, f, now), IndexOf(t.flows, f);
    assert TableInv(p, t, now);
    FlowIdsAreStable(t.flows, f, f);
    IndexOfFinds(t.flows, f);
    ChooseFinds(t.buckets, id, ProbeSet(p, f), None, now);
    var t' := Protect(p, t, f, score, now).table;
    if !c.Owned? {
      NotFoundMeansNone(p, t, f, now);
    }
    forall h | 0 <= h < p.nbuckets ensures OwnedByProbe(p, t', h) {
      assert OwnedByProbe(p, t, h);
    }
  }

  lemma {:induction false} RunKeepsInv(p: Params, t: Table, arrivals: seq<Arrival>, from: int)
    requires TableInv(p, t, from) && Timely(arrivals, from)
    ensures TableInv(p, Final(p, t, arrivals), if arrivals == [] then from else arrivals[|arrivals| - 1].time)
    decreases |arrivals|
  {
    if arrivals != [] {
      var a := arrivals[0];
      ProtectKeepsInv(p, t, a.flow, a.score, from, a.time);
      RunKeepsInv(p, Protect(p, t, a.flow, a.score, a.time).table, arrivals[1..], a.time);
    }
  }

  lemma EmptyInv(p: Params)
    requires p.Valid()
    ensures TableInv(p, Empty(p), 0)
  {
  }

  // ----- Draining levels

  /** How full a bucket is at a time. */
  function Level(b: Bucket, now: int): int {
    Max(b.expiry - now, 0)
  }

  /**
   Expiry times stand for levels that drain with time: in every reachable table, levels lie between 0 and the
   maximum and fall by the elapsed time down to 0, and a packet raises the level of the bucket it gets by
   its score, up to the maximum, and changes no other. A bucket is recycled only when its level is 0.
   */
  lemma ExpiryIsDrainingLevel(p: Params, t: Table, f: Flow, score: nat, before: int, now: int)
    requires TableInv(p, t, before) && before <= now
    ensures var c := Chosen(p, t, f, now);
            var h := if c.Default? then p.nbuckets else c.h;
            var v := Protect(p, t, f, score, now);
            && h <= p.nbuckets
            && (forall k | 0 <= k <= p.nbuckets :: Level(t.buckets[k], now) == Max(Level(t.buckets[k], before) - (now - before), 0))
            && (forall k | 0 <= k <= p.nbuckets :: 0 <= Level(v.table.buckets[k], now) <= p.maxScore)
            && (forall k | 0 <= k <= p.nbuckets && k != h :: v.table.buckets[k] == t.buckets[k])
            && v.score == Level(v.table.buckets[h], now) == Min(Level(t.buckets[h], now) + score, p.maxScore)
            && (c.Recycled? ==> Level(t.buckets[h], now) == 0)
  {
    ChooseFinds(t.buckets, IndexOf(t.flows, f), ProbeSet(p, f), None, now);
    ProtectKeepsInv(p, t, f, score, before, now);
  }

  // ----- Isolation

  /** The scores a flow gets in a run. */
  function ScoresOf(p: Params, t: Table, arrivals: seq<Arrival>, f: Flow): seq<int>
    requires p.Valid() && |t.buckets| == p.nbuckets + 1
    decreases |arrivals|
  {
    if arrivals == [] then []
    else
      var v := Protect(p, t, arrivals[0].flow, arrivals[0].score, arrivals[0].time);
      (if arrivals[0].flow == f then [v.score] else []) + ScoresOf(p, v.table, arrivals[1..], f)
  }

  /** Every packet of the flow gets a bucket of its own. */
  predicate AlwaysDedicated(p: Params, t: Table, arrivals: seq<Arrival>, f: Flow)
    requires p.Valid() && |t.buckets| == p.nbuckets + 1
    decreases |arrivals|
  {
    arrivals == [] ||
    (var v := Protect(p, t, arrivals[0].flow, arrivals[0].score, arrivals[0].time);
     (arrivals[0].flow == f ==> v.dedicated) && AlwaysDedicated(p, v.table, arrivals[1..], f))
  }

  /** The scores of a leaky bucket that the flow has for itself, with this level at that time. */
  function PrivateScores(maxScore: nat, arrivals: seq<Arrival>, f: Flow, level: int, at: int): seq<int> {
    if arrivals == [] then []
    else if arrivals[0].flow != f then PrivateScores(maxScore, arrivals[1..], f, level, at)
    else
      var now := arrivals[0].time;
      var level' := Min(maxScore, Max(0, level - (now - at)) + arrivals[0].score);
      [level'] + PrivateScores(maxScore, arrivals[1..], f, level', now)
  }

  /** The private bucket is where the flow's dedicated bucket is; without one, it has drained. */
  predicate Matches(p: Params, t: Table, f: Flow, level: int, at: int, now: int)
    requires |t.buckets| == p.nbuckets + 1
  {
    var id := IndexOf(t.flows, f);
    && (forall h | 0 <= h < p.nbuckets && t.buckets[h].owner == Some(id) :: t.buckets[h].expiry == at + level)
    && (OwnsNone(p, t, id) ==> at + level <= now)
  }

  /** Another flow's packet leaves the match alone: it takes f's bucket only after that has drained. */
  lemma OthersDoNotInterfere(p: Params, t: Table, f: Flow, a: Arrival, level: int, at: int, from: int)
    requires TableInv(p, t, from) && from <= a.time && a.flow != f
    requires Matches(p, t, f, level, at, from)
    ensures Matches(p, Protect(p, t, a.flow, a.score, a.time).table, f, level, at, a.time)
  {
    var id, other := IndexOf(t.flows, f), IndexOf(t.flows, a.flow);
    var t' := Protect(p, t, a.flow, a.score, a.time).table;
    var c := Chosen(p, t, a.flow, a.time);
    IndexOfFinds(t.flows, f);
    IndexOfFinds(t.flows, a.flow);
    IndexOfFinds(t'.flows, f);
    ChooseFinds(t.buckets, other, ProbeSet(p, a.flow), None, a.time);
    var h := if c.Default? then p.nbuckets else c.h;
    if f in t.flows {
      assert id != other;
    } else {
      assert OwnsNone(p, t, id) by {
        forall k | 0 <= k < p.nbuckets ensures t.buckets[k].owner != Some(id) {
          assert OwnedByProbe(p, t, k);
        }
      }
      NewcomerOwnsNone(p, t, f, a);
    }
    if OwnsNone(p, t', IndexOf(t'.flows, f)) && !OwnsNone(p, t, id) {
      var k :| 0 <= k < p.nbuckets && t.buckets[k].owner == Some(id);
      assert t'.buckets[k].owner != Some(id);
      assert k == h;
    }
  }

  lemma NewcomerOwnsNone(p: Params, t: Table, f: Flow, a: Arrival)
    requires TableInv(p, t, a.time) && f !in t.flows && a.flow != f
    ensures var t' := Protect(p, t, a.flow, a.score, a.time).table;
            OwnsNone(p, t', IndexOf(t'.flows, f))
  {
    var t' := Protect(p, t, a.flow, a.score, a.time).table;
    ProtectKeepsInv(p, t, a.flow, a.score, a.time, a.time);
    IndexOfFinds(t'.flows, f);
    forall k | 0 <= k < p.nbuckets ensures t'.buckets[k].owner != Some(IndexOf(t'.flows, f)) {
      assert OwnedByProbe(p, t', k);
    }
  }

  /** The flow's own packet, given a dedicated bucket, scores what the private bucket would. */
  lemma OwnPacketMatches(p: Params, t: Table, a: Arrival, level: int, at: int, from: int)
    requires TableInv(p, t, from) && from <= a.time
    requires Matches(p, t, a.flow, level, at, from)
    requires Protect(p, t, a.flow, a.score, a.time).dedicated
    ensures var v := Protect(p, t, a.flow, a.score, a.time);
            && v.score == Min(p.maxScore, Max(0, level - (a.time - at)) + a.score)
            && Matches(p, v.table, a.flow, v.score, a.time, a.time)
  {
    var id := IndexOf(t.flows, a.flow);
    var c := Chosen(p, t, a.flow, a.time);
    ChooseFinds(t.buckets, id, ProbeSet(p, a.flow), None, a.time);
    FlowIdsAreStable(t.flows, a.flow, a.flow);
    var v := Protect(p, t, a.flow, a.score, a.time);
    assert v.table.buckets[c.h].owner == Some(id);
    if c.Recycled? {
      NotFoundMeansNone(p, t, a.flow, a.time);
    }
  }

  /**
   Flow isolation: if every packet of a flow gets a dedicated bucket, the flow's scores are those of a private
   leaky bucket that sees this flow alone, whatever the other flows send.
   */
  lemma {:induction false} IsolationFrom(p: Params, t: Table, arrivals: seq<Arrival>, f: Flow, level: int, at: int, from: int)
    requires TableInv(p, t, from) && Timely(arrivals, from)
    requires Matches(p, t, f, level, at, from)
    requires AlwaysDedicated(p, t, arrivals, f)
    ensures ScoresOf(p, t, arrivals, f) == PrivateScores(p.maxScore, arrivals, f, level, at)
    decreases |arrivals|
  {
    if arrivals != [] {
      var a := arrivals[0];
      var v := Protect(p, t, a.flow, a.score, a.time);
      assert TableInv(p, v.table, a.time) by {
        ProtectKeepsInv(p, t, a.flow, a.score, from, a.time);
      }
      if a.flow == f {
        assert v.score == Min(p.maxScore, Max(0, level - (a.time - at)) + a.score)
            && Matches(p, v.table, f, v.score, a.time, a.time) by {
          OwnPacketMatches(p, t, a, level, at, from);
        }
        IsolationFrom(p, v.table, arrivals[1..], f, v.score, a.time, a.time);
      } else {
        assert Matches(p, v.table, f, level, at, a.time) by {
          OthersDoNotInterfere(p, t, f, a, level, at, from);
        }
        IsolationFrom(p, v.table, arrivals[1..], f, level, at, a.time);
        assert [] + ScoresOf(p, v.table, arrivals[1..], f) == ScoresOf(p, v.table, arrivals[1..], f);
      }
    }
  }

  lemma Isolation(p: Params, arrivals: seq<Arrival>, f: Flow)
    requires p.Valid() && Timely(arrivals, 0) && AlwaysDedicated(p, Empty(p), arrivals, f)
    ensures ScoresOf(p, Empty(p), arrivals, f) == PrivateScores(p.maxScore, arrivals, f, 0, 0)
  {
    EmptyInv(p);
    IsolationFrom(p, Empty(p), arrivals, f, 0, 0, 0);
  }

  /** Two runs that agree on a flow's packets, and give each a dedicated bucket, agree on the flow's scores. */
  lemma NonInterference(p: Params, one: seq<Arrival>, two: seq<Arrival>, f: Flow)
    requires p.Valid() && Timely(one, 0) && Timely(two, 0)
    requires AlwaysDedicated(p, Empty(p), one, f) && AlwaysDedicated(p, Empty(p), two, f)
    requires PacketsOf(one, f) == PacketsOf(two, f)
    ensures ScoresOf(p, Empty(p), one, f) == ScoresOf(p, Empty(p), two, f)
  {
    Isolation(p, one, f);
    Isolation(p, two, f);
    PrivateSeesOnlyItsFlow(p.maxScore, one, f, 0, 0);
    PrivateSeesOnlyItsFlow(p.maxScore, two, f, 0, 0);
  }

  function PacketsOf(arrivals: seq<Arrival>, f: Flow): seq<Arrival> {
    if arrivals == [] then []
    else (if arrivals[0].flow == f then [arrivals[0]] else []) + PacketsOf(arrivals[1..], f)
  }

  lemma {:induction false} PrivateSeesOnlyItsFlow(maxScore: nat, arrivals: seq<Arrival>, f: Flow, level: int, at: int)
    ensures PrivateScores(maxScore, arrivals, f, level, at) == PrivateScores(maxScore, PacketsOf(arrivals, f), f, level, at)
  {
    if arrivals != [] {
      var rest := PacketsOf(arrivals[1..], f);
      if arrivals[0].flow == f {
        var now := arrivals[0].time;
        PrivateSeesOnlyItsFlow(maxScore, arrivals[1..], f, Min(maxScore, Max(0, level - (now - at)) + arrivals[0].score), now);
        assert ([arrivals[0]] + rest)[1..] == rest;
      } else {
        PrivateSeesOnlyItsFlow(maxScore, arrivals[1..], f, level, at);
        assert [] + rest == rest;
      }
    }
  }

  /** The condition is needed: in the shared default bucket, a flow is charged for another one. */
  lemma DefaultBucketInterferes()
    ensures var p := Params(true, 1, 1, 100, 0, 0, 30, 1);
            var arrivals := [Arrival(Flow(1, 0), 50, 0), Arrival(Flow(2, 0), 10, 0), Arrival(Flow(3, 0), 5, 0)];
            && ScoresOf(p, Empty(p), arrivals, Flow(3, 0)) == [15]
            && PrivateScores(p.maxScore, arrivals, Flow(3, 0), 0, 0) == [5]
  {
    var p := Params(true, 1, 1, 100, 0, 0, 30, 1);
    var a, b, f := Flow(1, 0), Flow(2, 0), Flow(3, 0);
    var one: seq<Arrival> := [Arrival(f, 5, 0)];
    var two: seq<Arrival> := [Arrival(b, 10, 0)] + one;
    var three: seq<Arrival> := [Arrival(a, 50, 0)] + two;
    assert three == [Arrival(a, 50, 0), Arrival(b, 10, 0), Arrival(f, 5, 0)];
    assert one[1..] == [] && two[1..] == one && three[1..] == two;
    assert PrivateScores(100, [], f, 5, 0) == [] && PrivateScores(100, one, f, 0, 0) == [5];
    assert PrivateScores(100, two, f, 0, 0) == [5];
    var t0 := Empty(p);
    var t1, t2 := ThreeFlowsCollide();
    assert ScoresOf(p, Protect(p, t2, f, 5, 0).table, [], f) == [];
    assert ScoresOf(p, t2, one, f) == [15];
    assert ScoresOf(p, t1, two, f) == [15];
  }

  /** The first flow takes the only bucket; the other two share the default bucket. */
  lemma ThreeFlowsCollide() returns (t1: Table, t2: Table)
    ensures |t1.buckets| == |t2.buckets| == 2
    ensures var p := Params(true, 1, 1, 100, 0, 0, 30, 1);
            && Protect(p, Empty(p), Flow(1, 0), 50, 0).table == t1
            && Protect(p, t1, Flow(2, 0), 10, 0).table == t2
            && Protect(p, t2, Flow(3, 0), 5, 0).score == 15
  {
    var p := Params(true, 1, 1, 100, 0, 0, 30, 1);
    var a, b, f := Flow(1, 0), Flow(2, 0), Flow(3, 0);
    var t0 := Empty(p);
    t1 := Table([Bucket(Some(0), 50), Bucket(None, 0)], [a]);
    t2 := Table([Bucket(Some(0), 50), Bucket(Some(1), 10)], [a, b]);
    var hs: seq<nat>, none: seq<nat> := [0], [];
    assert Probes(p, 0, 0) == none && Probes(p, 0, 1) == hs && hs[1..] == none;
    assert [a][1..] == [] && [a, b][1..] == [b] && [b][1..] == [];
    assert t0.buckets == [Bucket(None, 0), Bucket(None, 0)];
    assert Choose(t0.buckets, 0, none, Some(0), 0) == Recycled(0);
    assert Choose(t1.buckets, 1, none, None, 0) == Default == Choose(t2.buckets, 2, none, None, 0);
    assert IndexOf(t0.flows, a) == 0 && IndexOf([b], b) == 0 && IndexOf(t1.flows, b) == 1;
    assert IndexOf([b], f) == 1 && IndexOf(t2.flows, f) == 2;
    assert Chosen(p, t0, a, 0) == Recycled(0);
    assert Chosen(p, t1, b, 0) == Default;
    assert Chosen(p, t2, f, 0) == Default;
  }
}
