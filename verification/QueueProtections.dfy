/**
 Queue protection (Annex P of CM-SP-MULPIv3.1): every low-latency packet adds a congestion score to a leaky
 bucket of its flow. A bucket is stored as the time at which it will have drained; buckets are
 found by hashing, and recycled once they have drained.
 */
module QueueProtections {
  import opened DocsisTypes

  /** A microflow: what identifies it, and the hash of that. */
  datatype Flow = Flow(id: nat, h32: nat)

  datatype Bucket = Bucket(owner: Option<nat>, expiry: int)

  /** Times and scores are in units of resolution nanoseconds. */
  datatype Params = Params(enabled: bool, nbuckets: nat, attempts: nat, maxScore: nat, criticalDelay: int, criticalProduct: int,
                           drainRateExponent: nat, resolution: nat) {
    predicate Valid() {
      0 < nbuckets && 0 < resolution && drainRateExponent <= 30
    }
  }

  /** The buckets, the last one being the shared default bucket, and the flows seen, indexed by flow id. */
  datatype Table = Table(buckets: seq<Bucket>, flows: seq<Flow>)

  // ----- Flow ids

  function IndexOf(flows: seq<Flow>, f: Flow): nat {
    if flows == [] || flows[0] == f then 0 else 1 + IndexOf(flows[1..], f)
  }

  lemma {:induction false} IndexOfFinds(flows: seq<Flow>, f: Flow)
    ensures IndexOf(flows, f) <= |flows|
    ensures IndexOf(flows, f) < |flows| <==> f in flows
    ensures IndexOf(flows, f) < |flows| ==> flows[IndexOf(flows, f)] == f
    ensures forall i | 0 <= i < IndexOf(flows, f) :: flows[i] != f
  {
    if flows != [] && flows[0] != f {
      IndexOfFinds(flows[1..], f);
      assert flows == [flows[0]] + flows[1..];
    }
  }

  function WithFlow(flows: seq<Flow>, f: Flow): seq<Flow> {
    if f in flows then flows else flows + [f]
  }

  predicate Distinct(flows: seq<Flow>) {
    forall i, j | 0 <= i < j < |flows| :: flows[i] != flows[j]
  }

  /** A flow keeps its id for good, and no two flows share one. */
  lemma FlowIdsAreStable(flows: seq<Flow>, f: Flow, g: Flow)
    requires Distinct(flows)
    ensures Distinct(WithFlow(flows, f))
    ensures g in flows ==> IndexOf(WithFlow(flows, f), g) == IndexOf(flows, g)
    ensures f in WithFlow(flows, f) && IndexOf(WithFlow(flows, f), f) == IndexOf(flows, f)
    ensures g != f && g in WithFlow(flows, f) ==> IndexOf(WithFlow(flows, f), g) != IndexOf(flows, f)
  {
    IndexOfFinds(flows, f);
    IndexOfFinds(flows, g);
    IndexOfFinds(WithFlow(flows, f), f);
    IndexOfFinds(WithFlow(flows, f), g);
  }

  function Power(base: nat, n: nat): (r: nat)
    ensures 0 < base ==> 0 < r
  {
    if n == 0 then 1
    else
      assert 0 < base ==> 0 < base * Power(base, n - 1);
      base * Power(base, n - 1)
  }

  // ----- Probing for a bucket

  predicate Below(hs: seq<nat>, n: nat) {
    forall i | 0 <= i < |hs| :: hs[i] < n
  }

  /** The buckets tried, in order: each attempt uses the next bits of the hash. */
  function Probes(p: Params, h32: nat, attempts: nat): (hs: seq<nat>)
    requires p.Valid()
    ensures Below(hs, p.nbuckets)
    decreases attempts
  {
    if attempts == 0 then [] else [h32 % p.nbuckets] + Probes(p, h32 / p.nbuckets, attempts - 1)
  }

  /** The j-th attempt takes the j-th group of bits of the hash. */
  function Tried(p: Params, h32: nat, j: nat): nat
    requires p.Valid()
  {
    h32 / Power(p.nbuckets, j) % p.nbuckets
  }

  lemma {:induction false} ProbesAreTried(p: Params, h32: nat, attempts: nat)
    requires p.Valid()
    ensures |Probes(p, h32, attempts)| == attempts
    ensures forall j: nat | j < attempts :: Probes(p, h32, attempts)[j] == Tried(p, h32, j)
    decreases attempts
  {
    if attempts > 0 {
      ProbesAreTried(p, h32 / p.nbuckets, attempts - 1);
      forall j: nat | j < attempts ensures Probes(p, h32, attempts)[j] == Tried(p, h32, j) {
        if j > 0 {
          QuotientOfQuotient(h32, p.nbuckets, Power(p.nbuckets, j - 1));
        }
      }
    }
  }

  lemma QuotientOfQuotient(x: nat, a: nat, b: nat)
    requires 0 < a && 0 < b
    ensures 0 < a * b && x / a / b == x / (a * b)
  {
    var q := x / a / b;
    assert 0 < a * b;
    Regroup(q, a, b);
    Regroup(q + 1, a, b);
    QuotientIsMost(x / a, b, q);
    QuotientIsMost(x / a, b, q + 1);
    QuotientIsMost(x, a, q * b);
    QuotientIsMost(x, a, (q + 1) * b);
    QuotientIsMost(x, a * b, q);
    QuotientIsMost(x, a * b, q + 1);
  }

  lemma Regroup(q: nat, a: nat, b: nat)
    ensures q * b * a == q * (a * b)
  {
  }

  datatype Choice = Owned(h: nat) | Recycled(h: nat) | Default

  /** The first bucket of the flow; failing that, the first drained bucket, or the one found before. */
  function Choose(buckets: seq<Bucket>, flowId: nat, hs: seq<nat>, interim: Option<nat>, now: int): Choice
    requires Below(hs, |buckets|)
  {
    if hs == [] then (if interim.Some? then Recycled(interim.value) else Default)
    else if buckets[hs[0]].owner == Some(flowId) then Owned(hs[0])
    else
      Choose(buckets, flowId, hs[1..], if interim.None? && buckets[hs[0]].expiry <= now then Some(hs[0]) else interim, now)
  }

  predicate OwnedAt(buckets: seq<Bucket>, flowId: nat, hs: seq<nat>, j: nat)
    requires Below(hs, |buckets|)
  {
    j < |hs| && buckets[hs[j]].owner == Some(flowId)
  }

  predicate DrainedAt(buckets: seq<Bucket>, hs: seq<nat>, now: int, j: nat)
    requires Below(hs, |buckets|)
  {
    j < |hs| && buckets[hs[j]].expiry <= now
  }

  /** It is the first of the flow's buckets that is found, or the first of the drained ones. */
  lemma {:induction false} ChooseFindsFirst(buckets: seq<Bucket>, flowId: nat, hs: seq<nat>, interim: Option<nat>, now: int)
    returns (j: nat)
    requires Below(hs, |buckets|)
    ensures var c := Choose(buckets, flowId, hs, interim, now);
            && (c.Owned? ==> OwnedAt(buckets, flowId, hs, j) && c.h == hs[j] && forall i: nat | i < j :: !OwnedAt(buckets, flowId, hs, i))
            && (c.Recycled? && interim.None? ==>
                  DrainedAt(buckets, hs, now, j) && c.h == hs[j] && forall i: nat | i < j :: !DrainedAt(buckets, hs, now, i))
            && (c.Recycled? && interim.Some? ==> c.h == interim.value)
  {
    j := 0;
    if hs != [] && buckets[hs[0]].owner != Some(flowId) {
      var drained := buckets[hs[0]].expiry <= now;
      var later := ChooseFindsFirst(buckets, flowId, hs[1..], if interim.None? && drained then Some(hs[0]) else interim, now);
      if Choose(buckets, flowId, hs, interim, now).Owned? || !drained {
        j := later + 1;
        forall i: nat | 0 < i ensures OwnedAt(buckets, flowId, hs, i) == OwnedAt(buckets, flowId, hs[1..], i - 1) {
        }
        forall i: nat | 0 < i ensures DrainedAt(buckets, hs, now, i) == DrainedAt(buckets, hs[1..], now, i - 1) {
        }
      }
    }
  }

  predicate TriedOwned(p: Params, buckets: seq<Bucket>, id: nat, h32: nat, j: nat)
    requires p.Valid() && |buckets| == p.nbuckets + 1
  {
    j < p.attempts && buckets[Tried(p, h32, j)].owner == Some(id)
  }

  predicate TriedDrained(p: Params, buckets: seq<Bucket>, h32: nat, now: int, j: nat)
    requires p.Valid() && |buckets| == p.nbuckets + 1
  {
    j < p.attempts && buckets[Tried(p, h32, j)].expiry <= now
  }

  predicate TriedFree(p: Params, buckets: seq<Bucket>, id: nat, h32: nat, now: int, j: nat)
    requires p.Valid() && |buckets| == p.nbuckets + 1
  {
    TriedOwned(p, buckets, id, h32, j) || TriedDrained(p, buckets, h32, now, j)
  }

  ghost predicate FirstOwned(p: Params, buckets: seq<Bucket>, id: nat, h32: nat, h: nat)
    requires p.Valid() && |buckets| == p.nbuckets + 1
  {
    exists j: nat | TriedOwned(p, buckets, id, h32, j) ::
      h == Tried(p, h32, j) && forall i: nat | i < j :: !TriedOwned(p, buckets, id, h32, i)
  }

  ghost predicate FirstDrained(p: Params, buckets: seq<Bucket>, h32: nat, now: int, h: nat)
    requires p.Valid() && |buckets| == p.nbuckets + 1
  {
    exists j: nat | TriedDrained(p, buckets, h32, now, j) ::
      h == Tried(p, h32, j) && forall i: nat | i < j :: !TriedDrained(p, buckets, h32, now, i)
  }

  /**
   The bucket for a flow: of the buckets tried, the first that it owns; if it owns none, the first that has drained; and the
   default bucket exactly if all of them are live and not its own.
   */
  ghost predicate IsPick(p: Params, buckets: seq<Bucket>, id: nat, h32: nat, now: int, h: nat)
    requires p.Valid() && |buckets| == p.nbuckets + 1
  {
    if exists j: nat :: TriedOwned(p, buckets, id, h32, j) then FirstOwned(p, buckets, id, h32, h)
    else if exists j: nat :: TriedDrained(p, buckets, h32, now, j) then FirstDrained(p, buckets, h32, now, h)
    else h == p.nbuckets
  }

  function BucketOf(p: Params, c: Choice): nat {
    if c.Default? then p.nbuckets else c.h
  }

  lemma ChoiceIsPick(p: Params, buckets: seq<Bucket>, id: nat, h32: nat, now: int, c: Choice)
    requires p.Valid() && |buckets| == p.nbuckets + 1
    requires c == Choose(buckets, id, Probes(p, h32, p.attempts), None, now)
    ensures IsPick(p, buckets, id, h32, now, BucketOf(p, c))
    ensures c.Default? <==> BucketOf(p, c) == p.nbuckets
    ensures c.Default? <==> forall j: nat | j < p.attempts :: !TriedFree(p, buckets, id, h32, now, j)
  {
    var hs := Probes(p, h32, p.attempts);
    var j := ChooseFindsFirst(buckets, id, hs, None, now);
    TriedIsAt(p, buckets, id, h32, now, hs);
    NoneFound(buckets, id, hs, now, c);
    if c.Owned? {
      assert TriedOwned(p, buckets, id, h32, j) && TriedFree(p, buckets, id, h32, now, j);
      assert FirstOwned(p, buckets, id, h32, c.h);
    } else if c.Recycled? {
      assert TriedDrained(p, buckets, h32, now, j) && TriedFree(p, buckets, id, h32, now, j);
      assert FirstDrained(p, buckets, h32, now, c.h);
    }
  }

  lemma TriedIsAt(p: Params, buckets: seq<Bucket>, id: nat, h32: nat, now: int, hs: seq<nat>)
    requires p.Valid() && |buckets| == p.nbuckets + 1 && hs == Probes(p, h32, p.attempts)
    ensures |hs| == p.attempts && forall j: nat | j < p.attempts :: hs[j] == Tried(p, h32, j)
    ensures forall j: nat :: TriedOwned(p, buckets, id, h32, j) <==> OwnedAt(buckets, id, hs, j)
    ensures forall j: nat :: TriedDrained(p, buckets, h32, now, j) <==> DrainedAt(buckets, hs, now, j)
  {
    ProbesAreTried(p, h32, p.attempts);
  }

  lemma NoneFound(buckets: seq<Bucket>, id: nat, hs: seq<nat>, now: int, c: Choice)
    requires Below(hs, |buckets|) && c == Choose(buckets, id, hs, None, now)
    ensures !c.Owned? ==> forall j: nat :: !OwnedAt(buckets, id, hs, j)
    ensures c.Default? ==> forall j: nat :: !DrainedAt(buckets, hs, now, j)
  {
    ChooseFinds(buckets, id, hs, None, now);
  }

  /** What the probing finds: the flow's own bucket if there is one, else a drained one, else the default bucket. */
  lemma {:induction false} ChooseFinds(buckets: seq<Bucket>, flowId: nat, hs: seq<nat>, interim: Option<nat>, now: int)
    requires Below(hs, |buckets|)
    ensures var c := Choose(buckets, flowId, hs, interim, now);
            && (c.Owned? ==> c.h in hs && buckets[c.h].owner == Some(flowId))
            && (!c.Owned? ==> forall h | h in hs :: buckets[h].owner != Some(flowId))
            && (c.Recycled? ==> interim == Some(c.h) || (c.h in hs && buckets[c.h].expiry <= now))
            && (c.Default? ==> interim.None? && forall h | h in hs :: buckets[h].expiry > now)
  {
    if hs != [] {
      assert hs == [hs[0]] + hs[1..];
      ChooseFinds(buckets, flowId, hs[1..],
                  if interim.None? && buckets[hs[0]].expiry <= now then Some(hs[0]) else interim, now);
    }
  }

  // ----- Filling

  /** Time that the expected marked bytes of a packet take to drain, in units of the resolution, not rounded. */
  function ExactScore(p: Params, probNative: real, size: nat): real
    requires p.Valid()
  {
    Quotient(probNative, size * Power(2, 30 - p.drainRateExponent), p.resolution)
  }

  function Quotient(prob: real, time: nat, resolution: nat): real
    requires 0 < resolution
  {
    prob * time as real / resolution as real
  }

  function CongestionScore(p: Params, probNative: real, size: nat): (score: nat)
    requires p.Valid() && 0.0 <= probNative
    ensures score as real <= ExactScore(p, probNative, size) < score as real + 1.0
  {
    var bytes := (size * Power(2, 30 - p.drainRateExponent)) as real;
    assert 0.0 <= probNative * bytes;
    ExactScore(p, probNative, size).Floor
  }

  lemma {:induction false} PowersMultiply(base: nat, m: nat, n: nat)
    ensures Power(base, m) * Power(base, n) == Power(base, m + n)
  {
    if m > 0 {
      PowersMultiply(base, m - 1, n);
      Associate(base, Power(base, m - 1), Power(base, n));
    }
  }

  lemma Associate(a: nat, b: nat, c: nat)
    ensures a * b * c == a * (b * c)
  {
  }

  lemma PowerOf30()
    ensures Power(2, 30) == 1_073_741_824
  {
    PowersMultiply(2, 10, 10);
    PowersMultiply(2, 20, 10);
    assert Power(2, 10) == 1024;
  }

  /** Nanoseconds in which a bucket that drains 2^(drainRateExponent - 30) bytes per nanosecond drains so many bytes. */
  function DrainTime(p: Params, size: nat): nat
    requires p.Valid()
  {
    size * 1_073_741_824 / Power(2, p.drainRateExponent)
  }

  /** The score is the time to drain the expected marked bytes, to within one unit of the resolution. */
  lemma ScoreIsDrainTime(p: Params, probNative: real, size: nat)
    requires p.Valid() && 0.0 <= probNative
    ensures InUnits(CongestionScore(p, probNative, size), probNative, DrainTime(p, size), p.resolution)
  {
    var score, time := CongestionScore(p, probNative, size), DrainTime(p, size);
    DrainTimeOfBits(p, size);
    assert ExactScore(p, probNative, size) == Quotient(probNative, time, p.resolution);
    ScoreBetween(score, probNative, time, p.resolution);
  }

  /** Whole units of the resolution in the expected part of a time. */
  predicate InUnits(score: nat, prob: real, time: nat, resolution: nat) {
    score as real * resolution as real <= prob * time as real < (score as real + 1.0) * resolution as real
  }

  lemma ScoreBetween(score: nat, prob: real, time: nat, resolution: nat)
    requires 0 < resolution && score as real <= Quotient(prob, time, resolution) < score as real + 1.0
    ensures InUnits(score, prob, time, resolution)
  {
    FloorOfQuotient(prob * time as real, resolution as real, score as real);
  }

  lemma FloorOfQuotient(x: real, d: real, score: real)
    requires 0.0 < d && score <= x / d < score + 1.0
    ensures score * d <= x < (score + 1.0) * d
  {
    ScaledBetween(x, score, x / d, score + 1.0, d);
  }

  lemma DrainTimeOfBits(p: Params, size: nat)
    requires p.Valid()
    ensures DrainTime(p, size) == size * Power(2, 30 - p.drainRateExponent)
  {
    PowersMultiply(2, 30 - p.drainRateExponent, p.drainRateExponent);
    PowerOf30();
    QuotientOfProduct(size, Power(2, 30 - p.drainRateExponent), Power(2, p.drainRateExponent), 1_073_741_824);
  }

  lemma QuotientOfProduct(size: nat, m: nat, n: nat, k: nat)
    requires 0 < n && m * n == k
    ensures size * k / n == size * m
  {
    Associate(size, m, n);
    QuotientIsMost(size * k, n, size * m);
    QuotientIsMost(size * k, n, size * m + 1);
    assert (size * m + 1) * n == size * m * n + n;
  }

  lemma ScaledBetween(x: real, score: real, q: real, next: real, d: real)
    requires 0.0 < d && score <= q < next && q * d == x
    ensures score * d <= x < next * d
  {
    TimesPositive(score, q, d);
    TimesPositive(q, next, d);
  }

  lemma TimesPositive(x: real, y: real, k: real)
    requires 0.0 < k
    ensures x <= y ==> x * k <= y * k
    ensures x < y ==> x * k < y * k
  {
    if x < y {
      assert 0.0 < (y - x) * k;
      assert (y - x) * k == y * k - x * k;
    }
  }

  /** A drained bucket starts again from empty. */
  function Reset(expiry: int, now: int): int {
    Max(expiry, now)
  }

  function Filled(expiry: int, score: nat, maxScore: nat, now: int): int {
    Min(expiry + score, now + maxScore)
  }

  /** One packet of a flow: the table after it, and whether it got a bucket of its own and the flow's queuing score. */
  datatype Verdict = Verdict(table: Table, dedicated: bool, score: int)

  function Chosen(p: Params, t: Table, f: Flow, now: int): Choice
    requires p.Valid() && |t.buckets| == p.nbuckets + 1
  {
    Choose(t.buckets, IndexOf(t.flows, f), Probes(p, f.h32, p.attempts), None, now)
  }

  function Protect(p: Params, t: Table, f: Flow, score: nat, now: int): (v: Verdict)
    requires p.Valid() && |t.buckets| == p.nbuckets + 1
    ensures |v.table.buckets| == p.nbuckets + 1 && v.score <= p.maxScore
  {
    var c := Chosen(p, t, f, now);
    ChooseFinds(t.buckets, IndexOf(t.flows, f), Probes(p, f.h32, p.attempts), None, now);
    var h := BucketOf(p, c);
    var expiry := Filled(Reset(t.buckets[h].expiry, now), score, p.maxScore, now);
    Verdict(Table(t.buckets[h := Bucket(Some(IndexOf(t.flows, f)), expiry)], WithFlow(t.flows, f)),
            !c.Default?, expiry - now)
  }

  /** A flow shares the default bucket exactly if every bucket tried is live and another's. */
  lemma WhenDedicated(p: Params, t: Table, f: Flow, score: nat, now: int)
    requires p.Valid() && |t.buckets| == p.nbuckets + 1
    ensures !Protect(p, t, f, score, now).dedicated <==> NoneFree(p, t, f, now)
  {
    WhenDefault(p, t, f, now, Chosen(p, t, f, now));
  }

  ghost predicate NoneFree(p: Params, t: Table, f: Flow, now: int)
    requires p.Valid() && |t.buckets| == p.nbuckets + 1
  {
    forall j: nat | j < p.attempts :: !TriedFree(p, t.buckets, IndexOf(t.flows, f), f.h32, now, j)
  }

  lemma WhenDefault(p: Params, t: Table, f: Flow, now: int, c: Choice)
    requires p.Valid() && |t.buckets| == p.nbuckets + 1 && c == Chosen(p, t, f, now)
    ensures c.Default? <==> NoneFree(p, t, f, now)
  {
    ChoiceIsPick(p, t.buckets, IndexOf(t.flows, f), f.h32, now, c);
  }

  // ----- The table object

  class QueueProtection {
    const p: Params
    var buckets: seq<Bucket>
    var flows: seq<Flow>

    function Now(): Table
      reads this
    {
      Table(buckets, flows)
    }

    predicate Shape()
      reads this
    {
      p.Valid() && |buckets| == p.nbuckets + 1
    }

    constructor (p: Params)
      requires p.Valid()
      ensures this.p == p && Shape() && Now() == Empty(p)
    {
      this.p := p;
      buckets, flows := seq(p.nbuckets + 1, _ => Bucket(None, 0)), [];
    }

    /** The flow's id: its position among the flows seen, a new one at the end. */
    method FlowId(f: Flow) returns (id: nat)
      modifies this`flows
      ensures id == IndexOf(old(flows), f) && flows == WithFlow(old(flows), f)
    {
      id := 0;
      ghost var rest := flows;
      while id < |flows| && flows[id] != f
        invariant id <= |flows| && rest == flows[id..]
        invariant id + IndexOf(rest, f) == IndexOf(flows, f)
      {
        id := id + 1;
        rest := rest[1..];
      }
      IndexOfFinds(flows, f);
      if id == |flows| {
        flows := flows + [f];
      }
    }

    /**
     Pick the bucket for a packet: one the flow owns, else a drained one, else the default
     bucket. A drained bucket is emptied, and the flow becomes the owner.
     */
    method PickBucket(f: Flow, now: int) returns (id: nat, bucket: nat)
      requires Shape()
      modifies this`buckets, this`flows
      ensures Shape() && id == IndexOf(old(flows), f) && flows == WithFlow(old(flows), f)
      ensures var c := Chosen(p, old(Now()), f, now);
              && bucket == BucketOf(p, c)
              && bucket < |old(buckets)|
              && IsPick(p, old(buckets), id, f.h32, now, bucket)
              && buckets == old(buckets)[bucket := Bucket(Some(id), Reset(old(buckets)[bucket].expiry, now))]
    {
      id := FlowId(f);
      ChooseFinds(buckets, id, Probes(p, f.h32, p.attempts), None, now);
      var c := Search(id, f.h32, now);
      bucket := BucketOf(p, c);
      if buckets[bucket].expiry <= now {
        buckets := buckets[bucket := buckets[bucket].(expiry := now)];
      }
      buckets := buckets[bucket := buckets[bucket].(owner := Some(id))];
    }

    /** Try the buckets of a hash, remembering the first drained one. */
    method Search(id: nat, hash: nat, now: int) returns (c: Choice)
      requires Shape()
      ensures c == Choose(buckets, id, Probes(p, hash, p.attempts), None, now)
      ensures IsPick(p, buckets, id, hash, now, BucketOf(p, c))
    {
      var h32: nat, hsav: nat, j: nat := hash, p.nbuckets, 0;
      ghost var hs := Probes(p, hash, p.attempts);
      while j < p.attempts
        invariant j <= p.attempts && hsav <= p.nbuckets
        invariant hs == Probes(p, h32, p.attempts - j)
        invariant Choose(buckets, id, hs, if hsav == p.nbuckets then None else Some(hsav), now)
               == Choose(buckets, id, Probes(p, hash, p.attempts), None, now)
      {
        var h := h32 % p.nbuckets;
        assert hs[1..] == Probes(p, h32 / p.nbuckets, p.attempts - (j + 1));
        if buckets[h].owner == Some(id) {
          ChoiceIsPick(p, buckets, id, hash, now, Owned(h));
          return Owned(h);
        } else if hsav == p.nbuckets && buckets[h].expiry <= now {
          hsav := h;
        }
        h32 := h32 / p.nbuckets;
        j := j + 1;
        hs := hs[1..];
      }
      c := if hsav == p.nbuckets then Default else Recycled(hsav);
      ChoiceIsPick(p, buckets, id, hash, now, c);
    }

    /** Add a packet's congestion score to a bucket, which never holds more than the maximum; returns the level. */
    method FillBucket(bucket: nat, size: nat, probNative: real, now: int) returns (level: int)
      requires Shape() && bucket < |buckets| && 0.0 <= probNative
      modifies this`buckets
      ensures Shape() && level == Filled(old(buckets)[bucket].expiry, CongestionScore(p, probNative, size), p.maxScore, now) - now
      ensures buckets == old(buckets)[bucket := old(buckets)[bucket].(expiry := now + level)]
    {
      var score := CongestionScore(p, probNative, size);
      buckets := buckets[bucket := buckets[bucket].(expiry := buckets[bucket].expiry + score)];
      if buckets[bucket].expiry - now > p.maxScore {
        buckets := buckets[bucket := buckets[bucket].(expiry := now + p.maxScore)];
      }
      level := buckets[bucket].expiry - now;
    }

    /** Judge a packet; true sends it to the classic queue. Queue protection may be switched off. */
    method QueueProtect(f: Flow, size: nat, probNative: real, delay: int, now: int) returns (sanction: bool)
      requires Shape() && 0.0 <= probNative
      modifies this`buckets, this`flows
      ensures Shape()
      ensures !p.enabled ==> !sanction && Now() == old(Now())
      ensures p.enabled ==>
                var v := Protect(p, old(Now()), f, CongestionScore(p, probNative, size), now);
                && Now() == v.table
                && (sanction <==> delay > p.criticalDelay && delay * v.score > p.criticalProduct)
    {
      if !p.enabled {
        return false;
      }
      var id, bucket := PickBucket(f, now);
      var level := FillBucket(bucket, size, probNative, now);
      sanction := delay > p.criticalDelay && delay * level > p.criticalProduct;
    }
  }

  function Empty(p: Params): Table {
    Table(seq(p.nbuckets + 1, _ => Bucket(None, 0)), [])
  }
}
