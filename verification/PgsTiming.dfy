/** When guaranteed (PGS) grants are due, MAP by MAP, in absolute minislots. */
module PgsTiming {
  import opened DocsisTypes
  import opened GrantLists
  import opened GrantPlacement

  /** Guaranteed service: every interval minislots a grant of size minislots. */
  datatype Pgs = Pgs(interval: nat, size: nat) {
    predicate Valid() {
      0 < size && 0 < interval
    }
  }

  /**
   What is guaranteed to the low-latency flow: a rate in bits per second, and an interval in microseconds, 0 for the
   MAP interval; and what the scheduler assumes of packets, to make up for MAC headers.
   */
  datatype Guarantee = Guarantee(rate: nat, interval: nat, meanPacketSize: nat, macHeader: nat) {
    function FramedRate(): nat
      requires 0 < meanPacketSize
    {
      rate * (meanPacketSize + macHeader) / meanPacketSize
    }

    /** Frames between two grants. */
    function IntervalInFrames(mapMicroseconds: nat, frameMicroseconds: nat): nat
      requires 0 < frameMicroseconds
    {
      (if interval == 0 then mapMicroseconds else interval) / frameMicroseconds
    }

    /** Bytes per interval, rounded up. */
    function BytesPerInterval(microseconds: nat): nat
      requires 0 < meanPacketSize
    {
      (FramedRate() / 8 * microseconds + MICROSECONDS_PER_SECOND - 1) / MICROSECONDS_PER_SECOND
    }
  }

  const MICROSECONDS_PER_SECOND: nat := 1_000_000

  /** Microseconds per frame. */
  function FrameMicroseconds(ch: Channel, mapMicroseconds: nat): nat
    requires ch.Valid()
  {
    mapMicroseconds / ch.framesPerMap
  }

  /** Grant size and interval for a guarantee; None stands for the checks that stop the source at start-up. */
  function PgsFor(ch: Channel, g: Guarantee, mapMicroseconds: nat): (r: Option<Pgs>)
    requires ch.Valid() && 0 < g.meanPacketSize && 0 < FrameMicroseconds(ch, mapMicroseconds)
    ensures r.Some? ==> r.value.Valid()
  {
    var frames := g.IntervalInFrames(mapMicroseconds, FrameMicroseconds(ch, mapMicroseconds));
    var size := ch.MinislotCeil(g.BytesPerInterval(frames * FrameMicroseconds(ch, mapMicroseconds)));
    if frames == 0 || size == 0 then None
    else
      MulMonotone(1, frames, ch.minislotsPerFrame);
      Some(Pgs(frames * ch.minislotsPerFrame, size))
  }

  /** The rate that packets of mean size need with their MAC headers, in whole bits per second. */
  lemma FramedRateCoversHeaders(g: Guarantee)
    requires 0 < g.meanPacketSize
    ensures g.FramedRate() * g.meanPacketSize <= g.rate * (g.meanPacketSize + g.macHeader) < (g.FramedRate() + 1) * g.meanPacketSize
    ensures g.rate <= g.FramedRate()
  {
    var x := g.rate * (g.meanPacketSize + g.macHeader);
    QuotientIsMost(x, g.meanPacketSize, g.FramedRate());
    QuotientIsMost(x, g.meanPacketSize, g.FramedRate() + 1);
    QuotientIsMost(x, g.meanPacketSize, g.rate);
    MulMonotone(g.meanPacketSize, g.meanPacketSize + g.macHeader, g.rate);
  }

  /** The frames between two grants are as many whole frames as fit the configured interval, or the MAP if there is none. */
  lemma IntervalInWholeFrames(ch: Channel, g: Guarantee, mapMicroseconds: nat, n: nat)
    requires ch.Valid() && 0 < FrameMicroseconds(ch, mapMicroseconds)
    ensures var frame := FrameMicroseconds(ch, mapMicroseconds);
            && (n <= g.IntervalInFrames(mapMicroseconds, frame) <==> n * frame <= if g.interval == 0 then mapMicroseconds else g.interval)
            && (n <= frame <==> n * ch.framesPerMap <= mapMicroseconds)
  {
    QuotientIsMost(if g.interval == 0 then mapMicroseconds else g.interval, FrameMicroseconds(ch, mapMicroseconds), n);
    QuotientIsMost(mapMicroseconds, ch.framesPerMap, n);
  }

  /** Start-up stops exactly for an interval shorter than a frame, and for a rate of less than a byte a second. */
  lemma NoPgsIff(ch: Channel, g: Guarantee, mapMicroseconds: nat)
    requires ch.Valid() && 0 < g.meanPacketSize && 0 < FrameMicroseconds(ch, mapMicroseconds)
    ensures PgsFor(ch, g, mapMicroseconds).None? <==>
              (if g.interval == 0 then mapMicroseconds else g.interval) < FrameMicroseconds(ch, mapMicroseconds) || g.FramedRate() < 8
  {
    var frame := FrameMicroseconds(ch, mapMicroseconds);
    var frames := g.IntervalInFrames(mapMicroseconds, frame);
    var bytes := g.BytesPerInterval(frames * frame);
    IntervalInWholeFrames(ch, g, mapMicroseconds, 1);
    ch.MinislotCeilIsLeast(bytes, 0);
    RoundedUp(g.FramedRate() / 8 * (frames * frame), bytes, 0);
    if 0 < frames && 8 <= g.FramedRate() {
      MulMonotone(1, frames, frame);
      MulMonotone(1, g.FramedRate() / 8, frames * frame);
    }
  }

  /** Grants are whole frames apart, and one holds what the rate, MAC headers included, gives until the next, in the fewest minislots. */
  lemma GuaranteedRateIsMet(ch: Channel, g: Guarantee, mapMicroseconds: nat)
    requires ch.Valid() && 0 < g.meanPacketSize && 0 < FrameMicroseconds(ch, mapMicroseconds)
    requires PgsFor(ch, g, mapMicroseconds).Some?
    ensures var pgs := PgsFor(ch, g, mapMicroseconds).value;
            var frames := g.IntervalInFrames(mapMicroseconds, FrameMicroseconds(ch, mapMicroseconds));
            && pgs.interval == frames * ch.minislotsPerFrame
            && ch.MinislotsToBytes(pgs.size) * MICROSECONDS_PER_SECOND
               >= g.FramedRate() / 8 * (frames * FrameMicroseconds(ch, mapMicroseconds))
            && forall n: nat | n < pgs.size ::
                 ch.MinislotsToBytes(n) * MICROSECONDS_PER_SECOND < g.FramedRate() / 8 * (frames * FrameMicroseconds(ch, mapMicroseconds))
  {
    var frames := g.IntervalInFrames(mapMicroseconds, FrameMicroseconds(ch, mapMicroseconds));
    var bytes := g.BytesPerInterval(frames * FrameMicroseconds(ch, mapMicroseconds));
    ch.MinislotCeilIsLeast(bytes, ch.MinislotCeil(bytes));
    var x := g.FramedRate() / 8 * (frames * FrameMicroseconds(ch, mapMicroseconds));
    RoundedUp(x, bytes, ch.MinislotsToBytes(ch.MinislotCeil(bytes)));
    forall n: nat | n < ch.MinislotCeil(bytes) ensures ch.MinislotsToBytes(n) * MICROSECONDS_PER_SECOND < x {
      ch.MinislotCeilIsLeast(bytes, n);
      RoundedUp(x, bytes, ch.MinislotsToBytes(n));
    }
  }

  lemma RoundedUp(x: nat, q: nat, n: nat)
    requires q == (x + MICROSECONDS_PER_SECOND - 1) / MICROSECONDS_PER_SECOND
    ensures q <= n <==> x <= n * MICROSECONDS_PER_SECOND
  {
  }

  /** The grant times after last and before limit. */
  function DueTimes(last: int, interval: nat, limit: int): seq<int>
    requires 0 < interval
    decreases limit - last
  {
    if last + interval >= limit then [] else [last + interval] + DueTimes(last + interval, interval, limit)
  }

  /** The latest grant time before limit, if there is one after last. */
  function LastBefore(last: int, interval: nat, limit: int): int
    requires 0 < interval
    decreases limit - last
  {
    if last + interval >= limit then last else LastBefore(last + interval, interval, limit)
  }

  /** DueTimes is the arithmetic progression last + interval, last + 2 * interval, ... cut off at limit. */
  lemma {:induction false} DueTimesAreArithmetic(last: int, interval: nat, limit: int)
    requires 0 < interval
    ensures var times := DueTimes(last, interval, limit);
            && (forall k | 0 <= k < |times| :: times[k] == last + (k + 1) * interval && times[k] < limit)
            && limit <= last + (|times| + 1) * interval
            && LastBefore(last, interval, limit) == last + |times| * interval
    decreases limit - last
  {
    if last + interval < limit {
      DueTimesAreArithmetic(last + interval, interval, limit);
      var times, rest := DueTimes(last, interval, limit), DueTimes(last + interval, interval, limit);
      forall k | 0 <= k < |times| ensures times[k] == last + (k + 1) * interval && times[k] < limit {
        if 0 < k {
          assert times[k] == rest[k - 1];
          OneStepMore(last, interval, k);
        }
      }
      OneStepMore(last, interval, |times|);
      OneStepMore(last, interval, |rest|);
    }
  }

  lemma OneStepMore(last: int, interval: nat, k: nat)
    ensures last + interval + k * interval == last + (k + 1) * interval
  {
  }

  /** Looking one MAP ahead at a time finds the same grant times as looking at the whole run. */
  lemma {:induction false} DueTimesConcat(last: int, interval: nat, middle: int, limit: int)
    requires 0 < interval && middle <= limit
    ensures DueTimes(last, interval, limit)
         == DueTimes(last, interval, middle) + DueTimes(LastBefore(last, interval, middle), interval, limit)
    ensures LastBefore(LastBefore(last, interval, middle), interval, limit) == LastBefore(last, interval, limit)
    decreases middle - last
  {
    if last + interval >= middle {
      assert [] + DueTimes(last, interval, limit) == DueTimes(last, interval, limit);
    } else {
      DueTimesConcat(last + interval, interval, middle, limit);
      var a := DueTimes(last + interval, interval, middle);
      var b := DueTimes(LastBefore(last, interval, middle), interval, limit);
      assert [last + interval] + (a + b) == [last + interval] + a + b;
    }
  }

  // ----- One MAP

  /** The guaranteed grants of one MAP. An empty grant is a time that was passed without being served. */
  datatype Plan = Plan(grants: seq<Grant>, minislots: nat, last: int)

  predicate NotBefore(times: seq<int>, from: int) {
    forall k | 0 <= k < |times| :: from <= times[k]
  }

  function GrantsAt(times: seq<int>, allocStartTime: int, length: nat): seq<Grant>
    requires NotBefore(times, allocStartTime)
  {
    if times == [] then []
    else [Grant(LOW_LATENCY_SFID, times[0] - allocStartTime, length)] + GrantsAt(times[1..], allocStartTime, length)
  }

  /**
   The plan for the MAP that covers allocStartTime up to nextAllocStartTime. No free
   minislot means no plan at all; too few mean empty grants. None is the failed
   assertion of a negative offset, which happens when an earlier MAP made no plan.
   */
  function Planned(pgs: Pgs, last: int, allocStartTime: int, nextAllocStartTime: int, free: nat): Option<Plan>
    requires 0 < pgs.interval
  {
    if free == 0 then Some(Plan([], 0, last))
    else if last + pgs.interval < allocStartTime && last + pgs.interval < nextAllocStartTime then None
    else
      var times := DueTimes(last, pgs.interval, nextAllocStartTime);
      DueTimesAreArithmetic(last, pgs.interval, nextAllocStartTime);
      DueTimesNotBefore(last, pgs.interval, allocStartTime, nextAllocStartTime);
      var length := if pgs.size < free then pgs.size else 0;
      Some(Plan(GrantsAt(times, allocStartTime, length), |times| * length, LastBefore(last, pgs.interval, nextAllocStartTime)))
  }

  lemma DueTimesNotBefore(last: int, interval: nat, from: int, limit: int)
    requires 0 < interval && (from <= last + interval || limit <= last + interval)
    ensures NotBefore(DueTimes(last, interval, limit), from)
    decreases limit - last
  {
    if last + interval < limit {
      DueTimesNotBefore(last + interval, interval, from, limit);
    }
  }

  lemma {:induction false} GrantsAtTimes(times: seq<int>, allocStartTime: int, length: nat)
    requires NotBefore(times, allocStartTime)
    ensures var gs := GrantsAt(times, allocStartTime, length);
            |gs| == |times| &&
            forall k | 0 <= k < |gs| :: gs[k] == Grant(LOW_LATENCY_SFID, times[k] - allocStartTime, length)
  {
    if times != [] {
      GrantsAtTimes(times[1..], allocStartTime, length);
      assert forall k | 0 < k < |times| :: GrantsAt(times, allocStartTime, length)[k] == GrantsAt(times[1..], allocStartTime, length)[k - 1];
    }
  }

  /**
   Congestion: a MAP without a free minislot plans nothing and forgets nothing; one with no more free minislots than
   the size plans an empty grant for every due time, which is then served; with more, every grant has the size.
   */
  lemma CongestionEmptiesGrants(pgs: Pgs, last: int, from: int, limit: int, free: nat)
    requires pgs.Valid() && Planned(pgs, last, from, limit, free).Some?
    ensures var plan := Planned(pgs, last, from, limit, free).value;
            var due := DueTimes(last, pgs.interval, limit);
            && |plan.grants| == (if free == 0 then 0 else |due|)
            && (forall k | 0 <= k < |plan.grants| ::
                  && plan.grants[k].sfid == LOW_LATENCY_SFID && from + plan.grants[k].offset == due[k]
                  && plan.grants[k].length == if free <= pgs.size then 0 else pgs.size)
            && plan.minislots == (if free <= pgs.size then 0 else |due| * pgs.size)
            && plan.last == (if free == 0 then last else last + |due| * pgs.interval)
  {
    if free > 0 {
      DueTimesAreArithmetic(last, pgs.interval, limit);
      DueTimesNotBefore(last, pgs.interval, from, limit);
      GrantsAtTimes(DueTimes(last, pgs.interval, limit), from, if free <= pgs.size then 0 else pgs.size);
    }
  }

  /** Grants at these times neither overlap nor reach across the limit. */
  predicate Spaced(times: seq<int>, pgs: Pgs, limit: int) {
    && (|times| < 2 || pgs.size <= pgs.interval)
    && (times == [] || times[|times| - 1] + pgs.size <= limit)
  }

  lemma SpacedCons(t: int, rest: seq<int>, pgs: Pgs, limit: int)
    ensures Spaced([t] + rest, pgs, limit)
       <==> if rest == [] then t + pgs.size <= limit else pgs.size <= pgs.interval && Spaced(rest, pgs, limit)
  {
  }

  /**
   The planned grants are a well-formed input for the placement if and only if they do not overlap and the last one
   due ends inside the MAP.
   */
  lemma GrantsAtWellFormed(ch: Channel, pgs: Pgs, last: int, allocStartTime: int)
    requires pgs.Valid() && ch.MinislotsPerMap() < UINT32
    requires last + pgs.interval < allocStartTime + ch.MinislotsPerMap() ==> allocStartTime <= last + pgs.interval
    ensures var limit := allocStartTime + ch.MinislotsPerMap();
            var times := DueTimes(last, pgs.interval, limit);
            && NotBefore(times, allocStartTime)
            && (WellFormedPgs(GrantsAt(times, allocStartTime, pgs.size), 0, ch.MinislotsPerMap()) <==> Spaced(times, pgs, limit))
  {
    GrantsAtSum(pgs, last, allocStartTime, allocStartTime + ch.MinislotsPerMap());
    GrantsAtPlaced(pgs, last, allocStartTime, ch.MinislotsPerMap(), 0);
  }

  lemma {:induction false} GrantsAtPlaced(pgs: Pgs, last: int, allocStartTime: int, length: nat, from: nat)
    requires pgs.Valid() && from <= length
    requires last + pgs.interval < allocStartTime + length ==> allocStartTime + from <= last + pgs.interval
    ensures var limit := allocStartTime + length;
            var times := DueTimes(last, pgs.interval, limit);
            && NotBefore(times, allocStartTime)
            && (Placed(GrantsAt(times, allocStartTime, pgs.size), from, length) <==> Spaced(times, pgs, limit))
    decreases allocStartTime + length - last
  {
    var limit := allocStartTime + length;
    var t := last + pgs.interval;
    assert NotBefore(DueTimes(last, pgs.interval, limit), allocStartTime) by {
      DueTimesNotBefore(last, pgs.interval, allocStartTime, limit);
    }
    if t < limit {
      var rest := DueTimes(t, pgs.interval, limit);
      assert NotBefore(rest, allocStartTime) by {
        DueTimesNotBefore(t, pgs.interval, allocStartTime, limit);
      }
      GrantsAtCons(t, rest, allocStartTime, pgs.size);
      SpacedCons(t, rest, pgs, limit);
      if rest != [] && pgs.size <= pgs.interval {
        GrantsAtPlaced(pgs, t, allocStartTime, length, t - allocStartTime + pgs.size);
      }
    }
  }

  lemma {:induction false} GrantsAtSum(pgs: Pgs, last: int, allocStartTime: int, limit: int)
    requires 0 < pgs.interval && (allocStartTime <= last + pgs.interval || limit <= last + pgs.interval)
    ensures var times := DueTimes(last, pgs.interval, limit);
            && NotBefore(times, allocStartTime)
            && |GrantsAt(times, allocStartTime, pgs.size)| == |times|
            && Minislots(GrantsAt(times, allocStartTime, pgs.size), LOW_LATENCY_SFID) == |times| * pgs.size
            && AllLowLatency(GrantsAt(times, allocStartTime, pgs.size))
    decreases limit - last
  {
    DueTimesNotBefore(last, pgs.interval, allocStartTime, limit);
    if last + pgs.interval < limit {
      var t := last + pgs.interval;
      var rest := DueTimes(t, pgs.interval, limit);
      DueTimesNotBefore(t, pgs.interval, allocStartTime, limit);
      GrantsAtSum(pgs, t, allocStartTime, limit);
      GrantsAtCons(t, rest, allocStartTime, pgs.size);
      assert |[t] + rest| * pgs.size == pgs.size + |rest| * pgs.size;
    }
  }

  lemma GrantsAtCons(t: int, rest: seq<int>, allocStartTime: int, length: nat)
    requires allocStartTime <= t && NotBefore(rest, allocStartTime)
    ensures NotBefore([t] + rest, allocStartTime)
    ensures var g := Grant(LOW_LATENCY_SFID, t - allocStartTime, length);
            var gs := GrantsAt([t] + rest, allocStartTime, length);
            gs == [g] + GrantsAt(rest, allocStartTime, length) && gs[0] == g && gs[1..] == GrantsAt(rest, allocStartTime, length)
  {
    assert ([t] + rest)[1..] == rest;
  }

  /** A grant longer than a frame, due in the last frame of a MAP, reaches across its end. */
  lemma LongGrantCrosses()
    ensures var ch, pgs := Channel(10, 20, 4), Pgs(80, 25);
            var times := DueTimes(60, pgs.interval, 80 + ch.MinislotsPerMap());
            && NotBefore(times, 80)
            && !WellFormedPgs(GrantsAt(times, 80, pgs.size), 0, ch.MinislotsPerMap())
  {
    var ch, pgs := Channel(10, 20, 4), Pgs(80, 25);
    GrantsAtWellFormed(ch, pgs, 60, 80);
    assert DueTimes(140, 80, 160) == [];
    assert DueTimes(60, 80, 160) == [140];
  }

  // ----- Runs

  /** Times at which a guaranteed grant was really granted over a run of MAPs, given the free minislots of each. */
  function Served(pgs: Pgs, mapLength: nat, last: int, allocStartTime: int, frees: seq<nat>): Option<seq<int>>
    requires 0 < pgs.interval
    decreases |frees|
  {
    if frees == [] then Some([])
    else
      var next := allocStartTime + mapLength;
      var plan := Planned(pgs, last, allocStartTime, next, frees[0]);
      if plan.None? then None
      else
        var rest := Served(pgs, mapLength, plan.value.last, next, frees[1..]);
        if rest.None? then None
        else Some((if pgs.size < frees[0] then DueTimes(last, pgs.interval, next) else []) + rest.value)
  }

  /** Every MAP in which a grant is due has more free minislots than a grant needs. */
  predicate NeverStarved(pgs: Pgs, mapLength: nat, last: int, allocStartTime: int, frees: seq<nat>)
    requires 0 < pgs.interval
    decreases |frees|
  {
    frees == [] ||
    (var next := allocStartTime + mapLength;
     && (pgs.size < frees[0] || DueTimes(last, pgs.interval, next) == [])
     && NeverStarved(pgs, mapLength, LastBefore(last, pgs.interval, next), next, frees[1..]))
  }

  /**
   Guaranteed service over a run: the grants issued are exactly those due, at
   last + interval, last + 2 * interval, ... with none skipped, repeated or given a negative
   offset, if and only if no MAP with a grant due is short of free minislots.
   */
  lemma {:induction false} ServedIffNeverStarved(pgs: Pgs, mapLength: nat, last: int, allocStartTime: int, frees: seq<nat>)
    requires 0 < pgs.interval && allocStartTime <= last + pgs.interval
    ensures Served(pgs, mapLength, last, allocStartTime, frees)
         == Some(DueTimes(last, pgs.interval, allocStartTime + |frees| * mapLength))
       <==> NeverStarved(pgs, mapLength, last, allocStartTime, frees)
    ensures Served(pgs, mapLength, last, allocStartTime, frees).Some? ==>
              |Served(pgs, mapLength, last, allocStartTime, frees).value|
              <= |DueTimes(last, pgs.interval, allocStartTime + |frees| * mapLength)|
    decreases |frees|
  {
    var end := allocStartTime + |frees| * mapLength;
    if frees != [] {
      var next := allocStartTime + mapLength;
      assert end == next + |frees[1..]| * mapLength;
      var due := DueTimes(last, pgs.interval, next);
      var ideal := LastBefore(last, pgs.interval, next);
      DueTimesConcat(last, pgs.interval, next, end);
      DueTimesAreArithmetic(last, pgs.interval, next);
      assert next <= ideal + pgs.interval;
      if frees[0] == 0 && due != [] {
        BehindServesNothing(pgs, mapLength, last, next, frees[1..]);
      } else {
        ServedIffNeverStarved(pgs, mapLength, ideal, next, frees[1..]);
        var rest := Served(pgs, mapLength, ideal, next, frees[1..]);
        if rest.Some? {
          SameFront(due, rest.value, DueTimes(ideal, pgs.interval, end));
          SameFront([], rest.value, DueTimes(ideal, pgs.interval, end));
        }
      }
    }
  }

  lemma SameFront(front: seq<int>, a: seq<int>, b: seq<int>)
    ensures front + a == front + b <==> a == b
    ensures [] + a == a && [] + b == b
  {
    assert (front + a)[|front|..] == a && (front + b)[|front|..] == b;
    assert [] + a == a && [] + b == b;
  }

  /** Once a due time is left behind, nothing is served any more: the first MAP with a free minislot fails. */
  lemma {:induction false} BehindServesNothing(pgs: Pgs, mapLength: nat, last: int, allocStartTime: int, frees: seq<nat>)
    requires 0 < pgs.interval && last + pgs.interval < allocStartTime
    ensures var s := Served(pgs, mapLength, last, allocStartTime, frees);
            s.None? || s == Some([])
    decreases |frees|
  {
    if frees != [] && frees[0] == 0 {
      BehindServesNothing(pgs, mapLength, last, allocStartTime + mapLength, frees[1..]);
      var nothing: seq<int> := [];
      assert nothing + [] == [];
    }
  }

  /** A grant is due in the i-th MAP of the run, if those due before were laid out. */
  predicate DueIn(pgs: Pgs, mapLength: nat, last: int, allocStartTime: int, i: nat)
    requires 0 < pgs.interval
  {
    LastBefore(last, pgs.interval, allocStartTime + i * mapLength) + pgs.interval < allocStartTime + (i + 1) * mapLength
  }

  /** A MAP with a grant due has no free minislot at all, and a later MAP has one. */
  predicate LeftBehind(pgs: Pgs, mapLength: nat, last: int, allocStartTime: int, frees: seq<nat>)
    requires 0 < pgs.interval
  {
    exists i, j | 0 <= i < j < |frees| :: frees[i] == 0 && DueIn(pgs, mapLength, last, allocStartTime, i) && frees[j] > 0
  }

  lemma DueInShifts(pgs: Pgs, mapLength: nat, last: int, allocStartTime: int, i: nat)
    requires 0 < pgs.interval
    ensures var next := allocStartTime + mapLength;
            DueIn(pgs, mapLength, last, allocStartTime, i + 1) <==>
            DueIn(pgs, mapLength, LastBefore(last, pgs.interval, next), next, i)
  {
    var next := allocStartTime + mapLength;
    assert allocStartTime + (i + 1) * mapLength == next + i * mapLength;
    assert allocStartTime + (i + 2) * mapLength == next + (i + 1) * mapLength;
    MulMonotone(0, i, mapLength);
    DueTimesConcat(last, pgs.interval, next, next + i * mapLength);
  }

  lemma LeftBehindLater(pgs: Pgs, mapLength: nat, last: int, allocStartTime: int, frees: seq<nat>)
    requires 0 < pgs.interval && frees != [] && (frees[0] > 0 || !DueIn(pgs, mapLength, last, allocStartTime, 0))
    ensures var next := allocStartTime + mapLength;
            LeftBehind(pgs, mapLength, last, allocStartTime, frees) <==>
            LeftBehind(pgs, mapLength, LastBefore(last, pgs.interval, next), next, frees[1..])
  {
    var next := allocStartTime + mapLength;
    var ideal, tail := LastBefore(last, pgs.interval, next), frees[1..];
    if LeftBehind(pgs, mapLength, last, allocStartTime, frees) {
      var i, j :| 0 <= i < j < |frees| && frees[i] == 0 && DueIn(pgs, mapLength, last, allocStartTime, i) && frees[j] > 0;
      DueInShifts(pgs, mapLength, last, allocStartTime, i - 1);
      assert tail[i - 1] == frees[i] && tail[j - 1] == frees[j];
    }
    if LeftBehind(pgs, mapLength, ideal, next, tail) {
      var i, j :| 0 <= i < j < |tail| && tail[i] == 0 && DueIn(pgs, mapLength, ideal, next, i) && tail[j] > 0;
      DueInShifts(pgs, mapLength, last, allocStartTime, i);
      assert frees[i + 1] == tail[i] && frees[j + 1] == tail[j];
    }
  }

  /** Once a due time is left behind, the first MAP with a free minislot fails. */
  lemma {:induction false} BehindFails(pgs: Pgs, mapLength: nat, last: int, allocStartTime: int, frees: seq<nat>)
    requires 0 < pgs.interval && last + pgs.interval < allocStartTime
    ensures Served(pgs, mapLength, last, allocStartTime, frees).None? <==> exists j | 0 <= j < |frees| :: frees[j] > 0
    decreases |frees|
  {
    if frees != [] && frees[0] == 0 {
      BehindFails(pgs, mapLength, last, allocStartTime + mapLength, frees[1..]);
      assert forall j | 0 < j < |frees| :: frees[j] == frees[1..][j - 1];
      assert forall j | 0 <= j < |frees[1..]| :: frees[1..][j] == frees[j + 1];
    }
  }

  /**
   The negative-offset assertion of the source is false of some runs: it fails if and only if a MAP with a grant
   due has no free minislot and a later MAP has one.
   */
  lemma {:induction false} StopsIffLeftBehind(pgs: Pgs, mapLength: nat, last: int, allocStartTime: int, frees: seq<nat>)
    requires 0 < pgs.interval && allocStartTime <= last + pgs.interval
    ensures Served(pgs, mapLength, last, allocStartTime, frees).None? <==> LeftBehind(pgs, mapLength, last, allocStartTime, frees)
    decreases |frees|
  {
    if frees != [] {
      var next := allocStartTime + mapLength;
      var ideal := LastBefore(last, pgs.interval, next);
      DueTimesAreArithmetic(last, pgs.interval, next);
      DueNow(pgs, mapLength, last, allocStartTime);
      if frees[0] == 0 && DueIn(pgs, mapLength, last, allocStartTime, 0) {
        BehindFails(pgs, mapLength, last, next, frees[1..]);
        FirstLeftBehind(pgs, mapLength, last, allocStartTime, frees);
      } else {
        LeftBehindLater(pgs, mapLength, last, allocStartTime, frees);
        StopsIffLeftBehind(pgs, mapLength, ideal, next, frees[1..]);
      }
    }
  }

  lemma DueNow(pgs: Pgs, mapLength: nat, last: int, allocStartTime: int)
    requires 0 < pgs.interval && allocStartTime <= last + pgs.interval
    ensures DueIn(pgs, mapLength, last, allocStartTime, 0) <==> last + pgs.interval < allocStartTime + mapLength
  {
  }

  lemma FirstLeftBehind(pgs: Pgs, mapLength: nat, last: int, allocStartTime: int, frees: seq<nat>)
    requires 0 < pgs.interval && frees != [] && frees[0] == 0 && DueIn(pgs, mapLength, last, allocStartTime, 0)
    ensures LeftBehind(pgs, mapLength, last, allocStartTime, frees) <==> exists j | 0 <= j < |frees[1..]| :: frees[1..][j] > 0
  {
    var tail := frees[1..];
    if LeftBehind(pgs, mapLength, last, allocStartTime, frees) {
      var i, j :| 0 <= i < j < |frees| && frees[i] == 0 && DueIn(pgs, mapLength, last, allocStartTime, i) && frees[j] > 0;
      assert tail[j - 1] == frees[j];
    }
    if j :| 0 <= j < |tail| && tail[j] > 0 {
      assert frees[j + 1] == tail[j];
    }
  }

  /** Two MAPs, the first without and the second with a free minislot: the assertion fails in the second. */
  lemma StopsOnStarvedMap()
    ensures Served(Pgs(20, 5), 80, 60, 80, [0, 1]).None?
  {
    var frees: seq<nat> := [0, 1];
    DueNow(Pgs(20, 5), 80, 60, 80);
    FirstLeftBehind(Pgs(20, 5), 80, 60, 80, frees);
    assert frees[1..][0] == 1;
    StopsIffLeftBehind(Pgs(20, 5), 80, 60, 80, frees);
  }
}
