/** The modem's request shaper: classic requests take tokens that come in at the service flow's sustained rate. */
module RateShapers {
  import opened DocsisTypes

  /** Rates in bits per second, the burst in bytes. */
  datatype Params = Params(maxSustainedRate: nat, maxTrafficBurst: nat, peakRate: nat) {
    function Burst(): nat {
      if maxTrafficBurst == 0 then DEFAULT_TRAFFIC_BURST else maxTrafficBurst
    }
  }

  const DEFAULT_TRAFFIC_BURST: nat := 3044

  datatype Bucket = Bucket(msrTokens: nat, peakTokens: nat, lastUpdate: int)

  /** Sustained-rate tokens accumulate up to the burst; peak-rate tokens are those of the last interval only. */
  function Updated(p: Params, b: Bucket, now: int): Bucket {
    var elapsed: nat := Max(now - b.lastUpdate, 0);
    Bucket(Min(b.msrTokens + BytesAtRate(elapsed, p.maxSustainedRate), p.Burst()), BytesAtRate(elapsed, p.peakRate), now)
  }

  /** What a request is cut down to. */
  function Shaped(p: Params, b: Bucket, request: nat, now: int): nat {
    var u := Updated(p, b, now);
    if p.peakRate != 0 then Min(Min(request, u.msrTokens), u.peakTokens) else Min(request, u.msrTokens)
  }

  function Taken(p: Params, b: Bucket, request: nat, now: int): Bucket {
    var u := Updated(p, b, now);
    u.(msrTokens := u.msrTokens - Shaped(p, b, request, now))
  }

  class RateShaper {
    const p: Params
    var msrTokens: nat
    var peakTokens: nat
    var lastUpdate: int

    function Now(): Bucket
      reads this
    {
      Bucket(msrTokens, peakTokens, lastUpdate)
    }

    constructor (p: Params, now: int)
      ensures this.p == p && Now() == Bucket(p.maxTrafficBurst, 0, now)
    {
      this.p := p;
      msrTokens, peakTokens, lastUpdate := p.maxTrafficBurst, 0, now;
    }

    method UpdateTokenBucket(now: int)
      modifies this
      ensures Now() == Updated(p, old(Now()), now)
      ensures var elapsed := Max(now - old(lastUpdate), 0);
              && msrTokens == Min(old(msrTokens) + BytesAtRate(elapsed, p.maxSustainedRate),
                                  if p.maxTrafficBurst == 0 then 3044 else p.maxTrafficBurst)
              && peakTokens == BytesAtRate(elapsed, p.peakRate) && lastUpdate == now
    {
      var elapsed: nat := Max(now - lastUpdate, 0);
      var maxTrafficBurst := p.maxTrafficBurst;
      if maxTrafficBurst == 0 {
        maxTrafficBurst := DEFAULT_TRAFFIC_BURST;
      }
      var tokenIncrement := BytesAtRate(elapsed, p.maxSustainedRate);
      if msrTokens + tokenIncrement > msrTokens {
        msrTokens := msrTokens + tokenIncrement;
      }
      if msrTokens > maxTrafficBurst {
        msrTokens := maxTrafficBurst;
      }
      peakTokens := BytesAtRate(elapsed, p.peakRate);
      lastUpdate := now;
    }

    method ShapeRequest(request: nat, now: int) returns (shaped: nat)
      modifies this
      ensures shaped == Shaped(p, old(Now()), request, now) && Now() == Taken(p, old(Now()), request, now)
    {
      UpdateTokenBucket(now);
      shaped := Min(request, msrTokens);
      if p.peakRate != 0 {
        shaped := Min(shaped, peakTokens);
      }
      if shaped < msrTokens {
        msrTokens := msrTokens - shaped;
      } else {
        msrTokens := 0;
      }
    }
  }

  // ----- Runs

  datatype Asked = Asked(bytes: nat, time: int)

  predicate Timely(asked: seq<Asked>, from: int) {
    asked == [] || (from <= asked[0].time && Timely(asked[1..], asked[0].time))
  }

  datatype Totals = Totals(shaped: nat, final: Bucket)

  function Run(p: Params, b: Bucket, asked: seq<Asked>): Totals
    decreases |asked|
  {
    if asked == [] then Totals(0, b)
    else
      var t := Run(p, Taken(p, b, asked[0].bytes, asked[0].time), asked[1..]);
      t.(shaped := t.shaped + Shaped(p, b, asked[0].bytes, asked[0].time))
  }

  /** Over any run, the bytes requested and the tokens left are at most the first tokens and the rate times the time. */
  lemma {:induction false} RequestsWithinRate(p: Params, b: Bucket, asked: seq<Asked>)
    requires Timely(asked, b.lastUpdate)
    ensures var t := Run(p, b, asked);
            && b.lastUpdate <= t.final.lastUpdate
            && t.shaped + t.final.msrTokens
               <= b.msrTokens + BytesAtRate(t.final.lastUpdate - b.lastUpdate, p.maxSustainedRate)
    decreases |asked|
  {
    if asked != [] {
      var next := Taken(p, b, asked[0].bytes, asked[0].time);
      RequestsWithinRate(p, next, asked[1..]);
      var end := Run(p, next, asked[1..]).final.lastUpdate;
      BytesAtRateAdd(asked[0].time - b.lastUpdate, end - asked[0].time, p.maxSustainedRate);
    }
  }

  /** Requests at least a gap apart. */
  predicate Spaced(asked: seq<Asked>, from: int, gap: nat) {
    asked == [] || (from + gap <= asked[0].time && Spaced(asked[1..], asked[0].time, gap))
  }

  predicate Fills(before: nat, income: nat, burst: nat, taken: nat, after: nat) {
    Min(before + income, burst) <= after + taken
  }

  lemma OneMoreFill(before: nat, gain: nat, burst: nat, taken: nat, middle: nat, n: nat, more: nat, after: nat)
    requires Fills(before, gain, burst, taken, middle) && Fills(middle, n * gain, burst, more, after)
    ensures Fills(before, (n + 1) * gain, burst, taken + more, after)
  {
    MulDistributes(n, 1, gain);
  }

  /**
   No token is lost: over any run of requests at least a gap apart, what was requested and the tokens left are at least what
   was there and the whole bytes of the rate per gap, request by request, or else the burst.
   */
  lemma {:induction false} TokensAreKept(p: Params, b: Bucket, asked: seq<Asked>, gap: nat)
    requires Spaced(asked, b.lastUpdate, gap)
    ensures var t := Run(p, b, asked);
            Fills(b.msrTokens, |asked| * BytesAtRate(gap, p.maxSustainedRate), p.Burst(), t.shaped, t.final.msrTokens)
    decreases |asked|
  {
    if asked != [] {
      var next := Taken(p, b, asked[0].bytes, asked[0].time);
      TokensAreKept(p, next, asked[1..], gap);
      BytesAtRateMonotone(gap, asked[0].time - b.lastUpdate, p.maxSustainedRate);
      var t := Run(p, next, asked[1..]);
      OneMoreFill(b.msrTokens, BytesAtRate(gap, p.maxSustainedRate), p.Burst(), Shaped(p, b, asked[0].bytes, asked[0].time),
                  next.msrTokens, |asked| - 1, t.shaped, t.final.msrTokens);
    }
  }

  /** What every request may ask for, whatever the ones before it took. */
  predicate Modest(p: Params, bytes: nat, gap: nat) {
    && bytes <= Min(BytesAtRate(gap, p.maxSustainedRate), p.Burst())
    && (p.peakRate != 0 ==> bytes <= BytesAtRate(gap, p.peakRate))
  }

  function Sum(asked: seq<Asked>): nat {
    if asked == [] then 0 else asked[0].bytes + Sum(asked[1..])
  }

  /** Requests of no more than the rates give in the gap are never cut down. */
  lemma {:induction false} ModestRequestsAreNotCut(p: Params, b: Bucket, asked: seq<Asked>, gap: nat)
    requires Spaced(asked, b.lastUpdate, gap) && forall i | 0 <= i < |asked| :: Modest(p, asked[i].bytes, gap)
    ensures Run(p, b, asked).shaped == Sum(asked)
    decreases |asked|
  {
    if asked != [] {
      assert Modest(p, asked[0].bytes, gap);
      assert forall i | 0 <= i < |asked[1..]| :: asked[1..][i] == asked[i + 1];
      BytesAtRateMonotone(gap, asked[0].time - b.lastUpdate, p.maxSustainedRate);
      BytesAtRateMonotone(gap, asked[0].time - b.lastUpdate, p.peakRate);
      ModestRequestsAreNotCut(p, Taken(p, b, asked[0].bytes, asked[0].time), asked[1..], gap);
    }
  }

  /** No request exceeds what the peak rate gives since the one before, or the burst. */
  lemma RequestWithinPeak(p: Params, b: Bucket, request: nat, now: int)
    ensures Shaped(p, b, request, now) <= Min(request, p.Burst())
    ensures p.peakRate != 0 ==> Shaped(p, b, request, now) <= BytesAtRate(Max(now - b.lastUpdate, 0), p.peakRate)
  {
  }
}
