/** How a MAP interval's minislots are divided between the two service flows. */
module Allocation {
  import opened DocsisTypes

  type Weight = w: nat | 1 <= w <= 255 witness 230

  /** What Allocate is asked to satisfy, in minislots. */
  datatype Demand = Demand(available: nat, pgs: nat, maxC: nat, maxL: nat) {
    predicate Valid() {
      pgs <= maxL
    }

    /** Everything that can be handed out: bounded by supply and demand, but at least the PGS grants. */
    function Budget(): nat {
      Max(Min(available, maxC + maxL), pgs)
    }

    /** The low-latency weighted share; the rest of the budget is the classic share. */
    function LowLatencyShare(weight: Weight): nat {
      Max(Budget() * weight / 256, pgs)
    }
  }

  function DemandOf(ch: Channel, freeMinislots: nat, pgsMinislots: nat, availableTokens: nat,
                    cRequestedBytes: nat, lRequestedBytes: nat): Demand
    requires ch.Valid()
  {
    Demand(Min(ch.MinislotCeil(availableTokens), freeMinislots), pgsMinislots,
           ch.MinislotCeil(cRequestedBytes), Max(ch.MinislotCeil(lRequestedBytes), pgsMinislots))
  }

  lemma ShareWithinBudget(d: Demand, weight: Weight)
    requires d.Valid()
    ensures d.Budget() * weight / 256 <= d.Budget()
    ensures 0 < d.Budget() ==> d.Budget() * weight / 256 < d.Budget()
    ensures d.pgs <= d.LowLatencyShare(weight) <= d.Budget()
    ensures d.Budget() * weight / 256 == 0 <==> d.Budget() * weight < 256
  {
    MulMonotone(weight, 255, d.Budget());
    QuotientOf256(d.Budget() * weight, d.Budget());
  }

  lemma QuotientOf256(x: nat, t: nat)
    requires x <= 255 * t
    ensures x / 256 <= t && (0 < t ==> x / 256 < t) && (x / 256 == 0 <==> x < 256)
  {
  }

  /**
   The number of classic and low-latency minislots to schedule. Every unsigned
   subtraction of the source is a subtraction of naturals here, so well-formedness
   already says that none of them wraps around.
   */
  function Allocate(ch: Channel, weight: Weight, freeMinislots: nat, pgsMinislots: nat, availableTokens: nat,
                    cRequestedBytes: nat, lRequestedBytes: nat): (nat, nat)
    requires ch.Valid()
  {
    var d := DemandOf(ch, freeMinislots, pgsMinislots, availableTokens, cRequestedBytes, lRequestedBytes);
    Split(d, weight)
  }

  function Split(d: Demand, weight: Weight): (nat, nat)
    requires d.Valid()
  {
    ShareWithinBudget(d, weight);
    if d.pgs >= d.maxL then
      (if d.available > d.pgs then Min(d.available - d.pgs, d.maxC) else 0, d.pgs)
    else
      var lWeighted := d.LowLatencyShare(weight);
      var cWeighted: nat := d.Budget() - lWeighted;
      if d.maxL <= lWeighted && d.maxC <= cWeighted then
        (d.maxC, d.maxL)
      else if d.maxL > lWeighted && d.maxC > cWeighted then
        (cWeighted, lWeighted)
      else if d.maxL <= lWeighted then
        (Min(d.Budget() - d.maxL, d.maxC), d.maxL)
      else
        (d.maxC, Min(d.Budget() - d.maxC, d.maxL))
  }

  /**
   Weighted max-min fairness: the whole budget is used, nobody gets more than asked
   for, PGS is honoured, and a flow goes beyond its weighted share only when the
   other flow is fully satisfied.
   */
  predicate WeightedMaxMin(d: Demand, weight: Weight, c: nat, l: nat)
    requires d.Valid()
  {
    && c + l == d.Budget()
    && c <= d.maxC
    && d.pgs <= l <= d.maxL
    && (l > d.LowLatencyShare(weight) ==> c == d.maxC)
    && (c > d.Budget() - d.LowLatencyShare(weight) ==> l == d.maxL)
  }

  /** Split computes the weighted max-min division, and there is no other. */
  lemma SplitIsTheWeightedMaxMin(d: Demand, weight: Weight, c: nat, l: nat)
    requires d.Valid()
    ensures WeightedMaxMin(d, weight, c, l) <==> (c, l) == Split(d, weight)
  {
    ShareWithinBudget(d, weight);
  }

  /**
   Allocate is work conserving, honours PGS and both demands, and gives each
   flow at least the lesser of its demand and its weighted share.
   */
  lemma AllocateGuarantees(ch: Channel, weight: Weight, free: nat, pgs: nat, tokens: nat, cBytes: nat, lBytes: nat)
    requires ch.Valid()
    ensures var (c, l) := Allocate(ch, weight, free, pgs, tokens, cBytes, lBytes);
            var supply := Min(ch.MinislotCeil(tokens), free);
            var lDemand := Max(ch.MinislotCeil(lBytes), pgs);
            var budget := Max(Min(supply, ch.MinislotCeil(cBytes) + lDemand), pgs);
            && c + l == budget
            && c <= ch.MinislotCeil(cBytes)
            && pgs <= l <= lDemand
            && l >= Min(lDemand, budget * weight / 256)
            && c >= Min(ch.MinislotCeil(cBytes), budget - Max(budget * weight / 256, pgs))
            && (pgs <= free ==> c + l <= free)
  {
    var d := DemandOf(ch, free, pgs, tokens, cBytes, lBytes);
    var (c, l) := Split(d, weight);
    ShareWithinBudget(d, weight);
    SplitIsTheWeightedMaxMin(d, weight, c, l);
  }

  /**
   Who gets something: classic exactly if it asks for something and supply exceeds PGS; low latency goes beyond
   PGS exactly if it asks for more and its share of the budget, or what classic leaves over, does too.
   */
  lemma WhoIsServed(d: Demand, weight: Weight)
    requires d.Valid()
    ensures var (c, l) := Split(d, weight);
            && (c > 0 <==> d.maxC > 0 && d.available > d.pgs)
            && (l > d.pgs <==> d.maxL > d.pgs && (d.available > d.maxC + d.pgs || d.Budget() * weight / 256 > d.pgs))
  {
    ShareWithinBudget(d, weight);
  }

  /** Enough supply for a whole low-latency minislot by weight serves low latency, whatever classic asks for. */
  lemma LowLatencyIsServed(d: Demand, weight: Weight)
    requires d.Valid() && d.maxL > 0 && d.available * weight >= 256
    ensures Split(d, weight).1 > 0
  {
    var (c, l) := Split(d, weight);
    SplitIsTheWeightedMaxMin(d, weight, c, l);
    ShareWithinBudget(d, weight);
    if d.available <= d.maxC + d.maxL {
      MulMonotone(d.available, d.Budget(), weight);
    }
  }

  /** The branch that takes everything classic asked for and gives the rest to low latency. */
  predicate LowLatencyLimited(d: Demand, weight: Weight)
    requires d.Valid()
  {
    ShareWithinBudget(d, weight);
    && d.pgs < d.maxL
    && d.maxL > d.LowLatencyShare(weight)
    && d.maxC <= d.Budget() - d.LowLatencyShare(weight)
  }

  predicate ClassicLimited(d: Demand, weight: Weight)
    requires d.Valid()
  {
    ShareWithinBudget(d, weight);
    && d.pgs < d.maxL
    && d.maxL <= d.LowLatencyShare(weight)
    && d.maxC > d.Budget() - d.LowLatencyShare(weight)
  }

  /** The source asserts a strict inequality in the classic-limited branch; it holds. */
  lemma ClassicLimitedAssertHolds(d: Demand, weight: Weight)
    requires d.Valid() && ClassicLimited(d, weight)
    ensures d.Budget() > d.maxL
  {
    ShareWithinBudget(d, weight);
  }

  /**
   The strict assertion of the low-latency-limited branch is false exactly when there
   are no PGS grants, low latency asks for something, classic asks for all that is
   available, and the low-latency share of that rounds down to nothing.
   */
  lemma LowLatencyLimitedAssertFails(d: Demand, weight: Weight)
    requires d.Valid()
    ensures (LowLatencyLimited(d, weight) && !(d.Budget() > d.maxC))
       <==> (d.pgs == 0 && d.maxL > 0 && d.maxC == d.available && d.available * weight < 256)
  {
    ShareWithinBudget(d, weight);
  }

  /** One free minislot, one token, each flow asking for a byte: the assertion fails, yet the division is the fair one. */
  lemma LowLatencyLimitedAssertFailsOn1(ch: Channel, weight: Weight)
    requires ch.Valid()
    ensures var d := DemandOf(ch, 1, 0, 1, 1, 1);
            && LowLatencyLimited(d, weight)
            && !(d.Budget() > d.maxC)
            && Allocate(ch, weight, 1, 0, 1, 1, 1) == (1, 0)
            && WeightedMaxMin(d, weight, 1, 0)
  {
    ch.MinislotCeilIsLeast(1, 0);
    ch.MinislotCeilIsLeast(1, 1);
    var d := DemandOf(ch, 1, 0, 1, 1, 1);
    assert d == Demand(1, 0, 1, 1);
    LowLatencyLimitedAssertFails(d, weight);
    SplitIsTheWeightedMaxMin(d, weight, 1, 0);
  }
}
