/** The weighted deficit round robin selector between the low-latency and the classic queue. */
module DrrSelector {
  import opened DocsisTypes

  /** Deficit added per round. */
  datatype Quanta = Quanta(classic: nat, lowLatency: nat) {
    predicate Valid() {
      0 < classic
    }
  }

  /** The low-latency quantum is the weighted fraction of the classic one, rounded down. */
  function Weighted(quantum: nat, weight: nat): Quanta {
    Quanta(quantum, quantum * weight / 256)
  }

  lemma QuantaFollowWeight(quantum: nat, weight: nat)
    ensures Weighted(quantum, weight).lowLatency * 256 <= quantum * weight < Weighted(quantum, weight).lowLatency * 256 + 256
  {
  }

  /** Which queues may still be served in this round, and the deficit counters. */
  datatype Drr = Drr(llTurn: bool, cTurn: bool, llDeficit: nat, cDeficit: nat) {
    predicate RoundOver() {
      !llTurn && !cTurn
    }
  }

  /** rounds counts the rounds started on the way to the selection. */
  datatype Pick = Pick(ll: bool, drr: Drr, rounds: nat)

  const FRESH := Drr(false, false, 0, 0)

  function Round(q: Quanta, d: Drr): Drr {
    Drr(true, true, d.llDeficit + q.lowLatency, d.cDeficit + q.classic)
  }

  /** What the LL test of a pass decides: a selection, or the state in which classic is considered. */
  datatype LlTest = LlSelected(drr: Drr) | ConsiderClassic(drr: Drr)

  function TestLl(d: Drr, llHead: Option<nat>, cHead: Option<nat>): LlTest {
    if d.llTurn then
      if llHead.None? then ConsiderClassic(d)
      else if llHead.value <= d.llDeficit then LlSelected(d.(llDeficit := d.llDeficit - llHead.value))
      else if cHead.None? then LlSelected(d.(llTurn := false, llDeficit := 0))
      else ConsiderClassic(d.(llTurn := false))
    else if cHead.None? then LlSelected(d.(llDeficit := 0))
    else ConsiderClassic(d)
  }

  predicate Backlogged(llHead: Option<nat>, cHead: Option<nat>) {
    llHead.Some? || cHead.Some?
  }

  /** Missing classic deficit: it shrinks with every round. */
  function Missing(d: Drr, cHead: Option<nat>): nat {
    if cHead.None? then 0 else Max(cHead.value - d.cDeficit, 0)
  }

  /** The queue to serve next, from the sizes of the packets at the heads. */
  function Select(q: Quanta, d: Drr, llHead: Option<nat>, cHead: Option<nat>): Pick
    requires q.Valid() && Backlogged(llHead, cHead)
    decreases Missing(d, cHead), !d.RoundOver()
  {
    var started := if d.RoundOver() then 1 else 0;
    var t := TestLl(if d.RoundOver() then Round(q, d) else d, llHead, cHead);
    if t.LlSelected? then Pick(true, t.drr, started)
    else if cHead.value <= t.drr.cDeficit then Pick(false, t.drr.(cDeficit := t.drr.cDeficit - cHead.value), started)
    else if llHead.None? then Pick(false, t.drr.(cTurn := false, cDeficit := 0), started)
    else
      var p := Select(q, t.drr.(cTurn := false), llHead, cHead);
      p.(rounds := p.rounds + started)
  }

  // ----- The two queues

  /** Packet sizes in both queues, oldest first, and the selector. */
  datatype Queues = Queues(ll: seq<nat>, classic: seq<nat>, drr: Drr) {
    predicate Empty() {
      ll == [] && classic == []
    }
  }

  function Head(queue: seq<nat>): Option<nat> {
    if queue == [] then None else Some(queue[0])
  }

  function Selection(q: Quanta, s: Queues): (p: Pick)
    requires q.Valid() && !s.Empty()
    ensures if p.ll then s.ll != [] else s.classic != []
  {
    SelectPicksNonEmpty(q, s.drr, Head(s.ll), Head(s.classic));
    Select(q, s.drr, Head(s.ll), Head(s.classic))
  }

  datatype Op = EnqueueLl(size: nat) | EnqueueClassic(size: nat) | Dequeue

  function Step(q: Quanta, s: Queues, op: Op): Queues
    requires q.Valid()
  {
    match op
    case EnqueueLl(size) => s.(ll := s.ll + [size])
    case EnqueueClassic(size) => s.(classic := s.classic + [size])
    case Dequeue =>
      if s.Empty() then s
      else
        var p := Selection(q, s);
        if p.ll then s.(ll := s.ll[1..], drr := p.drr) else s.(classic := s.classic[1..], drr := p.drr)
  }

  class DualQueue {
    const q: Quanta
    var ll: seq<nat>
    var classic: seq<nat>
    var drr: Drr

    function Now(): Queues
      reads this
    {
      Queues(ll, classic, drr)
    }

    constructor (quantum: nat, weight: nat)
      requires 0 < quantum && weight <= 255
      ensures q == Weighted(quantum, weight) && q.Valid() && Now() == Queues([], [], FRESH)
    {
      q := Weighted(quantum, weight);
      ll, classic, drr := [], [], FRESH;
    }

    method Enqueue(toLl: bool, size: nat)
      requires q.Valid()
      modifies this`ll, this`classic
      ensures Now() == Step(q, old(Now()), if toLl then EnqueueLl(size) else EnqueueClassic(size))
      ensures ll == old(ll) + (if toLl then [size] else []) && classic == old(classic) + if toLl then [] else [size]
    {
      if toLl {
        ll := ll + [size];
      } else {
        classic := classic + [size];
      }
    }

    /** True selects the low-latency queue. */
    method SelectLlQueue() returns (selectLl: bool)
      requires q.Valid()
      modifies this`drr
      ensures old(Now()).Empty() ==> !selectLl && drr == old(drr)
      ensures !old(Now()).Empty() ==>
                var p := Selection(q, old(Now()));
                selectLl == p.ll && drr == p.drr
    {
      ghost var start := Now();
      while ll != [] || classic != []
        invariant !start.Empty() ==> Selection(q, Now()).ll == Selection(q, start).ll
        invariant !start.Empty() ==> Selection(q, Now()).drr == Selection(q, start).drr
        invariant start.Empty() ==> drr == start.drr
        decreases Missing(drr, Head(classic)), !drr.RoundOver()
      {
        if !drr.llTurn && !drr.cTurn {
          drr := Drr(true, true, drr.llDeficit + q.lowLatency, drr.cDeficit + q.classic);
        }
        if drr.llTurn {
          if ll != [] {
            var size := ll[0];
            if size <= drr.llDeficit {
              drr := drr.(llDeficit := drr.llDeficit - size);
              return true;
            }
            drr := drr.(llTurn := false);
            if classic == [] {
              drr := drr.(llDeficit := 0);
              return true;
            }
          }
        } else if classic == [] {
          drr := drr.(llDeficit := 0);
          return true;
        }
        if drr.cTurn || classic != [] {
          if classic != [] {
            var size := classic[0];
            if size <= drr.cDeficit {
              drr := drr.(cDeficit := drr.cDeficit - size);
              return false;
            } else if size != 0 {
              drr := drr.(cTurn := false);
              if ll == [] {
                drr := drr.(cDeficit := 0);
                return false;
              }
            }
          }
        }
      }
      return false;
    }

    /** Serve the queue that the selector picks: its oldest packet leaves; nothing does if both are empty. */
    method Dequeue() returns (fromLl: bool, size: Option<nat>)
      requires q.Valid()
      modifies this
      ensures Now() == Step(q, old(Now()), Op.Dequeue)
      ensures size.None? <==> old(Now()).Empty()
      ensures size.Some? ==> fromLl == Selection(q, old(Now())).ll
      ensures size.Some? && fromLl ==> old(ll) == [size.value] + ll && classic == old(classic)
      ensures size.Some? && !fromLl ==> old(classic) == [size.value] + classic && ll == old(ll)
    {
      fromLl := SelectLlQueue();
      if fromLl {
        size, ll := Some(ll[0]), ll[1..];
      } else if classic != [] {
        size, classic := Some(classic[0]), classic[1..];
      } else {
        size := None;
      }
    }
  }

  // ----- What is selected

  lemma {:induction false} SelectPicksNonEmpty(q: Quanta, d: Drr, llHead: Option<nat>, cHead: Option<nat>)
    requires q.Valid() && Backlogged(llHead, cHead)
    ensures if Select(q, d, llHead, cHead).ll then llHead.Some? else cHead.Some?
    decreases Missing(d, cHead), !d.RoundOver()
  {
    var t := TestLl(if d.RoundOver() then Round(q, d) else d, llHead, cHead);
    if t.ConsiderClassic? && cHead.value > t.drr.cDeficit && llHead.Some? {
      SelectPicksNonEmpty(q, t.drr.(cTurn := false), llHead, cHead);
    }
  }

  /** In its r-th round from here, low latency is tested and has the deficit for its packet. */
  predicate LlPays(q: Quanta, d: Drr, llHead: nat, r: nat) {
    (0 < r || d.llTurn) && llHead <= d.llDeficit + r * q.lowLatency
  }

  predicate ClassicPays(q: Quanta, d: Drr, cHead: nat, r: nat) {
    cHead <= d.cDeficit + r * q.classic
  }

  function FirstRound(d: Drr): nat {
    if d.RoundOver() then 1 else 0
  }

  /**
   With both queues backlogged, the packet served is the first that its queue can pay for, round after round, low latency
   before classic.
   */
  lemma {:induction false} SelectsFirstThatPays(q: Quanta, d: Drr, llHead: nat, cHead: nat)
    requires q.Valid()
    ensures var p := Select(q, d, Some(llHead), Some(cHead));
            && FirstRound(d) <= p.rounds
            && (forall r | FirstRound(d) <= r < p.rounds :: !LlPays(q, d, llHead, r) && !ClassicPays(q, d, cHead, r))
            && (p.ll <==> LlPays(q, d, llHead, p.rounds))
            && (!p.ll ==> ClassicPays(q, d, cHead, p.rounds))
            && p.drr.llTurn == p.ll && p.drr.cTurn == (0 < p.rounds || d.cTurn)
    decreases Missing(d, Some(cHead)), !d.RoundOver()
  {
    var first := FirstRound(d);
    var t := TestLl(if d.RoundOver() then Round(q, d) else d, Some(llHead), Some(cHead));
    if t.ConsiderClassic? && cHead > t.drr.cDeficit {
      var next := t.drr.(cTurn := false);
      SelectsFirstThatPays(q, next, llHead, cHead);
      var p := Select(q, next, Some(llHead), Some(cHead));
      forall r: nat | 0 < r ensures LlPays(q, next, llHead, r) == LlPays(q, d, llHead, r + first)
        ensures ClassicPays(q, next, cHead, r) == ClassicPays(q, d, cHead, r + first)
      {
        MulDistributes(r, first, q.lowLatency);
        MulDistributes(r, first, q.classic);
      }
      forall r | first <= r < p.rounds + first ensures !LlPays(q, d, llHead, r) && !ClassicPays(q, d, cHead, r) {
        if first < r {
          assert !LlPays(q, next, llHead, r - first) && !ClassicPays(q, next, cHead, r - first);
        }
      }
    }
  }

  /** With the classic queue empty, low latency is served, for its deficit if it is tested and can pay, or for all of it. */
  lemma SelectsLlAlone(q: Quanta, d: Drr, llHead: nat)
    requires q.Valid()
    ensures var p := Select(q, d, Some(llHead), None);
            var r := FirstRound(d);
            var earned := d.llDeficit + r * q.lowLatency;
            var pays := LlPays(q, d, llHead, r);
            p == Pick(true, Drr(pays, 0 < r || d.cTurn, if pays then earned - llHead else 0, d.cDeficit + r * q.classic), r)
  {
    OneRound(q, FirstRound(d));
  }

  /** With the low-latency queue empty, classic is. */
  lemma SelectsClassicAlone(q: Quanta, d: Drr, cHead: nat)
    requires q.Valid()
    ensures var p := Select(q, d, None, Some(cHead));
            var r := FirstRound(d);
            var earned := d.cDeficit + r * q.classic;
            var pays := ClassicPays(q, d, cHead, r);
            p == Pick(false, Drr(0 < r || d.llTurn, pays && (0 < r || d.cTurn), d.llDeficit + r * q.lowLatency,
                                 if pays then earned - cHead else 0), r)
  {
    OneRound(q, FirstRound(d));
  }

  lemma OneRound(q: Quanta, r: nat)
    requires r <= 1
    ensures r * q.lowLatency == (if r == 0 then 0 else q.lowLatency) && r * q.classic == (if r == 0 then 0 else q.classic)
  {
  }

  /** Low latency has lost its turn only for a packet that it cannot pay for, or with nothing left. */
  predicate TurnInv(d: Drr, llHead: Option<nat>) {
    !d.llTurn ==> d.llDeficit == 0 || (llHead.Some? && d.llDeficit < llHead.value)
  }

  /**
   The queue that is served pays for its packet in full, or, if it cannot and the other queue is empty, loses its
   whole deficit. The other queue keeps what it has.
   */
  lemma SelectSettles(q: Quanta, d: Drr, llHead: Option<nat>, cHead: Option<nat>)
    requires q.Valid() && Backlogged(llHead, cHead) && TurnInv(d, llHead)
    ensures var p := Select(q, d, llHead, cHead);
            var ll, classic := d.llDeficit + p.rounds * q.lowLatency, d.cDeficit + p.rounds * q.classic;
            if p.ll then
              && llHead.Some? && p.drr.cDeficit == classic
              && p.drr.llDeficit == (if llHead.value <= ll then ll - llHead.value else 0)
              && (ll < llHead.value ==> cHead.None?)
            else
              && cHead.Some? && p.drr.llDeficit == ll && TurnInv(p.drr, llHead)
              && p.drr.cDeficit == (if cHead.value <= classic then classic - cHead.value else 0)
              && (classic < cHead.value ==> llHead.None?)
    ensures Select(q, d, llHead, cHead).ll && !Select(q, d, llHead, cHead).drr.llTurn ==> Select(q, d, llHead, cHead).drr.llDeficit == 0
  {
    if cHead.None? {
      SelectsLlAlone(q, d, llHead.value);
    } else if llHead.None? {
      SelectsClassicAlone(q, d, cHead.value);
    } else {
      SelectsFirstThatPays(q, d, llHead.value, cHead.value);
      SelectConserves(q, d, llHead.value, cHead.value);
    }
  }

  // ----- Deficit bounds

  predicate HeadAtMost(head: Option<nat>, max: nat) {
    head.Some? ==> head.value <= max
  }

  /** Deficits stay below the largest packet plus a quantum, and below the largest packet once the turn is over. */
  predicate Bounded(q: Quanta, d: Drr, max: nat) {
    && d.llDeficit < max + q.lowLatency
    && d.cDeficit < max + q.classic
    && (!d.llTurn ==> d.llDeficit < max)
    && (!d.cTurn ==> d.cDeficit < max)
  }

  lemma {:induction false} SelectKeepsBounds(q: Quanta, d: Drr, llHead: Option<nat>, cHead: Option<nat>, max: nat)
    requires q.Valid() && Backlogged(llHead, cHead) && Bounded(q, d, max)
    requires HeadAtMost(llHead, max) && HeadAtMost(cHead, max)
    ensures Bounded(q, Select(q, d, llHead, cHead).drr, max)
    decreases Missing(d, cHead), !d.RoundOver()
  {
    var t := TestLl(if d.RoundOver() then Round(q, d) else d, llHead, cHead);
    if t.ConsiderClassic? && cHead.value > t.drr.cDeficit && llHead.Some? {
      SelectKeepsBounds(q, t.drr.(cTurn := false), llHead, cHead, max);
    }
  }

  /**
   Deficits are conserved while both queues have packets: what a selection takes from a
   deficit is the packet served, and what it adds is a quantum per round.
   */
  lemma {:induction false} SelectConserves(q: Quanta, d: Drr, llHead: nat, cHead: nat)
    requires q.Valid()
    ensures var p := Select(q, d, Some(llHead), Some(cHead));
            && p.drr.llDeficit + (if p.ll then llHead else 0) == d.llDeficit + p.rounds * q.lowLatency
            && p.drr.cDeficit + (if p.ll then 0 else cHead) == d.cDeficit + p.rounds * q.classic
    decreases Missing(d, Some(cHead)), !d.RoundOver()
  {
    var t := TestLl(if d.RoundOver() then Round(q, d) else d, Some(llHead), Some(cHead));
    if t.ConsiderClassic? && cHead > t.drr.cDeficit {
      var next := t.drr.(cTurn := false);
      SelectConserves(q, next, llHead, cHead);
      var r := Select(q, next, Some(llHead), Some(cHead)).rounds;
      MulDistributes(r, 1, q.lowLatency);
      MulDistributes(r, 1, q.classic);
    }
  }

  /** A selection starts no more rounds than the classic head needs to gather its deficit. */
  lemma {:induction false} RoundsAreFew(q: Quanta, d: Drr, llHead: Option<nat>, cHead: Option<nat>)
    requires q.Valid() && Backlogged(llHead, cHead)
    ensures var r := Select(q, d, llHead, cHead).rounds;
            r == 0 || (r - 1) * q.classic <= Missing(d, cHead)
    decreases Missing(d, cHead), !d.RoundOver()
  {
    var t := TestLl(if d.RoundOver() then Round(q, d) else d, llHead, cHead);
    if t.ConsiderClassic? && cHead.value > t.drr.cDeficit && llHead.Some? {
      var next := t.drr.(cTurn := false);
      RoundsAreFew(q, next, llHead, cHead);
      var r := Select(q, next, llHead, cHead).rounds;
      if r > 0 {
        MulDistributes(r - 1, 1, q.classic);
      }
    }
  }

  // ----- Runs

  predicate SizesAtMost(sizes: seq<nat>, max: nat) {
    forall i | 0 <= i < |sizes| :: sizes[i] <= max
  }

  predicate OpAtMost(op: Op, max: nat) {
    op.Dequeue? || op.size <= max
  }

  /** What the queues and the selector may look like at any time. */
  predicate QueuesBounded(q: Quanta, s: Queues, max: nat) {
    Bounded(q, s.drr, max) && SizesAtMost(s.ll, max) && SizesAtMost(s.classic, max)
  }

  /** The packets of a queue that it could not pay for, in bytes, and the deficit that it lost for them. */
  datatype Debt = Debt(unpaid: nat, lost: nat) {
    /** One more packet, served for this deficit. */
    function With(size: nat, deficit: nat): Debt {
      if deficit < size then Debt(unpaid + size, lost + deficit) else this
    }
  }

  /** The bytes served from each queue, the rounds started, what was not paid for, and the queues in the end. */
  datatype Served = Served(llBytes: nat, cBytes: nat, rounds: nat, llDebt: Debt, cDebt: Debt, final: Queues)

  function Run(q: Quanta, s: Queues, ops: seq<Op>): Served
    requires q.Valid()
    decreases |ops|
  {
    if ops == [] then Served(0, 0, 0, Debt(0, 0), Debt(0, 0), s)
    else
      var t := Run(q, Step(q, s, ops[0]), ops[1..]);
      if !ops[0].Dequeue? || s.Empty() then t
      else
        var p := Selection(q, s);
        if p.ll then
          t.(llBytes := t.llBytes + s.ll[0], rounds := t.rounds + p.rounds,
             llDebt := t.llDebt.With(s.ll[0], s.drr.llDeficit + p.rounds * q.lowLatency))
        else
          t.(cBytes := t.cBytes + s.classic[0], rounds := t.rounds + p.rounds,
             cDebt := t.cDebt.With(s.classic[0], s.drr.cDeficit + p.rounds * q.classic))
  }

  lemma StepKeepsTurn(q: Quanta, s: Queues, op: Op)
    requires q.Valid() && TurnInv(s.drr, Head(s.ll))
    ensures TurnInv(Step(q, s, op).drr, Head(Step(q, s, op).ll))
  {
    if op.Dequeue? && !s.Empty() {
      SelectSettles(q, s.drr, Head(s.ll), Head(s.classic));
    }
  }

  /** The deficit that a queue has and earns goes into the bytes served, all of it but for the debt. */
  predicate Settled(before: nat, rounds: nat, quantum: nat, bytes: nat, debt: Debt, after: nat) {
    && after + bytes + debt.lost == before + rounds * quantum + debt.unpaid
    && debt.lost <= debt.unpaid <= bytes
  }

  lemma EarningSettles(before: nat, rounds: nat, quantum: nat, more: nat, bytes: nat, debt: Debt, after: nat)
    requires Settled(before + rounds * quantum, more, quantum, bytes, debt, after)
    ensures Settled(before, more + rounds, quantum, bytes, debt, after)
  {
    MulDistributes(more, rounds, quantum);
  }

  lemma ServingSettles(before: nat, rounds: nat, quantum: nat, size: nat, more: nat, bytes: nat, debt: Debt, after: nat)
    requires var earned := before + rounds * quantum;
             Settled(if size <= earned then earned - size else 0, more, quantum, bytes, debt, after)
    ensures Settled(before, more + rounds, quantum, bytes + size, debt.With(size, before + rounds * quantum), after)
  {
    MulDistributes(more, rounds, quantum);
  }

  /**
   Over any run, queues empty or not: every packet is paid for by its queue's deficit, except for those that cost the
   whole of a deficit that was smaller; these are served only while the other queue is empty. So no queue ever gets
   less than what its rounds earn.
   */
  lemma {:induction false} RunSettles(q: Quanta, s: Queues, ops: seq<Op>)
    requires q.Valid() && TurnInv(s.drr, Head(s.ll))
    ensures var t := Run(q, s, ops);
            && Settled(s.drr.llDeficit, t.rounds, q.lowLatency, t.llBytes, t.llDebt, t.final.drr.llDeficit)
            && Settled(s.drr.cDeficit, t.rounds, q.classic, t.cBytes, t.cDebt, t.final.drr.cDeficit)
            && (StaysBacklogged(q, s, ops) ==> t.llDebt == t.cDebt == Debt(0, 0))
    decreases |ops|
  {
    if ops != [] {
      var next := Step(q, s, ops[0]);
      StepKeepsTurn(q, s, ops[0]);
      RunSettles(q, next, ops[1..]);
      if ops[0].Dequeue? && !s.Empty() {
        DequeueSettles(q, s, next, Selection(q, s), Run(q, next, ops[1..]), Run(q, s, ops));
      }
    }
  }

  lemma DequeueSettles(q: Quanta, s: Queues, next: Queues, p: Pick, rest: Served, t: Served)
    requires q.Valid() && !s.Empty() && TurnInv(s.drr, Head(s.ll)) && p == Selection(q, s) && next.drr == p.drr
    requires Settled(next.drr.llDeficit, rest.rounds, q.lowLatency, rest.llBytes, rest.llDebt, rest.final.drr.llDeficit)
    requires Settled(next.drr.cDeficit, rest.rounds, q.classic, rest.cBytes, rest.cDebt, rest.final.drr.cDeficit)
    requires t.rounds == rest.rounds + p.rounds && t.final == rest.final
    requires if p.ll then
               && t.llBytes == rest.llBytes + s.ll[0] && t.cBytes == rest.cBytes && t.cDebt == rest.cDebt
               && t.llDebt == rest.llDebt.With(s.ll[0], s.drr.llDeficit + p.rounds * q.lowLatency)
             else
               && t.cBytes == rest.cBytes + s.classic[0] && t.llBytes == rest.llBytes && t.llDebt == rest.llDebt
               && t.cDebt == rest.cDebt.With(s.classic[0], s.drr.cDeficit + p.rounds * q.classic)
    ensures Settled(s.drr.llDeficit, t.rounds, q.lowLatency, t.llBytes, t.llDebt, t.final.drr.llDeficit)
    ensures Settled(s.drr.cDeficit, t.rounds, q.classic, t.cBytes, t.cDebt, t.final.drr.cDeficit)
    ensures s.ll != [] && s.classic != [] ==> t.llDebt == rest.llDebt && t.cDebt == rest.cDebt
  {
    SelectSettles(q, s.drr, Head(s.ll), Head(s.classic));
    if p.ll {
      ServingSettles(s.drr.llDeficit, p.rounds, q.lowLatency, s.ll[0], rest.rounds, rest.llBytes, rest.llDebt, rest.final.drr.llDeficit);
      EarningSettles(s.drr.cDeficit, p.rounds, q.classic, rest.rounds, rest.cBytes, rest.cDebt, rest.final.drr.cDeficit);
    } else {
      ServingSettles(s.drr.cDeficit, p.rounds, q.classic, s.classic[0], rest.rounds, rest.cBytes, rest.cDebt, rest.final.drr.cDeficit);
      EarningSettles(s.drr.llDeficit, p.rounds, q.lowLatency, rest.rounds, rest.llBytes, rest.llDebt, rest.final.drr.llDeficit);
    }
  }

  lemma StepKeepsBounds(q: Quanta, s: Queues, op: Op, max: nat)
    requires q.Valid() && QueuesBounded(q, s, max) && OpAtMost(op, max)
    ensures QueuesBounded(q, Step(q, s, op), max)
  {
    if op.Dequeue? && !s.Empty() {
      SelectKeepsBounds(q, s.drr, Head(s.ll), Head(s.classic), max);
    }
  }

  lemma {:induction false} RunKeepsBounds(q: Quanta, s: Queues, ops: seq<Op>, max: nat)
    requires q.Valid() && QueuesBounded(q, s, max)
    requires forall i | 0 <= i < |ops| :: OpAtMost(ops[i], max)
    ensures QueuesBounded(q, Run(q, s, ops).final, max)
    decreases |ops|
  {
    if ops != [] {
      assert forall i | 0 <= i < |ops[1..]| :: ops[1..][i] == ops[i + 1];
      StepKeepsBounds(q, s, ops[0], max);
      RunKeepsBounds(q, Step(q, s, ops[0]), ops[1..], max);
    }
  }

  /**
   Deficits in every reachable state: after any enqueues and dequeues of packets of at most max bytes, queues running
   empty or not, the low-latency deficit is below max plus its quantum, and the classic one below max plus its own.
   */
  lemma DeficitsStayBounded(q: Quanta, ops: seq<Op>, max: nat)
    requires q.Valid() && 0 < max
    requires forall i | 0 <= i < |ops| :: OpAtMost(ops[i], max)
    ensures Bounded(q, Run(q, Queues([], [], FRESH), ops).final.drr, max)
  {
    RunKeepsBounds(q, Queues([], [], FRESH), ops, max);
  }

  /** Neither queue is empty at any dequeue. */
  predicate StaysBacklogged(q: Quanta, s: Queues, ops: seq<Op>)
    requires q.Valid()
    decreases |ops|
  {
    ops == [] || ((ops[0].Dequeue? ==> s.ll != [] && s.classic != []) && StaysBacklogged(q, Step(q, s, ops[0]), ops[1..]))
  }

  lemma {:induction false} RunConserves(q: Quanta, s: Queues, ops: seq<Op>)
    requires q.Valid() && StaysBacklogged(q, s, ops)
    ensures var t := Run(q, s, ops);
            && t.final.drr.llDeficit + t.llBytes == s.drr.llDeficit + t.rounds * q.lowLatency
            && t.final.drr.cDeficit + t.cBytes == s.drr.cDeficit + t.rounds * q.classic
    decreases |ops|
  {
    if ops != [] {
      RunConserves(q, Step(q, s, ops[0]), ops[1..]);
      if ops[0].Dequeue? {
        SelectConserves(q, s.drr, s.ll[0], s.classic[0]);
        var rest := Run(q, Step(q, s, ops[0]), ops[1..]).rounds;
        MulDistributes(rest, Selection(q, s).rounds, q.lowLatency);
        MulDistributes(rest, Selection(q, s).rounds, q.classic);
      }
    }
  }

  /**
   Fairness over a run of any length: while both queues stay backlogged with packets of at most max bytes, the
   bytes served, weighted by the other queue's quantum, differ by less than a constant.
   */
  lemma Fairness(q: Quanta, s: Queues, ops: seq<Op>, max: nat)
    requires q.Valid() && QueuesBounded(q, s, max) && StaysBacklogged(q, s, ops)
    requires forall i | 0 <= i < |ops| :: OpAtMost(ops[i], max)
    ensures var t := Run(q, s, ops);
            var c, l := q.classic, q.lowLatency;
            -(c * (max + l) + l * (max + c)) < c * t.llBytes - l * t.cBytes < c * (max + l) + l * (max + c)
  {
    RunConserves(q, s, ops);
    RunKeepsBounds(q, s, ops, max);
    var t := Run(q, s, ops);
    FairnessArithmetic(q.classic, q.lowLatency, max, s.drr.llDeficit, t.final.drr.llDeficit,
                       s.drr.cDeficit, t.final.drr.cDeficit, t.rounds, t.llBytes, t.cBytes);
  }

  /** From empty queues: whatever went before, every period in which both queues stay backlogged is fair. */
  lemma EveryPeriodIsFair(q: Quanta, before: seq<Op>, period: seq<Op>, max: nat)
    requires q.Valid() && 0 < max
    requires forall i | 0 <= i < |before| :: OpAtMost(before[i], max)
    requires forall i | 0 <= i < |period| :: OpAtMost(period[i], max)
    requires StaysBacklogged(q, Run(q, Queues([], [], FRESH), before).final, period)
    ensures var t := Run(q, Run(q, Queues([], [], FRESH), before).final, period);
            var c, l := q.classic, q.lowLatency;
            -(c * (max + l) + l * (max + c)) < c * t.llBytes - l * t.cBytes < c * (max + l) + l * (max + c)
  {
    RunKeepsBounds(q, Queues([], [], FRESH), before, max);
    Fairness(q, Run(q, Queues([], [], FRESH), before).final, period, max);
  }

  /** In terms of the weight: low latency gets weight/256 of what classic gets, short of a byte in each classic quantum. */
  lemma FairnessByWeight(quantum: nat, weight: nat, s: Queues, ops: seq<Op>, max: nat)
    requires 0 < quantum
    requires var q := Weighted(quantum, weight);
             QueuesBounded(q, s, max) && StaysBacklogged(q, s, ops)
    requires forall i | 0 <= i < |ops| :: OpAtMost(ops[i], max)
    ensures var q := Weighted(quantum, weight);
            var t := Run(q, s, ops);
            var most := quantum * (max + q.lowLatency) + q.lowLatency * (max + quantum);
            && 256 * (quantum * t.llBytes) < quantum * weight * t.cBytes + 256 * most
            && quantum * weight * t.cBytes <= 256 * (quantum * t.llBytes) + 256 * most + 255 * t.cBytes
  {
    var q := Weighted(quantum, weight);
    Fairness(q, s, ops, max);
    QuantaFollowWeight(quantum, weight);
    var t := Run(q, s, ops);
    WeightArithmetic(quantum * weight, q.lowLatency, quantum * t.llBytes, t.cBytes,
                     quantum * (max + q.lowLatency) + q.lowLatency * (max + quantum));
  }

  lemma WeightArithmetic(weighted: nat, l: nat, llBytes: int, cBytes: nat, most: int)
    requires l * 256 <= weighted <= l * 256 + 255 && 0 - most < llBytes - l * cBytes < most
    ensures 256 * llBytes < weighted * cBytes + 256 * most
    ensures weighted * cBytes <= 256 * llBytes + 256 * most + 255 * cBytes
  {
    MulMonotone(l * 256, weighted, cBytes);
    MulMonotone(weighted, l * 256 + 255, cBytes);
    assert l * 256 * cBytes == 256 * (l * cBytes);
    assert (l * 256 + 255) * cBytes == l * 256 * cBytes + 255 * cBytes;
  }

  lemma FairnessArithmetic(c: nat, l: nat, max: nat, l0: nat, l1: nat, c0: nat, c1: nat, rounds: nat, lBytes: nat, cBytes: nat)
    requires 0 < c && l0 < max + l && l1 < max + l && c0 < max + c && c1 < max + c
    requires l1 + lBytes == l0 + rounds * l && c1 + cBytes == c0 + rounds * c
    ensures -(c * (max + l) + l * (max + c)) < c * lBytes - l * cBytes < c * (max + l) + l * (max + c)
  {
    RoundsCancel(c, l, rounds, l0 - l1, c0 - c1);
    ScaledBound(c, l0 - l1, max + l);
    ScaledBound(l, c0 - c1, max + c);
  }

  lemma RoundsCancel(c: nat, l: nat, rounds: nat, x: int, y: int)
    ensures c * (x + rounds * l) - l * (y + rounds * c) == c * x - l * y
  {
    assert c * (x + rounds * l) == c * x + rounds * l * c;
    assert l * (y + rounds * c) == l * y + rounds * l * c;
  }

  lemma ScaledBound(k: nat, x: int, bound: nat)
    requires 0 - bound < x < bound
    ensures -(k * bound) <= k * x <= k * bound
    ensures 0 < k ==> -(k * bound) < k * x < k * bound
  {
    MulMonotone(0, bound - x - 1, k);
    MulMonotone(0, bound + x - 1, k);
    assert k * (bound - x - 1) == k * bound - k * x - k;
    assert k * (bound + x - 1) == k * bound + k * x - k;
  }
}
