/**
 The scheduler keeps grants in a std::map keyed by their first minislot and uses
 it as an ordered list. Here it is a sequence in key order; Insert is
 std::map::insert, which leaves the container alone when the key is present.
 */
module GrantLists {
  import opened DocsisTypes

  predicate ServiceFlow(sfid: nat) {
    sfid == CLASSIC_SFID || sfid == LOW_LATENCY_SFID
  }

  /** Non-empty grants in order, without overlap, in the minislots from .. to. */
  predicate Placed(gs: seq<Grant>, from: nat, to: nat) {
    if gs == [] then from <= to
    else
      && from <= gs[0].offset
      && 0 < gs[0].length
      && ServiceFlow(gs[0].sfid)
      && Placed(gs[1..], gs[0].End(), to)
  }

  /** Minislots granted to one service flow. */
  function Minislots(gs: seq<Grant>, sfid: nat): nat {
    if gs == [] then 0
    else (if gs[0].sfid == sfid then gs[0].length else 0) + Minislots(gs[1..], sfid)
  }

  /** Minislots granted to both service flows. */
  function Occupied(gs: seq<Grant>): nat {
    Minislots(gs, CLASSIC_SFID) + Minislots(gs, LOW_LATENCY_SFID)
  }

  function Insert(gs: seq<Grant>, g: Grant): seq<Grant> {
    if gs == [] || g.offset < gs[0].offset then [g] + gs
    else if g.offset == gs[0].offset then gs
    else [gs[0]] + Insert(gs[1..], g)
  }

  /** What Placed means: every grant is a non-empty part of the interval, and no two of them overlap. */
  lemma {:induction false} PlacedIsDisjoint(gs: seq<Grant>, from: nat, to: nat)
    requires Placed(gs, from, to)
    ensures from <= to
    ensures forall i | 0 <= i < |gs| :: from <= gs[i].offset < gs[i].End() <= to && ServiceFlow(gs[i].sfid)
    ensures forall i, j | 0 <= i < j < |gs| :: gs[i].End() <= gs[j].offset
  {
    if gs != [] {
      PlacedIsDisjoint(gs[1..], gs[0].End(), to);
      assert forall i | 0 < i < |gs| :: gs[i] == gs[1..][i - 1];
    }
  }

  lemma {:induction false} PlacedConcat(a: seq<Grant>, b: seq<Grant>, from: nat, middle: nat, to: nat)
    requires Placed(a, from, middle) && Placed(b, middle, to)
    ensures Placed(a + b, from, to)
  {
    if a == [] {
      PlacedWiden(b, from, middle, to);
      assert a + b == b;
    } else {
      PlacedConcat(a[1..], b, a[0].End(), middle, to);
      assert (a + b)[1..] == a[1..] + b;
    }
  }

  lemma PlacedWiden(gs: seq<Grant>, from: nat, middle: nat, to: nat)
    requires from <= middle && Placed(gs, middle, to)
    ensures Placed(gs, from, to)
  {
    PlacedIsDisjoint(gs, middle, to);
  }

  lemma {:induction false} MinislotsConcat(a: seq<Grant>, b: seq<Grant>, sfid: nat)
    ensures Minislots(a + b, sfid) == Minislots(a, sfid) + Minislots(b, sfid)
  {
    if a == [] {
      assert a + b == b;
    } else {
      MinislotsConcat(a[1..], b, sfid);
      assert (a + b)[1..] == a[1..] + b;
    }
  }

  /** Grants that do not overlap occupy no more than the room there is. */
  lemma {:induction false} OccupiedFits(gs: seq<Grant>, from: nat, to: nat)
    requires Placed(gs, from, to)
    ensures from + Occupied(gs) <= to
  {
    if gs != [] {
      OccupiedFits(gs[1..], gs[0].End(), to);
    }
  }

  /** Insert adds an entry exactly for a new key and never changes an existing one. */
  lemma {:induction false} InsertIsMapInsert(gs: seq<Grant>, g: Grant, from: nat, to: nat)
    requires Placed(gs, from, to)
    ensures forall h :: h in Insert(gs, g) <==> h in gs || (h == g && forall e | e in gs :: e.offset != g.offset)
  {
    PlacedIsDisjoint(gs, from, to);
    if gs != [] && gs[0].offset < g.offset {
      InsertIsMapInsert(gs[1..], g, gs[0].End(), to);
      assert gs == [gs[0]] + gs[1..];
    }
  }

  /** Inserting between the grants that end before a minislot and those that start there or later. */
  lemma InsertBetween(a: seq<Grant>, g: Grant, b: seq<Grant>, from: nat)
    requires Placed(a, from, g.offset)
    requires b != [] ==> g.offset <= b[0].offset
    ensures Insert(a + b, g) == a + if b != [] && b[0].offset == g.offset then b else [g] + b
  {
    PlacedIsBefore(a, from, g.offset);
    InsertBehind(a, g, b);
  }

  lemma {:induction false} PlacedIsBefore(gs: seq<Grant>, from: nat, to: nat)
    requires Placed(gs, from, to)
    ensures AllBefore(gs, to)
  {
    PlacedIsDisjoint(gs, from, to);
  }

  predicate Ascending(gs: seq<Grant>) {
    |gs| < 2 || (gs[0].offset < gs[1].offset && Ascending(gs[1..]))
  }

  predicate AllBefore(gs: seq<Grant>, offset: nat) {
    forall g | g in gs :: g.offset < offset
  }

  lemma {:induction false} PlacedAscends(gs: seq<Grant>, from: nat, to: nat)
    requires Placed(gs, from, to)
    ensures Ascending(gs)
  {
    if gs != [] {
      PlacedAscends(gs[1..], gs[0].End(), to);
    }
  }

  lemma {:induction false} InsertBehind(a: seq<Grant>, g: Grant, b: seq<Grant>)
    requires AllBefore(a, g.offset)
    ensures Insert(a + b, g) == a + Insert(b, g)
  {
    if a == [] {
      assert a + b == b && a + Insert(b, g) == Insert(b, g);
    } else {
      assert a[0] in a && (a + b)[0] == a[0] && (a + b)[1..] == a[1..] + b;
      InsertBehind(a[1..], g, b);
      assert [a[0]] + (a[1..] + Insert(b, g)) == a + Insert(b, g);
    }
  }
}
