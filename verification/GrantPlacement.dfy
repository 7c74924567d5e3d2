/** Placing the allocated minislots inside the MAP interval. */
module GrantPlacement {
  import opened DocsisTypes
  import opened GrantLists

  /** A list of guaranteed grants as the scheduler lays them out for one MAP. */
  predicate WellFormedPgs(pgs: seq<Grant>, from: nat, minislotsPerMap: nat) {
    Placed(pgs, from, minislotsPerMap) && AllLowLatency(pgs) && minislotsPerMap < UINT32
  }

  predicate AllLowLatency(gs: seq<Grant>) {
    forall g | g in gs :: g.sfid == LOW_LATENCY_SFID
  }

  /** Every PGS grant is still there, where it was, and no shorter. */
  predicate Survives(pgs: seq<Grant>, gs: seq<Grant>) {
    forall p | p in pgs :: Keeps(p, gs)
  }

  predicate Keeps(p: Grant, gs: seq<Grant>) {
    exists g :: g in gs && g.sfid == p.sfid && g.offset == p.offset && p.length <= g.length
  }

  datatype Schedule = Schedule(grants: seq<Grant>, cMinislots: nat, lMinislots: nat)

  /** What the scheduled grants must be for the demand that was put in. */
  predicate Serves(s: Schedule, minislotsPerMap: nat, pgs: seq<Grant>, c: nat, l: nat) {
    && Placed(s.grants, 0, minislotsPerMap)
    && s.cMinislots == c == Minislots(s.grants, CLASSIC_SFID)
    && s.lMinislots == Max(l, Minislots(pgs, LOW_LATENCY_SFID)) == Minislots(s.grants, LOW_LATENCY_SFID)
    && Survives(pgs, s.grants)
  }

  // ----- Appending low-latency minislots to PGS grants

  function GapEnd(pgs: seq<Grant>, minislotsPerMap: nat): nat
    requires pgs != []
  {
    if 1 < |pgs| then pgs[1].offset else minislotsPerMap
  }

  /** Minislots behind the first grant, as the source subtracts them: unsigned, so a negative difference wraps around. */
  function Space(pgs: seq<Grant>, minislotsPerMap: nat): nat
    requires pgs != []
  {
    (GapEnd(pgs, minislotsPerMap) - pgs[0].End()) % UINT32
  }

  lemma SpaceIsGap(pgs: seq<Grant>, from: nat, minislotsPerMap: nat)
    requires WellFormedPgs(pgs, from, minislotsPerMap) && pgs != []
    ensures pgs[0].End() <= GapEnd(pgs, minislotsPerMap)
    ensures Space(pgs, minislotsPerMap) == GapEnd(pgs, minislotsPerMap) - pgs[0].End()
  {
    PlacedIsDisjoint(pgs, from, minislotsPerMap);
    assert 0 <= GapEnd(pgs, minislotsPerMap) - pgs[0].End() < UINT32;
  }

  function Extended(pgs: seq<Grant>, extra: nat, minislotsPerMap: nat): seq<Grant> {
    if pgs == [] then []
    else
      var add := Min(extra, Space(pgs, minislotsPerMap));
      [Grant(LOW_LATENCY_SFID, pgs[0].offset, pgs[0].length + add)] + Extended(pgs[1..], extra - add, minislotsPerMap)
  }

  /** Extra minislots that do not fit behind the PGS grants. */
  function Unappended(pgs: seq<Grant>, extra: nat, minislotsPerMap: nat): nat {
    if pgs == [] then extra
    else Unappended(pgs[1..], extra - Min(extra, Space(pgs, minislotsPerMap)), minislotsPerMap)
  }

  /** What appending extra minislots to PGS grants gives, with some left over. */
  predicate Appended(pgs: seq<Grant>, gs: seq<Grant>, extra: nat, left: nat, from: nat, minislotsPerMap: nat) {
    && WellFormedPgs(gs, from, minislotsPerMap)
    && |gs| == |pgs|
    && (pgs != [] ==> gs[0].offset == pgs[0].offset)
    && Minislots(gs, LOW_LATENCY_SFID) + left == Minislots(pgs, LOW_LATENCY_SFID) + extra
    && Minislots(gs, CLASSIC_SFID) == 0
    && (left > 0 && pgs != [] ==> gs[0].offset + Occupied(gs) == minislotsPerMap)
    && (extra == 0 ==> left == 0 && gs == pgs)
    && (pgs != [] && gs[0].End() < GapEnd(pgs, minislotsPerMap) ==> gs[1..] == pgs[1..])
  }

  /**
   Appending accounts for every extra minislot, keeps the grants in place, and leaves
   some over only when not a single minislot behind the first PGS grant is free.
   */
  lemma {:induction false} ExtendedKeepsOrder(pgs: seq<Grant>, from: nat, extra: nat, minislotsPerMap: nat)
    requires WellFormedPgs(pgs, from, minislotsPerMap)
    ensures Appended(pgs, Extended(pgs, extra, minislotsPerMap), extra, Unappended(pgs, extra, minislotsPerMap), from, minislotsPerMap)
  {
    if pgs != [] {
      var add := Min(extra, Space(pgs, minislotsPerMap));
      SpaceIsGap(pgs, from, minislotsPerMap);
      ExtendedKeepsOrder(pgs[1..], pgs[0].End(), extra - add, minislotsPerMap);
      OneMoreAppended(pgs, Extended(pgs[1..], extra - add, minislotsPerMap), extra, add,
                      Unappended(pgs, extra, minislotsPerMap), from, minislotsPerMap);
    }
  }

  /** Extra minislots go behind the first PGS grants: as long as there is room behind one, later ones are as they were. */
  lemma {:induction false} ExtendedIsEarliest(pgs: seq<Grant>, from: nat, extra: nat, minislotsPerMap: nat, i: nat)
    requires WellFormedPgs(pgs, from, minislotsPerMap) && i < |pgs|
    ensures var gs := Extended(pgs, extra, minislotsPerMap);
            && |gs| == |pgs|
            && (gs[i].End() < GapEnd(pgs[i..], minislotsPerMap) ==> gs[i + 1..] == pgs[i + 1..])
  {
    ExtendedKeepsOrder(pgs, from, extra, minislotsPerMap);
    var add := Min(extra, Space(pgs, minislotsPerMap));
    var gs, rest := Extended(pgs, extra, minislotsPerMap), Extended(pgs[1..], extra - add, minislotsPerMap);
    if i == 0 {
      assert pgs[0..] == pgs;
    } else {
      ExtendedIsEarliest(pgs[1..], pgs[0].End(), extra - add, minislotsPerMap, i - 1);
      assert gs[1..] == rest && gs[i] == rest[i - 1] && gs[i + 1..] == rest[i..];
      assert pgs[i..] == pgs[1..][i - 1..] && pgs[i + 1..] == pgs[1..][i..];
    }
  }

  lemma OneMoreAppended(pgs: seq<Grant>, rest: seq<Grant>, extra: nat, add: nat, left: nat, from: nat, minislotsPerMap: nat)
    requires WellFormedPgs(pgs, from, minislotsPerMap) && pgs != [] && pgs[0].End() <= GapEnd(pgs, minislotsPerMap)
    requires add == Min(extra, GapEnd(pgs, minislotsPerMap) - pgs[0].End())
    requires Appended(pgs[1..], rest, extra - add, left, pgs[0].End(), minislotsPerMap)
    ensures var g := Grant(LOW_LATENCY_SFID, pgs[0].offset, pgs[0].length + add);
            Appended(pgs, [g] + rest, extra, left, from, minislotsPerMap)
  {
    var g := Grant(LOW_LATENCY_SFID, pgs[0].offset, pgs[0].length + add);
    assert ([g] + rest)[1..] == rest;
    assert pgs[0] in pgs && pgs == [pgs[0]] + pgs[1..];
    OccupiedFits(rest, pgs[0].End(), minislotsPerMap);
  }

  /** Every PGS grant survives the appending. */
  lemma {:induction false} ExtendedSurvives(pgs: seq<Grant>, extra: nat, minislotsPerMap: nat)
    requires AllLowLatency(pgs)
    ensures Survives(pgs, Extended(pgs, extra, minislotsPerMap))
  {
    if pgs != [] {
      var add := Min(extra, Space(pgs, minislotsPerMap));
      var g := Grant(LOW_LATENCY_SFID, pgs[0].offset, pgs[0].length + add);
      var rest, gs := Extended(pgs[1..], extra - add, minislotsPerMap), Extended(pgs, extra, minislotsPerMap);
      ExtendedSurvives(pgs[1..], extra - add, minislotsPerMap);
      assert pgs[0] in pgs && gs == [g] + rest;
      forall p | p in pgs ensures Keeps(p, gs) {
        if p == pgs[0] {
          assert g in gs;
        } else {
          assert p in pgs[1..];
          var h :| h in rest && h.sfid == p.sfid && h.offset == p.offset && p.length <= h.length;
          assert h in gs;
        }
      }
    }
  }

  lemma {:induction false} NothingToAppend(pgs: seq<Grant>, minislotsPerMap: nat)
    ensures Unappended(pgs, 0, minislotsPerMap) == 0
  {
    if pgs != [] {
      NothingToAppend(pgs[1..], minislotsPerMap);
    }
  }

  /**
   A grant that reaches across the end of the MAP, or into the next grant, takes all extra minislots: the subtraction
   wraps around, and there is room for everything.
   */
  lemma CrossingGrantTakesAll(pgs: seq<Grant>, extra: nat, minislotsPerMap: nat)
    requires pgs != [] && GapEnd(pgs, minislotsPerMap) < pgs[0].End() <= GapEnd(pgs, minislotsPerMap) + UINT32 / 2
    requires extra <= UINT32 / 2
    ensures Extended(pgs, extra, minislotsPerMap)[0] == Grant(LOW_LATENCY_SFID, pgs[0].offset, pgs[0].length + extra)
    ensures Unappended(pgs, extra, minislotsPerMap) == 0
  {
    NothingToAppend(pgs[1..], minislotsPerMap);
  }

  method AppendToPgs(minislotsPerMap: nat, pgs: seq<Grant>, extra: nat) returns (gs: seq<Grant>, remaining: nat)
    requires Ascending(pgs)
    ensures gs == Extended(pgs, extra, minislotsPerMap)
    ensures remaining == Unappended(pgs, extra, minislotsPerMap)
  {
    gs, remaining := [], extra;
    ghost var ahead := pgs;  // the grants still to come
    assert [] + Extended(pgs, extra, minislotsPerMap) == Extended(pgs, extra, minislotsPerMap);
    for i := 0 to |pgs|
      invariant ahead == pgs[i..] && Ascending(ahead)
      invariant ahead != [] ==> AllBefore(gs, ahead[0].offset)
      invariant gs + Extended(ahead, remaining, minislotsPerMap) == Extended(pgs, extra, minislotsPerMap)
      invariant Unappended(ahead, remaining, minislotsPerMap) == Unappended(pgs, extra, minislotsPerMap)
    {
      var lGrant, left := ExtendGrant(pgs[i], if i + 1 < |pgs| then pgs[i + 1].offset else minislotsPerMap, remaining);
      AppendStep(gs, ahead, remaining, lGrant, left, minislotsPerMap);
      gs, remaining := Insert(gs, lGrant), left;
      ahead := ahead[1..];
    }
    assert gs + [] == gs;
  }

  /** One PGS grant takes what it can of the extra minislots; returns what is left of them. */
  method ExtendGrant(it: Grant, gapEnd: nat, extra: nat) returns (lGrant: Grant, remaining: nat)
    ensures var add := Min(extra, (gapEnd - it.End()) % UINT32);
            lGrant == Grant(LOW_LATENCY_SFID, it.offset, it.length + add) && remaining == extra - add
  {
    lGrant, remaining := Grant(LOW_LATENCY_SFID, it.offset, it.length), extra;
    if remaining != 0 {
      var space := (gapEnd - it.End()) % UINT32;
      if remaining <= space {
        lGrant := lGrant.(length := it.length + remaining);
        remaining := 0;
      } else {
        lGrant := lGrant.(length := it.length + space);
        remaining := remaining - space;
      }
    }
  }

  /** One iteration of AppendToPgs. */
  lemma AppendStep(gs: seq<Grant>, ahead: seq<Grant>, extra: nat, g: Grant, left: nat, minislotsPerMap: nat)
    requires Ascending(ahead) && ahead != [] && AllBefore(gs, ahead[0].offset)
    requires var add := Min(extra, Space(ahead, minislotsPerMap));
             g == Grant(LOW_LATENCY_SFID, ahead[0].offset, ahead[0].length + add) && left == extra - add
    ensures var gs' := Insert(gs, g);
            && Ascending(ahead[1..]) && (ahead[1..] != [] ==> AllBefore(gs', ahead[1..][0].offset))
            && gs' + Extended(ahead[1..], left, minislotsPerMap) == gs + Extended(ahead, extra, minislotsPerMap)
            && Unappended(ahead[1..], left, minislotsPerMap) == Unappended(ahead, extra, minislotsPerMap)
  {
    assert Insert(gs, g) == gs + [g] by {
      InsertBehind(gs, g, []);
      assert gs + [] == gs;
    }
    if ahead[1..] != [] {
      BeforeNext(gs, g, ahead[1].offset);
    }
    ExtendedUnfold(gs, ahead, extra, g, left, minislotsPerMap);
  }

  lemma ExtendedUnfold(gs: seq<Grant>, ahead: seq<Grant>, extra: nat, g: Grant, left: nat, minislotsPerMap: nat)
    requires ahead != []
    requires var add := Min(extra, Space(ahead, minislotsPerMap));
             g == Grant(LOW_LATENCY_SFID, ahead[0].offset, ahead[0].length + add) && left == extra - add
    ensures gs + [g] + Extended(ahead[1..], left, minislotsPerMap) == gs + Extended(ahead, extra, minislotsPerMap)
    ensures Unappended(ahead[1..], left, minislotsPerMap) == Unappended(ahead, extra, minislotsPerMap)
  {
    Regroup(gs, g, Extended(ahead[1..], left, minislotsPerMap));
  }

  lemma BeforeNext(gs: seq<Grant>, g: Grant, offset: nat)
    requires AllBefore(gs, g.offset) && g.offset < offset
    ensures AllBefore(gs + [g], offset)
  {
  }

  // ----- Filling the free minislots, lowest first

  /** Grants for sfid in the gaps of gs from a minislot on, until need is met; None if it cannot be. */
  function Filled(gs: seq<Grant>, from: nat, need: nat, sfid: nat, minislotsPerMap: nat): Option<seq<Grant>> {
    if need == 0 then Some(gs)
    else
      var available := Max((if gs == [] then minislotsPerMap else gs[0].offset) - from, 0);
      if need <= available then Some([Grant(sfid, from, need)] + gs)
      else if gs == [] then None
      else
        var rest := Filled(gs[1..], gs[0].End(), need - available, sfid, minislotsPerMap);
        if rest.None? then None else Some(Gap(sfid, from, available) + ([gs[0]] + rest.value))
  }

  function Gap(sfid: nat, from: nat, length: nat): seq<Grant> {
    if length == 0 then [] else [Grant(sfid, from, length)]
  }

  /** The grants in r that are not in gs belong to sfid, and every minislot below them is taken. */
  predicate EarliestFit(gs: seq<Grant>, r: seq<Grant>, sfid: nat, from: nat) {
    forall i | 0 <= i < |r| && r[i] !in gs :: r[i].sfid == sfid && from + Occupied(r[..i]) == r[i].offset
  }

  /** Filling fails exactly when there is not enough room, and otherwise adds just what is needed. */
  lemma {:induction false} FilledPlaces(gs: seq<Grant>, from: nat, need: nat, sfid: nat, minislotsPerMap: nat)
    requires Placed(gs, from, minislotsPerMap) && ServiceFlow(sfid)
    ensures var r := Filled(gs, from, need, sfid, minislotsPerMap);
            && (r.None? <==> from + Occupied(gs) + need > minislotsPerMap)
            && (r.Some? ==> Placed(r.value, from, minislotsPerMap))
    decreases |gs|
  {
    OccupiedFits(gs, from, minislotsPerMap);
    if need > 0 && gs != [] {
      var available: nat := gs[0].offset - from;
      OccupiedFits(gs[1..], gs[0].End(), minislotsPerMap);
      if need <= available {
        assert ([Grant(sfid, from, need)] + gs)[1..] == gs;
      } else {
        FilledPlaces(gs[1..], gs[0].End(), need - available, sfid, minislotsPerMap);
        var rest := Filled(gs[1..], gs[0].End(), need - available, sfid, minislotsPerMap);
        if rest.Some? {
          PlacedBehindGap(gs[0], rest.value, from, sfid, minislotsPerMap);
        }
      }
    }
  }

  lemma PlacedBehindGap(g: Grant, rest: seq<Grant>, from: nat, sfid: nat, minislotsPerMap: nat)
    requires from <= g.offset && 0 < g.length && ServiceFlow(g.sfid) && ServiceFlow(sfid)
    requires Placed(rest, g.End(), minislotsPerMap)
    ensures Placed(Gap(sfid, from, g.offset - from) + ([g] + rest), from, minislotsPerMap)
  {
    assert ([g] + rest)[1..] == rest;
    PlacedConcat(Gap(sfid, from, g.offset - from), [g] + rest, from, g.offset, minislotsPerMap);
  }

  lemma GapAdds(g: Grant, rest: seq<Grant>, from: nat, available: nat, sfid: nat, s: nat)
    ensures var r := Gap(sfid, from, available) + ([g] + rest);
            && Minislots(r, s) == (if s == sfid then available else 0) + (if s == g.sfid then g.length else 0) + Minislots(rest, s)
            && g in r && (forall h | h in rest :: h in r)
  {
    MinislotsConcat(Gap(sfid, from, available), [g] + rest, s);
    MinislotsConcat([g], rest, s);
  }

  lemma {:induction false} FilledAdds(gs: seq<Grant>, from: nat, need: nat, sfid: nat, minislotsPerMap: nat, s: nat)
    requires Filled(gs, from, need, sfid, minislotsPerMap).Some?
    ensures var r := Filled(gs, from, need, sfid, minislotsPerMap).value;
            && Minislots(r, s) == Minislots(gs, s) + (if s == sfid then need else 0)
            && (forall g | g in gs :: g in r)
    decreases |gs|
  {
    if need > 0 {
      var available: nat := Max((if gs == [] then minislotsPerMap else gs[0].offset) - from, 0);
      if need <= available {
        MinislotsConcat([Grant(sfid, from, need)], gs, s);
      } else {
        FilledAdds(gs[1..], gs[0].End(), need - available, sfid, minislotsPerMap, s);
        GapAdds(gs[0], Filled(gs[1..], gs[0].End(), need - available, sfid, minislotsPerMap).value, from, available, sfid, s);
        assert forall i | 0 < i < |gs| :: gs[i] == gs[1..][i - 1];
      }
    }
  }

  /** New grants take the lowest free minislots. */
  lemma {:induction false} FilledIsEarliestFit(gs: seq<Grant>, from: nat, need: nat, sfid: nat, minislotsPerMap: nat)
    requires Placed(gs, from, minislotsPerMap) && ServiceFlow(sfid)
    requires Filled(gs, from, need, sfid, minislotsPerMap).Some?
    ensures EarliestFit(gs, Filled(gs, from, need, sfid, minislotsPerMap).value, sfid, from)
    decreases |gs|
  {
    if need > 0 {
      var available: nat := (if gs == [] then minislotsPerMap else gs[0].offset) - from;
      if need <= available {
        FirstFit(gs, Grant(sfid, from, need), from);
      } else {
        var rest := Filled(gs[1..], gs[0].End(), need - available, sfid, minislotsPerMap).value;
        FilledIsEarliestFit(gs[1..], gs[0].End(), need - available, sfid, minislotsPerMap);
        EarliestFitAhead(gs, rest, from, sfid, Gap(sfid, from, available) + ([gs[0]] + rest));
      }
    } else {
      NothingNew(gs, sfid, from);
    }
  }

  lemma FirstFit(gs: seq<Grant>, g: Grant, from: nat)
    requires g.offset == from
    ensures EarliestFit(gs, [g] + gs, g.sfid, from)
  {
    var r := [g] + gs;
    assert r[..0] == [];
    assert forall i | 0 < i < |r| :: r[i] == gs[i - 1];
  }

  lemma NothingNew(gs: seq<Grant>, sfid: nat, from: nat)
    ensures EarliestFit(gs, gs, sfid, from)
  {
  }

  /** Filling the gap in front of the first grant, and what lies behind it, the earliest way. */
  lemma EarliestFitAhead(gs: seq<Grant>, rest: seq<Grant>, from: nat, sfid: nat, r: seq<Grant>)
    requires gs != [] && from <= gs[0].offset && ServiceFlow(sfid) && ServiceFlow(gs[0].sfid)
    requires EarliestFit(gs[1..], rest, sfid, gs[0].End())
    requires r == Gap(sfid, from, gs[0].offset - from) + ([gs[0]] + rest)
    ensures EarliestFit(gs, r, sfid, from)
  {
    var head := Gap(sfid, from, gs[0].offset - from) + [gs[0]];
    Regroup(Gap(sfid, from, gs[0].offset - from), gs[0], rest);
    forall i | 0 <= i < |r| && r[i] !in gs
      ensures r[i].sfid == sfid && from + Occupied(r[..i]) == r[i].offset
    {
      if i < |head| {
        InHead(gs, from, sfid, head, rest, i);
      } else {
        BehindHead(head, rest, i - |head|, from, gs[0], sfid);
        assert r[i] == rest[i - |head|] && rest[i - |head|] !in gs[1..];
      }
    }
  }

  /** The only new grant in front of the first one fills the gap there. */
  lemma InHead(gs: seq<Grant>, from: nat, sfid: nat, head: seq<Grant>, rest: seq<Grant>, i: nat)
    requires gs != [] && from <= gs[0].offset && head == Gap(sfid, from, gs[0].offset - from) + [gs[0]]
    requires i < |head| && (head + rest)[i] !in gs
    ensures (head + rest)[i] == Grant(sfid, from, gs[0].offset - from) && Occupied((head + rest)[..i]) == 0
  {
    assert gs[0] in gs;
    assert i == 0 && (head + rest)[..0] == [];
  }

  lemma BehindHead(head: seq<Grant>, rest: seq<Grant>, k: nat, from: nat, g: Grant, sfid: nat)
    requires k < |rest| && from <= g.offset && ServiceFlow(sfid) && ServiceFlow(g.sfid)
    requires head == Gap(sfid, from, g.offset - from) + [g]
    ensures from + Occupied((head + rest)[..|head| + k]) == g.End() + Occupied(rest[..k])
  {
    assert (head + rest)[..|head| + k] == head + rest[..k];
    MinislotsConcat(head, rest[..k], CLASSIC_SFID);
    MinislotsConcat(head, rest[..k], LOW_LATENCY_SFID);
    GapAndGrant(g, from, sfid);
  }

  lemma GapAndGrant(g: Grant, from: nat, sfid: nat)
    requires from <= g.offset && ServiceFlow(sfid) && ServiceFlow(g.sfid)
    ensures from + Occupied(Gap(sfid, from, g.offset - from) + [g]) == g.End()
  {
    MinislotsConcat(Gap(sfid, from, g.offset - from), [g], CLASSIC_SFID);
    MinislotsConcat(Gap(sfid, from, g.offset - from), [g], LOW_LATENCY_SFID);
  }

  /**
   Hand the free minislots to a service flow until its need is met. None is the abort
   of the source: the free minislots ran out. The two loops of the source differ only
   in how they compare an exactly fitting gap.
   */
  method FillGaps(minislotsPerMap: nat, given: seq<Grant>, sfid: nat, need: nat) returns (r: Option<seq<Grant>>)
    requires Placed(given, 0, minislotsPerMap) && given != [] && ServiceFlow(sfid)
    ensures r == Filled(given, 0, need, sfid, minislotsPerMap)
  {
    var gs, toSchedule: nat := given, need;
    var nextCheckedOffset: nat, it: nat := 0, 0;
    ghost var done, ahead := [], given;  // the grants before the iterator, and those at or behind it
    PrependNothing(Filled(given, 0, need, sfid, minislotsPerMap));
    while it < |gs| && toSchedule != 0
      invariant gs == done + ahead && it == |done| && gs != []
      invariant Placed(done, 0, nextCheckedOffset) && Placed(ahead, nextCheckedOffset, minislotsPerMap)
      invariant done != [] ==> nextCheckedOffset == done[|done| - 1].End()
      invariant Prepend(done, Filled(ahead, nextCheckedOffset, toSchedule, sfid, minislotsPerMap))
             == Filled(given, 0, need, sfid, minislotsPerMap)
      decreases |ahead|
    {
      var here := gs[it];
      assert here == ahead[0];
      var available: nat := here.offset - nextCheckedOffset;
      if available > toSchedule || (sfid == LOW_LATENCY_SFID && available == toSchedule) {
        FilledLast(done, ahead, nextCheckedOffset, toSchedule, sfid, minislotsPerMap);
        gs := Insert(gs, Grant(sfid, nextCheckedOffset, toSchedule));
        return Some(gs);
      }
      FilledStep(done, ahead, nextCheckedOffset, toSchedule, sfid, minislotsPerMap);
      var after := Insert(gs, Grant(sfid, nextCheckedOffset, available));
      ghost var done' := done + Gap(sfid, nextCheckedOffset, available) + [here];
      assert after == done' + ahead[1..] && done'[|done'| - 1] == here;
      done, ahead := done', ahead[1..];
      // The insertion is in front of the iterator, which therefore still refers to the same grant.
      it := it + |after| - |gs| + 1;
      gs := after;
      toSchedule := toSchedule - available;
      nextCheckedOffset := here.End();
    }
    if toSchedule != 0 {
      nextCheckedOffset := gs[|gs| - 1].End();
      var available: nat := minislotsPerMap - nextCheckedOffset;
      if toSchedule > available {
        return None;
      }
      FilledLast(done, ahead, nextCheckedOffset, toSchedule, sfid, minislotsPerMap);
      gs := Insert(gs, Grant(sfid, nextCheckedOffset, toSchedule));
    }
    return Some(gs);
  }

  function Prepend(a: seq<Grant>, r: Option<seq<Grant>>): Option<seq<Grant>> {
    if r.None? then None else Some(a + r.value)
  }

  lemma PrependNothing(r: Option<seq<Grant>>)
    ensures Prepend([], r) == r
  {
    if r.Some? {
      assert [] + r.value == r.value;
    }
  }

  /** The insertion of FillGaps that meets the need. */
  lemma FilledLast(done: seq<Grant>, ahead: seq<Grant>, from: nat, need: nat, sfid: nat, minislotsPerMap: nat)
    requires Placed(done, 0, from) && Placed(ahead, from, minislotsPerMap) && ServiceFlow(sfid)
    requires 0 < need && from + need <= if ahead == [] then minislotsPerMap else ahead[0].offset
    ensures Some(Insert(done + ahead, Grant(sfid, from, need)))
         == Prepend(done, Filled(ahead, from, need, sfid, minislotsPerMap))
  {
    var g := Grant(sfid, from, need);
    InsertBetween(done, g, ahead, 0);
    Regroup(done, g, ahead);
  }

  lemma Regroup(a: seq<Grant>, g: Grant, b: seq<Grant>)
    ensures a + ([g] + b) == a + [g] + b
  {
  }

  /** One iteration of FillGaps that uses up the gap in front of the first grant ahead. */
  lemma FilledStep(done: seq<Grant>, ahead: seq<Grant>, from: nat, need: nat, sfid: nat, minislotsPerMap: nat)
    requires Placed(done, 0, from) && Placed(ahead, from, minislotsPerMap) && ServiceFlow(sfid)
    requires ahead != [] && 0 < need && ahead[0].offset - from <= need
    ensures var available: nat := ahead[0].offset - from;
            var done' := done + Gap(sfid, from, available) + [ahead[0]];
            && Insert(done + ahead, Grant(sfid, from, available)) == done' + ahead[1..]
            && Placed(done', 0, ahead[0].End())
            && Prepend(done', Filled(ahead[1..], ahead[0].End(), need - available, sfid, minislotsPerMap))
            == Prepend(done, Filled(ahead, from, need, sfid, minislotsPerMap))
  {
    StepPlaced(done, ahead[0], from, sfid);
    InsertGap(done, ahead, from, sfid, minislotsPerMap);
    FilledUnfold(done, ahead, from, need, sfid, minislotsPerMap);
  }

  /** An empty gap shares its key with the grant behind it, so nothing is inserted. */
  lemma InsertGap(done: seq<Grant>, ahead: seq<Grant>, from: nat, sfid: nat, minislotsPerMap: nat)
    requires Placed(done, 0, from) && Placed(ahead, from, minislotsPerMap) && ahead != []
    ensures var available: nat := ahead[0].offset - from;
            && Insert(done + ahead, Grant(sfid, from, available))
            == done + Gap(sfid, from, available) + [ahead[0]] + ahead[1..]
  {
    var g := Grant(sfid, from, ahead[0].offset - from);
    InsertBetween(done, g, ahead, 0);
    assert ahead == [ahead[0]] + ahead[1..];
    if g.length == 0 {
      assert done + [] == done;
      Regroup(done, ahead[0], ahead[1..]);
    } else {
      Regroup(done, g, ahead);
      Regroup(done + [g], ahead[0], ahead[1..]);
    }
  }

  lemma FilledUnfold(done: seq<Grant>, ahead: seq<Grant>, from: nat, need: nat, sfid: nat, minislotsPerMap: nat)
    requires ahead != [] && 0 < need && 0 <= ahead[0].offset - from <= need
    ensures var available: nat := ahead[0].offset - from;
            && Prepend(done + Gap(sfid, from, available) + [ahead[0]],
                       Filled(ahead[1..], ahead[0].End(), need - available, sfid, minislotsPerMap))
            == Prepend(done, Filled(ahead, from, need, sfid, minislotsPerMap))
  {
    var available: nat := ahead[0].offset - from;
    var gap := Gap(sfid, from, available);
    var rest := Filled(ahead[1..], ahead[0].End(), need - available, sfid, minislotsPerMap);
    if need == available {
      assert ahead == [ahead[0]] + ahead[1..];
      assert done + (gap + ahead) == done + gap + [ahead[0]] + ahead[1..];
    } else if rest.Some? {
      assert done + (gap + ([ahead[0]] + rest.value)) == done + gap + [ahead[0]] + rest.value;
    }
  }

  lemma StepPlaced(done: seq<Grant>, g: Grant, from: nat, sfid: nat)
    requires Placed(done, 0, from) && from <= g.offset && 0 < g.length && ServiceFlow(g.sfid) && ServiceFlow(sfid)
    ensures Placed(done + Gap(sfid, from, g.offset - from) + [g], 0, g.End())
  {
    PlacedConcat(done, Gap(sfid, from, g.offset - from), 0, from, g.offset);
    PlacedConcat(done + Gap(sfid, from, g.offset - from), [g], 0, g.offset, g.End());
  }

  // ----- ScheduleGrant

  /**
   Place c classic and l low-latency minislots. With PGS grants, low latency
   extends them first and then takes the lowest free minislots; without, both grants go
   back to back at a random start. None is the "unable to allocate" abort.
   */
  method ScheduleGrant(minislotsPerMap: nat, pgs: seq<Grant>, pgsMinislots: nat, c: nat, l: nat, start: nat)
    returns (r: Option<Schedule>)
    requires pgsMinislots > 0 ==> WellFormedPgs(pgs, 0, minislotsPerMap) && pgsMinislots == Minislots(pgs, LOW_LATENCY_SFID)
    requires pgsMinislots == 0 ==> c + l <= minislotsPerMap && start <= minislotsPerMap - (c + l)
    ensures r == if pgsMinislots > 0 then Scheduled(minislotsPerMap, pgs, c, l)
                 else Some(Schedule(BackToBack(c, l, start), c, l))
  {
    var lToSchedule, lScheduled: nat := l, pgsMinislots;
    if pgsMinislots != 0 {
      lToSchedule := if pgsMinislots < l then l - pgsMinislots else 0;
      lScheduled := lScheduled + lToSchedule;
      ScheduledIsFilled(minislotsPerMap, pgs, c, l);
      var ll := PlaceLowLatency(minislotsPerMap, pgs, lToSchedule);
      if ll.None? {
        return None;
      }
      var gs := ll.value;
      if c > 0 {
        var filled := FillGaps(minislotsPerMap, gs, CLASSIC_SFID, c);
        if filled.None? {
          return None;
        }
        gs := filled.value;
      }
      return Some(Schedule(gs, c, lScheduled));
    } else {
      var gs := PlaceBackToBack(c, l, start);
      return Some(Schedule(gs, c, l));
    }
  }

  /** The PGS grants, extended by extra low-latency minislots, and what of these fills the gaps. */
  method PlaceLowLatency(minislotsPerMap: nat, pgs: seq<Grant>, extra: nat) returns (r: Option<seq<Grant>>)
    requires WellFormedPgs(pgs, 0, minislotsPerMap) && pgs != []
    ensures r == Filled(Extended(pgs, extra, minislotsPerMap), 0, Unappended(pgs, extra, minislotsPerMap),
                        LOW_LATENCY_SFID, minislotsPerMap)
  {
    ExtendedKeepsOrder(pgs, 0, extra, minislotsPerMap);
    PlacedAscends(pgs, 0, minislotsPerMap);
    var gs, remaining := AppendToPgs(minislotsPerMap, pgs, extra);
    if remaining == 0 {
      return Some(gs);
    }
    r := FillGaps(minislotsPerMap, gs, LOW_LATENCY_SFID, remaining);
  }

  method PlaceBackToBack(c: nat, l: nat, start: nat) returns (gs: seq<Grant>)
    ensures gs == BackToBack(c, l, start)
  {
    gs := [];
    if c > 0 {
      gs := Insert(gs, Grant(CLASSIC_SFID, start + l, c));
    }
    if l > 0 {
      gs := Insert(gs, Grant(LOW_LATENCY_SFID, start, l));
    }
  }

  function BackToBack(c: nat, l: nat, start: nat): seq<Grant> {
    Gap(LOW_LATENCY_SFID, start, l) + Gap(CLASSIC_SFID, start + l, c)
  }

  function Beyond(l: nat, pgs: seq<Grant>): nat {
    Max(l - Minislots(pgs, LOW_LATENCY_SFID), 0)
  }

  /** All low-latency minislots: the PGS grants, extended, and what fills the gaps. */
  function LowLatencyPlaced(minislotsPerMap: nat, pgs: seq<Grant>, l: nat): Option<seq<Grant>> {
    var extra := Beyond(l, pgs);
    Filled(Extended(pgs, extra, minislotsPerMap), 0, Unappended(pgs, extra, minislotsPerMap), LOW_LATENCY_SFID, minislotsPerMap)
  }

  function Scheduled(minislotsPerMap: nat, pgs: seq<Grant>, c: nat, l: nat): Option<Schedule> {
    var ll := LowLatencyPlaced(minislotsPerMap, pgs, l);
    if ll.None? then None
    else
      var all := Filled(ll.value, 0, c, CLASSIC_SFID, minislotsPerMap);
      if all.None? then None
      else Some(Schedule(all.value, c, Max(l, Minislots(pgs, LOW_LATENCY_SFID))))
  }

  lemma ScheduledIsFilled(minislotsPerMap: nat, pgs: seq<Grant>, c: nat, l: nat)
    requires WellFormedPgs(pgs, 0, minislotsPerMap) && pgs != []
    ensures var ll := LowLatencyPlaced(minislotsPerMap, pgs, l);
            var extra := Beyond(l, pgs);
            && Placed(Extended(pgs, extra, minislotsPerMap), 0, minislotsPerMap)
            && Extended(pgs, extra, minislotsPerMap) != []
            && (ll.None? <==> Max(l, Minislots(pgs, LOW_LATENCY_SFID)) > minislotsPerMap)
            && (ll.Some? ==>
                  && Placed(ll.value, 0, minislotsPerMap)
                  && ll.value != []
                  && Survives(pgs, ll.value) && Survives(Extended(pgs, extra, minislotsPerMap), ll.value)
                  && Minislots(ll.value, CLASSIC_SFID) == 0
                  && Minislots(ll.value, LOW_LATENCY_SFID) == Max(l, Minislots(pgs, LOW_LATENCY_SFID)))
  {
    var extra := Beyond(l, pgs);
    var gs, left := Extended(pgs, extra, minislotsPerMap), Unappended(pgs, extra, minislotsPerMap);
    ExtendedKeepsOrder(pgs, 0, extra, minislotsPerMap);
    ExtendedSurvives(pgs, extra, minislotsPerMap);
    FilledPlaces(gs, 0, left, LOW_LATENCY_SFID, minislotsPerMap);
    var ll := LowLatencyPlaced(minislotsPerMap, pgs, l);
    if ll.Some? {
      FilledAdds(gs, 0, left, LOW_LATENCY_SFID, minislotsPerMap, CLASSIC_SFID);
      FilledAdds(gs, 0, left, LOW_LATENCY_SFID, minislotsPerMap, LOW_LATENCY_SFID);
      assert gs[0] in gs;
      SurvivesInto(pgs, gs, ll.value);
      SurvivesIn(gs, ll.value);
    }
  }

  lemma SurvivesIn(gs: seq<Grant>, r: seq<Grant>)
    requires forall g | g in gs :: g in r
    ensures Survives(gs, r)
  {
  }

  lemma SurvivesInto(pgs: seq<Grant>, gs: seq<Grant>, r: seq<Grant>)
    requires Survives(pgs, gs) && forall g | g in gs :: g in r
    ensures Survives(pgs, r)
  {
    forall p | p in pgs ensures Keeps(p, r) {
      var g :| g in gs && g.sfid == p.sfid && g.offset == p.offset && p.length <= g.length;
      assert g in r;
    }
  }

  /**
   Grant placement with guaranteed grants: it aborts exactly when the demand exceeds the
   MAP, and otherwise every demand is met by disjoint grants inside the MAP that keep
   every PGS grant, and classic takes the lowest minislots that low latency left free.
   */
  lemma ScheduledServes(minislotsPerMap: nat, pgs: seq<Grant>, c: nat, l: nat)
    requires WellFormedPgs(pgs, 0, minislotsPerMap) && pgs != []
    ensures var r := Scheduled(minislotsPerMap, pgs, c, l);
            && (r.None? <==> c + Max(l, Minislots(pgs, LOW_LATENCY_SFID)) > minislotsPerMap)
            && (r.Some? ==>
                  && Serves(r.value, minislotsPerMap, pgs, c, l)
                  && Survives(Extended(pgs, Beyond(l, pgs), minislotsPerMap), r.value.grants)
                  && var ll := LowLatencyPlaced(minislotsPerMap, pgs, l).value;
                     && EarliestFit(Extended(pgs, Beyond(l, pgs), minislotsPerMap), ll, LOW_LATENCY_SFID, 0)
                     && EarliestFit(ll, r.value.grants, CLASSIC_SFID, 0))
  {
    ScheduledIsFilled(minislotsPerMap, pgs, c, l);
    var ll := LowLatencyPlaced(minislotsPerMap, pgs, l);
    if ll.Some? {
      FilledIsEarliestFit(Extended(pgs, Beyond(l, pgs), minislotsPerMap), 0, Unappended(pgs, Beyond(l, pgs), minislotsPerMap),
                          LOW_LATENCY_SFID, minislotsPerMap);
      FilledPlaces(ll.value, 0, c, CLASSIC_SFID, minislotsPerMap);
      var all := Filled(ll.value, 0, c, CLASSIC_SFID, minislotsPerMap);
      if all.Some? {
        FilledAdds(ll.value, 0, c, CLASSIC_SFID, minislotsPerMap, CLASSIC_SFID);
        FilledAdds(ll.value, 0, c, CLASSIC_SFID, minislotsPerMap, LOW_LATENCY_SFID);
        FilledIsEarliestFit(ll.value, 0, c, CLASSIC_SFID, minislotsPerMap);
        SurvivesInto(pgs, ll.value, all.value);
        SurvivesInto(Extended(pgs, Beyond(l, pgs), minislotsPerMap), ll.value, all.value);
      }
    }
  }

  /** A flow has this minislot. */
  predicate Has(gs: seq<Grant>, sfid: nat, minislot: nat) {
    exists g :: g in gs && g.sfid == sfid && g.offset <= minislot < g.End()
  }

  /** Without guaranteed grants, low latency comes first, from the start, and classic right behind it. */
  lemma BackToBackIsLlFirst(c: nat, l: nat, start: nat, minislot: nat)
    ensures Has(BackToBack(c, l, start), LOW_LATENCY_SFID, minislot) <==> start <= minislot < start + l
    ensures Has(BackToBack(c, l, start), CLASSIC_SFID, minislot) <==> start + l <= minislot < start + l + c
  {
    var gs, lGrant, cGrant := BackToBack(c, l, start), Grant(LOW_LATENCY_SFID, start, l), Grant(CLASSIC_SFID, start + l, c);
    assert forall g | g in gs :: g == lGrant || g == cGrant;
    if 0 < l {
      assert gs[0] == lGrant && lGrant in gs;
    }
    if 0 < c {
      assert gs[|gs| - 1] == cGrant && cGrant in gs;
    }
  }

  /** Grant placement without guaranteed grants. */
  lemma BackToBackServes(minislotsPerMap: nat, c: nat, l: nat, start: nat)
    requires start + l + c <= minislotsPerMap
    ensures Serves(Schedule(BackToBack(c, l, start), c, l), minislotsPerMap, [], c, l)
  {
    var ls, cs := Gap(LOW_LATENCY_SFID, start, l), Gap(CLASSIC_SFID, start + l, c);
    PlacedConcat(ls, cs, 0, start + l, minislotsPerMap);
    MinislotsConcat(ls, cs, CLASSIC_SFID);
    MinislotsConcat(ls, cs, LOW_LATENCY_SFID);
  }
}
