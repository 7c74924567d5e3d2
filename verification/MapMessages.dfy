/** The MAP message: printing a grant list as information elements, and reading it back in the modem. */
module MapMessages {
  import opened DocsisTypes
  import opened GrantLists

  /** An information element; sfid 0 marks minislots that are not granted. */
  datatype MapIe = MapIe(sfid: nat, offset: nat)

  datatype MapMessage = MapMessage(dataGrantPending: bool, allocStartTime: nat, ackTime: int, ies: seq<MapIe>)

  /** Grants in order, none reaching into the next one. */
  predicate InOrder(gs: seq<Grant>) {
    |gs| < 2 || (gs[0].End() <= gs[1].offset && InOrder(gs[1..]))
  }

  predicate AllGranted(gs: seq<Grant>) {
    forall g | g in gs :: g.sfid != 0
  }

  // ----- Printing

  function Printed(gs: seq<Grant>): seq<MapIe> {
    if gs == [] then []
    else (if gs[0].offset > 0 then [MapIe(0, 0)] else []) + PrintedGrants(gs)
  }

  function PrintedGrants(gs: seq<Grant>): seq<MapIe> {
    if gs == [] then []
    else [MapIe(gs[0].sfid, gs[0].offset)] + Delimiter(gs) + PrintedGrants(gs[1..])
  }

  /** The element that ends the first grant, unless the next grant starts right there. */
  function Delimiter(gs: seq<Grant>): seq<MapIe>
    requires gs != []
  {
    if |gs| == 1 || gs[0].End() != gs[1].offset then [MapIe(0, gs[0].End())] else []
  }

  /** The information elements of a MAP; None is the fatal error for overlapping grants. */
  method BuildMapMessage(grantList: seq<Grant>) returns (r: Option<seq<MapIe>>)
    ensures r == if InOrder(grantList) then Some(Printed(grantList)) else None
  {
    var ies: seq<MapIe> := [];
    if grantList == [] {
      return Some(ies);
    }
    if grantList[0].offset > 0 {
      ies := ies + [MapIe(0, 0)];
    }
    var it := 0;
    ghost var ahead := grantList;  // the grants at and behind the iterator
    while it < |grantList|
      invariant 0 <= it <= |grantList| && ahead == grantList[it..]
      invariant InOrder(grantList) == InOrder(ahead)
      invariant ies + PrintedGrants(ahead) == Printed(grantList)
    {
      ghost var before, current := ies, ahead;
      var nextOffset := grantList[it].length + grantList[it].offset;
      ies := ies + [MapIe(grantList[it].sfid, grantList[it].offset)];
      it := it + 1;
      ahead := ahead[1..];
      PrintStep(before, current);
      assert before + [MapIe(current[0].sfid, current[0].offset)] + [] == ies;
      if it == |grantList| {
        ies := ies + [MapIe(0, nextOffset)];
      } else if grantList[it].offset > nextOffset {
        ies := ies + [MapIe(0, nextOffset)];
      } else if grantList[it].offset < nextOffset {
        return None;
      }
    }
    assert ies + [] == ies;
    return Some(ies);
  }

  lemma PrintStep(before: seq<MapIe>, gs: seq<Grant>)
    requires gs != []
    ensures before + PrintedGrants(gs)
         == before + [MapIe(gs[0].sfid, gs[0].offset)] + Delimiter(gs) + PrintedGrants(gs[1..])
  {
  }

  // ----- Parsing

  /** The grants of a MAP as the modem sorts them: classic, and everything else. */
  datatype ParsedMap = ParsedMap(classic: seq<Grant>, lowLatency: seq<Grant>)

  function Add(g: Grant, m: ParsedMap): ParsedMap {
    if g.sfid == CLASSIC_SFID then m.(classic := [g] + m.classic) else m.(lowLatency := [g] + m.lowLatency)
  }

  /**
   A grant's length is the distance to the next element. None stands for reading past the
   last element, and for a next element that starts earlier (the length is unsigned).
   */
  function Parsed(ies: seq<MapIe>): Option<ParsedMap> {
    if ies == [] then Some(ParsedMap([], []))
    else if ies[0].sfid == 0 then Parsed(ies[1..])
    else if |ies| == 1 || ies[1].offset < ies[0].offset || Parsed(ies[1..]).None? then None
    else Some(Add(Grant(ies[0].sfid, ies[0].offset, ies[1].offset - ies[0].offset), Parsed(ies[1..]).value))
  }

  method ParseMap(ies: seq<MapIe>) returns (r: Option<ParsedMap>)
    ensures r == Parsed(ies)
  {
    var grantList1: seq<Grant>, grantList2: seq<Grant> := [], [];
    var it := 0;
    OntoNothing(Parsed(ies));
    assert ies[0..] == ies;
    while it < |ies|
      invariant 0 <= it <= |ies|
      invariant Parsed(ies) == Onto(grantList1, grantList2, Parsed(ies[it..]))
    {
      ghost var ahead := ies[it..];
      if ies[it].sfid == 0 {
        it := it + 1;
        assert ahead[1..] == ies[it..];
        continue;
      }
      var sfid, offset := ies[it].sfid, ies[it].offset;
      it := it + 1;
      assert ahead[1..] == ies[it..];
      if it == |ies| || ies[it].offset < offset {
        return None;
      }
      var grant := Grant(sfid, offset, ies[it].offset - offset);
      OntoStep(grantList1, grantList2, grant, Parsed(ies[it..]));
      if grant.sfid == CLASSIC_SFID {
        grantList1 := grantList1 + [grant];
      } else {
        grantList2 := grantList2 + [grant];
      }
    }
    assert ies[it..] == [] && grantList1 + [] == grantList1 && grantList2 + [] == grantList2;
    return Some(ParsedMap(grantList1, grantList2));
  }

  /** The parse of a whole list, from the grants read so far and the parse of the rest. */
  function Onto(classic: seq<Grant>, lowLatency: seq<Grant>, rest: Option<ParsedMap>): Option<ParsedMap> {
    if rest.None? then None
    else Some(ParsedMap(classic + rest.value.classic, lowLatency + rest.value.lowLatency))
  }

  lemma OntoNothing(rest: Option<ParsedMap>)
    ensures Onto([], [], rest) == rest
  {
    if rest.Some? {
      assert [] + rest.value.classic == rest.value.classic;
      assert [] + rest.value.lowLatency == rest.value.lowLatency;
    }
  }

  lemma OntoStep(c: seq<Grant>, l: seq<Grant>, g: Grant, rest: Option<ParsedMap>)
    ensures Onto(c, l, if rest.None? then None else Some(Add(g, rest.value)))
         == if g.sfid == CLASSIC_SFID then Onto(c + [g], l, rest) else Onto(c, l + [g], rest)
  {
    if rest.Some? {
      assert c + ([g] + rest.value.classic) == c + [g] + rest.value.classic;
      assert l + ([g] + rest.value.lowLatency) == l + [g] + rest.value.lowLatency;
    }
  }

  /** A message is readable exactly when every grant element is followed by one that starts no earlier. */
  lemma {:induction false} ParsedIffDelimited(ies: seq<MapIe>)
    ensures Parsed(ies).Some? <==>
            forall i | 0 <= i < |ies| && ies[i].sfid != 0 :: i + 1 < |ies| && ies[i].offset <= ies[i + 1].offset
  {
    if ies != [] {
      ParsedIffDelimited(ies[1..]);
      assert forall i | 0 < i < |ies| :: ies[i] == ies[1..][i - 1];
    }
  }

  // ----- Round trip

  /** Minislots of all grants in a list, as the modem adds them up. */
  function Lengths(gs: seq<Grant>): nat {
    if gs == [] then 0 else gs[0].length + Lengths(gs[1..])
  }

  function Classic(gs: seq<Grant>): seq<Grant> {
    if gs == [] then []
    else (if gs[0].sfid == CLASSIC_SFID then [gs[0]] else []) + Classic(gs[1..])
  }

  function NonClassic(gs: seq<Grant>): seq<Grant> {
    if gs == [] then []
    else (if gs[0].sfid == CLASSIC_SFID then [] else [gs[0]]) + NonClassic(gs[1..])
  }

  /** The modem reads back the printed grants of each flow, in order. */
  lemma {:induction false} ParsePrintRoundTrip(gs: seq<Grant>)
    requires InOrder(gs) && AllGranted(gs)
    ensures Parsed(Printed(gs)) == Some(ParsedMap(Classic(gs), NonClassic(gs)))
  {
    ParsePrintedGrants(gs);
    if gs != [] && gs[0].offset > 0 {
      assert Printed(gs)[1..] == PrintedGrants(gs);
    } else {
      assert Printed(gs) == PrintedGrants(gs);
    }
  }

  predicate Ascends(ies: seq<MapIe>) {
    |ies| < 2 || (ies[0].offset < ies[1].offset && Ascends(ies[1..]))
  }

  /** No element is empty: each one starts behind the one before, and the last one marks the end of the grants. */
  lemma {:induction false} PrintedAscends(gs: seq<Grant>, from: nat, to: nat)
    requires Placed(gs, from, to) && gs != []
    ensures var ies := Printed(gs);
            && ies != [] && ies[0].offset == 0
            && ies[|ies| - 1] == MapIe(0, gs[|gs| - 1].End())
            && Ascends(ies)
  {
    var ies, rest := Printed(gs), PrintedGrants(gs);
    PrintedGrantsAscend(gs, from, to);
    if gs[0].offset > 0 {
      assert ies == [MapIe(0, 0)] + rest && ies[1..] == rest;
    } else {
      assert ies == rest;
    }
  }

  lemma {:induction false} PrintedGrantsAscend(gs: seq<Grant>, from: nat, to: nat)
    requires Placed(gs, from, to) && gs != []
    ensures var ies := PrintedGrants(gs);
            && ies != [] && ies[0].offset == gs[0].offset
            && ies[|ies| - 1] == MapIe(0, gs[|gs| - 1].End())
            && Ascends(ies)
  {
    if |gs| == 1 {
      var first, end := MapIe(gs[0].sfid, gs[0].offset), MapIe(0, gs[0].End());
      AscendsBehind(first, [end]);
      assert PrintedGrants(gs[1..]) == [] && Delimiter(gs) == [end];
      assert [first] + [end] + [] == [first] + [end];
    } else {
      PrintedGrantsAscend(gs[1..], gs[0].End(), to);
      OneMoreAscends(gs, PrintedGrants(gs[1..]));
    }
  }

  lemma {:induction false} OneMoreAscends(gs: seq<Grant>, rest: seq<MapIe>)
    requires 1 < |gs| && 0 < gs[0].length && gs[0].End() <= gs[1].offset
    requires rest != [] && rest[0].offset == gs[1].offset && Ascends(rest)
    ensures var ies := [MapIe(gs[0].sfid, gs[0].offset)] + Delimiter(gs) + rest;
            Ascends(ies) && ies[|ies| - 1] == rest[|rest| - 1]
  {
    var first, end := MapIe(gs[0].sfid, gs[0].offset), MapIe(0, gs[0].End());
    if gs[0].End() != gs[1].offset {
      AscendsBehind(end, rest);
      AscendsBehind(first, [end] + rest);
      assert [first] + [end] + rest == [first] + ([end] + rest);
    } else {
      AscendsBehind(first, rest);
      assert [first] + [] + rest == [first] + rest;
    }
  }

  lemma {:induction false} AscendsBehind(e: MapIe, ies: seq<MapIe>)
    requires ies != [] && e.offset < ies[0].offset && Ascends(ies)
    ensures Ascends([e] + ies) && ([e] + ies)[|ies|] == ies[|ies| - 1]
  {
    assert ([e] + ies)[1..] == ies;
  }

  lemma {:induction false} ParsePrintedGrants(gs: seq<Grant>)
    requires InOrder(gs) && AllGranted(gs)
    ensures Parsed(PrintedGrants(gs)) == Some(ParsedMap(Classic(gs), NonClassic(gs)))
    ensures gs != [] ==> PrintedGrants(gs) != [] && PrintedGrants(gs)[0] == MapIe(gs[0].sfid, gs[0].offset)
  {
    if gs != [] {
      assert gs[0] in gs;
      ParsePrintedGrants(gs[1..]);
      var rest := PrintedGrants(gs[1..]);
      SkipDelimiter(gs, rest);
      ParseFirst(gs[0], Delimiter(gs) + rest);
      assert PrintedGrants(gs) == [MapIe(gs[0].sfid, gs[0].offset)] + (Delimiter(gs) + rest);
      AddFirst(gs);
    }
  }

  lemma SkipDelimiter(gs: seq<Grant>, rest: seq<MapIe>)
    requires gs != []
    ensures Parsed(Delimiter(gs) + rest) == Parsed(rest)
  {
    if Delimiter(gs) != [] {
      assert (Delimiter(gs) + rest)[1..] == rest;
    } else {
      assert Delimiter(gs) + rest == rest;
    }
  }

  lemma ParseFirst(g: Grant, next: seq<MapIe>)
    requires g.sfid != 0 && next != [] && next[0].offset == g.End() && Parsed(next).Some?
    ensures Parsed([MapIe(g.sfid, g.offset)] + next) == Some(Add(g, Parsed(next).value))
  {
    assert ([MapIe(g.sfid, g.offset)] + next)[1..] == next;
  }

  lemma AddFirst(gs: seq<Grant>)
    requires gs != []
    ensures Add(gs[0], ParsedMap(Classic(gs[1..]), NonClassic(gs[1..]))) == ParsedMap(Classic(gs), NonClassic(gs))
  {
    assert [] + Classic(gs[1..]) == Classic(gs[1..]) && [] + NonClassic(gs[1..]) == NonClassic(gs[1..]);
  }

  /** What the scheduler charges for a MAP is what the modem finds in it. */
  lemma BytesSurviveTheMap(gs: seq<Grant>, from: nat, to: nat)
    requires Placed(gs, from, to)
    ensures InOrder(gs) && AllGranted(gs)
    ensures var m := Parsed(Printed(gs));
            && m.Some?
            && Lengths(m.value.classic) == Minislots(gs, CLASSIC_SFID)
            && Lengths(m.value.lowLatency) == Minislots(gs, LOW_LATENCY_SFID)
            && Placed(m.value.classic, from, to) && Placed(m.value.lowLatency, from, to)
            && (forall g :: g in gs <==> g in m.value.classic || g in m.value.lowLatency)
  {
    PlacedIsInOrder(gs, from, to);
    ParsePrintRoundTrip(gs);
    ClassicSelects(gs, from, to);
  }

  lemma {:induction false} PlacedIsInOrder(gs: seq<Grant>, from: nat, to: nat)
    requires Placed(gs, from, to)
    ensures InOrder(gs) && AllGranted(gs)
  {
    if gs != [] {
      PlacedIsInOrder(gs[1..], gs[0].End(), to);
      assert gs == [gs[0]] + gs[1..];
    }
  }

  lemma {:induction false} ClassicSelects(gs: seq<Grant>, from: nat, to: nat)
    requires Placed(gs, from, to)
    ensures Lengths(Classic(gs)) == Minislots(gs, CLASSIC_SFID)
    ensures Lengths(NonClassic(gs)) == Minislots(gs, LOW_LATENCY_SFID)
    ensures Placed(Classic(gs), from, to) && Placed(NonClassic(gs), from, to)
    ensures forall g :: g in gs <==> g in Classic(gs) || g in NonClassic(gs)
  {
    if gs != [] {
      var c, l := Classic(gs[1..]), NonClassic(gs[1..]);
      ClassicSelects(gs[1..], gs[0].End(), to);
      PlacedWiden(c, from, gs[0].End(), to);
      PlacedWiden(l, from, gs[0].End(), to);
      assert ([gs[0]] + c)[1..] == c && ([gs[0]] + l)[1..] == l;
      assert [] + c == c && [] + l == l;
      assert gs == [gs[0]] + gs[1..];
    }
  }
}
