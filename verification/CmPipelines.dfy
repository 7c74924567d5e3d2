/** The modem's pipelines: byte amounts with the time from which they count, first in first out. */
module CmPipelines {
  import opened DocsisTypes

  datatype Item = Item(bytes: nat, time: int)

  function Total(items: seq<Item>): nat {
    if items == [] then 0 else items[0].bytes + Total(items[1..])
  }

  /** Bytes that count at the deadline. */
  function Eligible(items: seq<Item>, deadline: int): nat {
    if items == [] then 0
    else (if items[0].time <= deadline then items[0].bytes else 0) + Eligible(items[1..], deadline)
  }

  predicate Ordered(items: seq<Item>) {
    |items| < 2 || (items[0].time <= items[1].time && Ordered(items[1..]))
  }

  /** What is left when bytes are taken from the front; items that become empty go. */
  function Removed(items: seq<Item>, bytes: nat): seq<Item> {
    if items == [] || bytes == 0 then items
    else if items[0].bytes <= bytes then Removed(items[1..], bytes - items[0].bytes)
    else [items[0].(bytes := items[0].bytes - bytes)] + items[1..]
  }

  lemma {:induction false} EligibleAtMostTotal(items: seq<Item>, deadline: int)
    ensures Eligible(items, deadline) <= Total(items)
  {
    if items != [] {
      EligibleAtMostTotal(items[1..], deadline);
    }
  }

  /** Removing takes exactly the given bytes, and takes them from the items that count the earliest. */
  lemma {:induction false} RemovedTakesFromTheFront(items: seq<Item>, bytes: nat, deadline: int)
    requires bytes <= Total(items)
    ensures Total(Removed(items, bytes)) == Total(items) - bytes
    ensures Ordered(items) ==> Ordered(Removed(items, bytes))
    ensures Ordered(items) ==> Eligible(Removed(items, bytes), deadline) == Max(Eligible(items, deadline) - bytes, 0)
    ensures Ordered(items) && Removed(items, bytes) != [] ==> items[0].time <= Removed(items, bytes)[0].time
  {
    if items != [] && bytes != 0 {
      if items[0].time > deadline && Ordered(items) {
        NothingEligible(items, deadline);
      }
      if items[0].bytes <= bytes {
        RemovedTakesFromTheFront(items[1..], bytes - items[0].bytes, deadline);
      } else {
        var r := Removed(items, bytes);
        assert r[1..] == items[1..];
      }
    }
  }

  lemma {:induction false} NothingEligible(items: seq<Item>, deadline: int)
    requires Ordered(items) && (items != [] ==> items[0].time > deadline)
    ensures Eligible(items, deadline) == 0
  {
    if items != [] {
      NothingEligible(items[1..], deadline);
    }
  }

  lemma {:induction false} AddedTotals(items: seq<Item>, item: Item, deadline: int)
    ensures Total(items + [item]) == Total(items) + item.bytes
    ensures Eligible(items + [item], deadline) == Eligible(items, deadline) + if item.time <= deadline then item.bytes else 0
  {
    if items != [] {
      AddedTotals(items[1..], item, deadline);
      assert (items + [item])[1..] == items[1..] + [item];
    } else {
      assert items + [item] == [item];
    }
  }

  lemma {:induction false} AddedOrdered(items: seq<Item>, item: Item)
    requires Ordered(items) && (items != [] ==> items[|items| - 1].time <= item.time)
    ensures Ordered(items + [item])
  {
    if items != [] {
      AddedOrdered(items[1..], item);
      assert (items + [item])[1..] == items[1..] + [item];
    }
  }

  lemma {:induction false} RemovedLast(items: seq<Item>, bytes: nat, latest: int)
    requires items != [] ==> items[|items| - 1].time <= latest
    ensures var r := Removed(items, bytes);
            r != [] ==> r[|r| - 1].time <= latest
  {
    if items != [] && bytes != 0 {
      if items[0].bytes <= bytes {
        RemovedLast(items[1..], bytes - items[0].bytes, latest);
      } else {
        assert |Removed(items, bytes)| == |items|;
      }
    }
  }

  class CmPipeline {
    var items: seq<Item>

    constructor ()
      ensures items == []
    {
      items := [];
    }

    method GetTotal() returns (total: nat)
      ensures total == Total(items)
    {
      total := 0;
      ghost var rest := items;
      for i := 0 to |items|
        invariant rest == items[i..]
        invariant total + Total(rest) == Total(items)
      {
        total := total + items[i].bytes;
        rest := rest[1..];
      }
    }

    method GetEligible(deadline: int) returns (total: nat)
      ensures total == Eligible(items, deadline)
    {
      total := 0;
      ghost var rest := items;
      for i := 0 to |items|
        invariant rest == items[i..]
        invariant total + Eligible(rest, deadline) == Eligible(items, deadline)
      {
        if items[i].time <= deadline {
          total := total + items[i].bytes;
        }
        rest := rest[1..];
      }
    }

    method Add(value: nat, eligible: int)
      modifies this
      ensures items == old(items) + [Item(value, eligible)]
    {
      items := items + [Item(value, eligible)];
    }

    method Pop() returns (item: Item)
      requires items != []
      modifies this
      ensures item == old(items)[0] && items == old(items)[1..]
    {
      item := items[0];
      items := items[1..];
    }

    /** False is the accounting error: more was to be removed than there is. */
    method Remove(value: nat) returns (balanced: bool)
      modifies this
      ensures items == Removed(old(items), value)
      ensures balanced <==> value <= Total(old(items))
    {
      var remaining: nat := value;
      while items != [] && remaining != 0
        invariant remaining <= value
        invariant Removed(items, remaining) == Removed(old(items), value)
        invariant remaining <= Total(items) <==> value <= Total(old(items))
        decreases |items|, remaining
      {
        var item := items[0];
        if item.bytes <= remaining {
          remaining := remaining - item.bytes;
          items := items[1..];
        } else {
          items := items[0 := Item(item.bytes - remaining, item.time)];
          remaining := 0;
        }
      }
      balanced := remaining == 0;
    }

    method Clear()
      modifies this
      ensures items == []
    {
      items := [];
    }
  }
}
