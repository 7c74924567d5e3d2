/** One upstream service flow of the cable modem: staging, sending, fragmenting and requesting. */
module CableModemFlows {
  import opened DocsisTypes
  import opened CmPipelines
  import Shapers = RateShapers

  datatype Packet = Packet(id: nat, sduSize: nat)

  /** Size on the wire: padded payload, Ethernet header and trailer, DOCSIS MAC header. */
  function Framed(p: Packet, macHeader: nat): nat {
    Max(p.sduSize, 46) + 14 + 4 + macHeader
  }

  /** A frame has at least 64 bytes, and 18 more than its payload otherwise, besides the MAC header. */
  lemma FramedIsPadded(p: Packet, macHeader: nat)
    ensures Framed(p, macHeader) >= 64 + macHeader
    ensures p.sduSize >= 46 ==> Framed(p, macHeader) == p.sduSize + 18 + macHeader
    ensures p.sduSize < 46 ==> Framed(p, macHeader) == 64 + macHeader
  {
  }

  function Bytes(ps: seq<Packet>, macHeader: nat): nat {
    if ps == [] then 0 else Framed(ps[0], macHeader) + Bytes(ps[1..], macHeader)
  }

  lemma {:induction false} BytesConcat(a: seq<Packet>, b: seq<Packet>, macHeader: nat)
    ensures Bytes(a + b, macHeader) == Bytes(a, macHeader) + Bytes(b, macHeader)
  {
    if a == [] {
      assert a + b == b;
    } else {
      BytesConcat(a[1..], b, macHeader);
      assert (a + b)[1..] == a[1..] + b;
    }
  }

  /** Bytes that a transmission opportunity uses: all of it, unless fewer bytes are due. */
  function Usable(items: seq<Item>, opportunity: nat, now: int): nat {
    Min(opportunity, Eligible(items, now))
  }

  /** The grant that a burst is prepared for is the next one in the pipeline, and no earlier than the one before. */
  predicate BurstReady(grants: seq<Item>, minislots: nat, capacity: nat, sendTime: int, latest: int) {
    && latest <= sendTime && 0 < minislots * capacity
    && grants != [] && grants[0] == Item(minislots * capacity, sendTime)
  }

  /** No grant in the pipeline is overdue when a request is made. */
  predicate RequestReady(grants: seq<Item>, now: int) {
    grants != [] ==> now <= grants[0].time
  }

  /** Moving the first queued packet behind the staged ones keeps the order. */
  lemma Moved(channel: seq<Packet>, fragment: Option<Packet>, staged: seq<Packet>, aqm: seq<Packet>)
    requires aqm != []
    ensures var front := if fragment.Some? then [fragment.value] else [];
            channel + (front + staged) + aqm == channel + (front + (staged + [aqm[0]])) + aqm[1..]
    ensures fragment.None? ==> [] + staged == staged && [] + (staged + [aqm[0]]) == staged + [aqm[0]]
  {
    assert aqm == [aqm[0]] + aqm[1..];
  }

  /** Packets to stage before the unscheduled bytes cover a burst, as far as there are any. */
  function Staged(aqm: seq<Packet>, unscheduled: nat, wanted: nat, macHeader: nat): nat {
    if aqm == [] || wanted <= unscheduled then 0
    else 1 + Staged(aqm[1..], unscheduled + Framed(aqm[0], macHeader), wanted, macHeader)
  }

  /** Staging stops at the queue's end or as soon as the burst is covered, not one packet later. */
  lemma {:induction false} StagedIsLeast(aqm: seq<Packet>, unscheduled: nat, wanted: nat, macHeader: nat)
    ensures var n := Staged(aqm, unscheduled, wanted, macHeader);
            && n <= |aqm|
            && (n < |aqm| ==> wanted <= unscheduled + Bytes(aqm[..n], macHeader))
            && (0 < n ==> unscheduled + Bytes(aqm[..n - 1], macHeader) < wanted)
            && Min(wanted, unscheduled + Bytes(aqm[..n], macHeader)) == Min(wanted, unscheduled + Bytes(aqm, macHeader))
  {
    if aqm == [] || wanted <= unscheduled {
      assert aqm[..0] == [];
    } else {
      StagedIsLeast(aqm[1..], unscheduled + Framed(aqm[0], macHeader), wanted, macHeader);
      var n := Staged(aqm, unscheduled, wanted, macHeader);
      assert aqm[..n][1..] == aqm[1..][..n - 1];
      if 1 < n {
        assert aqm[..n - 1][1..] == aqm[1..][..n - 2];
      } else {
        assert aqm[..0] == [];
      }
    }
  }

  class CableModemFlow {
    const capacity: nat
    const macHeader: nat
    const burstPreparation: nat
    const transmitPipeline: CmPipeline
    const grantPipeline: CmPipeline
    const requestPipeline: CmPipeline
    const shaper: Shapers.RateShaper?  // none for low latency, and without a sustained rate

    var aqm: seq<Packet>
    var aqmFramedBytes: nat
    var staged: seq<Packet>
    var stagedFramedBytes: nat
    var fragment: Option<Packet>
    var fragSentBytes: nat
    var channel: seq<Packet>
    var grantBytesInMap: nat
    var unused: nat

    ghost var admitted: seq<Packet>
    ghost var latest: int  // the time of the burst prepared last

    /** Packets taken from the queue that have not left the device. */
    function InDevice(): seq<Packet>
      reads this
    {
      if fragment.Some? then [fragment.value] + staged else staged
    }

    /** Bytes in the device, MAC headers included, less what of a fragment was sent. */
    function DeviceBytes(): int
      reads this
    {
      stagedFramedBytes + if fragment.Some? then Framed(fragment.value, macHeader) - fragSentBytes else 0
    }

    /** The byte counters are right, and every packet is in exactly one place, in arrival order. */
    ghost predicate Consistent()
      reads this
    {
      && aqmFramedBytes == Bytes(aqm, macHeader)
      && stagedFramedBytes == Bytes(staged, macHeader)
      && (fragment.Some? ==> fragSentBytes < Framed(fragment.value, macHeader))
      && (fragment.None? ==> fragSentBytes == 0)
      && admitted == channel + InDevice() + aqm
    }

    ghost predicate Valid()
      reads this, transmitPipeline, grantPipeline, requestPipeline
    {
      && Consistent()
      && transmitPipeline != grantPipeline && transmitPipeline != requestPipeline && grantPipeline != requestPipeline
      && Total(transmitPipeline.items) <= DeviceBytes()
      && Ordered(transmitPipeline.items)
      && (transmitPipeline.items != [] ==> transmitPipeline.items[|transmitPipeline.items| - 1].time <= latest)
    }

    constructor (capacity: nat, macHeader: nat, burstPreparation: nat, shaper: Shapers.RateShaper?)
      ensures Valid() && this.shaper == shaper && fresh(transmitPipeline) && fresh(grantPipeline) && fresh(requestPipeline)
      ensures this.capacity == capacity && this.macHeader == macHeader && this.burstPreparation == burstPreparation
      ensures admitted == [] && DeviceBytes() == 0 && latest == 0
    {
      this.capacity, this.macHeader, this.burstPreparation, this.shaper := capacity, macHeader, burstPreparation, shaper;
      transmitPipeline := new CmPipeline();
      grantPipeline := new CmPipeline();
      requestPipeline := new CmPipeline();
      aqm, aqmFramedBytes, staged, stagedFramedBytes := [], 0, [], 0;
      fragment, fragSentBytes, channel := None, 0, [];
      grantBytesInMap, unused := 0, 0;
      admitted, latest := [], 0;
    }

    /** The grants of a MAP enter the grant pipeline, each with the time of its first frame; returns their bytes. */
    method ScheduleGrants(grants: seq<Grant>, mapTime: int, minislotsPerFrame: nat, frameDuration: nat) returns (grantBytes: nat)
      requires Valid() && 0 < minislotsPerFrame
      modifies grantPipeline
      ensures Valid()
      ensures grantPipeline.items
           == old(grantPipeline.items) + GrantItems(grants, capacity, mapTime, minislotsPerFrame, frameDuration)
      ensures grantBytes == Total(GrantItems(grants, capacity, mapTime, minislotsPerFrame, frameDuration))
    {
      grantBytes := 0;
      ghost var ahead, before := grants, grantPipeline.items;
      ghost var all := GrantItems(grants, capacity, mapTime, minislotsPerFrame, frameDuration);
      for i := 0 to |grants|
        invariant ahead == grants[i..] && transmitPipeline.items == old(transmitPipeline.items)
        invariant grantPipeline.items + GrantItems(ahead, capacity, mapTime, minislotsPerFrame, frameDuration) == before + all
        invariant grantBytes + Total(GrantItems(ahead, capacity, mapTime, minislotsPerFrame, frameDuration)) == Total(all)
      {
        var grantTime := mapTime + grants[i].offset / minislotsPerFrame * frameDuration;
        var item := Item(grants[i].length * capacity, grantTime);
        ghost var rest := GrantItems(ahead[1..], capacity, mapTime, minislotsPerFrame, frameDuration);
        assert grants[i].length != 0 ==> ([item] + rest)[1..] == rest;
        assert grants[i].length != 0 ==> grantPipeline.items + ([item] + rest) == grantPipeline.items + [item] + rest;
        grantBytes := grantBytes + grants[i].length * capacity;
        if grants[i].length != 0 {
          grantPipeline.Add(grants[i].length * capacity, grantTime);
        }
        ahead := ahead[1..];
      }
      assert grantPipeline.items + [] == grantPipeline.items;
    }

    /** The AQM admits a packet. */
    method Admit(p: Packet)
      requires Valid()
      modifies this`aqm, this`aqmFramedBytes, this`admitted
      ensures Valid()
      ensures admitted == old(admitted) + [p] && aqm == old(aqm) + [p]
    {
      BytesConcat(aqm, [p], macHeader);
      aqm, aqmFramedBytes := aqm + [p], aqmFramedBytes + Framed(p, macHeader);
      admitted := admitted + [p];
    }

    /** A packet moves from the AQM queue to the staging queue. */
    method StagePacket()
      requires Consistent() && aqm != []
      modifies this`aqm, this`aqmFramedBytes, this`staged, this`stagedFramedBytes
      ensures Consistent()
      ensures aqm == old(aqm)[1..] && staged == old(staged) + [old(aqm)[0]]
      ensures stagedFramedBytes == old(stagedFramedBytes) + Framed(old(aqm)[0], macHeader)
    {
      var item := aqm[0];
      BytesConcat(staged, [item], macHeader);
      Moved(channel, fragment, staged, aqm);
      aqm, aqmFramedBytes := aqm[1..], aqmFramedBytes - Framed(item, macHeader);
      staged, stagedFramedBytes := staged + [item], stagedFramedBytes + Framed(item, macHeader);
    }

    /** Stage packets until the bytes not promised to earlier grants cover the wanted bytes. */
    method StageFor(wanted: nat, scheduled: nat)
      requires Consistent() && scheduled <= DeviceBytes()
      modifies this`aqm, this`aqmFramedBytes, this`staged, this`stagedFramedBytes
      ensures Consistent()
      ensures var unscheduled: nat := old(DeviceBytes()) - scheduled;
              && |aqm| == |old(aqm)| - Staged(old(aqm), unscheduled, wanted, macHeader)
              && old(DeviceBytes()) <= DeviceBytes()
              && Min(wanted, DeviceBytes() - scheduled) == Min(wanted, unscheduled + old(aqmFramedBytes))
    {
      ghost var queue, unscheduled: nat := aqm, DeviceBytes() - scheduled;
      while wanted > DeviceBytes() - scheduled && aqmFramedBytes > 0
        invariant Consistent() && |aqm| <= |queue|
        invariant old(DeviceBytes()) <= DeviceBytes()
        invariant DeviceBytes() + aqmFramedBytes == old(DeviceBytes() + aqmFramedBytes)
        invariant |queue| - |aqm| + Staged(aqm, DeviceBytes() - scheduled, wanted, macHeader)
               == Staged(queue, unscheduled, wanted, macHeader)
        decreases |aqm|
      {
        StagePacket();
      }
    }

    /**
     Stage enough packets for a grant that starts burstPreparation from now, and promise it the
     bytes that are not promised to an earlier grant: all the grant can take, or all there are.
     */
    method PrepareBurst(minislotsToPrepare: nat, now: int)
      requires Valid() && BurstReady(grantPipeline.items, minislotsToPrepare, capacity, now + burstPreparation, latest)
      modifies this`aqm, this`aqmFramedBytes, this`staged, this`stagedFramedBytes, this`latest
      modifies transmitPipeline, grantPipeline
      ensures Valid() && latest == now + burstPreparation
      ensures grantPipeline.items == old(grantPipeline.items)[1..]
      ensures var unscheduled := old(DeviceBytes() - Total(transmitPipeline.items));
              var wanted := minislotsToPrepare * capacity;
              && transmitPipeline.items
                 == Promised(old(transmitPipeline.items), Min(wanted, unscheduled + old(aqmFramedBytes)), now + burstPreparation)
              && |aqm| == |old(aqm)| - Staged(old(aqm), unscheduled, wanted, macHeader)
    {
      var availableBytes := minislotsToPrepare * capacity;
      var scheduledBytes := transmitPipeline.GetTotal();
      var element := grantPipeline.Pop();
      assert Consistent() && transmitPipeline.items == old(transmitPipeline.items);
      StageFor(availableBytes, scheduledBytes);
      assert Valid();
      PromiseBytes(availableBytes, scheduledBytes, now + burstPreparation);
    }

    /** Promise a burst what it can take of the bytes that are not promised yet. */
    method PromiseBytes(availableBytes: nat, scheduledBytes: nat, sendTime: int)
      requires Valid() && scheduledBytes == Total(transmitPipeline.items) && latest <= sendTime && 0 < availableBytes
      modifies this`latest, transmitPipeline
      ensures Valid() && latest == sendTime
      ensures transmitPipeline.items
           == Promised(old(transmitPipeline.items), Min(availableBytes, DeviceBytes() - scheduledBytes), sendTime)
    {
      latest := sendTime;
      var unscheduledBytes: nat := DeviceBytes() - scheduledBytes;
      Promising(transmitPipeline.items, Min(availableBytes, unscheduledBytes), sendTime);
      if availableBytes <= unscheduledBytes {
        transmitPipeline.Add(availableBytes, sendTime);
      } else if unscheduledBytes > 0 {
        transmitPipeline.Add(unscheduledBytes, sendTime);
      }
    }

    /**
     Use the minislots of one frame: finish the fragment, send whole packets, start a fragment. Exactly
     the usable bytes are sent, the rest of the minislots counts as unused, and the packets in the device
     stay in order. True means that no accounting error came up.
     */
    method SendFrame(minislotsToSend: nat, now: int) returns (balanced: bool)
      requires Valid()
      modifies this`staged, this`stagedFramedBytes, this`fragment, this`fragSentBytes, this`channel, this`unused
      modifies transmitPipeline
      ensures Valid() && balanced
      ensures var used := Usable(old(transmitPipeline.items), minislotsToSend * capacity, now);
              && DeviceBytes() == old(DeviceBytes()) - used
              && transmitPipeline.items == Removed(old(transmitPipeline.items), used)
              && unused == old(unused) + minislotsToSend * capacity - used
      ensures channel + InDevice() == old(channel + InDevice()) && old(channel) <= channel
    {
      var bytesAllocated := minislotsToSend * capacity;
      var eligible := transmitPipeline.GetEligible(now);
      var bytesToSend: nat, bytesUsed: nat := Min(bytesAllocated, eligible), 0;
      ghost var items, used := transmitPipeline.items, bytesToSend;
      EligibleAtMostTotal(items, now);
      RemovedTakesFromTheFront(items, used, now);
      RemovedLast(items, used, latest);
      bytesUsed := SendBytes(bytesToSend);
      unused := unused + (bytesAllocated - bytesUsed);
      balanced := transmitPipeline.Remove(bytesUsed);
    }

    /** Send bytes of the device: the fragment in progress first, then staged packets. */
    method SendBytes(bytesToSend: nat) returns (bytesUsed: nat)
      requires Consistent() && bytesToSend <= DeviceBytes()
      modifies this`staged, this`stagedFramedBytes, this`fragment, this`fragSentBytes, this`channel
      ensures Consistent() && bytesUsed == bytesToSend
      ensures DeviceBytes() == old(DeviceBytes()) - bytesUsed
      ensures channel + InDevice() == old(channel + InDevice()) && old(channel) <= channel
    {
      bytesUsed := SendFragment(bytesToSend);
      if fragment.None? {
        var sent := SendStaged(bytesToSend - bytesUsed);
        bytesUsed := bytesUsed + sent;
      }
    }

    /** Go on with the fragment in progress, if there is one: finish it, or send as much of it as fits. */
    method SendFragment(bytesToSend: nat) returns (used: nat)
      requires Consistent()
      modifies this`fragment, this`fragSentBytes, this`channel
      ensures Consistent() && used <= bytesToSend
      ensures DeviceBytes() == old(DeviceBytes()) - used
      ensures channel + InDevice() == old(channel + InDevice()) && old(channel) <= channel
      ensures fragment.Some? ==> used == bytesToSend
    {
      used := 0;
      if fragment.Some? {
        var fragBytesRemaining: nat := Framed(fragment.value, macHeader) - fragSentBytes;
        if bytesToSend >= fragBytesRemaining {
          used := fragBytesRemaining;
          ghost var sent := [fragment.value];
          FinishFragment();
          assert channel == old(channel) + sent && channel + staged == old(channel) + (sent + staged);
        } else {
          fragSentBytes := fragSentBytes + bytesToSend;
          used := bytesToSend;
        }
      }
    }

    /** Send staged packets, the last one possibly in part, until the bytes are used up. */
    method SendStaged(bytes: nat) returns (used: nat)
      requires Consistent() && fragment.None? && bytes <= DeviceBytes()
      modifies this`staged, this`stagedFramedBytes, this`fragment, this`fragSentBytes, this`channel
      ensures Consistent() && used == bytes
      ensures DeviceBytes() == old(DeviceBytes()) - used
      ensures channel + InDevice() == old(channel + InDevice()) && old(channel) <= channel
    {
      var bytesToSend: nat := bytes;
      used := 0;
      while bytesToSend > 0 && staged != []
        invariant Consistent() && used + bytesToSend == bytes
        invariant DeviceBytes() == old(DeviceBytes()) - used
        invariant fragment.Some? ==> bytesToSend == 0
        invariant channel + InDevice() == old(channel + InDevice()) && old(channel) <= channel
        decreases |staged|
      {
        var sent := SendOut(bytesToSend);
        used := used + sent;
        bytesToSend := bytesToSend - sent;
      }
    }

    /** Put the rest of the fragmented packet on the wire. */
    method FinishFragment()
      requires Consistent() && fragment.Some?
      modifies this`fragment, this`fragSentBytes, this`channel
      ensures Consistent() && fragment == None && channel == old(channel) + [old(fragment).value]
    {
      assert channel + ([fragment.value] + staged) == channel + [fragment.value] + staged;
      channel := channel + [fragment.value];
      fragment, fragSentBytes := None, 0;
    }

    /** Send the first staged packet, or as much of it as fits; returns the bytes sent. */
    method SendOut(eligibleBytes: nat) returns (sent: nat)
      requires Consistent() && fragment.None? && staged != [] && 0 < eligibleBytes
      modifies this`staged, this`stagedFramedBytes, this`fragment, this`fragSentBytes, this`channel
      ensures Consistent() && staged == old(staged)[1..]
      ensures sent == Min(eligibleBytes, Framed(old(staged)[0], macHeader))
      ensures DeviceBytes() == old(DeviceBytes()) - sent
      ensures channel + InDevice() == old(channel + InDevice()) && old(channel) <= channel
      ensures fragment.Some? ==> sent == eligibleBytes
    {
      var item := staged[0];
      var framedSize := Framed(item, macHeader);
      ghost var rest, before := staged[1..], channel + InDevice();
      assert staged == [item] + rest;
      assert before == channel + [item] + rest;
      staged, stagedFramedBytes := staged[1..], stagedFramedBytes - framedSize;
      if framedSize <= eligibleBytes {
        channel := channel + [item];
        sent := framedSize;
      } else {
        fragment, fragSentBytes := Some(item), eligibleBytes;
        sent := eligibleBytes;
      }
      assert channel + InDevice() == before;
    }

    /** The granted bytes of a MAP interval become current when it starts. */
    method LoadMapState(grantBytes: nat)
      requires Valid()
      modifies this`grantBytesInMap, this`unused
      ensures Valid() && grantBytesInMap == grantBytes && unused == 0
    {
      grantBytesInMap, unused := grantBytes, 0;
    }

    /** Report the use of the grants of a MAP interval. */
    method DumpGrant() returns (used: int, unusedBytes: nat)
      requires Valid()
      modifies this`grantBytesInMap, this`unused
      ensures Valid() && used + unusedBytes == old(grantBytesInMap) && unusedBytes == old(unused)
      ensures grantBytesInMap == 0 && unused == 0
    {
      used, unusedBytes := grantBytesInMap - unused, unused;
      grantBytesInMap, unused := 0, 0;
    }

    /** The bytes of the next grant. */
    function NextGrant(): nat
      reads this, grantPipeline
    {
      if grantPipeline.items != [] then grantPipeline.items[0].bytes else 0
    }

    /** Queued bytes that are neither requested nor covered by the next grant; negative if there are none. */
    function Uncovered(): int
      reads this, grantPipeline, requestPipeline
    {
      DeviceBytes() + aqmFramedBytes - (Total(requestPipeline.items) + NextGrant())
    }

    /**
     Request the queued bytes that are neither requested nor covered by the next grant, as far as the rate shaper
     lets them through. Returns the bytes requested, if any. Without a shaper, every queued byte is covered then.
     */
    method MakeRequest(now: int) returns (request: Option<nat>)
      requires Valid()
      requires RequestReady(grantPipeline.items, now)
      modifies requestPipeline, shaper
      ensures Valid()
      ensures request.Some? <==> old(Uncovered()) > 0
      ensures var nextGrant := if grantPipeline.items == [] then 0 else grantPipeline.items[0].bytes;
              old(Uncovered()) == DeviceBytes() + Bytes(aqm, macHeader) - Total(old(requestPipeline.items)) - nextGrant
      ensures request.Some? && shaper == null ==> request.value == old(Uncovered())
      ensures request.Some? && shaper != null ==>
                && request.value == Shapers.Shaped(shaper.p, old(shaper.Now()), old(Uncovered()), now)
                && shaper.Now() == Shapers.Taken(shaper.p, old(shaper.Now()), old(Uncovered()), now)
      ensures request.None? && shaper != null ==> shaper.Now() == old(shaper.Now())
      ensures requestPipeline.items
           == old(requestPipeline.items) + if request.Some? then [Item(request.value, now)] else []
      ensures shaper == null ==> Uncovered() <= 0
    {
      var queuedData: nat := DeviceBytes() + aqmFramedBytes;
      var nextGrant := 0;
      if grantPipeline.items != [] {
        nextGrant := grantPipeline.items[0].bytes;
      }
      var requested := requestPipeline.GetTotal();
      request := None;
      if queuedData > requested + nextGrant {
        var newRequest := ShapedRequest(queuedData - (requested + nextGrant), now);
        AddedTotals(requestPipeline.items, Item(newRequest, now), now);
        requestPipeline.Add(newRequest, now);
        request := Some(newRequest);
      }
    }

    /** What the rate shaper lets through of a request. */
    method ShapedRequest(request: nat, now: int) returns (shaped: nat)
      modifies shaper
      ensures shaper == null ==> shaped == request
      ensures shaper != null ==>
                && shaped == Shapers.Shaped(shaper.p, old(shaper.Now()), request, now)
                && shaper.Now() == Shapers.Taken(shaper.p, old(shaper.Now()), request, now)
    {
      shaped := request;
      if shaper != null {
        shaped := shaper.ShapeRequest(request, now);
      }
    }

    /** A MAP answers outstanding requests with granted bytes, oldest first. */
    method HandleGrants(grantInBytes: nat)
      requires Valid()
      modifies requestPipeline
      ensures Valid()
      ensures requestPipeline.items
           == if old(Total(requestPipeline.items)) > grantInBytes then Removed(old(requestPipeline.items), grantInBytes) else []
      ensures Total(requestPipeline.items) == Max(old(Total(requestPipeline.items)) - grantInBytes, 0)
    {
      var total := requestPipeline.GetTotal();
      if total > grantInBytes {
        RemovedTakesFromTheFront(requestPipeline.items, grantInBytes, 0);
        var balanced := requestPipeline.Remove(grantInBytes);
      } else {
        requestPipeline.Clear();
      }
    }
  }

  /** Non-empty grants with the time of their first frame. */
  function GrantItems(grants: seq<Grant>, capacity: nat, mapTime: int, minislotsPerFrame: nat, frameDuration: nat): seq<Item>
    requires 0 < minislotsPerFrame
  {
    if grants == [] then []
    else if grants[0].length == 0 then GrantItems(grants[1..], capacity, mapTime, minislotsPerFrame, frameDuration)
    else
      [Item(grants[0].length * capacity, mapTime + grants[0].offset / minislotsPerFrame * frameDuration)]
      + GrantItems(grants[1..], capacity, mapTime, minislotsPerFrame, frameDuration)
  }

  /** The transmit pipeline after a burst was prepared. */
  function Promised(items: seq<Item>, bytes: nat, time: int): seq<Item> {
    if bytes > 0 then items + [Item(bytes, time)] else items
  }

  lemma Promising(items: seq<Item>, bytes: nat, time: int)
    requires Ordered(items) && (items != [] ==> items[|items| - 1].time <= time)
    ensures var r := items + [Item(bytes, time)];
            Total(r) == Total(items) + bytes && Ordered(r) && r[|r| - 1].time <= time
  {
    AddedTotals(items, Item(bytes, time), time);
    AddedOrdered(items, Item(bytes, time));
  }
}
