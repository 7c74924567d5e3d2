/** Entities shared by the CMTS upstream scheduler and the cable modem. */
module DocsisTypes {

  const CLASSIC_SFID: nat := 1
  const LOW_LATENCY_SFID: nat := 2

  /** Values of the unsigned 32-bit integers in which minislots are counted. */
  const UINT32: nat := 0x1_0000_0000

  datatype Option<+T> = None | Some(value: T)

  /** A run of minislots, counted from the start of the MAP interval. */
  datatype Grant = Grant(sfid: nat, offset: nat, length: nat) {
    function End(): nat {
      offset + length
    }
  }

  /** The physical-layer quantities that both ends of the link agree on. */
  datatype Channel = Channel(capacity: nat, minislotsPerFrame: nat, framesPerMap: nat) {
    predicate Valid() {
      0 < capacity && 0 < minislotsPerFrame && 0 < framesPerMap
    }

    function MinislotsPerMap(): nat {
      framesPerMap * minislotsPerFrame
    }

    function MinislotsToBytes(minislots: nat): nat {
      minislots * capacity
    }

    function MinislotCeil(bytes: nat): nat
      requires Valid()
    {
      (bytes + capacity - 1) / capacity
    }

    /** MinislotCeil is the least number of minislots that holds the bytes. */
    lemma MinislotCeilIsLeast(bytes: nat, n: nat)
      requires Valid()
      ensures MinislotCeil(bytes) <= n <==> bytes <= MinislotsToBytes(n)
      ensures MinislotsToBytes(MinislotCeil(bytes)) <= bytes + capacity - 1
    {
      var m := MinislotCeil(bytes);
      assert (bytes + capacity - 1) == m * capacity + (bytes + capacity - 1) % capacity;
      if m <= n {
        MulMonotone(m, n, capacity);
      } else {
        MulMonotone(n + 1, m, capacity);
        assert (n + 1) * capacity == n * capacity + capacity;
      }
    }
  }

  lemma MulMonotone(a: nat, b: nat, k: nat)
    requires a <= b
    ensures a * k <= b * k
  {
    assert b * k == a * k + (b - a) * k;
  }

  lemma MulDistributes(a: nat, b: nat, k: nat)
    ensures (a + b) * k == a * k + b * k
  {
  }

  /** Nanoseconds times bits per second that make a byte. */
  const NANOSECONDS_PER_BYTE_AT_ONE_BIT: nat := 8_000_000_000

  /** Whole bytes that a rate gives in a time. */
  function BytesAtRate(nanoseconds: nat, rate: nat): nat {
    nanoseconds * rate / NANOSECONDS_PER_BYTE_AT_ONE_BIT
  }

  /** The scale: eight bits to a byte, and a thousand million nanoseconds to a second. */
  lemma BytesAtRateIsMost(nanoseconds: nat, rate: nat, n: nat)
    ensures n <= BytesAtRate(nanoseconds, rate) <==> n * 8 * 1_000_000_000 <= nanoseconds * rate
    ensures BytesAtRate(1_000_000_000, rate) == rate / 8
  {
    QuotientIsMost(nanoseconds * rate, NANOSECONDS_PER_BYTE_AT_ONE_BIT, n);
    var q := 1_000_000_000 * rate / NANOSECONDS_PER_BYTE_AT_ONE_BIT;
    assert 1_000_000_000 * rate == 8_000_000_000 * q + 1_000_000_000 * rate % 8_000_000_000;
  }

  lemma QuotientIsMost(x: nat, d: nat, n: nat)
    requires 0 < d
    ensures n <= x / d <==> n * d <= x
  {
    assert x == d * (x / d) + x % d;
    if n <= x / d {
      MulMonotone(n, x / d, d);
    } else {
      MulMonotone(x / d + 1, n, d);
      assert (x / d + 1) * d == d * (x / d) + d;
    }
  }

  /** Rounding down, time by time, never gives more than rounding down once. */
  lemma BytesAtRateAdd(a: nat, b: nat, rate: nat)
    ensures BytesAtRate(a, rate) + BytesAtRate(b, rate) <= BytesAtRate(a + b, rate)
  {
    MulDistributes(a, b, rate);
    QuotientsAdd(a * rate, b * rate);
  }

  lemma QuotientsAdd(x: nat, y: nat)
    ensures x / NANOSECONDS_PER_BYTE_AT_ONE_BIT + y / NANOSECONDS_PER_BYTE_AT_ONE_BIT <= (x + y) / NANOSECONDS_PER_BYTE_AT_ONE_BIT
  {
  }

  lemma BytesAtRateMonotone(a: nat, b: nat, rate: nat)
    requires a <= b
    ensures BytesAtRate(a, rate) <= BytesAtRate(b, rate)
  {
    BytesAtRateAdd(a, b - a, rate);
  }

  function Min(a: int, b: int): int {
    if a < b then a else b
  }

  function Max(a: int, b: int): int {
    if a < b then b else a
  }
}
