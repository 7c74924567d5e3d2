/** When guaranteed grants stay inside their MAPs over a whole run. */
module PgsGrids {
  import opened DocsisTypes
  import opened PgsTiming

  // ----- Multiples

  function Multiple(q: int, grid: nat): int {
    q * grid
  }

  ghost predicate Aligned(x: int, grid: nat) {
    exists q :: Multiple(q, grid) == x
  }

  lemma AlignedSum(x: int, y: int, grid: nat)
    requires Aligned(x, grid) && Aligned(y, grid)
    ensures Aligned(x + y, grid)
  {
    var p :| Multiple(p, grid) == x;
    var q :| Multiple(q, grid) == y;
    assert Multiple(p + q, grid) == x + y;
  }

  lemma AlignedNegative(x: int, grid: nat)
    requires Aligned(x, grid)
    ensures Aligned(0 - x, grid)
  {
    var q :| Multiple(q, grid) == x;
    assert Multiple(0 - q, grid) == 0 - x;
  }

  lemma AlignedTimes(k: int, x: int, grid: nat)
    requires Aligned(x, grid)
    ensures Aligned(k * x, grid)
  {
    var q :| Multiple(q, grid) == x;
    assert Multiple(k * q, grid) == k * (q * grid);
  }

  /** A positive multiple is at least the grid. */
  lemma AtLeastOneCell(x: nat, grid: nat)
    requires Aligned(x, grid) && 0 < x
    ensures grid <= x
  {
    var q :| Multiple(q, grid) == x;
    if q < 1 {
      MulMonotone(0, -q, grid);
      assert false;
    }
    MulMonotone(1, q, grid);
  }

  lemma CellsBetween(a: int, b: int, grid: nat)
    requires a <= b
    ensures a * grid <= b * grid
  {
    MulMonotone(0, b - a, grid);
    assert (b - a) * grid == b * grid - a * grid;
  }

  /** A cell that starts inside a multiple of the grid ends inside it. */
  lemma CellEndsInside(x: int, phase: nat, size: nat, grid: nat, length: nat)
    requires 0 < grid && phase + size <= grid && Aligned(x - phase, grid) && Aligned(length, grid) && x < length
    ensures x + size <= length
  {
    var q :| Multiple(q, grid) == x - phase;
    var n :| Multiple(n, grid) == length;
    if n <= q {
      CellsBetween(n, q, grid);
      assert false;
    }
    CellsBetween(q + 1, n, grid);
    assert (q + 1) * grid == q * grid + grid;
  }

  // ----- The greatest common divisor

  function Gcd(a: nat, b: nat): nat
    decreases b
  {
    if b == 0 then a else Gcd(b, a % b)
  }

  lemma GcdPositive(a: nat, b: nat)
    requires 0 < a
    ensures 0 < Gcd(a, b)
    decreases b
  {
    if b != 0 {
      GcdPositive(b, a % b);
    }
  }

  /** A common divisor that is a combination of both numbers. */
  lemma Bezout(a: nat, b: nat) returns (x: int, y: int)
    ensures Aligned(a, Gcd(a, b)) && Aligned(b, Gcd(a, b))
    ensures Gcd(a, b) == x * a + y * b
    decreases b
  {
    if b == 0 {
      x, y := 1, 0;
      assert Multiple(1, a) == a && Multiple(0, a) == 0;
    } else {
      var u, v := Bezout(b, a % b);
      x, y := v, u - v * (a / b);
      BezoutStep(a, b, u, v, Gcd(a, b));
    }
  }

  lemma BezoutStep(a: nat, b: nat, u: int, v: int, grid: nat)
    requires 0 < b && grid == u * b + v * (a % b) && Aligned(b, grid) && Aligned(a % b, grid)
    ensures grid == v * a + (u - v * (a / b)) * b && Aligned(a, grid)
  {
    var q := a / b;
    assert a == q * b + a % b;
    assert v * a == v * (q * b) + v * (a % b);
    assert (u - v * q) * b == u * b - v * (q * b);
    AlignedTimes(q, b, grid);
    AlignedSum(q * b, a % b, grid);
  }

  // ----- Grants on a grid

  /**
   Grants recur at the same place of a grid that divides both the interval and the MAP, and end inside their cell.
   offset is the distance of a grant time from the start of a MAP. Grants of one frame that start with a frame do.
   */
  ghost predicate OnGrid(ch: Channel, pgs: Pgs, offset: int, grid: nat, phase: nat) {
    && 0 < grid && phase + pgs.size <= grid
    && Aligned(pgs.interval, grid) && Aligned(ch.MinislotsPerMap(), grid) && Aligned(offset - phase, grid)
  }

  /**
   Where the grants recur in the finest grid that divides interval and MAP, their size fits what is left of the cell.
   That is exactly when no grant of a run reaches across the end of its MAP, or into the next grant.
   */
  predicate NeverCrosses(ch: Channel, pgs: Pgs, offset: int)
    requires pgs.Valid()
  {
    GcdPositive(pgs.interval, ch.MinislotsPerMap());
    var grid := Gcd(pgs.interval, ch.MinislotsPerMap());
    offset % grid + pgs.size <= grid
  }

  lemma OnFinestGrid(ch: Channel, pgs: Pgs, offset: int) returns (grid: nat, phase: nat)
    requires pgs.Valid() && NeverCrosses(ch, pgs, offset)
    ensures OnGrid(ch, pgs, offset, grid, phase)
  {
    GcdPositive(pgs.interval, ch.MinislotsPerMap());
    grid := Gcd(pgs.interval, ch.MinislotsPerMap());
    phase := offset % grid;
    var x, y := Bezout(pgs.interval, ch.MinislotsPerMap());
    assert Multiple(offset / grid, grid) == offset - phase;
  }

  /** Any grid that suits the grants will do: it divides the finest one. */
  lemma OnAnyGrid(ch: Channel, pgs: Pgs, offset: int, grid: nat, phase: nat)
    requires pgs.Valid() && OnGrid(ch, pgs, offset, grid, phase)
    ensures NeverCrosses(ch, pgs, offset)
  {
    var finest := Gcd(pgs.interval, ch.MinislotsPerMap());
    GcdPositive(pgs.interval, ch.MinislotsPerMap());
    GcdAligned(pgs.interval, ch.MinislotsPerMap(), grid);
    RestAligned(offset, phase, finest, grid);
    CellEndsInside(offset % finest, phase, pgs.size, grid, finest);
  }

  lemma GcdAligned(a: nat, b: nat, grid: nat)
    requires 0 < a && Aligned(a, grid) && Aligned(b, grid)
    ensures Aligned(Gcd(a, b), grid)
  {
    var x, y := Bezout(a, b);
    AlignedTimes(x, a, grid);
    AlignedTimes(y, b, grid);
    AlignedSum(x * a, y * b, grid);
  }

  lemma RestAligned(offset: int, phase: nat, finest: nat, grid: nat)
    requires 0 < finest && Aligned(finest, grid) && Aligned(offset - phase, grid)
    ensures Aligned(offset % finest - phase, grid)
  {
    var cells := offset / finest * finest;
    assert cells == offset - offset % finest;
    AlignedTimes(offset / finest, finest, grid);
    AlignedNegative(cells, grid);
    AlignedSum(offset - phase, 0 - cells, grid);
  }

  /** Grants of at most one frame that start with a frame. */
  lemma OneFrameNeverCrosses(ch: Channel, pgs: Pgs, intervalInFrames: nat, offsetInFrames: int)
    requires ch.Valid() && pgs.Valid() && pgs.size <= ch.minislotsPerFrame
    requires pgs.interval == intervalInFrames * ch.minislotsPerFrame
    ensures NeverCrosses(ch, pgs, offsetInFrames * ch.minislotsPerFrame)
  {
    var m := ch.minislotsPerFrame;
    assert Multiple(intervalInFrames, m) == pgs.interval && Multiple(ch.framesPerMap, m) == ch.MinislotsPerMap();
    assert Multiple(offsetInFrames, m) == offsetInFrames * m - 0;
    assert OnGrid(ch, pgs, offsetInFrames * m, m, 0);
    OnAnyGrid(ch, pgs, offsetInFrames * m, m, 0);
  }

  lemma NextOnGrid(ch: Channel, pgs: Pgs, offset: int, grid: nat, phase: nat)
    requires OnGrid(ch, pgs, offset, grid, phase)
    ensures OnGrid(ch, pgs, offset + pgs.interval, grid, phase)
    ensures OnGrid(ch, pgs, offset - ch.MinislotsPerMap(), grid, phase)
  {
    AlignedSum(offset - phase, pgs.interval, grid);
    AlignedNegative(ch.MinislotsPerMap(), grid);
    AlignedSum(offset - phase, 0 - ch.MinislotsPerMap(), grid);
  }

  lemma NeverCrossesInNextMap(ch: Channel, pgs: Pgs, offset: int)
    requires pgs.Valid() && NeverCrosses(ch, pgs, offset)
    ensures NeverCrosses(ch, pgs, offset - ch.MinislotsPerMap())
  {
    var grid, phase := OnFinestGrid(ch, pgs, offset);
    NextOnGrid(ch, pgs, offset, grid, phase);
    OnAnyGrid(ch, pgs, offset - ch.MinislotsPerMap(), grid, phase);
  }

  /** On a grid, the grants due in a MAP never cross, and the next MAP finds them on the same grid. */
  lemma {:induction false} GridIsKept(ch: Channel, pgs: Pgs, last: int, allocStartTime: int, grid: nat, phase: nat)
    requires pgs.Valid() && OnGrid(ch, pgs, last - allocStartTime, grid, phase)
    ensures var limit := allocStartTime + ch.MinislotsPerMap();
            && Spaced(DueTimes(last, pgs.interval, limit), pgs, limit)
            && OnGrid(ch, pgs, LastBefore(last, pgs.interval, limit) - allocStartTime, grid, phase)
    decreases ch.MinislotsPerMap() + allocStartTime - last
  {
    var limit, t := allocStartTime + ch.MinislotsPerMap(), last + pgs.interval;
    AtLeastOneCell(pgs.interval, grid);
    if t < limit {
      NextOnGrid(ch, pgs, last - allocStartTime, grid, phase);
      CellEndsInside(t - allocStartTime, phase, pgs.size, grid, ch.MinislotsPerMap());
      GridIsKept(ch, pgs, t, allocStartTime, grid, phase);
    }
  }

  // ----- All MAPs of a run

  /** In the n-th MAP of a run in which every due time so far was passed, grants neither overlap nor reach across its end. */
  predicate SpacedIn(ch: Channel, pgs: Pgs, last: int, allocStartTime: int, n: nat)
    requires pgs.Valid()
  {
    var from := allocStartTime + n * ch.MinislotsPerMap();
    Spaced(DueTimes(LastBefore(last, pgs.interval, from), pgs.interval, from + ch.MinislotsPerMap()), pgs, from + ch.MinislotsPerMap())
  }

  lemma {:induction false} GridInMap(ch: Channel, pgs: Pgs, last: int, allocStartTime: int, grid: nat, phase: nat, n: nat)
    requires pgs.Valid() && OnGrid(ch, pgs, last - allocStartTime, grid, phase) && allocStartTime <= last + pgs.interval
    ensures var from := allocStartTime + n * ch.MinislotsPerMap();
            OnGrid(ch, pgs, LastBefore(last, pgs.interval, from) - from, grid, phase)
  {
    var length := ch.MinislotsPerMap();
    if n > 0 {
      var from := allocStartTime + (n - 1) * length;
      assert allocStartTime + n * length == from + length;
      MulMonotone(0, n - 1, length);
      GridInMap(ch, pgs, last, allocStartTime, grid, phase, n - 1);
      GridIsKept(ch, pgs, LastBefore(last, pgs.interval, from), from, grid, phase);
      DueTimesConcat(last, pgs.interval, from, from + length);
      NextOnGrid(ch, pgs, LastBefore(last, pgs.interval, from + length) - from, grid, phase);
    } else {
      assert LastBefore(last, pgs.interval, allocStartTime) == last;
    }
  }

  /** A grant time that comes as close to the end of its MAP as the grid allows. */
  lemma LatestPlace(interval: nat, length: nat, first: nat, place: nat) returns (j: nat, n: nat)
    requires 0 < interval && 0 < length && place < length && Aligned(place - first, Gcd(interval, length))
    ensures first + j * interval == n * length + place
  {
    var grid := Gcd(interval, length);
    GcdPositive(interval, length);
    var x, y := Bezout(interval, length);
    var d :| Multiple(d, grid) == place - first;
    var k: nat := if d * x < 0 then -(d * x) else 0;
    MulMonotone(1, length, k);
    j := d * x + k * length;
    Combination(interval, length, grid, x, y, d, k);
    var m := k * interval - d * y;
    assert first + j * interval == m * length + place;
    if m < 0 {
      CellsBetween(m, -1, length);
      MulMonotone(0, j, interval);
      assert false;
    }
    n := m;
  }

  lemma Combination(interval: nat, length: nat, grid: nat, x: int, y: int, d: int, k: nat)
    requires grid == x * interval + y * length
    ensures (d * x + k * length) * interval == d * grid + (k * interval - d * y) * length
  {
    assert d * grid == d * (x * interval) + d * (y * length);
    assert (d * x + k * length) * interval == d * (x * interval) + k * length * interval;
    assert (k * interval - d * y) * length == k * length * interval - d * (y * length);
  }

  /** The grant at that place is the last one of its MAP, so it fits if the MAP is well formed. */
  lemma LatestPlaceFits(ch: Channel, pgs: Pgs, last: int, allocStartTime: int, place: nat, j: nat, n: nat)
    requires pgs.Valid() && allocStartTime <= last + pgs.interval && place < ch.MinislotsPerMap() <= place + pgs.interval
    requires last + pgs.interval - allocStartTime + j * pgs.interval == n * ch.MinislotsPerMap() + place
    requires SpacedIn(ch, pgs, last, allocStartTime, n)
    ensures place + pgs.size <= ch.MinislotsPerMap()
  {
    var interval, length := pgs.interval, ch.MinislotsPerMap();
    var from := allocStartTime + n * length;
    var before := LastBefore(last, interval, from);
    var times := DueTimes(before, interval, from + length);
    var t := from + place;
    assert t == last + (j + 1) * interval;
    MulMonotone(0, n, length);
    DueTimesConcat(last, interval, allocStartTime, from);
    DueIsListed(last, interval, from, t, j + 1);
    DueTimesAreArithmetic(before, interval, from + length);
    OneIsLast(before, interval, from + length, t);
  }

  /** A due time that is not before a minislot is listed behind it. */
  lemma DueIsListed(last: int, interval: nat, from: int, t: int, j: nat)
    requires 0 < interval && 0 < j && t == last + j * interval && from <= t
    ensures exists k: nat :: 0 < k && t == LastBefore(last, interval, from) + k * interval
    decreases from - last
  {
    if last + interval < from {
      assert last + interval + (j - 1) * interval == t;
      if j == 1 {
        assert false;
      }
      DueIsListed(last + interval, interval, from, t, j - 1);
    }
  }

  lemma OneIsLast(before: int, interval: nat, limit: int, t: int)
    requires 0 < interval && t < limit <= t + interval && exists k: nat :: 0 < k && t == before + k * interval
    ensures var times := DueTimes(before, interval, limit);
            times != [] && times[|times| - 1] == t
    decreases limit - before
  {
    var k: nat :| 0 < k && t == before + k * interval;
    if k == 1 {
      assert DueTimes(t, interval, limit) == [];
    } else {
      assert t == before + interval + (k - 1) * interval;
      MulMonotone(1, k - 1, interval);
      OneIsLast(before + interval, interval, limit, t);
    }
  }

  /**
   Every MAP of a run is well formed if and only if the grants' place in the finest grid of interval and MAP leaves
   room for their size.
   */
  lemma NeverCrossesIff(ch: Channel, pgs: Pgs, last: int, allocStartTime: int)
    requires ch.Valid() && pgs.Valid() && allocStartTime <= last + pgs.interval
    ensures NeverCrosses(ch, pgs, last - allocStartTime) <==> forall n: nat :: SpacedIn(ch, pgs, last, allocStartTime, n)
  {
    if NeverCrosses(ch, pgs, last - allocStartTime) {
      var grid, phase := OnFinestGrid(ch, pgs, last - allocStartTime);
      forall n: nat ensures SpacedIn(ch, pgs, last, allocStartTime, n) {
        var from := allocStartTime + n * ch.MinislotsPerMap();
        GridInMap(ch, pgs, last, allocStartTime, grid, phase, n);
        GridIsKept(ch, pgs, LastBefore(last, pgs.interval, from), from, grid, phase);
      }
    }
    if forall n: nat :: SpacedIn(ch, pgs, last, allocStartTime, n) {
      SomeGrantIsLatest(ch, pgs, last, allocStartTime);
    }
  }

  lemma SomeGrantIsLatest(ch: Channel, pgs: Pgs, last: int, allocStartTime: int)
    requires ch.Valid() && pgs.Valid() && allocStartTime <= last + pgs.interval
    requires forall n: nat :: SpacedIn(ch, pgs, last, allocStartTime, n)
    ensures NeverCrosses(ch, pgs, last - allocStartTime)
  {
    var interval, length := pgs.interval, ch.MinislotsPerMap();
    MulMonotone(1, ch.framesPerMap, ch.minislotsPerFrame);
    GcdPositive(interval, length);
    var grid := Gcd(interval, length);
    var phase := (last - allocStartTime) % grid;
    var x, y := Bezout(interval, length);
    AtLeastOneCell(length, grid);
    AtLeastOneCell(interval, grid);
    var place, first: nat := length - grid + phase, last + interval - allocStartTime;
    PlaceAligned(interval, length, last - allocStartTime, grid, phase, place);
    var j, n := LatestPlace(interval, length, first, place);
    LatestPlaceFits(ch, pgs, last, allocStartTime, place, j, n);
  }

  lemma PlaceAligned(interval: nat, length: nat, offset: int, grid: nat, phase: int, place: int)
    requires 0 < grid && phase == offset % grid && place == length - grid + phase && Aligned(interval, grid) && Aligned(length, grid)
    ensures Aligned(place - (offset + interval), grid)
  {
    assert Multiple(0 - offset / grid, grid) == phase - offset;
    assert Multiple(-1, grid) == 0 - grid;
    AlignedNegative(interval, grid);
    AlignedSum(length, 0 - grid, grid);
    AlignedSum(length - grid, phase - offset, grid);
    AlignedSum(length - grid + (phase - offset), 0 - interval, grid);
  }
}
