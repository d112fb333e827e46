/** Requeue intervals: stable jitter in 64-bit arithmetic, and the bounds on
    progress polling. Durations are nanoseconds. */
module Jitter {
  const MAX64: int := 0x7FFF_FFFF_FFFF_FFFF
  const MIN64: int := -0x8000_0000_0000_0000

  predicate Fits64(n: int)
  {
    MIN64 <= n <= MAX64
  }

  /** Go's integer division and remainder, which truncate toward zero. */
  function Quotient(a: int, b: int): int
    requires b > 0
  {
    if a >= 0 then a / b else -((-a) / b)
  }

  function Remainder(a: int, b: int): int
    requires b > 0
  {
    a - b * Quotient(a, b)
  }

  /** The offset in permille that a 32-bit hash selects. */
  function Offset(hash: int): (r: int)
    requires 0 <= hash < 0x1_0000_0000
    ensures -200 <= r <= 200
  {
    hash % 401 - 200
  }

  /** The split product avoids the overflow of `base * offset`. */
  function Delta(base: int, offset: int): int
  {
    Quotient(base, 1000) * offset + Quotient(Remainder(base, 1000) * offset, 1000)
  }

  function StableJitter(base: int, hash: int): int
    requires 0 <= hash < 0x1_0000_0000
  {
    if base <= 0 then base
    else
      var delta := Delta(base, Offset(hash));
      if delta > 0 && base > MAX64 - delta then MAX64 else base + delta
  }

  lemma SplitProduct(q: int, r: int, k: int)
    requires q >= 0 && 0 <= r < 1000 && k >= 0
    ensures ((1000 * q + r) * k) / 1000 == q * k + (r * k) / 1000
  {
    assert (1000 * q + r) * k == 1000 * (q * k) + r * k;
    EuclidStep(q * k, r * k);
  }

  lemma EuclidStep(a: int, b: int)
    ensures (1000 * a + b) / 1000 == a + b / 1000
  {
  }

  /** The split computation is the plain product divided by 1000, truncated toward
      zero. */
  lemma DeltaExact(base: int, offset: int)
    requires base > 0 && -200 <= offset <= 200
    ensures Delta(base, offset) == Quotient(base * offset, 1000)
  {
    var q, r := base / 1000, base % 1000;
    assert base == 1000 * q + r;
    if offset >= 0 {
      assert base * offset >= 0 && r * offset >= 0;
      SplitProduct(q, r, offset);
    } else {
      var k := -offset;
      SplitProduct(q, r, k);
      assert base * offset == -(base * k) && q * offset == -(q * k) && r * offset == -(r * k);
      assert base * k >= 0 && r * k >= 0;
    }
  }

  lemma ProductBounds(base: int, offset: int)
    requires base >= 0 && -200 <= offset <= 200
    ensures -200 * base <= base * offset <= 200 * base
  {
  }

  /** The delta is at most a fifth of the base in either direction. */
  lemma DeltaBounds(base: int, offset: int)
    requires base > 0 && -200 <= offset <= 200
    ensures -base <= 5 * Delta(base, offset) <= base
  {
    DeltaExact(base, offset);
    ProductBounds(base, offset);
    hide Delta;
  }

  /** No intermediate value leaves the 64-bit range. */
  lemma NoOverflow(base: int, hash: int)
    requires 0 < base <= MAX64 && 0 <= hash < 0x1_0000_0000
    ensures var offset := Offset(hash);
            Fits64(Quotient(base, 1000) * offset) && Fits64(Remainder(base, 1000) * offset) &&
            Fits64(Delta(base, offset)) && Fits64(StableJitter(base, hash)) &&
            (Delta(base, offset) > 0 ==> Fits64(MAX64 - Delta(base, offset)))
  {
    var offset := Offset(hash);
    DeltaBounds(base, offset);
    var q, r := Quotient(base, 1000), Remainder(base, 1000);
    assert 0 <= q <= base && 0 <= r < 1000 && 1000 * q <= base;
    hide Delta, Offset, Quotient, Remainder;
    ProductBounds(q, offset);
    ProductBounds(r, offset);
  }

  /** The jittered interval is positive and within 80% to 120% of the base, or
      saturates exactly when the exact sum would not fit. */
  lemma JitterBounds(base: int, hash: int)
    requires 0 < base <= MAX64 && 0 <= hash < 0x1_0000_0000
    ensures var r := StableJitter(base, hash);
            0 < r <= MAX64 && 5 * r >= 4 * base && 5 * r <= 6 * base &&
            (r == MAX64 || r == base + Quotient(base * Offset(hash), 1000)) &&
            (base + Quotient(base * Offset(hash), 1000) > MAX64 ==> r == MAX64)
  {
    var offset := Offset(hash);
    DeltaBounds(base, offset);
    DeltaExact(base, offset);
    hide Delta, Offset, Quotient;
  }

  const SECOND := 1_000_000_000
  const MINIMUM_PROGRESS := SECOND
  const DEFAULT_PROGRESS := 5 * SECOND
  const MAXIMUM_PROGRESS := 30 * SECOND

  function ProgressRequeue(requested: int, hash: int): (r: int)
    requires 0 <= hash < 0x1_0000_0000
    ensures MINIMUM_PROGRESS <= r <= MAXIMUM_PROGRESS
  {
    var interval :=
      if requested <= 0 then DEFAULT_PROGRESS
      else if requested < MINIMUM_PROGRESS then MINIMUM_PROGRESS
      else if requested > MAXIMUM_PROGRESS then MAXIMUM_PROGRESS
      else requested;
    var jittered := StableJitter(interval, hash);
    if jittered < MINIMUM_PROGRESS then MINIMUM_PROGRESS
    else if jittered > MAXIMUM_PROGRESS then MAXIMUM_PROGRESS
    else jittered
  }

  /** For a requested interval inside the bounds the answer stays within a fifth of
      it. */
  lemma ProgressFollowsRequest(requested: int, hash: int)
    requires MINIMUM_PROGRESS <= requested <= MAXIMUM_PROGRESS && 0 <= hash < 0x1_0000_0000
    ensures var r := ProgressRequeue(requested, hash); 5 * r >= 4 * requested && 5 * r <= 6 * requested
  {
    JitterBounds(requested, hash);
    hide StableJitter;
  }

  /** The interval as one formula: the hash picks one of 401 equally spaced permille
      offsets, and only a sum beyond 64 bits is cut off. Every offset from -20% to
      +20% in steps of one permille occurs. */
  lemma JitterExact(base: int, hash: int)
    requires 0 < base <= MAX64 && 0 <= hash < 0x1_0000_0000
    ensures var exact := base + Quotient(base * (hash % 401 - 200), 1000);
            StableJitter(base, hash) == if exact > MAX64 then MAX64 else exact
  {
    DeltaExact(base, hash % 401 - 200);
    hide Delta, Quotient;
  }

  lemma EveryOffsetOccurs(base: int, offset: int)
    requires 0 < base <= MAX64 && -200 <= offset <= 200
    ensures exists hash :: 0 <= hash < 0x1_0000_0000 &&
              var exact := base + Quotient(base * offset, 1000); StableJitter(base, hash) == if exact > MAX64 then MAX64 else exact
  {
    var hash := offset + 200;
    assert hash % 401 - 200 == offset;
    JitterExact(base, hash);
  }

  /** Outside the bounds: five seconds for no request, one second for a shorter one,
      thirty for a longer one, each jittered and kept within the bounds. */
  lemma ProgressOutsideBounds(requested: int, hash: int)
    requires 0 <= hash < 0x1_0000_0000
    ensures var offset, r := hash % 401 - 200, ProgressRequeue(requested, hash);
            (requested <= 0 ==> r == 5_000_000_000 + 5_000_000 * offset) &&
            (0 < requested < 1_000_000_000 ==> r == if offset < 0 then 1_000_000_000 else 1_000_000_000 + 1_000_000 * offset) &&
            (requested > 30_000_000_000 ==> r == if offset > 0 then 30_000_000_000 else 30_000_000_000 + 30_000_000 * offset)
  {
    JitterExact(5_000_000_000, hash);
    JitterExact(1_000_000_000, hash);
    JitterExact(30_000_000_000, hash);
    hide StableJitter;
  }

  /** Inside the bounds: the jittered request, kept within the bounds. */
  lemma ProgressInsideBounds(requested: int, hash: int)
    requires 1_000_000_000 <= requested <= 30_000_000_000 && 0 <= hash < 0x1_0000_0000
    ensures var exact := requested + Quotient(requested * (hash % 401 - 200), 1000);
            ProgressRequeue(requested, hash) ==
              if exact < 1_000_000_000 then 1_000_000_000 else if exact > 30_000_000_000 then 30_000_000_000 else exact
  {
    JitterExact(requested, hash);
    JitterBounds(requested, hash);
    hide StableJitter, Quotient;
  }
}
