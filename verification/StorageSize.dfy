/** Rounding a storage size up to a power of two with 16- and 32-bit counters. */
module StorageSize {
  const BYTES_PER_KB := 1024
  const TWO_16 := 0x1_0000
  const TWO_32 := 0x1_0000_0000
  const TWO_31 := 0x8000_0000

  function Pow2(n: nat): (p: nat)
    ensures p >= 1
  {
    if n == 0 then 1 else 2 * Pow2(n - 1)
  }

  /** The two loop variables: value is a uint16_t, unit a uint32_t. */
  datatype Scale = Scale(value: nat, unit: nat) {
    /** value * unit is computed in 32-bit unsigned arithmetic. */
    function Product(): nat {
      (value * unit) % TWO_32
    }

    /** One pass of the loop body, every assignment truncated to its type. */
    function Next(): Scale {
      var doubled := (value * 2) % TWO_16;
      if doubled >= BYTES_PER_KB then Scale(1, (unit * BYTES_PER_KB) % TWO_32) else Scale(doubled, unit)
    }
  }

  /** The loop variables after n passes. */
  ghost function After(n: nat): Scale {
    if n == 0 then Scale(1, 1) else After(n - 1).Next()
  }

  lemma Pow2Small()
    ensures Pow2(9) == 512 && Pow2(10) == 1024 && Pow2(20) == 0x10_0000 && Pow2(30) == 0x4000_0000 && Pow2(31) == TWO_31
  {
    assert Pow2(5) == 32;
    assert Pow2(10) == 1024;
    assert Pow2(15) == 32768;
    assert Pow2(20) == 0x10_0000;
    assert Pow2(25) == 0x200_0000;
    assert Pow2(30) == 0x4000_0000;
  }

  lemma {:induction false} Pow2Add(a: nat, b: nat)
    ensures Pow2(a + b) == Pow2(a) * Pow2(b)
  {
    if b > 0 {
      Pow2Add(a, b - 1);
      assert Pow2(a + b) == 2 * (Pow2(a) * Pow2(b - 1)) == Pow2(a) * (2 * Pow2(b - 1));
    }
  }

  lemma {:induction false} Pow2Grows(a: nat, b: nat)
    requires a < b
    ensures Pow2(a) < Pow2(b)
  {
    if a + 1 < b { Pow2Grows(a, b - 1); }
  }

  /** The unit after q resets of the value: 1, KB, MB, GB, and then 2^40 wraps to nothing. */
  ghost function UnitAfterResets(q: nat): nat {
    if q == 0 then 1 else if q == 1 then 0x400 else if q == 2 then 0x10_0000 else if q == 3 then 0x4000_0000 else 0
  }

  lemma Pow2InRow(r: nat)
    requires r < 10
    ensures Pow2(r) <= 512
    ensures r > 0 ==> Pow2(r) == 2 * Pow2(r - 1)
  {
    Pow2Small();
    if r < 9 { Pow2Grows(r, 9); }
  }

  lemma NextInRow(s: Scale)
    requires s.value < 512
    ensures s.Next() == Scale(2 * s.value, s.unit)
  {
  }

  lemma NextRow(q: nat)
    ensures Scale(512, UnitAfterResets(q)).Next() == Scale(1, UnitAfterResets(q + 1))
  {
  }

  /** Pass 10q + r is value 2^r on the q-th unit: each row holds the ten powers below 1024. */
  lemma {:induction false} RowAndColumn(n: nat, q: nat, r: nat)
    requires r < 10 && n == 10 * q + r
    ensures After(n) == Scale(Pow2(r), UnitAfterResets(q))
    decreases n
  {
    if r > 0 {
      RowAndColumn(n - 1, q, r - 1);
      Pow2InRow(r);
      NextInRow(After(n - 1));
    } else if q > 0 {
      RowAndColumn(n - 1, q - 1, 9);
      assert Pow2(9) == 512 by { Pow2Small(); }
      NextRow(q - 1);
    }
  }

  lemma Pow2OnUnit(q: nat, r: nat)
    requires r < 10 && q <= 3
    ensures Pow2(r) * UnitAfterResets(q) == Pow2(10 * q + r)
  {
    UnitIsPow2(q);
    Pow2Add(10 * q, r);
    assert Pow2(r) * UnitAfterResets(q) == UnitAfterResets(q) * Pow2(r);
  }

  lemma UnitIsPow2(q: nat)
    requires q <= 3
    ensures Pow2(10 * q) == UnitAfterResets(q)
  {
    Pow2Small();
    if q == 0 {
      assert Pow2(0) == 1;
    } else if q == 1 {
      assert 10 * q == 10;
    } else if q == 2 {
      assert 10 * q == 20;
    } else {
      assert 10 * q == 30;
    }
  }

  lemma MultipleWraps(k: nat, v: nat)
    requires v == 4 * k
    ensures (v * 0x4000_0000) % TWO_32 == 0
  {
    assert v * 0x4000_0000 == k * TWO_32;
  }

  lemma Pow2Fits(n: nat)
    requires n <= 31
    ensures Pow2(n) < TWO_32
  {
    Pow2Small();
    if n < 31 { Pow2Grows(n, 31); }
  }

  lemma ProductFits(q: nat, r: nat)
    requires r < 10 && 10 * q + r <= 31
    ensures Scale(Pow2(r), UnitAfterResets(q)).Product() == Pow2(10 * q + r)
  {
    Pow2OnUnit(q, r);
    Pow2Fits(10 * q + r);
  }

  lemma ProductWraps(r: nat)
    requires 2 <= r < 10
    ensures Scale(Pow2(r), UnitAfterResets(3)).Product() == 0
  {
    assert Pow2(r) == 4 * Pow2(r - 2);
    MultipleWraps(Pow2(r - 2), Pow2(r));
  }

  lemma ProductOnUnit(q: nat, r: nat)
    requires r < 10
    ensures Scale(Pow2(r), UnitAfterResets(q)).Product() == if 10 * q + r <= 31 then Pow2(10 * q + r) else 0
  {
    if 10 * q + r <= 31 {
      ProductFits(q, r);
    } else if q == 3 {
      ProductWraps(r);
    } else {
      assert UnitAfterResets(q) == 0;
    }
  }

  /** The product visits every power of two up to 2^31 once, in order, and is zero ever after. */
  lemma {:induction false} ProductVisitsEachPower(n: nat)
    ensures After(n).Product() == if n <= 31 then Pow2(n) else 0
  {
    RowAndColumn(n, n / 10, n % 10);
    ProductOnUnit(n / 10, n % 10);
  }

  /** The loop leaves after pass n exactly when the product has reached the size. */
  ghost predicate Leaves(size: nat, n: nat) {
    After(n).Product() >= size
  }

  /** The loop terminates for exactly the sizes up to 2^31; past that it spins forever. */
  lemma TerminatesExactlyUpTo2To31(size: nat)
    ensures (exists n: nat :: Leaves(size, n)) <==> size <= TWO_31
  {
    Pow2Small();
    if size <= TWO_31 {
      ProductVisitsEachPower(31);
      assert Leaves(size, 31);
    } else {
      forall n: nat ensures !Leaves(size, n) {
        ProductVisitsEachPower(n);
        if n < 31 { Pow2Grows(n, 31); }
      }
    }
  }

  ghost predicate IsLeastPow2AtLeast(r: nat, size: nat) {
    && (exists n: nat :: r == Pow2(n))
    && r >= size
    && forall m: nat :: Pow2(m) >= size ==> r <= Pow2(m)
  }

  /** size is the storage size in megabytes; the bound is the one proved exact above. */
  method RoundStorageSize(size: int) returns (r: int)
    requires size <= TWO_31
    ensures size < 0 ==> r == size
    ensures size >= 0 ==> r >= 1 && IsLeastPow2AtLeast(r, size)
  {
    if size < 0 {
      return size;
    }
    var value: nat, unit: nat := 1, 1;
    ghost var n: nat := 0;
    while (value * unit) % TWO_32 < size
      invariant n <= 31 && Scale(value, unit) == After(n)
      invariant Scale(value, unit).Product() == Pow2(n)
      invariant forall m: nat :: m < n ==> Pow2(m) < size
      decreases 31 - n
    {
      Pow2Small();
      value := (value * 2) % TWO_16;
      if value >= BYTES_PER_KB {
        value := 1;
        unit := (unit * BYTES_PER_KB) % TWO_32;
      }
      n := n + 1;
      ProductVisitsEachPower(n);
    }
    forall m: nat | Pow2(m) >= size ensures Pow2(n) <= Pow2(m) {
      if m > n { Pow2Grows(n, m); }
    }
    return (value * unit) % TWO_32;
  }
}
