// Relation masks (optimizer/join_enumerator.hpp): bit i set means relation i
// is in the subset.  A 64-bit mask is a natural number; its bits are read by
// halving.
module Bits {
  function Pow2(n: nat): (p: nat)
    ensures p > 0
  {
    if n == 0 then 1 else 2 * Pow2(n - 1)
  }

  // mask & (1 << i)
  predicate Has(mask: nat, i: nat)
    decreases i
  {
    if i == 0 then mask % 2 == 1 else Has(mask / 2, i - 1)
  }

  // mask & ~(1 << i)
  function Without(mask: nat, i: nat): nat
    decreases i
  {
    if i == 0 then mask - mask % 2 else 2 * Without(mask / 2, i - 1) + mask % 2
  }

  // std::bitset<64>(mask).count()
  function Popcount(mask: nat): nat
  {
    if mask == 0 then 0 else mask % 2 + Popcount(mask / 2)
  }

  // The relations of a subset, out of n.
  ghost function Members(mask: nat, n: nat): set<nat>
  {
    set i: nat | i < n && Has(mask, i)
  }

  lemma {:induction false} ZeroHasNothing(i: nat)
    ensures !Has(0, i)
  {
    if i > 0 { ZeroHasNothing(i - 1); }
  }

  lemma {:induction false} SingletonHas(i: nat, j: nat)
    ensures Has(Pow2(i), j) <==> i == j
    decreases i
  {
    if i > 0 {
      assert Pow2(i) / 2 == Pow2(i - 1) && Pow2(i) % 2 == 0;
      if j > 0 { SingletonHas(i - 1, j - 1); }
    } else if j > 0 {
      ZeroHasNothing(j - 1);
    }
  }

  lemma {:induction false} WithoutHas(mask: nat, i: nat, j: nat)
    ensures Has(Without(mask, i), j) <==> Has(mask, j) && j != i
    decreases i
  {
    if i == 0 {
      if j > 0 { assert Without(mask, 0) / 2 == mask / 2; }
    } else {
      assert Without(mask, i) / 2 == Without(mask / 2, i - 1) && Without(mask, i) % 2 == mask % 2;
      if j > 0 { WithoutHas(mask / 2, i - 1, j - 1); }
    }
  }

  lemma {:induction false} WithoutShrinks(mask: nat, i: nat)
    requires Has(mask, i)
    ensures Without(mask, i) < mask
    ensures Popcount(Without(mask, i)) + 1 == Popcount(mask)
    decreases i
  {
    if i > 0 {
      WithoutShrinks(mask / 2, i - 1);
      assert Without(mask, i) / 2 == Without(mask / 2, i - 1) && Without(mask, i) % 2 == mask % 2;
    }
  }

  lemma {:induction false} BitsBelow(mask: nat, n: nat, i: nat)
    requires mask < Pow2(n) && Has(mask, i)
    ensures i < n
    decreases n
  {
    if n == 0 {
      ZeroHasNothing(i);
    } else if i > 0 {
      BitsBelow(mask / 2, n - 1, i - 1);
    }
  }

  lemma {:induction false} NonZeroHasSome(mask: nat) returns (i: nat)
    requires mask != 0
    ensures Has(mask, i)
  {
    if mask % 2 == 1 {
      i := 0;
    } else {
      i := NonZeroHasSome(mask / 2);
      i := i + 1;
    }
  }

  // Masks with the same bits are the same mask.
  lemma {:induction false} SameBits(a: nat, b: nat)
    requires forall i: nat :: Has(a, i) <==> Has(b, i)
    ensures a == b
    decreases a + b
  {
    if a == 0 && b != 0 {
      var i := NonZeroHasSome(b);
      ZeroHasNothing(i);
    } else if b == 0 && a != 0 {
      var i := NonZeroHasSome(a);
      ZeroHasNothing(i);
    } else if a != 0 {
      assert Has(a, 0) <==> Has(b, 0);
      forall i: nat ensures Has(a / 2, i) <==> Has(b / 2, i) {
        assert Has(a, i + 1) <==> Has(b, i + 1);
      }
      SameBits(a / 2, b / 2);
    }
  }

  lemma {:induction false} FullMask(n: nat, i: nat)
    ensures Has(Pow2(n) - 1, i) <==> i < n
    decreases n
  {
    if n == 0 {
      ZeroHasNothing(i);
    } else if i > 0 {
      FullMask(n - 1, i - 1);
      assert (Pow2(n) - 1) / 2 == Pow2(n - 1) - 1;
    }
  }

  lemma {:induction false} PopcountIsSize(mask: nat, n: nat)
    requires mask < Pow2(n)
    ensures Popcount(mask) == |Members(mask, n)|
    decreases Popcount(mask)
  {
    if mask == 0 {
      forall i: nat ensures !Has(mask, i) { ZeroHasNothing(i); }
      assert Members(mask, n) == {};
    } else {
      var i := NonZeroHasSome(mask);
      BitsBelow(mask, n, i);
      WithoutShrinks(mask, i);
      PopcountIsSize(Without(mask, i), n);
      forall j: nat ensures Has(Without(mask, i), j) <==> Has(mask, j) && j != i { WithoutHas(mask, i, j); }
      assert Members(mask, n) == Members(Without(mask, i), n) + {i};
    }
  }

  lemma {:induction false} SingletonPopcount(i: nat)
    ensures Popcount(Pow2(i)) == 1
  {
    if i > 0 { SingletonPopcount(i - 1); assert Pow2(i) / 2 == Pow2(i - 1); }
    else { assert Popcount(1) == 1 + Popcount(0); }
  }

  lemma {:induction false} Pow2Grows(a: nat, b: nat)
    requires a <= b
    ensures Pow2(a) <= Pow2(b)
    ensures a < b ==> Pow2(a) < Pow2(b)
  {
    if a < b { Pow2Grows(a, b - 1); }
  }
}
