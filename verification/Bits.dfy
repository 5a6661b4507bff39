/** Machine words as natural numbers, seen bit by bit.
    `And`, `Or`, `Shl` and `Shr` are C's operators on unsigned words; `Bit` reads one bit.
    Each operator is characterised by the bits of its result, and `Extensionality`
    turns equal bits back into equal words. */
module Bits {

  predicate Bit(x: nat, i: nat)
    decreases i, x
  {
    if i == 0 then x % 2 == 1 else Bit(x / 2, i - 1)
  }

  function And(x: nat, y: nat): nat {
    if x == 0 || y == 0 then 0
    else (if x % 2 == 1 && y % 2 == 1 then 1 else 0) + 2 * And(x / 2, y / 2)
  }

  function Or(x: nat, y: nat): nat
    decreases x
  {
    if x == 0 then y
    else (if x % 2 == 1 || y % 2 == 1 then 1 else 0) + 2 * Or(x / 2, y / 2)
  }

  function Shl(x: nat, k: nat): nat
    decreases k, x
  {
    if k == 0 then x else 2 * Shl(x, k - 1)
  }

  function Shr(x: nat, k: nat): nat
    decreases k, x
  {
    if k == 0 then x else Shr(x / 2, k - 1)
  }

  /** The low n bits: what a store into an n-bit word keeps. */
  function Low(x: nat, n: nat): nat
    decreases n, x
  {
    if n == 0 then 0 else x % 2 + 2 * Low(x / 2, n - 1)
  }

  /** The n-bit word of all ones, `~0`. */
  function Ones(n: nat): nat {
    if n == 0 then 0 else 1 + 2 * Ones(n - 1)
  }

  /** `~x` in an n-bit word. */
  function Not(x: nat, n: nat): nat
    decreases n, x
  {
    if n == 0 then 0 else (1 - x % 2) + 2 * Not(x / 2, n - 1)
  }

  /** `1U << i`. */
  function OneBit(i: nat): nat {
    Shl(1, i)
  }

  /** `GENMASK` of include/bitops.h and `GENMASK64` of include/mm64.h, in a w-bit word:
      `((~0) << lo) & (~0 >> (w - hi - 1))`. */
  function GenMask(w: nat, hi: nat, lo: nat): nat
    requires hi < w
  {
    And(Low(Shl(Ones(w), lo), w), Shr(Ones(w), w - hi - 1))
  }

  function Pow2(n: nat): (p: nat)
    ensures p > 0
  {
    if n == 0 then 1 else 2 * Pow2(n - 1)
  }

  // ---- The bits of each operator's result ----

  lemma {:induction false} ZeroBit(i: nat)
    ensures !Bit(0, i)
    decreases i
  {
    if i == 0 {
    } else {
      ZeroBit(i - 1);
    }
  }

  lemma {:induction false} AndHalf(x: nat, y: nat)
    ensures And(x, y) / 2 == And(x / 2, y / 2) && (And(x, y) % 2 == 1 <==> x % 2 == 1 && y % 2 == 1)
  {
  }

  lemma {:induction false} OrHalf(x: nat, y: nat)
    ensures Or(x, y) / 2 == Or(x / 2, y / 2) && (Or(x, y) % 2 == 1 <==> x % 2 == 1 || y % 2 == 1)
  {
  }

  lemma {:induction false} AndBit(x: nat, y: nat, i: nat)
    ensures Bit(And(x, y), i) <==> Bit(x, i) && Bit(y, i)
    decreases i
  {
    hide And;
    AndHalf(x, y);
    if i == 0 {
    } else {
      AndBit(x / 2, y / 2, i - 1);
    }
  }

  lemma {:induction false} OrBit(x: nat, y: nat, i: nat)
    ensures Bit(Or(x, y), i) <==> Bit(x, i) || Bit(y, i)
    decreases i
  {
    hide Or;
    OrHalf(x, y);
    if i == 0 {
    } else {
      OrBit(x / 2, y / 2, i - 1);
    }
  }

  lemma EvenHalf(h: nat)
    ensures (2 * h) % 2 == 0 && (2 * h) / 2 == h
  {
  }

  lemma {:induction false} ShlHalf(x: nat, k: nat)
    ensures Shl(x, 0) == x && (k > 0 ==> Shl(x, k) % 2 == 0 && Shl(x, k) / 2 == Shl(x, k - 1))
  {
    if k > 0 { EvenHalf(Shl(x, k - 1)); }
  }

  lemma {:induction false} LowHalf(x: nat, n: nat)
    ensures Low(x, 0) == 0 && (n > 0 ==> Low(x, n) % 2 == x % 2 && Low(x, n) / 2 == Low(x / 2, n - 1))
  {
  }

  lemma {:induction false} NotHalf(x: nat, n: nat)
    ensures Not(x, 0) == 0 && (n > 0 ==> Not(x, n) % 2 == 1 - x % 2 && Not(x, n) / 2 == Not(x / 2, n - 1))
  {
  }

  lemma {:induction false} ShlBit(x: nat, k: nat, i: nat)
    ensures Bit(Shl(x, k), i) <==> i >= k && Bit(x, i - k)
    decreases k
  {
    hide Shl;
    ShlHalf(x, k);
    if k == 0 || i == 0 {
    } else {
      ShlBit(x, k - 1, i - 1);
    }
  }

  lemma {:induction false} ShrBit(x: nat, k: nat, i: nat)
    ensures Bit(Shr(x, k), i) <==> Bit(x, i + k)
    decreases k
  {
    if k == 0 {
    } else {
      ShrBit(x / 2, k - 1, i);
    }
  }

  lemma {:induction false} LowBit(x: nat, n: nat, i: nat)
    ensures Bit(Low(x, n), i) <==> i < n && Bit(x, i)
    decreases n
  {
    hide Low;
    LowHalf(x, n);
    if n == 0 {
      ZeroBit(i);
    } else if i == 0 {
    } else {
      LowBit(x / 2, n - 1, i - 1);
    }
  }

  lemma {:induction false} OnesBit(n: nat, i: nat)
    ensures Bit(Ones(n), i) <==> i < n
    decreases n
  {
    if n == 0 {
      ZeroBit(i);
    } else if i == 0 {
    } else {
      assert Ones(n) / 2 == Ones(n - 1);
      OnesBit(n - 1, i - 1);
    }
  }

  lemma {:induction false} NotBit(x: nat, n: nat, i: nat)
    ensures Bit(Not(x, n), i) <==> i < n && !Bit(x, i)
    decreases n
  {
    hide Not;
    NotHalf(x, n);
    if n == 0 {
      ZeroBit(i);
    } else if i == 0 {
    } else {
      NotBit(x / 2, n - 1, i - 1);
    }
  }

  lemma OneBitBit(b: nat, i: nat)
    ensures Bit(OneBit(b), i) <==> i == b
  {
    ShlBit(1, b, i);
    if i > b {
      assert 1 / 2 == 0;
      ZeroBit(i - b - 1);
    }
  }

  /** The mask macro sets exactly the bits lo..hi. */
  lemma GenMaskBit(w: nat, hi: nat, lo: nat, i: nat)
    requires hi < w
    ensures Bit(GenMask(w, hi, lo), i) <==> lo <= i <= hi
  {
    var a, b := Low(Shl(Ones(w), lo), w), Shr(Ones(w), w - hi - 1);
    AndBit(a, b, i);
    LowBit(Shl(Ones(w), lo), w, i);
    ShlBit(Ones(w), lo, i);
    if i >= lo { OnesBit(w, i - lo); }
    ShrBit(Ones(w), w - hi - 1, i);
    OnesBit(w, i + (w - hi - 1));
  }

  /** Words with the same bits are equal. */
  lemma {:induction false} Extensionality(x: nat, y: nat)
    requires forall i: nat :: Bit(x, i) == Bit(y, i)
    ensures x == y
    decreases x + y
  {
    assert Bit(x, 0) == Bit(y, 0);
    if x == 0 && y == 0 {
    } else {
      forall i: nat ensures Bit(x / 2, i) == Bit(y / 2, i) {
        assert Bit(x, i + 1) == Bit(y, i + 1);
      }
      Extensionality(x / 2, y / 2);
    }
  }

  // ---- Words as numbers ----

  lemma {:induction false} ShrIsDiv(x: nat, k: nat)
    ensures Shr(x, k) == x / Pow2(k)
    decreases k
  {
    if k == 0 {
    } else {
      ShrIsDiv(x / 2, k - 1);
      DivDiv(x, Pow2(k - 1));
    }
  }

  lemma DivDiv(x: nat, p: nat)
    requires p > 0
    ensures (x / 2) / p == x / (2 * p)
    ensures x % (2 * p) == x % 2 + 2 * ((x / 2) % p)
  {
    var q, r := (x / 2) / p, (x / 2) % p;
    assert x / 2 == p * q + r;
    assert x == (2 * p) * q + (2 * r + x % 2) by {
      assert x == 2 * (p * q + r) + x % 2;
      assert 2 * (p * q) == (2 * p) * q;
    }
    DivModUnique(x, 2 * p, q, 2 * r + x % 2);
  }

  lemma DivModUnique(x: int, d: int, q: int, r: int)
    requires d > 0 && 0 <= r < d
    requires x == d * q + r
    ensures x / d == q && x % d == r
  {
    var q', r' := x / d, x % d;
    assert x == d * q' + r';
    assert d * (q - q') == d * q - d * q' == r' - r;
    assert d * (q' - q) == d * q' - d * q == r - r';
    if q > q' {
      MulAtLeast(d, q - q');
    } else if q < q' {
      MulAtLeast(d, q' - q);
    }
  }

  lemma {:induction false} MulAtLeast(d: nat, k: nat)
    requires k > 0
    ensures d * k >= d
  {
    if k == 1 {
    } else {
      MulAtLeast(d, k - 1);
      assert d * k == d * (k - 1) + d;
    }
  }

  lemma {:induction false} LowIsMod(x: nat, n: nat)
    ensures Low(x, n) == x % Pow2(n) < Pow2(n)
    decreases n
  {
    if n == 0 {
    } else {
      LowIsMod(x / 2, n - 1);
      DivDiv(x, Pow2(n - 1));
    }
  }

  lemma BelowPow2(x: nat, n: nat)
    ensures x < Pow2(n) <==> Low(x, n) == x
  {
    LowIsMod(x, n);
    if x < Pow2(n) { DivModUnique(x, Pow2(n), 0, x); }
  }

  lemma HighBitsClear(x: nat, n: nat)
    requires forall i: nat :: i >= n ==> !Bit(x, i)
    ensures x < Pow2(n)
  {
    forall i: nat ensures Bit(Low(x, n), i) == Bit(x, i) {
      LowBit(x, n, i);
    }
    Extensionality(Low(x, n), x);
    BelowPow2(x, n);
  }

  lemma {:induction false} OnesValue(n: nat)
    ensures Ones(n) == Pow2(n) - 1
  {
    if n == 0 {
    } else {
      OnesValue(n - 1);
    }
  }

  lemma {:induction false} ShlValue(x: nat, k: nat)
    ensures Shl(x, k) == x * Pow2(k)
    decreases k
  {
    if k == 0 {
    } else {
      ShlValue(x, k - 1);
      assert 2 * (x * Pow2(k - 1)) == x * (2 * Pow2(k - 1));
    }
  }

  lemma {:induction false} NotValue(x: nat, n: nat)
    requires x < Pow2(n)
    ensures Not(x, n) == Pow2(n) - 1 - x
    decreases n
  {
    if n == 0 {
    } else {
      NotValue(x / 2, n - 1);
    }
  }

  /** The mask macro as a number: hi - lo + 1 ones followed by lo zeros. */
  lemma GenMaskValue(w: nat, hi: nat, lo: nat)
    requires lo <= hi < w
    ensures GenMask(w, hi, lo) == (Pow2(hi - lo + 1) - 1) * Pow2(lo)
  {
    var m := Shl(Ones(hi - lo + 1), lo);
    forall i: nat ensures Bit(GenMask(w, hi, lo), i) == Bit(m, i) {
      GenMaskBit(w, hi, lo, i);
      ShlBit(Ones(hi - lo + 1), lo, i);
      if i >= lo { OnesBit(hi - lo + 1, i - lo); }
    }
    Extensionality(GenMask(w, hi, lo), m);
    ShlValue(Ones(hi - lo + 1), lo);
    OnesValue(hi - lo + 1);
  }

  lemma PowersOfTwo()
    ensures Pow2(0) == 1 && Pow2(5) == 32 && Pow2(9) == 512 && Pow2(12) == 4096 && Pow2(13) == 0x2000
    ensures Pow2(21) == 0x20_0000 && Pow2(30) == 0x4000_0000 && Pow2(31) == 0x8000_0000
    ensures Pow2(32) == 0x1_0000_0000
  {
    assert Pow2(5) == 32;
    assert Pow2(9) == 16 * Pow2(5);
    assert Pow2(12) == 8 * Pow2(9);
    assert Pow2(13) == 2 * Pow2(12);
    assert Pow2(17) == 16 * Pow2(13);
    assert Pow2(21) == 16 * Pow2(17);
    assert Pow2(25) == 16 * Pow2(21);
    assert Pow2(29) == 16 * Pow2(25);
    assert Pow2(30) == 2 * Pow2(29);
  }
}
