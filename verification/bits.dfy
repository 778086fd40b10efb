/** Natural numbers bit by bit: bitwise operations, shifts by powers of two, and equality by bits. */
module Bits {

  function Pow2(n: nat): (p: nat)
    ensures p > 0
  {
    if n == 0 then 1 else 2 * Pow2(n - 1)
  }

  predicate Bit(x: nat, i: nat) {
    if i == 0 then x % 2 == 1 else Bit(x / 2, i - 1)
  }

  function And(a: nat, b: nat): nat {
    if a == 0 then 0 else (if a % 2 == 1 && b % 2 == 1 then 1 else 0) + 2 * And(a / 2, b / 2)
  }

  function Or(a: nat, b: nat): nat
    decreases a + b
  {
    if a == 0 && b == 0 then 0 else (if a % 2 == 1 || b % 2 == 1 then 1 else 0) + 2 * Or(a / 2, b / 2)
  }

  function Xor(a: nat, b: nat): nat
    decreases a + b
  {
    if a == 0 && b == 0 then 0 else (if a % 2 != b % 2 then 1 else 0) + 2 * Xor(a / 2, b / 2)
  }

  lemma {:induction false} ZeroHasNoBits(i: nat)
    ensures !Bit(0, i)
  {
    if i > 0 {
      ZeroHasNoBits(i - 1);
    }
  }

  lemma {:induction false} BitAnd(a: nat, b: nat, i: nat)
    ensures Bit(And(a, b), i) <==> Bit(a, i) && Bit(b, i)
  {
    if a == 0 {
      ZeroHasNoBits(i);
    } else if i > 0 {
      assert And(a, b) / 2 == And(a / 2, b / 2);
      BitAnd(a / 2, b / 2, i - 1);
    }
  }

  lemma {:induction false} BitOr(a: nat, b: nat, i: nat)
    ensures Bit(Or(a, b), i) <==> Bit(a, i) || Bit(b, i)
  {
    if a == 0 && b == 0 {
      ZeroHasNoBits(i);
    } else if i > 0 {
      assert Or(a, b) / 2 == Or(a / 2, b / 2);
      BitOr(a / 2, b / 2, i - 1);
    }
  }

  lemma {:induction false} BitXor(a: nat, b: nat, i: nat)
    ensures Bit(Xor(a, b), i) <==> Bit(a, i) != Bit(b, i)
  {
    if a == 0 && b == 0 {
      ZeroHasNoBits(i);
    } else if i > 0 {
      assert Xor(a, b) / 2 == Xor(a / 2, b / 2);
      BitXor(a / 2, b / 2, i - 1);
    }
  }

  lemma {:induction false} AndBelow(a: nat, b: nat, k: nat)
    requires a < Pow2(k)
    ensures And(a, b) < Pow2(k)
  {
    if a != 0 {
      AndBelow(a / 2, b / 2, k - 1);
    }
  }

  lemma {:induction false} OrBelow(a: nat, b: nat, k: nat)
    requires a < Pow2(k) && b < Pow2(k)
    ensures Or(a, b) < Pow2(k)
    decreases k
  {
    if a != 0 || b != 0 {
      OrBelow(a / 2, b / 2, k - 1);
    }
  }

  lemma {:induction false} XorBelow(a: nat, b: nat, k: nat)
    requires a < Pow2(k) && b < Pow2(k)
    ensures Xor(a, b) < Pow2(k)
    decreases k
  {
    if a != 0 || b != 0 {
      XorBelow(a / 2, b / 2, k - 1);
    }
  }

  /** Multiplying by a power of two moves bits up. */
  lemma {:induction false} BitTimesPow2(x: nat, n: nat, i: nat)
    ensures Bit(x * Pow2(n), i) <==> i >= n && Bit(x, i - n)
    decreases n
  {
    if n > 0 {
      assert x * Pow2(n) == 2 * (x * Pow2(n - 1));
      if i > 0 {
        BitTimesPow2(x, n - 1, i - 1);
      }
    }
  }

  function Quotient(x: nat, d: nat): (q: nat)
    requires d > 0
    ensures q == x / d
  {
    var q: int := x / d;
    NotNegative(q, d, x % d);
    q
  }

  lemma NotNegative(q: int, d: int, r: int)
    requires 0 <= r < d && q * d + r >= 0
    ensures q >= 0
  {
    assert q <= -1 ==> q * d <= -d;
  }

  /** Dividing by a power of two moves bits down. */
  lemma {:induction false} BitDividePow2(x: nat, n: nat, i: nat)
    ensures Bit(Quotient(x, Pow2(n)), i) <==> Bit(x, i + n)
    decreases n
  {
    if n > 0 {
      DivideTwice(x, Pow2(n - 1));
      BitDividePow2(x / 2, n - 1, i);
    }
  }

  lemma DivideTwice(x: nat, d: nat)
    requires d > 0
    ensures x / (2 * d) == (x / 2) / d
  {
    var q, r := (x / 2) / d, (x / 2) % d;
    assert x / 2 == q * d + r;
    assert x == q * (2 * d) + (2 * r + x % 2);
    QuotientIs(x, 2 * d, q, 2 * r + x % 2);
  }

  lemma QuotientIs(x: int, d: int, q: int, r: int)
    requires d > 0 && x == q * d + r && 0 <= r < d
    ensures x / d == q && x % d == r
  {
    var e := x / d - q;
    assert x == (x / d) * d + x % d;
    assert e * d == r - x % d;
    assert e >= 1 ==> e * d >= d;
    assert e <= -1 ==> e * d <= -d;
  }

  /** Reducing modulo a power of two keeps the low bits and clears the rest. */
  lemma {:induction false} BitModPow2(x: nat, k: nat, i: nat)
    ensures Bit(x % Pow2(k), i) <==> i < k && Bit(x, i)
    decreases k
  {
    if k == 0 {
      ZeroHasNoBits(i);
    } else {
      HalveMod(x, Pow2(k - 1));
      if i > 0 {
        BitModPow2(x / 2, k - 1, i - 1);
      }
    }
  }

  lemma HalveMod(x: nat, d: nat)
    requires d > 0
    ensures (x % (2 * d)) % 2 == x % 2
    ensures (x % (2 * d)) / 2 == (x / 2) % d
  {
    var q, r := (x / 2) / d, (x / 2) % d;
    assert x / 2 == q * d + r;
    assert x == q * (2 * d) + (2 * r + x % 2);
    QuotientIs(x, 2 * d, q, 2 * r + x % 2);
  }

  /** The number with exactly the low `w` bits set. */
  lemma {:induction false} BitMask(w: nat, i: nat)
    ensures Bit(Pow2(w) - 1, i) <==> i < w
    decreases w
  {
    if w == 0 {
      ZeroHasNoBits(i);
    } else {
      assert (Pow2(w) - 1) / 2 == Pow2(w - 1) - 1;
      if i > 0 {
        BitMask(w - 1, i - 1);
      }
    }
  }

  /** Subtracting from all ones flips the bits. */
  lemma {:induction false} BitOfComplement(x: nat, k: nat, i: nat)
    requires x < Pow2(k) && i < k
    ensures Bit(Pow2(k) - 1 - x, i) <==> !Bit(x, i)
    decreases k
  {
    var y := Pow2(k) - 1 - x;
    assert Pow2(k) == 2 * Pow2(k - 1);
    assert y % 2 != x % 2 && y / 2 == Pow2(k - 1) - 1 - x / 2;
    if i > 0 {
      BitOfComplement(x / 2, k - 1, i - 1);
    }
  }

  /** Numbers below a power of two are equal if their low bits are. */
  lemma {:induction false} SameBits(x: nat, y: nat, k: nat)
    requires x < Pow2(k) && y < Pow2(k)
    requires forall i :: 0 <= i < k ==> Bit(x, i) == Bit(y, i)
    ensures x == y
    decreases k
  {
    if k > 0 {
      assert Bit(x, 0) == Bit(y, 0);
      forall i | 0 <= i < k - 1
        ensures Bit(x / 2, i) == Bit(y / 2, i)
      {
        assert Bit(x, i + 1) == Bit(y, i + 1);
      }
      SameBits(x / 2, y / 2, k - 1);
    }
  }

  lemma {:induction false} HighBitsAreClear(x: nat, k: nat, i: nat)
    requires x < Pow2(k) && i >= k
    ensures !Bit(x, i)
    decreases k
  {
    if k == 0 {
      ZeroHasNoBits(i);
    } else {
      HighBitsAreClear(x / 2, k - 1, i - 1);
    }
  }

  lemma {:induction false} Pow2Adds(m: nat, n: nat)
    ensures Pow2(m + n) == Pow2(m) * Pow2(n)
    decreases m
  {
    if m > 0 {
      Pow2Adds(m - 1, n);
    }
  }

  lemma {:induction false} Pow2Grows(m: nat, n: nat)
    requires m <= n
    ensures Pow2(m) <= Pow2(n)
    decreases n
  {
    if m < n {
      Pow2Grows(m, n - 1);
    }
  }

  /** Numbers without a common bit are or-ed by adding them. */
  lemma {:induction false} OrAbove(x: nat, y: nat, k: nat)
    requires x < Pow2(k)
    ensures Or(x, y * Pow2(k)) == x + y * Pow2(k)
    decreases k
  {
    if k == 0 {
      OrZero(y);
    } else {
      var z := y * Pow2(k - 1);
      assert y * Pow2(k) == 2 * z;
      OrAbove(x / 2, y, k - 1);
    }
  }

  lemma {:induction false} OrZero(y: nat)
    ensures Or(0, y) == y
  {
    if y != 0 {
      OrZero(y / 2);
    }
  }

  /** The number whose low `k` bits are given. */
  function FromBits(bits: nat -> bool, k: nat): nat
  {
    if k == 0 then 0 else (if bits(0) then 1 else 0) + 2 * FromBits((i: nat) => bits(i + 1), k - 1)
  }

  lemma {:induction false} BitFromBits(bits: nat -> bool, k: nat, i: nat)
    ensures FromBits(bits, k) < Pow2(k)
    ensures Bit(FromBits(bits, k), i) <==> i < k && bits(i)
    decreases k
  {
    if k == 0 {
      ZeroHasNoBits(i);
    } else {
      var up := (j: nat) => bits(j + 1);
      assert FromBits(bits, k) / 2 == FromBits(up, k - 1);
      BitFromBits(up, k - 1, if i > 0 then i - 1 else 0);
    }
  }
}
