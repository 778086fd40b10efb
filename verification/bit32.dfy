/**
 The bit32 library of auxlib/bit32.go, with the fixed-width arithmetic of Go written out: a conversion to uint32
 and every shift are reductions modulo 2^32.  Specified by section 6.7 of the Lua 5.2 Reference Manual.
 */
module Bit32 {
  import opened Bits

  const TWO32: nat := 0x1_0000_0000

  const TWO63: int := 0x8000_0000_0000_0000

  type Word = x: int | 0 <= x < TWO32

  /** Bit32Default64 */
  const ONES: Word := 0xFFFF_FFFF

  lemma Pow32()
    ensures Pow2(31) == 0x8000_0000 && Pow2(32) == TWO32
  {
    assert Pow2(8) == 0x100;
    Pow2Adds(8, 8);
    Pow2Adds(16, 15);
    Pow2Adds(16, 16);
    assert Pow2(7) == 0x80;
    Pow2Adds(8, 7);
  }

  // ---------------------------------------------------------------- Go's uint32

  /** uint32(n) of an int or int64 */
  function Uint32(n: int): Word {
    n % TWO32
  }

  /** a << n */
  function Shl(a: Word, n: nat): Word {
    (a * Pow2(n)) % TWO32
  }

  /** a >> n */
  function Shr(a: Word, n: nat): (r: Word)
    ensures r <= a
  {
    QuotientShrinks(a, Pow2(n));
    a / Pow2(n)
  }

  lemma QuotientShrinks(a: nat, d: nat)
    requires d > 0
    ensures 0 <= a / d <= a
  {
    var q := a / d;
    if q > 0 {
      MultipleIsLarger(q, d);
    }
  }

  lemma MultipleIsLarger(q: nat, d: nat)
    requires d > 0
    ensures q * d >= q
  {
    assert q * d == q * (d - 1) + q;
  }

  function BitAnd32(a: Word, b: Word): Word {
    Pow32();
    AndBelow(a, b, 32);
    And(a, b)
  }

  function BitOr32(a: Word, b: Word): Word {
    Pow32();
    OrBelow(a, b, 32);
    Or(a, b)
  }

  function BitXor32(a: Word, b: Word): Word {
    Pow32();
    XorBelow(a, b, 32);
    Xor(a, b)
  }

  /** 1<<uint32(width) - 1 */
  function Mask(width: nat): Word {
    Uint32(Shl(1, width) - 1)
  }

  lemma BitShl(a: Word, n: nat, i: nat)
    requires i < 32
    ensures Bit(Shl(a, n), i) <==> i >= n && Bit(a, i - n)
  {
    Pow32();
    BitModPow2(a * Pow2(n), 32, i);
    BitTimesPow2(a, n, i);
  }

  lemma BitShr(a: Word, n: nat, i: nat)
    ensures Bit(Shr(a, n), i) <==> Bit(a, i + n)
  {
    BitDividePow2(a, n, i);
  }

  lemma BitOfMask(width: nat, i: nat)
    requires 1 <= width <= 32
    ensures Bit(Mask(width), i) <==> i < width
  {
    MaskIs(width);
    hide Bit, Mask;
    BitMask(width, i);
  }

  lemma MaskIs(width: nat)
    requires 1 <= width <= 32
    ensures Mask(width) == Pow2(width) - 1
  {
    hide Pow2;
    Pow32();
    if width < 32 {
      Pow2Grows(width, 31);
      SmallIsUint32(Pow2(width));
      SmallIsUint32(Pow2(width) - 1);
    }
  }

  lemma WordsAreEqual(x: Word, y: Word)
    requires forall i :: 0 <= i < 32 ==> Bit(x, i) == Bit(y, i)
    ensures x == y
  {
    Pow32();
    SameBits(x, y, 32);
  }

  lemma NoBitsAbove(x: Word, i: nat)
    requires i >= 32
    ensures !Bit(x, i)
  {
    Pow32();
    HighBitsAreClear(x, 32, i);
  }

  // ---------------------------------------------------------------- fields

  datatype Result<T> = Ok(value: T) | Error

  /** offset < 0 || offset > 31 || width < 1 || width > 32 || (offset+width) > 32 raises an error. */
  predicate Field(offset: int, width: int) {
    0 <= offset <= 31 && 1 <= width <= 32 && offset + width <= 32
  }

  /** (a >> uint32(offset)) & (1<<uint32(width) - 1) */
  function FieldOf(a: Word, offset: nat, width: nat): Word {
    BitAnd32(Shr(a, offset), Mask(width))
  }

  function Extract(a: int, offset: int, width: int): Result<Word> {
    if Field(offset, width) then Ok(FieldOf(Uint32(a), offset, width)) else Error
  }

  /** extract and replace refuse exactly the fields that do not lie within the 32 bits. */
  lemma ErrorIff(a: int, v: int, offset: int, width: int)
    ensures Extract(a, offset, width).Error? <==> offset < 0 || width < 1 || offset + width > 32
    ensures Replaced(a, v, offset, width).Error? <==> offset < 0 || width < 1 || offset + width > 32
  {
  }

  /** A conversion to uint32 is modulo 2^32, so negative numbers are in two's complement. */
  lemma Uint32IsTwosComplement(n: int, i: nat)
    requires i < 32
    ensures (n - Uint32(n)) % TWO32 == 0
    ensures 0 <= n < TWO32 ==> Uint32(n) == n
    ensures Bit(Uint32(-1 - n), i) <==> !Bit(Uint32(n), i)
  {
    var q, x: nat := n / TWO32, Uint32(n);
    assert n == q * TWO32 + x;
    assert -1 - n == (-1 - q) * TWO32 + (TWO32 - 1 - x);
    QuotientIs(-1 - n, TWO32, -1 - q, TWO32 - 1 - x);
    QuotientIs(n - x, TWO32, q, 0);
    Pow32();
    BitOfComplement(x, 32, i);
  }

  /** The word `a` with the low `width` bits of `v` in place of its field. */
  function WithField(a: Word, v: Word, offset: nat, width: nat): Word {
    Pow32();
    BitFromBits(FieldBits(a, v, offset, width), 32, 0);
    FromBits(FieldBits(a, v, offset, width), 32)
  }

  function FieldBits(a: Word, v: Word, offset: nat, width: nat): nat -> bool {
    (i: nat) => if offset <= i < offset + width then Bit(v, i - offset) else Bit(a, i)
  }

  function Replaced(a: int, v: int, offset: int, width: int): Result<Word> {
    if Field(offset, width) then Ok(WithField(Uint32(a), Uint32(v), offset, width)) else Error
  }

  lemma BitOfWithField(a: Word, v: Word, offset: nat, width: nat, i: nat)
    requires i < 32
    ensures Bit(WithField(a, v, offset, width), i) <==>
            if offset <= i < offset + width then Bit(v, i - offset) else Bit(a, i)
  {
    hide Bit, FromBits;
    BitFromBits(FieldBits(a, v, offset, width), 32, i);
  }

  lemma BitOfField(a: Word, offset: nat, width: nat, i: nat)
    requires Field(offset, width)
    ensures Bit(FieldOf(a, offset, width), i) <==> i < width && Bit(a, i + offset)
  {
    hide Bit, And, Shr, Mask;
    BitAnd(Shr(a, offset), Mask(width), i);
    BitShr(a, offset, i);
    BitOfMask(width, i);
  }

  method Replace(n: int, value: int, offset: int, width: int) returns (r: Result<Word>)
    ensures r == Replaced(n, value, offset, width)
    ensures r.Error? <==> offset < 0 || width < 1 || offset + width > 32
  {
    var a := Uint32(n);
    var v := Uint32(value);
    if !Field(offset, width) {
      return Error;
    }
    ghost var a0, v0 := a, v;
    a := BitXor32(a, Shl(FieldOf(a, offset, width), offset));
    v := Shl(Shr(Shl(v, 32 - width), 32 - width), offset);
    ReplaceIsWithField(a0, v0, offset, width);
    return Ok(BitOr32(a, v));
  }

  lemma BitOfCleared(a: Word, offset: nat, width: nat, i: nat)
    requires Field(offset, width) && i < 32
    ensures Bit(BitXor32(a, Shl(FieldOf(a, offset, width), offset)), i) <==>
            !(offset <= i < offset + width) && Bit(a, i)
  {
    hide Bit, Xor, Shl, FieldOf;
    BitXor(a, Shl(FieldOf(a, offset, width), offset), i);
    BitShl(FieldOf(a, offset, width), offset, i);
    if i >= offset {
      BitOfField(a, offset, width, i - offset);
    }
  }

  lemma BitOfPlaced(v: Word, offset: nat, width: nat, i: nat)
    requires Field(offset, width) && i < 32
    ensures Bit(Shl(Shr(Shl(v, 32 - width), 32 - width), offset), i) <==>
            offset <= i < offset + width && Bit(v, i - offset)
  {
    var high := Shl(v, 32 - width);
    var low := Shr(high, 32 - width);
    BitShl(low, offset, i);
    if i >= offset {
      BitShr(high, 32 - width, i - offset);
      if i - offset < width {
        BitShl(v, 32 - width, i - offset + 32 - width);
      } else {
        NoBitsAbove(high, i - offset + 32 - width);
      }
    }
  }

  lemma ReplaceIsWithField(a: Word, v: Word, offset: nat, width: nat)
    requires Field(offset, width)
    ensures BitOr32(BitXor32(a, Shl(FieldOf(a, offset, width), offset)),
                    Shl(Shr(Shl(v, 32 - width), 32 - width), offset)) == WithField(a, v, offset, width)
  {
    var cleared := BitXor32(a, Shl(FieldOf(a, offset, width), offset));
    var placed := Shl(Shr(Shl(v, 32 - width), 32 - width), offset);
    forall i | 0 <= i < 32
      ensures Bit(BitOr32(cleared, placed), i) == Bit(WithField(a, v, offset, width), i)
    {
      BitOr(cleared, placed, i);
      BitOfCleared(a, offset, width, i);
      BitOfPlaced(v, offset, width, i);
      BitOfWithField(a, v, offset, width, i);
    }
    WordsAreEqual(BitOr32(cleared, placed), WithField(a, v, offset, width));
  }

  // ---------------------------------------------------------------- laws of fields

  /** The low `width` bits of a word. */
  function Low(v: Word, width: nat): Word {
    ModShrinks(v, Pow2(width));
    v % Pow2(width)
  }

  lemma ModShrinks(v: nat, d: nat)
    requires d > 0
    ensures 0 <= v % d <= v
  {
    if v < d {
      QuotientIs(v, d, 0, v);
    }
  }

  lemma BitOfLow(v: Word, width: nat, i: nat)
    ensures Bit(Low(v, width), i) <==> i < width && Bit(v, i)
  {
    BitModPow2(v, width, i);
  }

  lemma WordIsUint32(w: Word)
    ensures Uint32(w) == w
  {
  }

  lemma FieldIsNumber(a: Word, offset: nat, width: nat)
    requires Field(offset, width)
    ensures FieldOf(a, offset, width) == Low(Shr(a, offset), width)
  {
    hide Bit, FieldOf, Low, Shr;
    forall i | 0 <= i < 32
      ensures Bit(FieldOf(a, offset, width), i) == Bit(Low(Shr(a, offset), width), i)
    {
      BitOfField(a, offset, width, i);
      BitOfLow(Shr(a, offset), width, i);
      BitShr(a, offset, i);
    }
    WordsAreEqual(FieldOf(a, offset, width), Low(Shr(a, offset), width));
  }

  /** extract is the field read as a number. */
  lemma ExtractIsField(a: int, offset: int, width: int)
    requires Field(offset, width)
    ensures Extract(a, offset, width) == Ok((Uint32(a) / Pow2(offset)) % Pow2(width))
  {
    FieldIsNumber(Uint32(a), offset, width);
  }

  lemma FieldAfterWrite(a: Word, v: Word, offset: nat, width: nat)
    requires Field(offset, width)
    ensures FieldOf(WithField(a, v, offset, width), offset, width) == Low(v, width)
  {
    hide Bit, FieldOf, Low, WithField;
    var b := WithField(a, v, offset, width);
    forall i | 0 <= i < 32
      ensures Bit(FieldOf(b, offset, width), i) == Bit(Low(v, width), i)
    {
      BitOfField(b, offset, width, i);
      BitOfLow(v, width, i);
      if i < width {
        BitOfWithField(a, v, offset, width, i + offset);
      }
    }
    WordsAreEqual(FieldOf(b, offset, width), Low(v, width));
  }

  /** Reading a field just written gives the value modulo 2^width. */
  lemma ExtractAfterReplace(a: int, v: int, offset: int, width: int)
    requires Field(offset, width)
    ensures Extract(Replaced(a, v, offset, width).value, offset, width) == Ok(Uint32(v) % Pow2(width))
  {
    FieldAfterWrite(Uint32(a), Uint32(v), offset, width);
    WordIsUint32(Replaced(a, v, offset, width).value);
    hide Uint32, FieldOf, WithField;
  }

  predicate Disjoint(o1: int, w1: int, o2: int, w2: int) {
    o1 + w1 <= o2 || o2 + w2 <= o1
  }

  lemma OtherFieldAfterWrite(a: Word, v: Word, o1: nat, w1: nat, o2: nat, w2: nat)
    requires Field(o1, w1) && Field(o2, w2) && Disjoint(o1, w1, o2, w2)
    ensures FieldOf(WithField(a, v, o1, w1), o2, w2) == FieldOf(a, o2, w2)
  {
    hide Bit, FieldOf, WithField;
    var b := WithField(a, v, o1, w1);
    forall i | 0 <= i < 32
      ensures Bit(FieldOf(b, o2, w2), i) == Bit(FieldOf(a, o2, w2), i)
    {
      BitOfField(b, o2, w2, i);
      BitOfField(a, o2, w2, i);
      if i < w2 {
        BitOfWithField(a, v, o1, w1, i + o2);
      }
    }
    WordsAreEqual(FieldOf(b, o2, w2), FieldOf(a, o2, w2));
  }

  /** Writing a field does not change a disjoint one. */
  lemma DisjointFieldUnchanged(a: int, v: int, o1: int, w1: int, o2: int, w2: int)
    requires Field(o1, w1) && Field(o2, w2) && Disjoint(o1, w1, o2, w2)
    ensures Extract(Replaced(a, v, o1, w1).value, o2, w2) == Extract(a, o2, w2)
  {
    OtherFieldAfterWrite(Uint32(a), Uint32(v), o1, w1, o2, w2);
    WordIsUint32(Replaced(a, v, o1, w1).value);
    hide Uint32, FieldOf, WithField;
  }

  lemma WriteBackField(a: Word, offset: nat, width: nat)
    requires Field(offset, width)
    ensures WithField(a, FieldOf(a, offset, width), offset, width) == a
  {
    hide Bit, FieldOf, WithField;
    var v := FieldOf(a, offset, width);
    forall i | 0 <= i < 32
      ensures Bit(WithField(a, v, offset, width), i) == Bit(a, i)
    {
      BitOfWithField(a, v, offset, width, i);
      if offset <= i < offset + width {
        BitOfField(a, offset, width, i - offset);
      }
    }
    WordsAreEqual(WithField(a, v, offset, width), a);
  }

  /** Writing back what was read changes nothing. */
  lemma ReplaceByExtract(a: int, offset: int, width: int)
    requires Field(offset, width)
    ensures Replaced(a, Extract(a, offset, width).value, offset, width) == Ok(Uint32(a))
  {
    WriteBackField(Uint32(a), offset, width);
    WordIsUint32(Extract(a, offset, width).value);
    hide Uint32, FieldOf, WithField;
  }

  lemma OverwriteField(a: Word, u: Word, v: Word, offset: nat, width: nat)
    requires Field(offset, width)
    ensures WithField(WithField(a, u, offset, width), v, offset, width) == WithField(a, v, offset, width)
  {
    hide Bit, WithField;
    var b := WithField(a, u, offset, width);
    forall i | 0 <= i < 32
      ensures Bit(WithField(b, v, offset, width), i) == Bit(WithField(a, v, offset, width), i)
    {
      BitOfWithField(b, v, offset, width, i);
      BitOfWithField(a, v, offset, width, i);
      BitOfWithField(a, u, offset, width, i);
    }
    WordsAreEqual(WithField(b, v, offset, width), WithField(a, v, offset, width));
  }

  /** The last write to a field wins. */
  lemma LastReplaceWins(a: int, u: int, v: int, offset: int, width: int)
    requires Field(offset, width)
    ensures Replaced(Replaced(a, u, offset, width).value, v, offset, width) == Replaced(a, v, offset, width)
  {
    OverwriteField(Uint32(a), Uint32(u), Uint32(v), offset, width);
    WordIsUint32(Replaced(a, u, offset, width).value);
    hide Uint32, WithField;
  }

  lemma WritesCommute(a: Word, u: Word, v: Word, o1: nat, w1: nat, o2: nat, w2: nat)
    requires Field(o1, w1) && Field(o2, w2) && Disjoint(o1, w1, o2, w2)
    ensures WithField(WithField(a, u, o1, w1), v, o2, w2) == WithField(WithField(a, v, o2, w2), u, o1, w1)
  {
    hide Bit, WithField;
    var b, c := WithField(a, u, o1, w1), WithField(a, v, o2, w2);
    forall i | 0 <= i < 32
      ensures Bit(WithField(b, v, o2, w2), i) == Bit(WithField(c, u, o1, w1), i)
    {
      BitOfWithField(b, v, o2, w2, i);
      BitOfWithField(c, u, o1, w1, i);
      BitOfWithField(a, u, o1, w1, i);
      BitOfWithField(a, v, o2, w2, i);
    }
    WordsAreEqual(WithField(b, v, o2, w2), WithField(c, u, o1, w1));
  }

  /** Writes to disjoint fields commute. */
  lemma DisjointReplacesCommute(a: int, u: int, v: int, o1: int, w1: int, o2: int, w2: int)
    requires Field(o1, w1) && Field(o2, w2) && Disjoint(o1, w1, o2, w2)
    ensures Replaced(Replaced(a, u, o1, w1).value, v, o2, w2) == Replaced(Replaced(a, v, o2, w2).value, u, o1, w1)
  {
    WritesCommute(Uint32(a), Uint32(u), Uint32(v), o1, w1, o2, w2);
    WordIsUint32(Replaced(a, u, o1, w1).value);
    WordIsUint32(Replaced(a, v, o2, w2).value);
    hide Uint32, WithField;
  }

  // ---------------------------------------------------------------- shifts

  function Lshift(a: int, n: int): Word {
    if n < 0 then Shr(Uint32(a), Uint32(-n)) else Shl(Uint32(a), Uint32(n))
  }

  function Rshift(a: int, n: int): Word {
    if n < 0 then Shl(Uint32(a), Uint32(-n)) else Shr(Uint32(a), Uint32(n))
  }

  /** The manual's logical shift to the left by `n` places; a negative `n` shifts to the right. */
  function ShiftedLeft(w: Word, n: int): int {
    if n >= 0 then (w * Pow2(n)) % TWO32 else w / Pow2(-n)
  }

  /** The displacements whose conversion to uint32 does not bring bits back. */
  predicate Faithful(n: int) {
    var d := if n < 0 then -n else n;
    d < TWO32 || d % TWO32 >= 32
  }

  lemma ShlOut(w: Word, n: nat)
    requires n >= 32
    ensures Shl(w, n) == 0 && Shr(w, n) == 0
  {
    hide Shl, Shr, Bit;
    forall i | 0 <= i < 32
      ensures Bit(Shl(w, n), i) == Bit(0, i) && Bit(Shr(w, n), i) == Bit(0, i)
    {
      ZeroHasNoBits(i);
      BitShl(w, n, i);
      BitShr(w, n, i);
      NoBitsAbove(w, i + n);
    }
    WordsAreEqual(Shl(w, n), 0);
    WordsAreEqual(Shr(w, n), 0);
  }

  /** A word the code and the manual shift differently when the displacement wraps round. */
  lemma WrappedShift(n: int)
    requires !Faithful(n)
    ensures ShiftedLeft(0x8000_0000, n) == ShiftedLeft(1, n) == 0
    ensures Lshift(0x8000_0000, n) != 0 || Lshift(1, n) != 0
  {
    var d := if n < 0 then -n else n;
    var c := Uint32(d);
    ShlOut(0x8000_0000, d);
    ShlOut(1, d);
    hide Shl, Shr, Bit;
    ZeroHasNoBits(31 - c);
    ZeroHasNoBits(c);
    if n < 0 {
      BitShr(0x8000_0000, c, 31 - c);
      Pow32();
      BitTimesPow2(1, 31, 31);
      assert Bit(1, 0);
      assert Bit(Lshift(0x8000_0000, n), 31 - c);
    } else {
      BitShl(1, c, c);
      assert Bit(1, 0);
      assert Bit(Lshift(1, n), c);
    }
  }

  /** The shifts are the manual's for every word exactly if the displacement survives its conversion. */
  lemma ShiftsIff(n: int)
    ensures (forall w: Word :: Lshift(w, n) == ShiftedLeft(w, n)) <==> Faithful(n)
    ensures (forall w: Word :: Rshift(w, n) == ShiftedLeft(w, -n)) <==> Faithful(n)
  {
    var d := if n < 0 then -n else n;
    if Faithful(n) {
      forall w: Word
        ensures Lshift(w, n) == ShiftedLeft(w, n) && Rshift(w, n) == ShiftedLeft(w, -n)
      {
        FaithfulShift(w, n);
      }
    } else {
      WrappedShift(n);
      WrappedShift(-n);
      assert Rshift(1, n) == Lshift(1, -n) && Rshift(0x8000_0000, n) == Lshift(0x8000_0000, -n);
      hide Lshift, Rshift, ShiftedLeft;
      var one: Word, top: Word := 1, 0x8000_0000;
      assert Lshift(one, n) != ShiftedLeft(one, n) || Lshift(top, n) != ShiftedLeft(top, n);
    }
  }

  lemma FaithfulShift(w: Word, n: int)
    requires Faithful(n)
    ensures Lshift(w, n) == ShiftedLeft(w, n) && Rshift(w, n) == ShiftedLeft(w, -n)
  {
    var d := if n < 0 then -n else n;
    if d < TWO32 {
      assert Uint32(d) == d;
    } else {
      ShlOut(w, d);
      ShlOut(w, Uint32(d));
    }
  }

  /** uint32(f) of a float; out of range the result is left to the platform. */
  function FromFloat(f: int, wild: int -> Word): Word {
    if 0 <= f < TWO32 then f else wild(f)
  }

  function Arshift(a: int, n: int, wild: int -> Word): Word {
    var w := Uint32(a);
    if n < 0 then
      Shl(w, Uint32(-n))
    else if Shr(w, 31) != 0 then
      BitOr32(Shr(w, Uint32(n)), Shl(FromFloat(Pow2(n) - 1, wild), Uint32(32 - n)))
    else
      Shr(w, Uint32(n))
  }

  /** The word as a two's complement number. */
  function Signed(w: Word): int {
    if w >= 0x8000_0000 then w - TWO32 else w
  }

  /** The manual's arithmetic shift to the right: floor division of the signed value. */
  function ShiftedRight(w: Word, n: int): int {
    if n >= 0 then (Signed(w) / Pow2(n)) % TWO32 else (w * Pow2(-n)) % TWO32
  }

  lemma SignBit(w: Word)
    ensures Shr(w, 31) != 0 <==> w >= 0x8000_0000
  {
    Pow32();
    assert Shr(w, 31) == w / 0x8000_0000;
  }

  lemma QuotientBelow(w: nat, p: nat, h: nat)
    requires p > 0 && w < p * h
    ensures w / p < h
  {
    var q := w / p;
    assert w == q * p + w % p;
    assert q * p == h * p + (q - h) * p;
    assert q >= h ==> (q - h) * p >= 0;
  }

  /** Floor division of the signed value, from the unsigned quotient. */
  lemma SignedQuotient(w: Word, p: nat, h: nat)
    requires p > 0 && p * h == TWO32 && 0 < h <= TWO32
    ensures w / p < h
    ensures ((w - TWO32) / p) % TWO32 == w / p + TWO32 - h
  {
    QuotientBelow(w, p, h);
    var q, r := w / p, w % p;
    assert w == q * p + r;
    assert w - TWO32 == q * p - h * p + r == (q - h) * p + r;
    QuotientIs(w - TWO32, p, q - h, r);
    QuotientIs(q - h, TWO32, -1, q - h + TWO32);
  }

  lemma MinusOneTimes(p: int, h: int)
    ensures (p - 1) * h == p * h - h
  {
  }

  lemma OnesShifted(n: nat, ones: Word)
    requires n <= 32 && ones == Pow2(n) - 1
    ensures Pow2(n) * Pow2(32 - n) == TWO32 && 0 < Pow2(32 - n) <= TWO32
    ensures Shl(ones, 32 - n) == ones * Pow2(32 - n) == TWO32 - Pow2(32 - n)
  {
    Pow32();
    var p, h := Pow2(n), Pow2(32 - n);
    Pow2Adds(n, 32 - n);
    Pow2Grows(32 - n, 32);
    hide Pow2;
    MinusOneTimes(p, h);
    QuotientIs((p - 1) * h, TWO32, 0, (p - 1) * h);
  }

  lemma ArshiftNegative(w: Word, n: nat, ones: Word)
    requires w >= 0x8000_0000 && n <= 32 && ones == Pow2(n) - 1
    ensures BitOr32(Shr(w, n), Shl(ones, 32 - n)) == (Signed(w) / Pow2(n)) % TWO32
  {
    OnesShifted(n, ones);
    SignedQuotient(w, Pow2(n), Pow2(32 - n));
    OrAbove(Shr(w, n), ones, 32 - n);
    hide Pow2, Or, Shl;
  }

  lemma MinusOne(x: int, p: int)
    requires -p <= x < 0 && p > 0
    ensures x / p == -1
  {
    QuotientIs(x, p, -1, x + p);
  }

  lemma ArshiftPositive(w: Word, n: nat)
    requires w < 0x8000_0000
    ensures Shr(w, n) == ShiftedRight(w, n)
  {
    QuotientShrinks(w, Pow2(n));
    QuotientIs(w / Pow2(n), TWO32, 0, w / Pow2(n));
  }

  lemma ArshiftOut(w: Word, n: nat, ones: Word)
    requires w >= 0x8000_0000 && 32 < n < TWO32
    ensures BitOr32(Shr(w, n), Shl(ones, Uint32(32 - n))) == 0
    ensures ShiftedRight(w, n) == TWO32 - 1
  {
    ShlOut(w, n);
    ShlOut(ones, Uint32(32 - n));
    Pow32();
    Pow2Grows(32, n);
    MinusOne(Signed(w), Pow2(n));
  }

  /**
   arshift is the manual's arithmetic shift, except that a negative number shifted by more than 32 places
   becomes 0 and not 0xFFFFFFFF.
   */
  lemma ArshiftIff(a: int, n: int, wild: int -> Word)
    requires -0x1_0000_0000 < n < 0x1_0000_0000
    ensures Arshift(a, n, wild) == ShiftedRight(Uint32(a), n) <==> n <= 32 || Uint32(a) < 0x8000_0000
  {
    hide Shl, Shr, Pow2, Or, ShiftedRight, Uint32;
    var w := Uint32(a);
    SignBit(w);
    SmallIsUint32(if n < 0 then -n else n);
    if n < 0 {
      ArshiftLeft(w, -n);
    } else if w < 0x8000_0000 {
      ArshiftPositive(w, n);
    } else if n <= 32 {
      SmallIsUint32(32 - n);
      OnesFit(n);
      ArshiftNegative(w, n, Pow2(n) - 1);
      ShiftedRightIs(w, n);
    } else {
      ArshiftOut(w, n, FromFloat(Pow2(n) - 1, wild));
    }
  }

  lemma SmallIsUint32(n: int)
    requires 0 <= n < 0x1_0000_0000
    ensures Uint32(n) == n
  {
  }

  lemma ArshiftLeft(w: Word, n: int)
    requires n > 0
    ensures Shl(w, n) == ShiftedRight(w, -n)
  {
  }

  lemma OnesFit(n: nat)
    requires n <= 32
    ensures Pow2(n) - 1 < TWO32
  {
    Pow32();
    Pow2Grows(n, 32);
  }

  lemma ShiftedRightIs(w: Word, n: nat)
    ensures ShiftedRight(w, n) == (Signed(w) / Pow2(n)) % TWO32
  {
  }

  // ---------------------------------------------------------------- rotations

  /** bits.RotateLeft32 */
  function RotateLeft(w: Word, k: int): Word {
    var s := k % 32;
    BitOr32(Shl(w, s), Shr(w, 32 - s))
  }

  function Lrotate(a: int, n: int): Word {
    RotateLeft(Uint32(a), n)
  }

  function Rrotate(a: int, n: int): Word {
    RotateLeft(Uint32(a), -n)
  }

  lemma RotatedIndex(k: int, i: nat)
    requires i < 32
    ensures (i - k) % 32 == if i >= k % 32 then i - k % 32 else i - k % 32 + 32
  {
  }

  /** Rotating left by `k` moves bit `i - k` (modulo 32) to bit `i`. */
  lemma BitOfRotate(w: Word, k: int, i: nat)
    requires i < 32
    ensures Bit(RotateLeft(w, k), i) <==> Bit(w, (i - k) % 32)
  {
    var s := k % 32;
    RotatedIndex(k, i);
    hide Bit, Shl, Shr, Or;
    BitOr(Shl(w, s), Shr(w, 32 - s), i);
    BitShl(w, s, i);
    BitShr(w, 32 - s, i);
    if i >= s {
      NoBitsAbove(w, i + 32 - s);
    }
  }

  lemma RotationsAdd(w: Word, j: int, k: int)
    ensures RotateLeft(RotateLeft(w, j), k) == RotateLeft(w, j + k)
  {
    hide Bit, RotateLeft;
    forall i | 0 <= i < 32
      ensures Bit(RotateLeft(RotateLeft(w, j), k), i) == Bit(RotateLeft(w, j + k), i)
    {
      BitOfRotate(RotateLeft(w, j), k, i);
      BitOfRotate(w, j, (i - k) % 32);
      BitOfRotate(w, j + k, i);
      assert ((i - k) % 32 - j) % 32 == (i - (j + k)) % 32;
    }
    WordsAreEqual(RotateLeft(RotateLeft(w, j), k), RotateLeft(w, j + k));
  }

  /** lrotate moves each bit up by the displacement and rrotate moves it down, round the end of the word. */
  lemma RotatesMove(a: int, n: int, i: nat)
    requires i < 32
    ensures Bit(Lrotate(a, n), i) <==> Bit(Uint32(a), (i - n) % 32)
    ensures Bit(Rrotate(a, n), i) <==> Bit(Uint32(a), (i + n) % 32)
  {
    hide Bit, RotateLeft, Uint32;
    BitOfRotate(Uint32(a), n, i);
    BitOfRotate(Uint32(a), -n, i);
  }

  /** Rotating back undoes a rotation, and rotations add, for every displacement. */
  lemma RotationLaws(a: int, j: int, k: int)
    ensures Rrotate(Lrotate(a, k), k) == Uint32(a) && Lrotate(Rrotate(a, k), k) == Uint32(a)
    ensures Lrotate(Lrotate(a, j), k) == Lrotate(a, j + k)
    ensures Lrotate(a, k + 32) == Lrotate(a, k)
  {
    var w := Uint32(a);
    WordIsUint32(Lrotate(a, k));
    WordIsUint32(Rrotate(a, k));
    WordIsUint32(Lrotate(a, j));
    RotationsAdd(w, k, -k);
    RotationsAdd(w, -k, k);
    RotationsAdd(w, j, k);
    RotateByNone(w);
  }

  lemma RotateByNone(w: Word)
    ensures RotateLeft(w, 0) == w
  {
    hide Bit, RotateLeft;
    forall i | 0 <= i < 32
      ensures Bit(RotateLeft(w, 0), i) == Bit(w, i)
    {
      BitOfRotate(w, 0, i);
    }
    WordsAreEqual(RotateLeft(w, 0), w);
  }

  // ---------------------------------------------------------------- any number of operands

  /** A Lua argument, a number without its fraction, which every conversion drops; `Get` past the last gives Nil. */
  datatype Arg = Nil | Num(n: int) | Other

  function Get(args: seq<Arg>, k: nat): Arg {
    if k < |args| then args[k] else Nil
  }

  /** The operands from argument `k` up to the first nil; anything else that is not a number is an error. */
  function Operands(args: seq<Arg>, k: nat, wild: int -> Word): Result<seq<Word>>
    decreases |args| - k
  {
    match Get(args, k)
    case Nil => Ok([])
    case Other => Error
    case Num(n) =>
      match Operands(args, k + 1, wild)
      case Error => Error
      case Ok(rest) => Ok([FromFloat(n, wild)] + rest)
  }

  /** uint32(l.OptInt64(1, default)); a number that is no int64 is left to the platform. */
  function First(args: seq<Arg>, default: Word, wild: int -> Word): Result<Word> {
    match Get(args, 0)
    case Nil => Ok(default)
    case Other => Error
    case Num(n) => Ok(if -TWO63 <= n < TWO63 then Uint32(n) else wild(n))
  }

  /** All operands of a call. */
  function Inputs(args: seq<Arg>, default: Word, wild: int -> Word): Result<seq<Word>> {
    match First(args, default, wild)
    case Error => Error
    case Ok(w) =>
      match Operands(args, 1, wild)
      case Error => Error
      case Ok(rest) => Ok([w] + rest)
  }

  function OnBits(ws: seq<Word>, i: nat): nat {
    if ws == [] then 0 else OnBits(ws[..|ws| - 1], i) + (if Bit(ws[|ws| - 1], i) then 1 else 0)
  }

  /** Bit `i` is set in every one of the words. */
  predicate InAll(ws: seq<Word>, i: nat) {
    OnBits(ws, i) == |ws|
  }

  lemma {:induction false} OnBitsMeans(ws: seq<Word>, i: nat)
    ensures OnBits(ws, i) <= |ws|
    ensures OnBits(ws, i) == |ws| <==> forall k :: 0 <= k < |ws| ==> Bit(ws[k], i)
    ensures OnBits(ws, i) > 0 <==> exists k :: 0 <= k < |ws| && Bit(ws[k], i)
    decreases |ws|
  {
    if ws != [] {
      var front, last := ws[..|ws| - 1], |ws| - 1;
      OnBitsMeans(front, i);
      assert forall k :: 0 <= k < last ==> front[k] == ws[k];
      if OnBits(front, i) > 0 {
        var k :| 0 <= k < last && Bit(front[k], i);
        assert Bit(ws[k], i);
      }
    }
  }

  lemma OnBitsMore(ws: seq<Word>, b: Word, i: nat)
    ensures OnBits(ws + [b], i) == OnBits(ws, i) + if Bit(b, i) then 1 else 0
  {
    assert (ws + [b])[..|ws|] == ws;
  }

  lemma OnBitsOne(b: Word, i: nat)
    ensures OnBits([b], i) == if Bit(b, i) then 1 else 0
  {
    assert [b][..0] == [];
  }

  // ---------------------------------------------------------------- the operands, argument by argument

  /** Some argument before the first nil is no number; the first one may be nil. */
  predicate Rejected(args: seq<Arg>) {
    Get(args, 0).Other? || exists k :: 1 <= k < |args| && args[k].Other? && forall j :: 1 <= j < k ==> !args[j].Nil?
  }

  /** Every argument is a number that a word can hold. */
  predicate Words(args: seq<Arg>) {
    forall k :: 0 <= k < |args| ==> args[k].Num? && 0 <= args[k].n < TWO32
  }

  /** The arguments in which bit `i` is set. */
  function With(args: seq<Arg>, i: nat): set<nat>
    requires Words(args)
  {
    set k: nat | k < |args| && Bit(args[k].n, i)
  }

  /** Bit `i` is set in every argument. */
  predicate InEvery(args: seq<Arg>, i: nat)
    requires Words(args)
  {
    forall k :: 0 <= k < |args| ==> Bit(args[k].n, i)
  }

  lemma {:induction false} OperandsRejected(args: seq<Arg>, k: nat, wild: int -> Word)
    ensures Operands(args, k, wild).Error? <==>
            exists j :: k <= j < |args| && args[j].Other? && forall i :: k <= i < j ==> !args[i].Nil?
    decreases |args| - k
  {
    if k < |args| && args[k].Num? {
      OperandsRejected(args, k + 1, wild);
      if j :| k <= j < |args| && args[j].Other? && forall i :: k <= i < j ==> !args[i].Nil? {
        assert k + 1 <= j;
      }
      if j :| k + 1 <= j < |args| && args[j].Other? && forall i :: k + 1 <= i < j ==> !args[i].Nil? {
        assert forall i :: k <= i < j ==> !args[i].Nil?;
      }
    }
  }

  /** A call is refused exactly if an argument before the first nil is no number. */
  lemma RejectedIff(args: seq<Arg>, default: Word, wild: int -> Word)
    ensures Inputs(args, default, wild).Error? <==> Rejected(args)
  {
    OperandsRejected(args, 1, wild);
  }

  lemma {:induction false} OperandsAre(args: seq<Arg>, k: nat, wild: int -> Word)
    requires Words(args) && k <= |args|
    ensures var r := Operands(args, k, wild);
            r.Ok? && |r.value| == |args| - k && forall j :: 0 <= j < |r.value| ==> r.value[j] == args[k + j].n
    decreases |args| - k
  {
    if k < |args| {
      OperandsAre(args, k + 1, wild);
    }
  }

  /** The operands of a call are its arguments; without any there is the default. */
  lemma InputsAre(args: seq<Arg>, default: Word, wild: int -> Word)
    requires Words(args)
    ensures var r := Inputs(args, default, wild);
            && r.Ok?
            && (args == [] ==> r.value == [default])
            && (args != [] ==> |r.value| == |args| && forall k :: 0 <= k < |args| ==> r.value[k] == args[k].n)
  {
    hide Bit;
    if args != [] {
      assert args[0].Num?;
      OperandsAre(args, 1, wild);
    }
  }

  lemma {:induction false} OperandsEnd(args: seq<Arg>, k: nat, n: nat, wild: int -> Word)
    requires k <= n <= |args| && Get(args, n).Nil?
    ensures Operands(args, k, wild) == Operands(args[..n], k, wild)
    decreases n - k
  {
    if k < n {
      OperandsEnd(args, k + 1, n, wild);
    }
  }

  /** Arguments from the first nil on do not matter, and a nil as the first argument stands for the default. */
  lemma NilEnds(args: seq<Arg>, n: nat, default: Word, wild: int -> Word)
    requires 1 <= n <= |args| && Get(args, n).Nil?
    ensures Inputs(args, default, wild) == Inputs(args[..n], default, wild)
    ensures Get(args, 0).Nil? ==> Inputs(args, default, wild) == Inputs([Num(default)] + args[1..], default, wild)
  {
    OperandsEnd(args, 1, n, wild);
    if Get(args, 0).Nil? {
      OperandsShift(args, [Num(default)] + args[1..], 1, wild);
    }
  }

  lemma {:induction false} OperandsShift(a: seq<Arg>, b: seq<Arg>, k: nat, wild: int -> Word)
    requires |a| == |b| && forall j :: k <= j < |a| ==> a[j] == b[j]
    ensures Operands(a, k, wild) == Operands(b, k, wild)
    decreases |a| - k
  {
    if k < |a| {
      OperandsShift(a, b, k + 1, wild);
    }
  }

  function Places(ws: seq<Word>, i: nat): set<nat> {
    set k: nat | k < |ws| && Bit(ws[k], i)
  }

  lemma {:induction false} OnBitsCount(ws: seq<Word>, i: nat)
    ensures OnBits(ws, i) == |Places(ws, i)|
    decreases |ws|
  {
    if ws != [] {
      var front, last := ws[..|ws| - 1], |ws| - 1;
      OnBitsCount(front, i);
      assert Places(ws, i) == if Bit(ws[last], i) then Places(front, i) + {last} else Places(front, i);
    } else {
      assert Places(ws, i) == {};
    }
  }

  /** How often bit `i` is set in the operands of a call, by its arguments. */
  lemma InputBits(args: seq<Arg>, default: Word, wild: int -> Word, i: nat)
    requires Words(args) && i < 32
    ensures Inputs(args, default, wild).Ok?
    ensures var n := OnBits(Inputs(args, default, wild).value, i);
            if args == [] then n == if Bit(default, i) then 1 else 0
            else
              && n == |With(args, i)|
              && (n == |Inputs(args, default, wild).value| <==> forall k :: 0 <= k < |args| ==> Bit(args[k].n, i))
              && (n > 0 <==> exists k :: 0 <= k < |args| && Bit(args[k].n, i))
  {
    InputsAre(args, default, wild);
    var ws := Inputs(args, default, wild).value;
    hide Inputs, OnBits, Bit;
    if args == [] {
      OnBitsOne(default, i);
    } else {
      OnBitsCount(ws, i);
      OnBitsMeans(ws, i);
      assert With(args, i) == Places(ws, i);
    }
  }

  lemma OnesAndZeros(i: nat)
    requires i < 32
    ensures Bit(ONES, i) && !Bit(0, i)
  {
    Pow32();
    BitMask(32, i);
    ZeroHasNoBits(i);
  }

  /** After `seen`, the loop at argument `next` has the rest of `all` to read. */
  ghost predicate Reading(args: seq<Arg>, next: nat, seen: seq<Word>, all: Result<seq<Word>>, wild: int -> Word) {
    match Operands(args, next, wild)
    case Error => all == Error
    case Ok(rest) => all == Ok(seen + rest)
  }

  lemma ReadFirst(args: seq<Arg>, default: Word, wild: int -> Word)
    requires First(args, default, wild).Ok?
    ensures Reading(args, 1, [First(args, default, wild).value], Inputs(args, default, wild), wild)
  {
  }

  lemma ReadOne(args: seq<Arg>, next: nat, seen: seq<Word>, all: Result<seq<Word>>, wild: int -> Word)
    requires Reading(args, next, seen, all, wild)
    ensures Get(args, next).Nil? ==> all == Ok(seen)
    ensures Get(args, next).Other? ==> all == Error
    ensures Get(args, next).Num? ==>
              next < |args| && Reading(args, next + 1, seen + [FromFloat(Get(args, next).n, wild)], all, wild)
  {
    match Get(args, next)
    case Nil => assert seen + [] == seen;
    case Other =>
    case Num(n) =>
      match Operands(args, next + 1, wild) {
        case Error =>
        case Ok(rest) => assert seen + ([FromFloat(n, wild)] + rest) == (seen + [FromFloat(n, wild)]) + rest;
      }
  }

  lemma BandOfWords(args: seq<Arg>, wild: int -> Word, ws: seq<Word>, a: Word)
    requires Words(args) && Inputs(args, ONES, wild) == Ok(ws)
    requires forall i :: 0 <= i < 32 ==> (Bit(a, i) <==> InAll(ws, i))
    ensures forall i :: 0 <= i < 32 ==> (Bit(a, i) <==> InEvery(args, i))
  {
    forall i | 0 <= i < 32
      ensures Bit(a, i) <==> InEvery(args, i)
    {
      InputBits(args, ONES, wild, i);
      InputsAre(args, ONES, wild);
      OnesAndZeros(i);
    }
  }

  /** A bit of band is set when it is set in every operand. */
  method Band(args: seq<Arg>, wild: int -> Word) returns (r: Result<Word>)
    ensures r.Ok? <==> Inputs(args, ONES, wild).Ok?
    ensures r.Ok? ==> forall i :: 0 <= i < 32 ==>
              (Bit(r.value, i) <==> InAll(Inputs(args, ONES, wild).value, i))
    ensures r.Error? <==> Rejected(args)
    ensures Words(args) ==> r.Ok? && forall i :: 0 <= i < 32 ==>
                                       (Bit(r.value, i) <==> forall k :: 0 <= k < |args| ==> Bit(args[k].n, i))
  {
    hide Bit, And, FromFloat, OnBits, Reading;
    ghost var all := Inputs(args, ONES, wild);
    RejectedIff(args, ONES, wild);
    var first := First(args, ONES, wild);
    if first.Error? {
      return Error;
    }
    var a := first.value;
    var next := 1;
    ghost var seen := [a];
    ReadFirst(args, ONES, wild);
    forall i: nat
      ensures OnBits(seen, i) == if Bit(a, i) then 1 else 0
    {
      OnBitsOne(a, i);
    }
    while true
      invariant Reading(args, next, seen, all, wild)
      invariant forall i :: 0 <= i < 32 ==> (Bit(a, i) <==> InAll(seen, i))
      decreases |args| - next
    {
      ReadOne(args, next, seen, all, wild);
      var val := Get(args, next);
      if val.Nil? {
        break;
      }
      if val.Other? {
        return Error;
      }
      ghost var before, a0 := seen, a;
      var b := FromFloat(val.n, wild);
      seen := seen + [b];
      a := BitAnd32(a, b);
      forall i | 0 <= i < 32
        ensures Bit(a, i) <==> InAll(seen, i)
      {
        BitAnd(a0, b, i);
        OnBitsMeans(before, i);
        OnBitsMore(before, b, i);
      }
      next := next + 1;
    }
    if Words(args) {
      BandOfWords(args, wild, all.value, a);
    }
    return Ok(a);
  }

  lemma BorOfWords(args: seq<Arg>, wild: int -> Word, ws: seq<Word>, a: Word)
    requires Words(args) && Inputs(args, 0, wild) == Ok(ws)
    requires forall i :: 0 <= i < 32 ==> (Bit(a, i) <==> OnBits(ws, i) > 0)
    ensures forall i :: 0 <= i < 32 ==> (Bit(a, i) <==> exists k :: 0 <= k < |args| && Bit(args[k].n, i))
  {
    forall i | 0 <= i < 32
      ensures Bit(a, i) <==> exists k :: 0 <= k < |args| && Bit(args[k].n, i)
    {
      InputBits(args, 0, wild, i);
      OnesAndZeros(i);
    }
  }

  /** A bit of bor is set when it is set in some operand. */
  method Bor(args: seq<Arg>, wild: int -> Word) returns (r: Result<Word>)
    ensures r.Ok? <==> Inputs(args, 0, wild).Ok?
    ensures r.Ok? ==> forall i :: 0 <= i < 32 ==>
              (Bit(r.value, i) <==> OnBits(Inputs(args, 0, wild).value, i) > 0)
    ensures r.Error? <==> Rejected(args)
    ensures Words(args) ==> r.Ok? && forall i :: 0 <= i < 32 ==>
                                       (Bit(r.value, i) <==> exists k :: 0 <= k < |args| && Bit(args[k].n, i))
  {
    hide Bit, Or, FromFloat, OnBits, Reading;
    ghost var all := Inputs(args, 0, wild);
    RejectedIff(args, 0, wild);
    var first := First(args, 0, wild);
    if first.Error? {
      return Error;
    }
    var a := first.value;
    var next := 1;
    ghost var seen := [a];
    ReadFirst(args, 0, wild);
    forall i: nat
      ensures OnBits(seen, i) == if Bit(a, i) then 1 else 0
    {
      OnBitsOne(a, i);
    }
    while true
      invariant Reading(args, next, seen, all, wild)
      invariant forall i :: 0 <= i < 32 ==> (Bit(a, i) <==> OnBits(seen, i) > 0)
      decreases |args| - next
    {
      ReadOne(args, next, seen, all, wild);
      var val := Get(args, next);
      if val.Nil? {
        break;
      }
      if val.Other? {
        return Error;
      }
      ghost var before, a0 := seen, a;
      var b := FromFloat(val.n, wild);
      seen := seen + [b];
      a := BitOr32(a, b);
      forall i | 0 <= i < 32
        ensures Bit(a, i) <==> OnBits(seen, i) > 0
      {
        BitOr(a0, b, i);
        OnBitsMeans(before, i);
        OnBitsMore(before, b, i);
      }
      next := next + 1;
    }
    if Words(args) {
      BorOfWords(args, wild, all.value, a);
    }
    return Ok(a);
  }

  lemma BxorOfWords(args: seq<Arg>, wild: int -> Word, ws: seq<Word>, a: Word)
    requires Words(args) && Inputs(args, 0, wild) == Ok(ws)
    requires forall i :: 0 <= i < 32 ==> (Bit(a, i) <==> OnBits(ws, i) % 2 == 1)
    ensures forall i :: 0 <= i < 32 ==> (Bit(a, i) <==> |With(args, i)| % 2 == 1)
  {
    forall i | 0 <= i < 32
      ensures Bit(a, i) <==> |With(args, i)| % 2 == 1
    {
      InputBits(args, 0, wild, i);
      OnesAndZeros(i);
      assert args == [] ==> With(args, i) == {};
    }
  }

  /** A bit of bxor is set when it is set in an odd number of operands. */
  method Bxor(args: seq<Arg>, wild: int -> Word) returns (r: Result<Word>)
    ensures r.Ok? <==> Inputs(args, 0, wild).Ok?
    ensures r.Ok? ==> forall i :: 0 <= i < 32 ==>
              (Bit(r.value, i) <==> OnBits(Inputs(args, 0, wild).value, i) % 2 == 1)
    ensures r.Error? <==> Rejected(args)
    ensures Words(args) ==> r.Ok? && forall i :: 0 <= i < 32 ==>
                                       (Bit(r.value, i) <==> |With(args, i)| % 2 == 1)
  {
    hide Bit, Xor, FromFloat, OnBits, Reading;
    ghost var all := Inputs(args, 0, wild);
    RejectedIff(args, 0, wild);
    var first := First(args, 0, wild);
    if first.Error? {
      return Error;
    }
    var a := first.value;
    var next := 1;
    ghost var seen := [a];
    ReadFirst(args, 0, wild);
    forall i: nat
      ensures OnBits(seen, i) == if Bit(a, i) then 1 else 0
    {
      OnBitsOne(a, i);
    }
    while true
      invariant Reading(args, next, seen, all, wild)
      invariant forall i :: 0 <= i < 32 ==> (Bit(a, i) <==> OnBits(seen, i) % 2 == 1)
      decreases |args| - next
    {
      ReadOne(args, next, seen, all, wild);
      var val := Get(args, next);
      if val.Nil? {
        break;
      }
      if val.Other? {
        return Error;
      }
      ghost var before, a0 := seen, a;
      var b := FromFloat(val.n, wild);
      seen := seen + [b];
      a := BitXor32(a, b);
      forall i | 0 <= i < 32
        ensures Bit(a, i) <==> OnBits(seen, i) % 2 == 1
      {
        BitXor(a0, b, i);
        OnBitsMeans(before, i);
        OnBitsMore(before, b, i);
      }
      next := next + 1;
    }
    if Words(args) {
      BxorOfWords(args, wild, all.value, a);
    }
    return Ok(a);
  }

  predicate HasBit(w: Word) {
    exists i :: 0 <= i < 32 && Bit(w, i)
  }

  lemma HasBitIff(w: Word)
    ensures w != 0 <==> HasBit(w)
  {
    hide Bit;
    if w == 0 {
      forall i | 0 <= i < 32
        ensures !Bit(w, i)
      {
        ZeroHasNoBits(i);
      }
    } else if !HasBit(w) {
      forall i | 0 <= i < 32
        ensures Bit(w, i) == Bit(0, i)
      {
        ZeroHasNoBits(i);
      }
      WordsAreEqual(w, 0);
    }
  }

  /** btest says whether some bit is set in every operand. */
  method Btest(args: seq<Arg>, wild: int -> Word) returns (r: Result<bool>)
    ensures r.Ok? <==> Inputs(args, ONES, wild).Ok?
    ensures r.Ok? ==>
              (r.value <==> exists i :: 0 <= i < 32 && InAll(Inputs(args, ONES, wild).value, i))
    ensures r.Error? <==> Rejected(args)
    ensures Words(args) ==>
              r.Ok? && (r.value <==> exists i :: 0 <= i < 32 && InEvery(args, i))
  {
    RejectedIff(args, ONES, wild);
    hide Bit, And, FromFloat, OnBits, Reading;
    ghost var all := Inputs(args, ONES, wild);
    var first := First(args, ONES, wild);
    if first.Error? {
      return Error;
    }
    var a := first.value;
    var next := 1;
    ghost var seen := [a];
    ReadFirst(args, ONES, wild);
    forall i: nat
      ensures OnBits(seen, i) == if Bit(a, i) then 1 else 0
    {
      OnBitsOne(a, i);
    }
    while true
      invariant Reading(args, next, seen, all, wild)
      invariant forall i :: 0 <= i < 32 ==> (Bit(a, i) <==> InAll(seen, i))
      decreases |args| - next
    {
      ReadOne(args, next, seen, all, wild);
      var val := Get(args, next);
      if val.Nil? {
        break;
      }
      if val.Other? {
        return Error;
      }
      ghost var before, a0 := seen, a;
      var b := FromFloat(val.n, wild);
      seen := seen + [b];
      a := BitAnd32(a, b);
      forall i | 0 <= i < 32
        ensures Bit(a, i) <==> InAll(seen, i)
      {
        BitAnd(a0, b, i);
        OnBitsMeans(before, i);
        OnBitsMore(before, b, i);
      }
      next := next + 1;
    }
    HasBitIff(a);
    if Words(args) {
      BandOfWords(args, wild, all.value, a);
    }
    return Ok(a != 0);
  }
}
