/** The exclusive or of numbers, bit by bit, and that it is the machine's on 32-bit words. */
module MachineWords {
  import opened Basics

  /** Exclusive or of the low n bits. */
  function XorBits(x: nat, y: nat, n: nat): (r: nat)
    ensures r < Pow2(n)
  {
    if n == 0 then 0 else (if x % 2 == y % 2 then 0 else 1) + 2 * XorBits(x / 2, y / 2, n - 1)
  }

  // ------------------------------------------------------------------------- its laws

  lemma OneBit(b: nat, r: nat)
    requires b < 2
    ensures (b + 2 * r) % 2 == b && (b + 2 * r) / 2 == r
  {
  }

  lemma XorBitsHalves(x: nat, y: nat, n: nat)
    requires n > 0
    ensures XorBits(x, y, n) / 2 == XorBits(x / 2, y / 2, n - 1)
    ensures XorBits(x, y, n) % 2 == if x % 2 == y % 2 then 0 else 1
  {
    OneBit(if x % 2 == y % 2 then 0 else 1, XorBits(x / 2, y / 2, n - 1));
  }

  lemma {:induction false} XorBitsZero(x: nat, n: nat)
    requires x < Pow2(n)
    ensures XorBits(0, x, n) == x
  {
    if n > 0 {
      XorBitsZero(x / 2, n - 1);
    }
  }

  lemma {:induction false} XorBitsCommute(x: nat, y: nat, n: nat)
    ensures XorBits(x, y, n) == XorBits(y, x, n)
  {
    if n > 0 {
      XorBitsCommute(x / 2, y / 2, n - 1);
    }
  }

  lemma {:induction false} XorBitsSelf(x: nat, n: nat)
    ensures XorBits(x, x, n) == 0
  {
    if n > 0 {
      XorBitsSelf(x / 2, n - 1);
    }
  }

  lemma {:induction false} XorBitsAssoc(x: nat, y: nat, z: nat, n: nat)
    ensures XorBits(XorBits(x, y, n), z, n) == XorBits(x, XorBits(y, z, n), n)
  {
    if n > 0 {
      XorBitsAssoc(x / 2, y / 2, z / 2, n - 1);
      XorBitsHalves(x, y, n);
      XorBitsHalves(y, z, n);
      XorBitsHalves(XorBits(x, y, n), z, n);
      XorBitsHalves(x, XorBits(y, z, n), n);
      SameHalves(XorBits(XorBits(x, y, n), z, n), XorBits(x, XorBits(y, z, n), n));
      hide XorBits;
    }
  }

  lemma SameHalves(x: nat, y: nat)
    requires x / 2 == y / 2 && x % 2 == y % 2
    ensures x == y
  {
  }

  lemma OneMoreBit(x: nat, y: nat, r: nat, n: nat)
    requires n > 0 && XorBits(x / 2, y / 2, n - 1) == r / 2 && r % 2 == if x % 2 == y % 2 then 0 else 1
    ensures XorBits(x, y, n) == r
  {
    XorBitsHalves(x, y, n);
    SameHalves(XorBits(x, y, n), r);
  }

  lemma HalfBelow(x: nat, n: nat)
    requires n > 0 && x < Pow2(n)
    ensures x / 2 < Pow2(n - 1)
  {
  }

  // --------------------------------------------------------------------- machine words

  function Number(u: bv32): uint32 {
    u as int
  }

  function Half(u: bv32): bv32 {
    u >> 1
  }

  predicate Odd(u: bv32) {
    u & 1 == 1
  }

  lemma FromHalf(u: bv32)
    ensures Half(u) < 0x8000_0000 && u == if Odd(u) then (Half(u) << 1) | 1 else Half(u) << 1
  {
  }

  lemma Doubled(h: bv32)
    ensures h < 0x8000_0000 ==> Number(h << 1) == 2 * Number(h)
  {
  }

  lemma DoubledAndOne(h: bv32)
    ensures Number((h << 1) | 1) == Number(h << 1) + 1
  {
  }

  lemma NumberOfHalf(u: bv32)
    ensures Number(u) == 2 * Number(Half(u)) + if Odd(u) then 1 else 0
  {
    hide Number, Half, Odd;
    FromHalf(u);
    Doubled(Half(u));
    DoubledAndOne(Half(u));
  }

  /** A word whose bits are looked at only through these functions. */
  datatype Word = Word(bits: bv32) {
    function Value(): uint32 {
      Number(bits)
    }

    function Halved(): Word {
      Word(Half(bits))
    }

    predicate IsOdd() {
      Odd(bits)
    }

    function Xor(w: Word): Word {
      Word(bits ^ w.bits)
    }
  }

  lemma HalfValue(u: Word)
    ensures u.Value() == 2 * u.Halved().Value() + if u.IsOdd() then 1 else 0
  {
    hide Number, Half, Odd;
    NumberOfHalf(u.bits);
  }

  lemma OddXor(u: Word, v: Word)
    ensures u.Xor(v).IsOdd() == (u.IsOdd() != v.IsOdd())
  {
  }

  lemma HalvedXor(u: Word, v: Word)
    ensures u.Xor(v).Halved() == u.Halved().Xor(v.Halved())
  {
  }

  lemma NoBits(u: Word)
    requires u.Value() == 0
    ensures u == Word(0)
  {
  }

  lemma XorOfNone()
    ensures Word(0).Xor(Word(0)) == Word(0) && Word(0).Value() == 0
  {
  }

  /** Bit by bit is what the machine does. */
  lemma {:induction false} XorBitsIsXor(u: Word, v: Word, n: nat)
    requires u.Value() < Pow2(n) && v.Value() < Pow2(n)
    ensures XorBits(u.Value(), v.Value(), n) == u.Xor(v).Value()
    decreases n
  {
    hide Word.Value, Word.Halved, Word.IsOdd, Word.Xor;
    if n == 0 {
      NoBits(u);
      NoBits(v);
      XorOfNone();
    } else {
      hide XorBits, Pow2;
      HalfBelow(u.Value(), n);
      HalfBelow(v.Value(), n);
      HalfValue(u);
      HalfValue(v);
      HalfValue(u.Xor(v));
      OddXor(u, v);
      HalvedXor(u, v);
      XorBitsIsXor(u.Halved(), v.Halved(), n - 1);
      OneMoreBit(u.Value(), v.Value(), u.Xor(v).Value(), n);
    }
  }
}
