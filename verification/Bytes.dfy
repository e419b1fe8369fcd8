/** Numbers as little-endian byte strings. */
module Bytes {
  import opened Basics

  /** The number written b, the low byte first. */
  function LittleEndian(b: seq<byte>): nat {
    if b == [] then 0 else b[0] as int + 256 * LittleEndian(b[1..])
  }

  function LowBytes(w: nat, n: nat): (b: seq<byte>)
    ensures |b| == n
  {
    if n == 0 then [] else [w % 256] + LowBytes(w / 256, n - 1)
  }

  function Bound(n: nat): (p: nat)
    ensures p > 0
  {
    if n == 0 then 1 else 256 * Bound(n - 1)
  }

  lemma {:induction false} ValueOfBytes(b: seq<byte>)
    ensures LittleEndian(b) < Bound(|b|) && LowBytes(LittleEndian(b), |b|) == b
  {
    if b != [] {
      hide LittleEndian, LowBytes, Bound;
      var v := LittleEndian(b[1..]);
      ValueOfBytes(b[1..]);
      ByteAndRest(b[0], v);
      LittleEndianCons(b);
      LowBytesUnfolds(LittleEndian(b), |b|);
      BoundUnfolds(|b|);
      assert b == [b[0]] + b[1..];
    }
  }

  lemma ByteAndRest(b: byte, v: nat)
    ensures (b as int + 256 * v) % 256 == b && (b as int + 256 * v) / 256 == v
  {
  }

  lemma LittleEndianCons(b: seq<byte>)
    requires b != []
    ensures LittleEndian(b) == b[0] as int + 256 * LittleEndian(b[1..])
  {
  }

  lemma LowBytesUnfolds(w: nat, n: nat)
    requires n > 0
    ensures LowBytes(w, n) == [w % 256] + LowBytes(w / 256, n - 1)
  {
  }

  lemma BoundUnfolds(n: nat)
    requires n > 0
    ensures Bound(n) == 256 * Bound(n - 1)
  {
  }

  lemma {:induction false} BytesOfValue(w: nat, n: nat)
    requires w < Bound(n)
    ensures LittleEndian(LowBytes(w, n)) == w
  {
    if n > 0 {
      BytesOfValue(w / 256, n - 1);
    }
  }
}
