/** The TEA block cipher: two 32-bit words, a 128-bit key, a chosen number of rounds and
    either byte order, on a machine that stores words little-endian. */
module Tea {
  import opened Basics
  import opened Bytes
  import opened MachineWords

  const M := 0x1_0000_0000
  const DELTA: uint32 := 0x9E3779B9
  /** DELTA is odd, so it has an inverse. */
  const DELTA_INVERSE: uint32 := 0x144CBC89

  datatype Key = Key(a: uint32, b: uint32, c: uint32, d: uint32)
  datatype Words = Words(y: uint32, z: uint32)

  // ------------------------------------------------------------ word arithmetic

  function Add(x: uint32, y: uint32): uint32 {
    (x + y) % M
  }

  function Sub(x: uint32, y: uint32): uint32 {
    (x - y) % M
  }

  function Xor(x: uint32, y: uint32): uint32 {
    Pow2Of32();
    XorBits(x, y, 32)
  }

  /** What one half of the block adds to the other: x << 4 and x >> 5, keyed. */
  function Mix(x: uint32, sum: uint32, low: uint32, high: uint32): uint32 {
    Xor(Xor(Add(x * 16 % M, low), Add(x, sum)), Add(x / 32, high))
  }

  lemma SubAdd(x: uint32, y: uint32)
    ensures Sub(Add(x, y), y) == x && Add(Sub(x, y), y) == x
  {
  }

  // --------------------------------------------------------------------- rounds

  function Encode(k: Key, sum: uint32, w: Words): Words {
    var y := Add(w.y, Mix(w.z, sum, k.a, k.b));
    Words(y, Add(w.z, Mix(y, sum, k.c, k.d)))
  }

  function Decode(k: Key, sum: uint32, w: Words): Words {
    var z := Sub(w.z, Mix(w.y, sum, k.c, k.d));
    Words(Sub(w.y, Mix(z, sum, k.a, k.b)), z)
  }

  /** The sum is stepped before each encoding round. */
  function EncryptRounds(k: Key, sum: uint32, n: nat, w: Words): Words
    decreases n
  {
    if n == 0 then w
    else EncryptRounds(k, Add(sum, DELTA), n - 1, Encode(k, Add(sum, DELTA), w))
  }

  /** The sum is stepped back after each decoding round. */
  function DecryptRounds(k: Key, sum: uint32, n: nat, w: Words): Words
    decreases n
  {
    if n == 0 then w
    else DecryptRounds(k, Sub(sum, DELTA), n - 1, Decode(k, sum, w))
  }

  lemma RoundInverse(k: Key, sum: uint32, w: Words)
    ensures Decode(k, sum, Encode(k, sum, w)) == w && Encode(k, sum, Decode(k, sum, w)) == w
  {
    hide Mix, Add, Sub;
    var e := Encode(k, sum, w);
    SubAdd(w.z, Mix(e.y, sum, k.c, k.d));
    SubAdd(w.y, Mix(w.z, sum, k.a, k.b));
    var d := Decode(k, sum, w);
    SubAdd(w.z, Mix(w.y, sum, k.c, k.d));
    SubAdd(w.y, Mix(d.z, sum, k.a, k.b));
  }

  /** The sum after n steps from `sum`. */
  function SumAfter(sum: uint32, n: nat): uint32 {
    (sum + n * DELTA) % M
  }

  lemma SumSteps(sum: uint32, n: nat)
    ensures SumAfter(Add(sum, DELTA), n) == SumAfter(sum, n + 1)
    ensures Sub(SumAfter(sum, n + 1), DELTA) == SumAfter(sum, n)
    ensures SumAfter(sum, 0) == sum
  {
    var t: int := n * DELTA;
    assert (n + 1) * DELTA == t + DELTA;
    SumStep(sum, t);
  }

  lemma SumStep(sum: uint32, t: nat)
    ensures ((sum + DELTA) % M + t) % M == (sum + (t + DELTA)) % M
    ensures ((sum + (t + DELTA)) % M - DELTA) % M == (sum + t) % M
  {
    ModShift((sum + DELTA) % M + t, (sum + DELTA) / M);
    ModShift((sum + (t + DELTA)) % M - DELTA, (sum + (t + DELTA)) / M);
  }

  /** The last round first: decoding starts where encoding ended. */
  lemma {:induction false} EncryptLast(k: Key, sum: uint32, n: nat, w: Words)
    ensures EncryptRounds(k, sum, n + 1, w) == Encode(k, SumAfter(sum, n + 1), EncryptRounds(k, sum, n, w))
    decreases n
  {
    hide Encode, SumAfter, Add, Sub;
    SumSteps(sum, n);
    if n == 0 {
      SumSteps(Add(sum, DELTA), 0);
      assert EncryptRounds(k, sum, 1, w) == EncryptRounds(k, Add(sum, DELTA), 0, Encode(k, Add(sum, DELTA), w));
    } else {
      var s := Add(sum, DELTA);
      SumSteps(s, n - 1);
      EncryptLast(k, s, n - 1, Encode(k, s, w));
    }
  }

  /** Walking back over the same sums undoes the rounds. */
  lemma {:induction false} RoundsUndone(k: Key, sum: uint32, n: nat, w: Words)
    ensures DecryptRounds(k, SumAfter(sum, n), n, EncryptRounds(k, sum, n, w)) == w
    decreases n
  {
    hide Encode, Decode, SumAfter, Add, Sub;
    if n > 0 {
      EncryptLast(k, sum, n - 1, w);
      var v := EncryptRounds(k, sum, n - 1, w);
      RoundInverse(k, SumAfter(sum, n), v);
      SumSteps(sum, n - 1);
      RoundsUndone(k, sum, n - 1, w);
    }
  }

  lemma {:induction false} RoundsRedone(k: Key, sum: uint32, n: nat, w: Words)
    ensures EncryptRounds(k, sum, n, DecryptRounds(k, SumAfter(sum, n), n, w)) == w
    decreases n
  {
    hide Encode, Decode, SumAfter, Add, Sub;
    if n > 0 {
      var top := SumAfter(sum, n);
      var v := Decode(k, top, w);
      SumSteps(sum, n - 1);
      RoundsRedone(k, sum, n - 1, v);
      EncryptLast(k, sum, n - 1, DecryptRounds(k, SumAfter(sum, n - 1), n - 1, v));
      RoundInverse(k, top, w);
    }
  }

  // --------------------------------------------------------------- the start sum

  /** log(n) / log(2), truncated. */
  function FloorLog2(n: nat): (k: nat)
    requires n > 0
    ensures Pow2(k) <= n < 2 * Pow2(k)
  {
    if n == 1 then 0 else 1 + FloorLog2(n / 2)
  }

  predicate PowerOfTwo(n: nat)
    requires n > 0
  {
    Pow2(FloorLog2(n)) == n
  }

  lemma {:induction false} FloorLogOfPower(k: nat)
    ensures FloorLog2(Pow2(k)) == k
  {
    if k > 0 {
      FloorLogOfPower(k - 1);
    }
  }

  lemma PowersAreRecognised(n: nat)
    requires n > 0
    ensures PowerOfTwo(n) <==> exists k: nat :: n == Pow2(k)
  {
    if k: nat :| n == Pow2(k) {
      FloorLogOfPower(k);
    }
  }

  /** Decryption guesses the final sum by a shift. */
  function StartSum(round: nat): uint32 {
    if round == 32 then 0xC6EF3720
    else if round == 16 then 0xE3779B90
    else if round == 0 then 0
    else DELTA * Pow2(FloorLog2(round)) % M
  }

  lemma SmallPowers()
    ensures FloorLog2(16) == 4 && FloorLog2(32) == 5 && Pow2(4) == 16 && Pow2(5) == 32
  {
    FloorLogOfPower(4);
    FloorLogOfPower(5);
  }

  lemma StartSumIsShift(round: nat)
    requires round > 0
    ensures StartSum(round) == DELTA * Pow2(FloorLog2(round)) % M
  {
    SmallPowers();
  }

  lemma ModTimes(x: int, y: int)
    ensures (x % M) * y % M == x * y % M
  {
    var q := x / M;
    assert x == q * M + x % M;
    assert x * y == (q * y) * M + (x % M) * y;
    ModShift((x % M) * y, q * y);
  }

  lemma ModShift(x: int, q: int)
    ensures (q * M + x) % M == x % M
  {
    var d, r := x / M, x % M;
    assert q * M + x == (q + d) * M + r;
  }

  /** Two multiples of DELTA agree modulo 2^32 exactly when the factors do. */
  lemma DeltaIsInjective(x: nat, y: nat)
    requires x < M && y < M
    ensures DELTA * x % M == DELTA * y % M <==> x == y
  {
    assert DELTA * DELTA_INVERSE == 210485888 * M + 1;
    if DELTA * x % M == DELTA * y % M {
      Cancel(x);
      Cancel(y);
    }
  }

  lemma Cancel(x: nat)
    requires x < M
    ensures (DELTA * x % M) * DELTA_INVERSE % M == x
  {
    ModTimes(DELTA * x, DELTA_INVERSE);
    var q := 210485888 * x;
    assert DELTA * x * DELTA_INVERSE == q * M + x;
    ModShift(x, q);
  }

  /** The shift gives the sum the encryption ends with exactly for the powers of two. */
  lemma StartSumExact(round: nat)
    requires 0 < round < M
    ensures StartSum(round) == SumAfter(0, round) <==> exists k: nat :: round == Pow2(k)
  {
    StartSumIsShift(round);
    PowersAreRecognised(round);
    DeltaIsInjective(Pow2(FloorLog2(round)), round);
  }

  /** For every round count, decryption undoes the encryption that starts from this sum,
      which is zero exactly for the powers of two. */
  function StartOfEncryption(round: nat): uint32 {
    (StartSum(round) - round * DELTA) % M
  }

  lemma WhatDecryptionUndoes(k: Key, round: nat, w: Words)
    requires 0 < round < M
    ensures DecryptRounds(k, StartSum(round), round, EncryptRounds(k, StartOfEncryption(round), round, w)) == w
    ensures StartOfEncryption(round) == 0 <==> exists k: nat :: round == Pow2(k)
  {
    hide StartSum, EncryptRounds, DecryptRounds;
    var s, t := StartSum(round), round * DELTA;
    RoundsUndone(k, StartOfEncryption(round), round, w);
    StartSumExact(round);
    DifferenceBack(s, t);
  }

  lemma DifferenceBack(s: nat, t: nat)
    requires s < M
    ensures ((s - t) % M + t) % M == s
    ensures (s - t) % M == 0 <==> s == t % M
  {
    var q, r := (s - t) / M, (s - t) % M;
    assert s == q * M + (r + t);
    ModShift(r + t, q);
    ModShift(t, q);
    if s == t % M {
      var d := t / M;
      assert s - t == -d * M + 0;
      ModShift(0, -d);
    }
  }

  // ------------------------------------------------------------------ exclusive or

  /** The exclusive or is that of the machine. */
  lemma XorIsXor(u: Word, v: Word)
    ensures Xor(u.Value(), v.Value()) == u.Xor(v).Value()
  {
    hide Word.Value, Word.Xor, XorBits;
    Pow2Of32();
    XorBitsIsXor(u, v, 32);
  }

  lemma XorAlgebra(x: uint32, y: uint32, z: uint32)
    ensures Xor(Xor(x, y), z) == Xor(x, Xor(y, z)) && Xor(x, y) == Xor(y, x)
    ensures Xor(x, x) == 0 && Xor(x, 0) == x
  {
    hide Pow2, XorBits;
    Pow2Of32();
    XorBitsAssoc(x, y, z, 32);
    XorBitsCommute(x, y, 32);
    XorBitsCommute(x, 0, 32);
    XorBitsSelf(x, 32);
    XorBitsZero(x, 32);
  }

  lemma XorLaws(x: uint32, y: uint32)
    ensures Xor(Xor(x, x), y) == y && Xor(Xor(x, y), y) == x && Xor(Xor(y, x), y) == x
    ensures Xor(x, y) % 2 == (x + y) % 2
  {
    hide Xor;
    XorAlgebra(x, y, y);
    XorAlgebra(y, x, y);
    XorAlgebra(y, 0, 0);
    XorAlgebra(x, 0, y);
    XorParity(x, y);
  }

  lemma XorParity(x: uint32, y: uint32)
    ensures Xor(x, y) % 2 == (x + y) % 2
  {
    Pow2Of32();
    XorBitsHalves(x, y, 32);
    SumParity(x, y);
  }

  lemma XorDifference(p: uint32, q: uint32, r: uint32)
    ensures Xor(Xor(p, r), Xor(q, r)) == Xor(p, q)
  {
    hide Xor;
    XorAlgebra(p, r, Xor(q, r));
    XorAlgebra(r, q, r);
    XorAlgebra(q, r, r);
    XorAlgebra(q, 0, r);
  }

  // ----------------------------------------------------------------------- the mix

  /** The mix is the machine's exclusive or of its three terms. */
  lemma MixIs(x: uint32, sum: uint32, low: uint32, high: uint32, p: Word, q: Word, r: Word)
    requires p.Value() == (16 * x + low) % M && q.Value() == (x + sum) % M && r.Value() == (x / 32 + high) % M
    ensures Mix(x, sum, low, high) == p.Xor(q).Xor(r).Value()
  {
    hide Xor, Word.Value, Word.Xor;
    XorIsXor(p, q);
    XorIsXor(p.Xor(q), r);
    ShiftedSum(x, low);
  }

  lemma ShiftedSum(x: uint32, low: uint32)
    ensures Add(x * 16 % M, low) == (16 * x + low) % M
  {
    ModShift(x * 16 % M + low, x * 16 / M);
  }

  /** How each argument enters: the low key word with the word shifted up, the high one with
      the word shifted down, the sum with the word itself. */
  lemma MixDiffers(x: uint32, s: uint32, low: uint32, high: uint32, t: uint32)
    ensures Xor(Mix(x, s, low, high), Mix(x, s, t, high)) == Xor((16 * x + low) % M, (16 * x + t) % M)
    ensures Xor(Mix(x, s, low, high), Mix(x, s, low, t)) == Xor((x / 32 + high) % M, (x / 32 + t) % M)
    ensures Xor(Mix(x, s, low, high), Mix(x, t, low, high)) == Xor((x + s) % M, (x + t) % M)
    ensures Xor(Mix(x, 0, 0, 0), x) == Xor(16 * x % M, x / 32) && Mix(0, 0, 0, 0) == 0
  {
    hide Xor;
    ShiftedSum(x, low);
    ShiftedSum(x, t);
    var p, q, r := Add(x * 16 % M, low), Add(x, s), Add(x / 32, high);
    var p', q', r' := Add(x * 16 % M, t), Add(x, t), Add(x / 32, t);
    XorDifference(Xor(p, q), Xor(p', q), r);
    XorDifference(p, p', q);
    XorAlgebra(Xor(p, q), r, 0);
    XorAlgebra(Xor(p, q), r', 0);
    XorDifference(r, r', Xor(p, q));
    XorDifference(Xor(p, q), Xor(p, q'), r);
    XorAlgebra(p, q, 0);
    XorAlgebra(p, q', 0);
    XorDifference(q, q', p);
    MixUnkeyed(x);
    MixUnkeyed(0);
    XorAlgebra(0, 0, 0);
  }

  lemma MixUnkeyed(x: uint32)
    ensures Mix(x, 0, 0, 0) == Xor(Xor(16 * x % M, x), x / 32)
    ensures Xor(Mix(x, 0, 0, 0), x) == Xor(16 * x % M, x / 32)
  {
    hide Xor;
    var p, q, r := 16 * x % M, x, x / 32;
    XorAlgebra(p, q, r);
    XorAlgebra(q, r, q);
    XorAlgebra(p, Xor(q, r), q);
    XorAlgebra(r, q, q);
    XorAlgebra(r, 0, 0);
  }

  /** The first half of a round is keyed with a and b, the second with c and d and the new y. */
  lemma HalvesOf(k: Key, sum: uint32, w: Words)
    ensures var e := Encode(k, sum, w);
      Sub(e.y, w.y) == Mix(w.z, sum, k.a, k.b) && Sub(e.z, w.z) == Mix(e.y, sum, k.c, k.d)
  {
    hide Mix, Add, Sub;
    var e := Encode(k, sum, w);
    AddSub(w.y, Mix(w.z, sum, k.a, k.b));
    AddSub(w.z, Mix(e.y, sum, k.c, k.d));
  }

  lemma AddSub(x: uint32, y: uint32)
    ensures Sub(Add(x, y), x) == y
  {
  }

  // -------------------------------------------------------------- three rounds fail

  const WEAK := Key(0x9768BE84, 0x9768BE84, 0x58F757E2, 0x58F757E2)

  /** The mixes of the first rounds from the zero block, in which two terms cancel. */
  lemma WeakMixes(sum: uint32)
    ensures Mix(0, sum, WEAK.a, WEAK.b) == sum && Mix(0, sum, WEAK.c, WEAK.d) == sum
    ensures Mix(DELTA, DELTA, WEAK.c, WEAK.d) == 0x5DE913AF
    ensures Mix(0x5DE913AF, 2 * DELTA % M, WEAK.a, WEAK.b) == Sub(0x1431732D, DELTA)
  {
    hide Xor;
    XorLaws(sum, WEAK.a);
    XorLaws(sum, WEAK.c);
    XorLaws(Add(DELTA * 16 % M, WEAK.c), Add(DELTA / 32, WEAK.d));
    var z: uint32 := 0x5DE913AF;
    XorLaws(Add(z * 16 % M, WEAK.a), Add(z / 32, WEAK.b));
  }

  /** Three terms whose sum is odd do not cancel. */
  lemma OddMix(x: uint32, sum: uint32, low: uint32, high: uint32)
    requires (low + x + sum + x / 32 + high) % 2 == 1
    ensures Mix(x, sum, low, high) != 0
  {
    hide Xor, Add;
    var p, q, r := Add(x * 16 % M, low), Add(x, sum), Add(x / 32, high);
    XorLaws(p, q);
    XorLaws(Xor(p, q), r);
    AddParity(x * 16 % M, low);
    AddParity(x, sum);
    AddParity(x / 32, high);
    ShiftedIsEven(x);
    ParityOfFive(x * 16 % M, low, x, sum, x / 32, high);
  }

  lemma SumParity(x: nat, y: nat)
    ensures (x + y) % 2 == if x % 2 == y % 2 then 0 else 1
  {
  }

  lemma ShiftedIsEven(x: nat)
    ensures x * 16 % M % 2 == 0
  {
    var y := x * 16;
    assert y % M == 2 * (8 * x - 0x8000_0000 * (y / M));
    TwiceIsEven(8 * x - 0x8000_0000 * (y / M));
  }

  lemma TwiceIsEven(k: int)
    ensures 2 * k % 2 == 0
  {
  }

  lemma ParityOfFive(zero: nat, low: nat, x: nat, sum: nat, shifted: nat, high: nat)
    requires zero % 2 == 0 && (low + x + sum + shifted + high) % 2 == 1
    ensures ((zero + low) % 2 + (x + sum) % 2 + (shifted + high) % 2) % 2 == 1
  {
  }

  lemma AddParity(x: uint32, y: uint32)
    ensures Add(x, y) % 2 == (x + y) % 2
  {
    ParityKept(x + y);
  }

  lemma ParityKept(v: nat)
    ensures v % M % 2 == v % 2
  {
    var q := v / M;
    assert v == 2 * (0x8000_0000 * q) + v % M;
  }

  lemma AddMoves(z: uint32, m: uint32)
    requires m != 0
    ensures Add(z, m) != z
  {
  }

  /** After two rounds from the zero block a third one changes something. */
  lemma ThirdRoundMoves(z: uint32)
    ensures Encode(WEAK, 3 * DELTA % M, Words(0x1431732D, z)) != Words(0x1431732D, z)
  {
    hide Mix, Add;
    var y: uint32 := 0x1431732D;
    OddMix(y, 3 * DELTA % M, WEAK.c, WEAK.d);
    AddMoves(z, Mix(y, 3 * DELTA % M, WEAK.c, WEAK.d));
  }

  lemma TwoRounds() returns (z: uint32)
    ensures EncryptRounds(WEAK, 0, 2, Words(0, 0)) == Words(0x1431732D, z)
    ensures EncryptRounds(WEAK, Sub(0, DELTA), 3, Words(0, 0)) == Words(0x1431732D, z)
  {
    hide Mix, Xor;
    WeakMixes(0);
    WeakMixes(DELTA);
    var w := Words(0, 0);
    assert Encode(WEAK, 0, w) == w;
    var w1 := Words(DELTA, 0x5DE913AF);
    assert Encode(WEAK, DELTA, w) == w1;
    var w2 := Encode(WEAK, 2 * DELTA % M, w1);
    SubAdd(0x1431732D, DELTA);
    assert w2.y == 0x1431732D;
    z := w2.z;
    UnrollTwo(WEAK, w);
  }

  lemma UnrollTwo(k: Key, w: Words)
    ensures EncryptRounds(k, 0, 2, w) == Encode(k, 2 * DELTA % M, Encode(k, DELTA, w))
    ensures EncryptRounds(k, Sub(0, DELTA), 3, w) == Encode(k, 2 * DELTA % M, Encode(k, DELTA, Encode(k, 0, w)))
  {
    hide Encode;
    assert Add(0, DELTA) == DELTA && Add(DELTA, DELTA) == 2 * DELTA % M && Add(Sub(0, DELTA), DELTA) == 0;
    var e := Encode(k, DELTA, w);
    assert EncryptRounds(k, DELTA, 1, e) == EncryptRounds(k, Add(DELTA, DELTA), 0, Encode(k, Add(DELTA, DELTA), e));
    var f := Encode(k, 0, w);
    var g := Encode(k, DELTA, f);
    assert EncryptRounds(k, DELTA, 1, g) == EncryptRounds(k, Add(DELTA, DELTA), 0, Encode(k, Add(DELTA, DELTA), g));
    assert EncryptRounds(k, 0, 2, f) == EncryptRounds(k, DELTA, 1, g);
  }

  /** For three rounds decryption starts one step short, and does not undo encryption. */
  lemma ThreeRoundsFail()
    ensures StartSum(3) == 2 * DELTA % M && SumAfter(0, 3) == 3 * DELTA % M
    ensures DecryptRounds(WEAK, StartSum(3), 3, EncryptRounds(WEAK, 0, 3, Words(0, 0))) != Words(0, 0)
  {
    hide Encode, EncryptRounds, DecryptRounds, Decode;
    StartSumOfThree();
    var w := Words(0, 0);
    var z := TwoRounds();
    EncryptLast(WEAK, 0, 2, w);
    ThirdRoundMoves(z);
    var e := EncryptRounds(WEAK, 0, 3, w);
    RoundsRedone(WEAK, Sub(0, DELTA), 3, e);
    assert SumAfter(Sub(0, DELTA), 3) == StartSum(3);
  }

  lemma StartSumOfThree()
    ensures StartSum(3) == 2 * DELTA % M
  {
    assert FloorLog2(3) == 1 && Pow2(1) == 2;
  }

  // ----------------------------------------------------------------------- bytes

  lemma WordBound()
    ensures Bound(4) == M
  {
  }

  function WordOf(b: seq<byte>): uint32
    requires |b| == 4
  {
    ValueOfBytes(b);
    WordBound();
    LittleEndian(b)
  }

  function BytesOf(w: uint32): (b: seq<byte>)
    ensures |b| == 4
  {
    LowBytes(w, 4)
  }

  lemma WordRoundTrip(w: uint32)
    ensures WordOf(BytesOf(w)) == w
  {
    WordBound();
    BytesOfValue(w, 4);
  }

  lemma BytesRoundTrip(b: seq<byte>)
    requires |b| == 4
    ensures BytesOf(WordOf(b)) == b
  {
    ValueOfBytes(b);
  }

  function Swapped(w: uint32): uint32 {
    var b := BytesOf(w);
    WordOf([b[3], b[2], b[1], b[0]])
  }

  function Ntoh(net: bool, w: uint32): uint32 {
    if net then Swapped(w) else w
  }

  lemma NtohTwice(net: bool, w: uint32)
    ensures Ntoh(net, Ntoh(net, w)) == w
  {
    hide WordOf, BytesOf;
    var b := BytesOf(w);
    var c := [b[3], b[2], b[1], b[0]];
    BytesRoundTrip(c);
    assert [c[3], c[2], c[1], c[0]] == b;
    WordRoundTrip(w);
  }

  function Load(net: bool, b: seq<byte>, at: nat): uint32
    requires at + 4 <= |b|
  {
    Ntoh(net, WordOf(b[at..at + 4]))
  }

  /** The first byte of a loaded word is its lowest, or its highest in network order. */
  lemma LoadIs(net: bool, b: seq<byte>, at: nat)
    requires at + 4 <= |b|
    ensures Load(net, b, at) ==
      if net then 0x100_0000 * b[at] as int + 0x1_0000 * b[at + 1] as int + 0x100 * b[at + 2] as int + b[at + 3] as int
      else b[at] as int + 0x100 * b[at + 1] as int + 0x1_0000 * b[at + 2] as int + 0x100_0000 * b[at + 3] as int
  {
    var c := b[at..at + 4];
    WordIs(c);
    BytesRoundTrip(c);
    WordIs([c[3], c[2], c[1], c[0]]);
    hide WordOf, BytesOf;
  }

  lemma WordIs(b: seq<byte>)
    requires |b| == 4
    ensures WordOf(b) == b[0] as int + 0x100 * b[1] as int + 0x1_0000 * b[2] as int + 0x100_0000 * b[3] as int
  {
    hide LittleEndian;
    ValueOfBytes(b);
    LittleEndianCons(b);
    LittleEndianCons(b[1..]);
    LittleEndianCons(b[1..][1..]);
    LittleEndianCons(b[1..][1..][1..]);
    NoValue();
    assert b[1..][1..][1..][1..] == [];
  }

  lemma NoValue()
    ensures LittleEndian([]) == 0
  {
  }

  function LoadWords(net: bool, b: seq<byte>): Words
    requires |b| >= 8
  {
    Words(Load(net, b, 0), Load(net, b, 4))
  }

  function StoreWords(net: bool, w: Words): (b: seq<byte>)
    ensures |b| == 8
  {
    BytesOf(Ntoh(net, w.y)) + BytesOf(Ntoh(net, w.z))
  }

  lemma LoadStore(net: bool, w: Words)
    ensures LoadWords(net, StoreWords(net, w)) == w
  {
    hide WordOf, BytesOf, Ntoh;
    var b := StoreWords(net, w);
    assert b[0..4] == BytesOf(Ntoh(net, w.y)) && b[4..8] == BytesOf(Ntoh(net, w.z));
    WordRoundTrip(Ntoh(net, w.y));
    WordRoundTrip(Ntoh(net, w.z));
    NtohTwice(net, w.y);
    NtohTwice(net, w.z);
  }

  lemma StoreLoad(net: bool, b: seq<byte>)
    requires |b| == 8
    ensures StoreWords(net, LoadWords(net, b)) == b
  {
    hide WordOf, BytesOf, Ntoh;
    NtohTwice(net, WordOf(b[0..4]));
    NtohTwice(net, WordOf(b[4..8]));
    BytesRoundTrip(b[0..4]);
    BytesRoundTrip(b[4..8]);
    assert b == b[0..4] + b[4..8];
  }

  function LoadKey(net: bool, key: seq<byte>): Key
    requires |key| == 16
  {
    Key(Load(net, key, 0), Load(net, key, 4), Load(net, key, 8), Load(net, key, 12))
  }

  function Encrypted(key: seq<byte>, round: nat, net: bool, block: seq<byte>): (r: seq<byte>)
    requires |key| == 16 && |block| == 8
    ensures |r| == 8
  {
    StoreWords(net, EncryptRounds(LoadKey(net, key), 0, round, LoadWords(net, block)))
  }

  function Decrypted(key: seq<byte>, round: nat, net: bool, block: seq<byte>): (r: seq<byte>)
    requires |key| == 16 && |block| == 8
    ensures |r| == 8
  {
    StoreWords(net, DecryptRounds(LoadKey(net, key), StartSum(round), round, LoadWords(net, block)))
  }

  /** For a power of two, decryption undoes encryption, for every key, block and byte order. */
  lemma DecryptEncrypt(key: seq<byte>, round: nat, net: bool, block: seq<byte>)
    requires |key| == 16 && |block| == 8 && 0 < round < M && exists k: nat :: round == Pow2(k)
    ensures Decrypted(key, round, net, Encrypted(key, round, net, block)) == block
  {
    hide StoreWords, LoadWords, LoadKey, EncryptRounds, DecryptRounds, SumAfter, StartSum;
    var k, w := LoadKey(net, key), LoadWords(net, block);
    StartSumExact(round);
    LoadStore(net, EncryptRounds(k, 0, round, w));
    RoundsUndone(k, 0, round, w);
    StoreLoad(net, block);
  }

  lemma EncryptDecrypt(key: seq<byte>, round: nat, net: bool, block: seq<byte>)
    requires |key| == 16 && |block| == 8 && 0 < round < M && exists k: nat :: round == Pow2(k)
    ensures Encrypted(key, round, net, Decrypted(key, round, net, block)) == block
  {
    hide StoreWords, LoadWords, LoadKey, EncryptRounds, DecryptRounds, SumAfter, StartSum;
    var k, w := LoadKey(net, key), LoadWords(net, block);
    StartSumExact(round);
    LoadStore(net, DecryptRounds(k, StartSum(round), round, w));
    RoundsRedone(k, 0, round, w);
    StoreLoad(net, block);
  }

  /** The same on bytes, in either byte order. */
  lemma ThreeRoundsFailOnBytes(net: bool)
    ensures var key := StoreWords(net, Words(WEAK.a, WEAK.b)) + StoreWords(net, Words(WEAK.c, WEAK.d));
      var block := StoreWords(net, Words(0, 0));
      Decrypted(key, 3, net, Encrypted(key, 3, net, block)) != block
  {
    hide StoreWords, EncryptRounds, DecryptRounds, SumAfter, StartSum, Ntoh, WordOf;
    var low, high, w := StoreWords(net, Words(WEAK.a, WEAK.b)), StoreWords(net, Words(WEAK.c, WEAK.d)), Words(0, 0);
    var key := low + high;
    assert key[0..4] == low[0..4] && key[4..8] == low[4..8] && key[8..12] == high[0..4] && key[12..16] == high[4..8];
    LoadStore(net, Words(WEAK.a, WEAK.b));
    LoadStore(net, Words(WEAK.c, WEAK.d));
    assert LoadKey(net, key) == WEAK;
    var e := EncryptRounds(WEAK, 0, 3, w);
    LoadStore(net, w);
    LoadStore(net, e);
    var d := DecryptRounds(WEAK, StartSum(3), 3, e);
    LoadStore(net, d);
    ThreeRoundsFail();
  }

  /** Whatever the round count, two blocks with one ciphertext are one block. */
  lemma EncryptedIsInjective(key: seq<byte>, round: nat, net: bool, b1: seq<byte>, b2: seq<byte>)
    requires |key| == 16 && |b1| == 8 && |b2| == 8
    requires Encrypted(key, round, net, b1) == Encrypted(key, round, net, b2)
    ensures b1 == b2
  {
    hide StoreWords, LoadWords, LoadKey, EncryptRounds, DecryptRounds, SumAfter;
    var k, w1, w2 := LoadKey(net, key), LoadWords(net, b1), LoadWords(net, b2);
    LoadStore(net, EncryptRounds(k, 0, round, w1));
    LoadStore(net, EncryptRounds(k, 0, round, w2));
    RoundsUndone(k, 0, round, w1);
    RoundsUndone(k, 0, round, w2);
    StoreLoad(net, b1);
    StoreLoad(net, b2);
  }

  // -------------------------------------------------------------------- the object

  class TEA {
    const key: seq<byte>
    const round: int32
    const isNetByte: bool

    ghost predicate Valid() {
      |key| == 16 && round >= 0
    }

    constructor (key: seq<byte>, round: int32, isNetByte: bool)
      requires |key| == 16 && round >= 0
      ensures Valid() && this.key == key && this.round == round && this.isNetByte == isNetByte
    {
      this.key, this.round, this.isNetByte := key, round, isNetByte;
    }

    /** `to` may be `from`: the whole block is read before any of it is written. */
    method Encrypt(from: array<byte>, to: array<byte>)
      requires Valid() && from.Length >= 8 && to.Length >= 8
      modifies to
      ensures to[..8] == Encrypted(key, round, isNetByte, old(from[..8]))
      ensures to[8..] == old(to[8..])
    {
      hide Encode, LoadWords, StoreWords, LoadKey;
      var w := LoadWords(isNetByte, from[..8]);
      var k := LoadKey(isNetByte, key);
      var rounds, sum: uint32 := round, 0;
      ghost var start := w;
      while rounds != 0
        invariant 0 <= rounds <= round
        invariant EncryptRounds(k, sum, rounds, w) == EncryptRounds(k, 0, round, start)
      {
        rounds := rounds - 1;
        sum := Add(sum, DELTA);
        w := Encode(k, sum, w);
      }
      WriteBlock(StoreWords(isNetByte, w), to);
    }

    method Decrypt(from: array<byte>, to: array<byte>)
      requires Valid() && from.Length >= 8 && to.Length >= 8
      modifies to
      ensures to[..8] == Decrypted(key, round, isNetByte, old(from[..8]))
      ensures to[8..] == old(to[8..])
    {
      hide Decode, LoadWords, StoreWords, LoadKey, StartSum;
      var w := LoadWords(isNetByte, from[..8]);
      var k := LoadKey(isNetByte, key);
      var rounds, sum := round, StartSum(round);
      ghost var start := w;
      while rounds != 0
        invariant 0 <= rounds <= round
        invariant DecryptRounds(k, sum, rounds, w) == DecryptRounds(k, StartSum(round), round, start)
      {
        rounds := rounds - 1;
        w := Decode(k, sum, w);
        sum := Sub(sum, DELTA);
      }
      WriteBlock(StoreWords(isNetByte, w), to);
    }
  }

  method WriteBlock(block: seq<byte>, to: array<byte>)
    requires |block| == 8 && to.Length >= 8
    modifies to
    ensures to[..8] == block && to[8..] == old(to[8..])
  {
    forall i | 0 <= i < 8 {
      to[i] := block[i];
    }
  }
}
