/** Printing a signed 32-bit integer in any base from 2 to 36. */
module S7Text {
  import opened Basics

  const DIGITS := "0123456789abcdefghijklmnopqrstuvwxyz"
  /** Digits for remainders from -35 to 35: z down to 1, then 0 up to z. */
  const TABLE := Reversed(DIGITS[1..]) + DIGITS

  predicate ValidBase(base: int) {
    2 <= base <= 36
  }

  function Abs(x: int): nat {
    if x < 0 then -x else x
  }

  function Quot(n: nat, base: nat): (q: nat)
    requires base > 1
    ensures (n > 0 ==> q < n) && (q == 0 <==> n < base)
  {
    TwiceAtMost(n / base, base);
    n / base
  }

  function Rem(n: nat, base: nat): (r: nat)
    requires base > 1
    ensures r < base && (n < base ==> r == n)
  {
    n % base
  }

  lemma QuotRem(n: nat, base: nat)
    requires base > 1
    ensures n == Quot(n, base) * base + Rem(n, base)
  {
  }

  lemma TwiceAtMost(q: nat, base: nat)
    requires base > 1
    ensures q * base >= 2 * q
  {
  }

  /** Division that rounds toward zero. */
  function TruncDiv(x: int, y: nat): (q: int)
    requires y > 1
  {
    if x < 0 then 0 - Quot(-x, y) else Quot(x, y)
  }

  lemma TruncDivIs(x: int, y: nat)
    requires y > 1
    ensures var q := TruncDiv(x, y);
      Abs(q) == Quot(Abs(x), y) && Abs(x - q * y) == Rem(Abs(x), y) && (q != 0 ==> (q < 0 <==> x < 0))
    ensures Abs(TruncDiv(x, y) * y) <= Abs(x)
  {
    hide Quot, Rem;
    var a := Abs(x);
    var q := Quot(a, y);
    QuotRem(a, y);
    if x < 0 {
      NegativeProduct(q, y);
    }
  }

  lemma NegativeProduct(q: nat, y: nat)
    ensures (0 - q) * y == 0 - q * y
  {
  }

  // ------------------------------------------------------------------ the number's text

  function Digits(n: nat, base: nat): (s: string)
    requires ValidBase(base)
    ensures s != ""
  {
    if n < base then [DIGITS[n]] else Digits(Quot(n, base), base) + [DIGITS[Rem(n, base)]]
  }

  function Text(value: int, base: nat): string
    requires ValidBase(base)
  {
    if value < 0 then "-" + Digits(-value, base) else Digits(value, base)
  }

  function Number(value: int, base: int): string {
    if ValidBase(base) then Text(value, base) else ""
  }

  function Reversed(s: string): (r: string)
    ensures |r| == |s|
  {
    seq(|s|, i requires 0 <= i < |s| => s[|s| - 1 - i])
  }

  lemma ReversedAppend(s: string, c: char)
    ensures Reversed(s + [c]) == [c] + Reversed(s)
  {
  }

  lemma TableIsSymmetric(d: int)
    requires -36 < d < 36
    ensures TABLE[35 + d] == DIGITS[Abs(d)]
  {
  }

  // --------------------------------------------------------------------------- reading

  function DigitValue(c: char): Option<nat> {
    if '0' <= c <= '9' then Some((c - '0') as int)
    else if 'a' <= c <= 'z' then Some((c - 'a') as int + 10)
    else None
  }

  function Value(s: string, base: nat): Option<int> {
    if s == "" then Some(0) else Extended(Value(s[..|s| - 1], base), DigitValue(s[|s| - 1]), base)
  }

  /** The value with one digit more. */
  function Extended(v: Option<int>, d: Option<nat>, base: nat): Option<int> {
    if v.Some? && d.Some? && d.value < base then Some(v.value * base + d.value) else None
  }

  /** An optional sign and at least one digit. */
  function Parse(s: string, base: nat): Option<int> {
    if s == "" || s == "-" then None
    else if s[0] == '-' then
      var v := Value(s[1..], base);
      if v.Some? then Some(-v.value) else None
    else Value(s, base)
  }

  lemma DigitsParse(d: nat)
    requires d < 36
    ensures DigitValue(DIGITS[d]) == Some(d) && DIGITS[d] != '-' && DIGITS[d] != '\0'
  {
  }

  lemma ValueAppend(s: string, c: char, base: nat)
    ensures Value(s + [c], base) == Extended(Value(s, base), DigitValue(c), base)
  {
    assert (s + [c])[..|s|] == s;
  }

  lemma DigitsUnfold(n: nat, base: nat)
    requires ValidBase(base)
    ensures n < base ==> Digits(n, base) == [DIGITS[n]]
    ensures n >= base ==> Digits(n, base) == Digits(Quot(n, base), base) + [DIGITS[Rem(n, base)]]
  {
  }

  lemma {:induction false} ValueOfDigits(n: nat, base: nat)
    requires ValidBase(base)
    ensures Value(Digits(n, base), base) == Some(n) && '-' !in Digits(n, base) && '\0' !in Digits(n, base)
    decreases n
  {
    hide Digits, Value, DigitValue, Quot, Rem;
    DigitsUnfold(n, base);
    if n < base {
      DigitsParse(n);
      ValueAppend("", DIGITS[n], base);
      assert "" + [DIGITS[n]] == [DIGITS[n]];
      NoValue(base);
    } else {
      var q, r := Quot(n, base), Rem(n, base);
      ValueOfDigits(q, base);
      DigitsParse(r);
      ValueAppend(Digits(q, base), DIGITS[r], base);
      QuotRem(n, base);
    }
  }

  lemma NoValue(base: nat)
    ensures Value("", base) == Some(0)
  {
  }

  /** The text reads back as the number. */
  lemma TextParses(value: int, base: nat)
    requires 2 <= base <= 36
    ensures Parse(Text(value, base), base) == Some(value) && '\0' !in Text(value, base)
  {
    hide Digits, Value;
    var d := Digits(Abs(value), base);
    ValueOfDigits(Abs(value), base);
    assert d[0] in d;
    if value < 0 {
      assert Text(value, base)[1..] == d;
    }
  }

  /** Numbers are written without leading zeros, and with a sign only when negative. */
  lemma NoLeadingZero(value: int, base: nat)
    requires 2 <= base <= 36
    ensures var t := Text(value, base);
      && (t[0] == '-' <==> value < 0) && (t[0] == '0' <==> value == 0) && (value == 0 ==> t == "0")
      && (value < 0 ==> |t| > 1 && t[1] != '0')
  {
    hide Digits;
    var d := Digits(Abs(value), base);
    FirstDigit(Abs(value), base);
    assert value < 0 ==> Text(value, base)[1..] == d;
  }

  lemma {:induction false} FirstDigit(n: nat, base: nat)
    requires ValidBase(base)
    ensures var d := Digits(n, base)[0];
      d != '-' && (d == '0' <==> n == 0) && (n == 0 ==> Digits(n, base) == "0")
    decreases n
  {
    hide Digits, Quot, Rem;
    DigitsUnfold(n, base);
    if n < base {
      DigitIs(n);
    } else {
      FirstDigit(Quot(n, base), base);
    }
  }

  lemma DigitIs(d: nat)
    requires d < 36
    ensures (DIGITS[d] == '0' <==> d == 0) && DIGITS[d] != '-'
  {
  }

  // ----------------------------------------------------------------------------- length

  lemma {:induction false} DigitsFit(n: nat, base: nat, k: nat)
    requires ValidBase(base) && n < Pow2(k) && k > 0
    ensures |Digits(n, base)| <= k
  {
    if n >= base {
      var q := Quot(n, base);
      QuotRem(n, base);
      TwiceAtMost(q, base);
      DigitsFit(q, base, k - 1);
    }
  }

  /** No 32-bit number needs more than 34 characters with its terminator. */
  lemma TextFits(value: int32, base: nat)
    requires ValidBase(base)
    ensures |Text(value, base)| + 1 <= 34
  {
    Pow2Of32();
    DigitsFit(Abs(value), base, 32);
  }

  // -------------------------------------------------------------------------- operations

  /** What is still to be written when `value` is left and `done` characters are out. */
  function Pending(value: int, base: nat, first: bool): string
    requires ValidBase(base)
  {
    if value == 0 && !first then "" else Digits(Abs(value), base)
  }

  lemma DigitWritten(value: int, base: nat, done: string, first: bool, c: char)
    requires ValidBase(base) && (value != 0 || first) && c == DIGITS[Rem(Abs(value), base)]
    ensures Pending(value, base, first) + Reversed(done)
         == Pending(TruncDiv(value, base), base, false) + Reversed(done + [c])
  {
    hide TruncDiv, Digits, Reversed, Quot, Rem;
    TruncDivIs(value, base);
    ReversedAppend(done, c);
    var a := Abs(value);
    DigitsUnfold(a, base);
    var rest := Pending(TruncDiv(value, base), base, false);
    assert Pending(value, base, first) == rest + [c];
    assert rest + [c] + Reversed(done) == rest + ([c] + Reversed(done));
  }

  /** Digits are written low end first through a moving position and then turned around. */
  method Itoa(value: int32, result: array<char>, base: int)
    requires result.Length > |Number(value, base)|
    modifies result
    ensures var t := Number(value, base); result[..|t| + 1] == t + "\0"
  {
    hide Digits, Reversed;
    if base < 2 || base > 36 {
      result[0] := '\0';
      return;
    }
    var v, ptr := WriteDigits(value, result, base);
    ghost var digits := result[..ptr];
    if v < 0 {
      result[ptr] := '-';
      ptr := ptr + 1;
    }
    result[ptr] := '\0';
    assert result[..ptr] == if v < 0 then digits + ['-'] else digits;
    ReversedAppend(digits, '-');
    Reverse(result, ptr);
    assert result[..ptr] == Text(value, base);
    assert result[ptr..][0] == '\0';
    assert result[..ptr + 1] == result[..ptr] + "\0";
  }

  /** Returns the last quotient divided, whose sign is the number's, and the position. */
  method WriteDigits(value: int32, result: array<char>, base: int) returns (last: int, ptr: nat)
    requires ValidBase(base) && |Digits(Abs(value), base)| <= result.Length
    modifies result
    ensures (last < 0 <==> value < 0) && ptr == |Digits(Abs(value), base)|
    ensures Reversed(result[..ptr]) == Digits(Abs(value), base)
  {
    hide Digits, TruncDiv, Reversed, Quot, Rem;
    var v: int32 := value;
    last, ptr := v, 0;
    var first := true;
    assert result[..0] == [] && Reversed(result[..0]) == [];
    while first || v != 0
      invariant ptr <= result.Length && (first <==> ptr == 0) && (first ==> v == value)
      invariant v != 0 ==> (v < 0 <==> value < 0)
      invariant !first ==> (last < 0 <==> value < 0)
      invariant Digits(Abs(value), base) == Pending(v, base, first) + Reversed(result[..ptr])
      decreases first, Abs(v)
    {
      last := v;
      TruncDivIs(last, base);
      v := TruncDiv(last, base);
      var product: int32 := v * base;
      TableIsSymmetric(last - product);
      ghost var done := result[..ptr];
      result[ptr] := TABLE[35 + (last - product)];
      DigitWritten(last, base, done, first, result[ptr]);
      ptr := ptr + 1;
      assert result[..ptr] == done + [result[ptr - 1]];
      first := false;
    }
    assert Digits(Abs(value), base) == Reversed(result[..ptr]);
  }

  /** Turns the first n characters around in place. */
  method Reverse(result: array<char>, n: nat)
    requires 0 < n <= result.Length
    modifies result
    ensures result[..n] == Reversed(old(result[..n])) && result[n..] == old(result[n..])
  {
    var ptr1, ptr := 0, n - 1;
    while ptr1 < ptr
      invariant 0 <= ptr1 && ptr == n - 1 - ptr1 && ptr1 <= ptr + 1
      invariant forall i :: 0 <= i < ptr1 || ptr < i < n ==> result[i] == old(result[n - 1 - i])
      invariant forall i :: ptr1 <= i <= ptr ==> result[i] == old(result[i])
      invariant result[n..] == old(result[n..])
    {
      var tmp := result[ptr];
      result[ptr] := result[ptr1];
      result[ptr1] := tmp;
      ptr := ptr - 1;
      ptr1 := ptr1 + 1;
    }
  }

  // ------------------------------------------------------------------------ zero padding

  const PAD := 64

  function Zeros(n: nat): (s: string)
    ensures |s| == n
  {
    if n == 0 then "" else ['0'] + Zeros(n - 1)
  }

  function PadLength(length: int, digits: nat): (n: nat)
    ensures n <= PAD
  {
    if length - digits > PAD then PAD else if length > digits then length - digits else 0
  }

  function Padded(value: int, base: int, length: int): string {
    var t := Number(value, base);
    Zeros(PadLength(length, |t|)) + t
  }

  lemma {:induction false} AllZeros(n: nat)
    ensures forall i :: 0 <= i < n ==> Zeros(n)[i] == '0'
  {
    if n > 0 {
      AllZeros(n - 1);
    }
  }

  lemma {:induction false} LeadingZero(s: string, base: nat)
    requires base > 0
    ensures Value(['0'] + s, base) == Value(s, base)
  {
    if s == "" {
      assert ['0'] + s == "" + ['0'];
      ValueAppend("", '0', base);
    } else {
      var n := |s| - 1;
      LeadingZero(s[..n], base);
      ValueAppend(['0'] + s[..n], s[n], base);
      assert ['0'] + s == (['0'] + s[..n]) + [s[n]] && s == s[..n] + [s[n]];
    }
  }

  lemma {:induction false} LeadingZeros(n: nat, s: string, base: nat)
    requires base > 0
    ensures Value(Zeros(n) + s, base) == Value(s, base)
  {
    hide Value;
    if n == 0 {
      assert Zeros(0) + s == s;
    } else {
      LeadingZeros(n - 1, s, base);
      LeadingZero(Zeros(n - 1) + s, base);
      assert Zeros(n) + s == ['0'] + (Zeros(n - 1) + s);
    }
  }

  lemma {:induction false} SignIsNoDigit(s: string, base: nat)
    requires '-' in s
    ensures Value(s, base) == None
  {
    var n := |s| - 1;
    if s[n] != '-' {
      assert s == s[..n] + [s[n]];
      SignIsNoDigit(s[..n], base);
    }
  }

  /** The padded text is the text with zeros in front, up to the length asked for, and never
      more than 64 of them. */
  lemma PaddedText(value: int, base: int, length: int)
    ensures var t, p := Number(value, base), Padded(value, base, length);
      && |p| == (if length <= |t| then |t| else if length <= |t| + 64 then length else |t| + 64)
      && p[|p| - |t|..] == t && forall i :: 0 <= i < |p| - |t| ==> p[i] == '0'
  {
    hide Number;
    var t := Number(value, base);
    AllZeros(PadLength(length, |t|));
  }

  /** Padded text reads back exactly unless zeros stand before a sign. */
  lemma PaddedParses(value: int, base: nat, length: int)
    requires ValidBase(base)
    ensures Parse(Padded(value, base, length), base) == Some(value) <==> value >= 0 || length <= |Text(value, base)|
  {
    hide Value, Digits;
    TextParses(value, base);
    var t := Text(value, base);
    var n := PadLength(length, |t|);
    var p := Zeros(n) + t;
    if n == 0 {
      assert p == t;
    } else {
      AllZeros(n);
      assert p[0] == Zeros(n)[0];
      if value < 0 {
        assert p[n] == '-';
        SignIsNoDigit(p, base);
      } else {
        ValueOfDigits(value, base);
        LeadingZeros(n, t, base);
      }
    }
  }

  method NumToString(value: int32, base: int, length: int32, result: array<char>)
    requires result.Length > length && result.Length > |Padded(value, base, length)|
    modifies result
    ensures var p := Padded(value, base, length);
      result[..|p| + 1] == p + "\0"
  {
    hide Padded, Text;
    PaddedIs(value, base, length);
    var number := new char[64];
    if ValidBase(base) {
      TextFits(value, base);
    }
    Itoa(value, number, base);
    ghost var t := Number(value, base);
    assert number[..|t| + 1] == t + "\0" && number[|t|] == '\0';
    assert '\0' !in t by {
      if ValidBase(base) {
        TextParses(value, base);
      }
    }
    var digits := StrLen(number, t);
    var start := 0;
    var delta := length - digits;
    if length > 0 && delta > 0 {
      forall i | 0 <= i < delta {
        result[i] := if i < PAD then '0' else '\0';
      }
      result[delta] := '\0';
      start := if delta < PAD then delta else PAD;
      AllZeros(start);
      assert result[..start] == Zeros(start);
    }
    Append(number, t, result, start);
  }

  lemma PaddedIs(value: int, base: int, length: int)
    ensures var t := Number(value, base);
      Padded(value, base, length) == Zeros(PadLength(length, |t|)) + t
  {
  }

  /** The position of the first NUL. */
  method StrLen(s: array<char>, ghost t: string) returns (n: nat)
    requires |t| < s.Length && s[..|t|] == t && s[|t|] == '\0' && '\0' !in t
    ensures n == |t|
  {
    forall i | 0 <= i < |t|
      ensures s[i] == t[i] && t[i] != '\0'
    {
      assert s[..|t|][i] == t[i];
    }
    n := 0;
    while s[n] != '\0'
      invariant n <= |t|
      decreases |t| - n
    {
      assert n != |t|;
      n := n + 1;
    }
  }

  /** Copies a text with its terminator to `start`. */
  method Append(s: array<char>, ghost t: string, result: array<char>, start: nat)
    requires s != result && |t| < s.Length && s[..|t| + 1] == t + "\0" && '\0' !in t
    requires start + |t| < result.Length
    modifies result
    ensures result[..start + |t| + 1] == old(result[..start]) + t + "\0"
  {
    assert s[|t|] == (t + "\0")[|t|] && s[..|t|] == t;
    var n := StrLen(s, t);
    forall i | 0 <= i <= n {
      result[start + i] := s[i];
    }
    assert result[start..start + n + 1] == s[..n + 1];
    assert result[..start + n + 1] == result[..start] + result[start..start + n + 1];
  }
}
