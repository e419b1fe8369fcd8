/** Checking an entered code against a serial number: the code must be the printed ciphertext
    of the serial, with any spacing. */
module SerialCheck {
  import opened Basics
  import opened HexCodec
  import Tea

  const MAX_NAME_LEN := 256
  const SIZE_OUT := 8
  const SIZE_KEY := 16

  const KEY_TEXT := "BA DA 7D 21" + " " + "DB E2 DB B3" + " " + "11 B4 55 01" + " " + "A5 C6 EA DF"
  const KEY: seq<byte> :=
    [0xBA, 0xDA, 0x7D, 0x21, 0xDB, 0xE2, 0xDB, 0xB3, 0x11, 0xB4, 0x55, 0x01, 0xA5, 0xC6, 0xEA, 0xDF]

  /** `Throws` when the serial's length is refused; `Undefined` when the code reads past a
      buffer's end or past an empty group's. */
  datatype Outcome = Answer(ok: bool) | Throws | Undefined

  lemma {:induction false} PrintedAppend(a: seq<byte>, b: seq<byte>)
    requires a != [] && b != []
    ensures BytesToHex(a + b) == BytesToHex(a) + " " + BytesToHex(b)
  {
    assert (a + b)[1..] == a[1..] + b;
    if |a| > 1 {
      PrintedAppend(a[1..], b);
    }
  }

  lemma PrintedFour(w: byte, x: byte, y: byte, z: byte)
    ensures BytesToHex([w, x, y, z]) == ByteText(w) + " " + ByteText(x) + " " + ByteText(y) + " " + ByteText(z)
  {
    hide ByteText;
    assert [w, x] == [w] + [x] && [w, x, y] == [w, x] + [y] && [w, x, y, z] == [w, x, y] + [z];
    PrintedAppend([w], [x]);
    PrintedAppend([w, x], [y]);
    PrintedAppend([w, x, y], [z]);
  }

  lemma KeyPart1()
    ensures BytesToHex([0xBA, 0xDA, 0x7D, 0x21]) == "BA DA 7D 21"
  {
    PrintedFour(0xBA, 0xDA, 0x7D, 0x21);
    assert ByteText(0xBA) == "BA" && ByteText(0xDA) == "DA" && ByteText(0x7D) == "7D" && ByteText(0x21) == "21";
  }

  lemma KeyPart2()
    ensures BytesToHex([0xDB, 0xE2, 0xDB, 0xB3]) == "DB E2 DB B3"
  {
    PrintedFour(0xDB, 0xE2, 0xDB, 0xB3);
    assert ByteText(0xDB) == "DB" && ByteText(0xE2) == "E2" && ByteText(0xDB) == "DB" && ByteText(0xB3) == "B3";
  }

  lemma KeyPart3()
    ensures BytesToHex([0x11, 0xB4, 0x55, 0x01]) == "11 B4 55 01"
  {
    PrintedFour(0x11, 0xB4, 0x55, 0x01);
    assert ByteText(0x11) == "11" && ByteText(0xB4) == "B4" && ByteText(0x55) == "55" && ByteText(0x01) == "01";
  }

  lemma KeyPart4()
    ensures BytesToHex([0xA5, 0xC6, 0xEA, 0xDF]) == "A5 C6 EA DF"
  {
    PrintedFour(0xA5, 0xC6, 0xEA, 0xDF);
    assert ByteText(0xA5) == "A5" && ByteText(0xC6) == "C6" && ByteText(0xEA) == "EA" && ByteText(0xDF) == "DF";
  }

  lemma KeyPrinted()
    ensures BytesToHex(KEY) == KEY_TEXT
  {
    hide BytesToHex;
    var a, b, c, d := KEY[..4], KEY[4..8], KEY[8..12], KEY[12..];
    KeyPart1();
    KeyPart2();
    KeyPart3();
    KeyPart4();
    assert a == [0xBA, 0xDA, 0x7D, 0x21] && b == [0xDB, 0xE2, 0xDB, 0xB3];
    assert c == [0x11, 0xB4, 0x55, 0x01] && d == [0xA5, 0xC6, 0xEA, 0xDF];
    assert KEY == a + b + c + d;
    PrintedAppend(a, b);
    PrintedAppend(a + b, c);
    PrintedAppend(a + b + c, d);
  }

  lemma KeyParses()
    ensures HexToBytes(KEY_TEXT) == Some(KEY)
  {
    KeyPrinted();
    HexRoundTrip(KEY);
  }

  // -------------------------------------------------------------- removing spaces

  function Kept(c: char): string {
    if c == ' ' then "" else [c]
  }

  function Stripped(s: string): (r: string)
    ensures ' ' !in r && |r| <= |s| && forall c :: c !in s ==> c !in r
  {
    if s == "" then "" else Kept(s[0]) + Stripped(s[1..])
  }

  /** `source` stands for its characters and a terminator. Returns the length, or -1 when the
      buffer is too small, which then holds no terminator. */
  method DelStringSpace(to: array<char>, size: nat, source: string) returns (n: int)
    requires 0 < size <= to.Length
    modifies to
    ensures n == if |Stripped(CString(source))| < size then |Stripped(CString(source))| else -1
    ensures n >= 0 ==> to[..n] == Stripped(CString(source)) && to[n] == '\0'
    ensures n < 0 ==> to[..size] == Stripped(CString(source))[..size]
  {
    hide Stripped, CString;
    var iDest, iSrc := 0, 0;
    ghost var all := Stripped(CString(source));
    assert source[0..] == source;
    while CharAt(source, iSrc) != '\0'
      invariant 0 <= iSrc <= |source| && 0 <= iDest < size
      invariant all == to[..iDest] + Stripped(CString(source[iSrc..]))
      decreases |source| - iSrc
    {
      StrippedStep(source, iSrc);
      if source[iSrc] != ' ' {
        ghost var done := to[..iDest];
        to[iDest] := source[iSrc];
        iDest := iDest + 1;
        assert to[..iDest] == done + [source[iSrc]];
        if iDest >= size {
          return -1;
        }
      }
      iSrc := iSrc + 1;
    }
    StrippedEnd(source, iSrc);
    to[iDest] := '\0';
    n := iDest;
  }

  lemma StrippedStep(s: string, i: nat)
    requires i < |s| && s[i] != '\0'
    ensures Stripped(CString(s[i..])) == (if s[i] == ' ' then "" else [s[i]]) + Stripped(CString(s[i + 1..]))
  {
    assert s[i..][1..] == s[i + 1..];
    assert ([s[i]] + CString(s[i + 1..]))[1..] == CString(s[i + 1..]);
  }

  lemma StrippedEnd(s: string, i: nat)
    requires i <= |s| && CharAt(s, i) == '\0'
    ensures Stripped(CString(s[i..])) == ""
  {
  }

  // --------------------------------------------------------------------- the check

  /** The code's characters in pairs. */
  function Pairs(pure: string): (gs: seq<string>)
    requires |pure| == 2 * SIZE_OUT
    ensures |gs| == SIZE_OUT
  {
    seq(SIZE_OUT, i requires 0 <= i < SIZE_OUT => [pure[2 * i], pure[2 * i + 1]])
  }

  function Parsed(pure: string): (bs: seq<byte>)
    requires |pure| == 2 * SIZE_OUT
    ensures |bs| == SIZE_OUT
  {
    GroupBytes(Pairs(pure)).value
  }

  function Cipher(block: seq<byte>): (r: seq<byte>)
    requires |block| == SIZE_OUT
    ensures |r| == SIZE_OUT
  {
    Tea.Encrypted(KEY, SIZE_KEY, true, block)
  }

  function Check(serial: string, code: string): Outcome {
    var pure := Stripped(CString(code));
    if |pure| >= MAX_NAME_LEN then Undefined
    else if |pure| != 2 * SIZE_OUT then Answer(false)
    else if !(8 <= |CString(serial)| <= 16) then Throws
    else
      var wrapped := Terminated(SerialGroups(CString(serial)));
      GroupsAtLeast(SerialGroups(CString(serial)));
      match HexToBytes(wrapped)
      case None => Undefined
      case Some(plain) => Answer(Cipher(plain[..SIZE_OUT]) == Parsed(pure))
  }

  lemma PairsParse(pure: string)
    requires |pure| == 2 * SIZE_OUT && ' ' !in pure && '\0' !in pure
    ensures Groups(Terminated(Pairs(pure))) == Pairs(pure)
    ensures HexToBytes(Terminated(Pairs(pure))) == Some(Parsed(pure))
    ensures '\0' !in Terminated(Pairs(pure))
  {
    GroupsOfTerminated(Pairs(pure));
    TerminatedKeepsOut(Pairs(pure), '\0');
  }

  lemma SerialHasNoNul(serial: string)
    requires 8 <= |CString(serial)| <= 16
    ensures CString(Terminated(SerialGroups(CString(serial)))) == Terminated(SerialGroups(CString(serial)))
    ensures 8 <= |Groups(Terminated(SerialGroups(CString(serial))))| <= 256
  {
    var s := CString(serial);
    SerialGroupsWithout(s, '\0');
    TerminatedKeepsOut(SerialGroups(s), '\0');
    GroupsAtLeast(SerialGroups(s));
    GroupsFit(Terminated(SerialGroups(s)));
    WrappedLength(s, 8);
    assert SerialGroups(s)[..8] == SerialGroups(s);
  }

  lemma {:induction false} WrappedLength(s: string, i: nat)
    requires 8 <= |s| <= 16 && i <= 8
    ensures |Wrapped(s, i)| <= 3 * i
  {
    if i == 0 {
      NoGroups(s);
    } else {
      WrappedLength(s, i - 1);
      GroupAdded(s, i - 1);
    }
  }

  /** The code's pairs with a space after each. */
  method SpacePairs(pure: string) returns (q: array<char>)
    requires |pure| == 2 * SIZE_OUT
    ensures fresh(q) && q[..] == Terminated(Pairs(pure)) + "\0"
  {
    hide Terminated, Pairs;
    q := new char[3 * SIZE_OUT + 1];
    PairsDone(pure);
    for i := 0 to SIZE_OUT
      invariant q[..3 * i] == Terminated(Pairs(pure)[..i])
    {
      ghost var done := q[..3 * i];
      q[3 * i] := pure[2 * i];
      q[3 * i + 1] := pure[2 * i + 1];
      q[3 * i + 2] := ' ';
      assert q[..3 * i + 3] == done + [pure[2 * i], pure[2 * i + 1], ' '];
      PairAdded(pure, i);
    }
    q[3 * SIZE_OUT] := '\0';
    assert q[..] == q[..3 * SIZE_OUT] + "\0";
  }

  lemma PairsDone(pure: string)
    requires |pure| == 2 * SIZE_OUT
    ensures Pairs(pure)[..SIZE_OUT] == Pairs(pure) && Terminated(Pairs(pure)[..0]) == ""
  {
  }

  lemma PairAdded(pure: string, i: nat)
    requires |pure| == 2 * SIZE_OUT && i < SIZE_OUT
    ensures Terminated(Pairs(pure)[..i + 1]) == Terminated(Pairs(pure)[..i]) + [pure[2 * i], pure[2 * i + 1], ' ']
  {
    hide Terminated;
    TerminatedAppend(Pairs(pure)[..i], Pairs(pure)[i]);
    assert Pairs(pure)[..i + 1] == Pairs(pure)[..i] + [Pairs(pure)[i]];
  }

  /** The key and the entered code always parse; the serial is parsed into a larger buffer. */
  method VerifyEncryptCode(plainCode: string, encryptCode: string) returns (r: Outcome)
    requires |plainCode| < 0x8000_0000
    ensures r == Check(plainCode, encryptCode)
  {
    hide Stripped, Terminated, SerialGroups, Groups, GroupBytes, Tea.Encrypted, HexToBytes, CString, Pairs, Check,
      Wrapped;
    var buffer := new char[MAX_NAME_LEN];
    var n := DelStringSpace(buffer, MAX_NAME_LEN, encryptCode);
    if n < 0 {
      CheckUnfolds(plainCode, encryptCode);
      return Undefined;
    }
    var pure := buffer[..n];
    CheckUnfolds(plainCode, encryptCode);
    if |pure| != SIZE_OUT * 2 {
      return Answer(false);
    }
    var wrapped := WrapString(CString(plainCode));
    if wrapped == None {
      return Throws;
    }
    SerialHasNoNul(plainCode);
    var plain, crypt := new byte[256], new byte[SIZE_OUT];
    var size := HexStringToBytes(wrapped.value, plain);
    if size == None {
      return Undefined;
    }
    var key := ParseKey();
    var tea := new Tea.TEA(key[..], SIZE_KEY, true);
    tea.Encrypt(plain, crypt);
    assert plain[..size.value][..8] == plain[..8];
    var entered := ParseCode(pure);
    assert crypt[..8] == crypt[..];
    r := Answer(crypt[..] == entered[..]);
  }

  method ParseKey() returns (key: array<byte>)
    ensures fresh(key) && key[..] == KEY
  {
    key := new byte[SIZE_KEY];
    KeyParses();
    assert |Groups(KEY_TEXT)| == |KEY|;
    var size := HexStringToBytes(KEY_TEXT, key);
    assert key[..size.value] == key[..];
  }

  method ParseCode(pure: string) returns (entered: array<byte>)
    requires |pure| == 2 * SIZE_OUT && ' ' !in pure && '\0' !in pure
    ensures fresh(entered) && entered[..] == Parsed(pure)
  {
    hide Terminated, Pairs, Groups, HexToBytes, CString;
    var q := SpacePairs(pure);
    PairsParse(pure);
    CStringEnds(Terminated(Pairs(pure)), "");
    assert q[..] == Terminated(Pairs(pure)) + "\0" + "";
    entered := new byte[SIZE_OUT];
    var size := HexStringToBytes(CString(q[..]), entered);
    assert entered[..size.value] == entered[..];
  }

  lemma CheckUnfolds(serial: string, code: string)
    ensures var pure, s := Stripped(CString(code)), CString(serial);
      && (|pure| >= MAX_NAME_LEN ==> Check(serial, code) == Undefined)
      && (2 * SIZE_OUT != |pure| < MAX_NAME_LEN ==> Check(serial, code) == Answer(false))
      && (|pure| == 2 * SIZE_OUT && !(8 <= |s| <= 16) ==> Check(serial, code) == Throws)
      && (|pure| == 2 * SIZE_OUT && 8 <= |s| <= 16 ==>
            match HexToBytes(Terminated(SerialGroups(s)))
            case None => Check(serial, code) == Undefined
            case Some(plain) =>
              |plain| >= SIZE_OUT
              && Check(serial, code) == Answer(Cipher(plain[..SIZE_OUT]) == Parsed(pure)))
  {
    if 8 <= |CString(serial)| <= 16 {
      GroupsAtLeast(SerialGroups(CString(serial)));
    }
  }

  // --------------------------------------------------------- what the check accepts

  predicate PlainSerial(s: string) {
    8 <= |s| <= 16 && ' ' !in s && '\0' !in s
  }

  /** The block a serial stands for. */
  function SerialBytes(s: string): (bs: seq<byte>)
    requires PlainSerial(s)
    ensures |bs| == SIZE_OUT
  {
    GroupBytes(SerialGroups(s)).value
  }

  /** The ciphertext of a serial as it is printed. */
  function PrintedCode(s: string): string
    requires PlainSerial(s)
  {
    BytesToHex(Cipher(SerialBytes(s)))
  }

  lemma SerialParses(s: string)
    requires PlainSerial(s)
    ensures HexToBytes(Terminated(SerialGroups(s))) == Some(SerialBytes(s))
  {
    hide Terminated, SerialGroups, Groups;
    SerialIsCut(s);
  }

  lemma CheckOfPlainSerial(serial: string, code: string)
    requires PlainSerial(serial) && |Stripped(CString(code))| == 2 * SIZE_OUT
    ensures Check(serial, code) == Answer(Cipher(SerialBytes(serial)) == Parsed(Stripped(CString(code))))
  {
    hide Check, Stripped, Terminated, SerialGroups, HexToBytes, CString, SerialBytes, Cipher, Parsed;
    CheckUnfolds(serial, code);
    SerialParses(serial);
    assert SerialBytes(serial)[..SIZE_OUT] == SerialBytes(serial);
  }

  function PlainHex(bs: seq<byte>): (r: string)
    ensures |r| == 2 * |bs|
  {
    if bs == [] then "" else ByteText(bs[0]) + PlainHex(bs[1..])
  }

  lemma StrippedCons(c: char, s: string)
    ensures Stripped([c] + s) == Kept(c) + Stripped(s)
  {
    assert ([c] + s)[1..] == s;
  }

  lemma {:induction false} StrippedAppend(a: string, b: string)
    ensures Stripped(a + b) == Stripped(a) + Stripped(b)
  {
    hide Stripped, Kept;
    if a == "" {
      StrippedPlain("");
      assert a + b == b;
    } else {
      StrippedAppend(a[1..], b);
      StrippedCons(a[0], a[1..]);
      StrippedCons(a[0], a[1..] + b);
      assert [a[0]] + (a[1..] + b) == a + b && [a[0]] + a[1..] == a;
    }
  }

  lemma {:induction false} StrippedPlain(a: string)
    requires ' ' !in a
    ensures Stripped(a) == a
  {
    if a != "" {
      StrippedPlain(a[1..]);
    }
  }

  lemma {:induction false} StrippedPrinted(bs: seq<byte>)
    ensures Stripped(BytesToHex(bs)) == PlainHex(bs)
  {
    hide Stripped, ByteText;
    if bs == [] {
      StrippedPlain("");
    } else {
      var t := ByteText(bs[0]);
      ByteTextParses(bs[0]);
      StrippedPlain(t);
      if |bs| > 1 {
        StrippedPrinted(bs[1..]);
        StrippedAppend(t + " ", BytesToHex(bs[1..]));
        StrippedAppend(t, " ");
        OneSpace();
      }
    }
  }

  lemma OneSpace()
    ensures Stripped(" ") == ""
  {
  }

  lemma {:induction false} PlainHexAt(bs: seq<byte>, i: nat)
    requires i < |bs|
    ensures PlainHex(bs)[2 * i] == IntToHexChar(bs[i] / 16) && PlainHex(bs)[2 * i + 1] == IntToHexChar(bs[i] % 16)
  {
    if i > 0 {
      PlainHexAt(bs[1..], i - 1);
      assert PlainHex(bs)[2..] == PlainHex(bs[1..]);
    }
  }

  function Upper(s: string): (r: string)
    ensures |r| == |s| && forall i :: 0 <= i < |s| ==> r[i] == ToUpper(s[i])
  {
    seq(|s|, i requires 0 <= i < |s| => ToUpper(s[i]))
  }

  lemma PairOfDigits(c: char, d: char, b: byte)
    requires HexDigit(c) && HexDigit(d)
    ensures GroupByte([c, d]) == b <==> ToUpper(c) == IntToHexChar(b / 16) && ToUpper(d) == IntToHexChar(b % 16)
  {
    hide IntToHexChar, HexCharToInt, ToUpper, HexDigit, GroupByte;
    CharRoundTrip(c);
    CharRoundTrip(d);
    var high, low := HexCharToInt(c), HexCharToInt(d);
    PairByte(c, d);
    SplitByte(high, low, b);
    SameDigit(high, b / 16);
    SameDigit(low, b % 16);
  }

  lemma PairByte(c: char, d: char)
    requires HexCharToInt(c) < 16 && HexCharToInt(d) < 16
    ensures GroupByte([c, d]) == HexCharToInt(c) * 16 + HexCharToInt(d)
  {
    hide HexCharToInt;
    assert CharAt([c, d], 0) == c && CharAt([c, d], 1) == d;
  }

  lemma SplitByte(high: nat, low: nat, b: byte)
    requires high < 16 && low < 16
    ensures high * 16 + low == b <==> high == b / 16 && low == b % 16
  {
  }

  /** Different digits print differently. */
  lemma SameDigit(x: nat, y: nat)
    requires x < 16 && y < 16
    ensures IntToHexChar(x) == IntToHexChar(y) <==> x == y
  {
    hide IntToHexChar, HexCharToInt;
    DigitRoundTrip(x);
    DigitRoundTrip(y);
  }

  lemma ParsedAt(pure: string, i: nat)
    requires |pure| == 2 * SIZE_OUT && i < SIZE_OUT
    ensures Parsed(pure)[i] == GroupByte([pure[2 * i], pure[2 * i + 1]])
  {
    assert Pairs(pure)[i] == [pure[2 * i], pure[2 * i + 1]];
  }

  /** Hexadecimal digits, in either case, parse to the bytes they print. */
  lemma ParsedDigits(pure: string, bs: seq<byte>)
    requires |pure| == 2 * SIZE_OUT && |bs| == SIZE_OUT && forall i :: 0 <= i < |pure| ==> HexDigit(pure[i])
    ensures Parsed(pure) == bs <==> Upper(pure) == PlainHex(bs)
  {
    hide Parsed, GroupByte, HexDigit, ToUpper, IntToHexChar, PlainHex;
    forall i | 0 <= i < SIZE_OUT
      ensures Parsed(pure)[i] == bs[i]
        <==> Upper(pure)[2 * i] == PlainHex(bs)[2 * i] && Upper(pure)[2 * i + 1] == PlainHex(bs)[2 * i + 1]
    {
      ParsedAt(pure, i);
      PlainHexAt(bs, i);
      PairOfDigits(pure[2 * i], pure[2 * i + 1], bs[i]);
    }
    if Parsed(pure) == bs {
      forall j | 0 <= j < |pure|
        ensures Upper(pure)[j] == PlainHex(bs)[j]
      {
        assert Parsed(pure)[j / 2] == bs[j / 2];
      }
    }
  }

  /** Sixteen characters whose values, in pairs and modulo 256, are the bytes. */
  predicate Matches(pure: string, bs: seq<byte>)
    requires |bs| == 8
  {
    |pure| == 16
    && forall i :: 0 <= i < 8 ==> bs[i] == (16 * HexCharToInt(pure[2 * i]) + HexCharToInt(pure[2 * i + 1])) % 256
  }

  lemma MatchesIff(pure: string, bs: seq<byte>)
    requires |pure| == 16 && |bs| == 8
    ensures Matches(pure, bs) <==> bs == Parsed(pure)
  {
    hide Parsed, HexCharToInt;
    forall i | 0 <= i < 8
      ensures Parsed(pure)[i] == (16 * HexCharToInt(pure[2 * i]) + HexCharToInt(pure[2 * i + 1])) % 256
    {
      ParsedAt(pure, i);
      PairValue(pure[2 * i], pure[2 * i + 1]);
    }
  }

  lemma PairValue(c: char, d: char)
    ensures GroupByte([c, d]) == (16 * HexCharToInt(c) + HexCharToInt(d)) % 256
  {
    hide HexCharToInt;
    assert CharAt([c, d], 0) == c && CharAt([c, d], 1) == d;
  }

  /** Any code is accepted exactly when without its spaces it matches the ciphertext. */
  lemma AcceptsByValues(serial: string, code: string)
    requires PlainSerial(serial) && |Stripped(CString(code))| < 256
    ensures Check(serial, code) == Answer(Matches(Stripped(CString(code)), Cipher(SerialBytes(serial))))
  {
    hide Check, Stripped, CString, Parsed, Cipher, SerialBytes, Matches;
    var pure, crypt := Stripped(CString(code)), Cipher(SerialBytes(serial));
    CheckUnfolds(serial, code);
    MatchesLength(pure, crypt);
    if |pure| == 16 {
      CheckOfPlainSerial(serial, code);
      MatchesIff(pure, crypt);
    }
  }

  lemma MatchesLength(pure: string, bs: seq<byte>)
    requires |bs| == 8
    ensures Matches(pure, bs) ==> |pure| == 16
  {
  }

  /** A code of hexadecimal digits is accepted exactly when, spaces and case aside, it is the
      printed ciphertext of the serial. */
  lemma AcceptsExactly(serial: string, code: string)
    requires PlainSerial(serial) && |Stripped(CString(code))| < MAX_NAME_LEN
    requires forall i :: 0 <= i < |Stripped(CString(code))| ==> HexDigit(Stripped(CString(code))[i])
    ensures Check(serial, code) == Answer(Upper(Stripped(CString(code))) == Stripped(PrintedCode(serial)))
  {
    hide Check, Stripped, CString, Parsed, HexDigit, Cipher;
    var pure, crypt := Stripped(CString(code)), Cipher(SerialBytes(serial));
    StrippedPrinted(crypt);
    CheckUnfolds(serial, code);
    if |pure| == 2 * SIZE_OUT {
      CheckOfPlainSerial(serial, code);
      ParsedDigits(pure, crypt);
    }
  }

  /** The printed ciphertext is accepted with any spacing. */
  lemma PrintedCodeAccepted(serial: string, code: string)
    requires PlainSerial(serial) && Stripped(CString(code)) == Stripped(PrintedCode(serial))
    ensures Check(serial, code) == Answer(true)
  {
    hide Check, CString, Stripped, Parsed, Cipher, HexDigit, IntToHexChar, PlainHex, ToUpper;
    var crypt := Cipher(SerialBytes(serial));
    StrippedPrinted(crypt);
    PlainHexDigits(crypt);
    AcceptsExactly(serial, code);
  }

  /** Printed bytes are digits in upper case. */
  lemma PlainHexDigits(bs: seq<byte>)
    ensures forall i :: 0 <= i < |PlainHex(bs)| ==> HexDigit(PlainHex(bs)[i])
    ensures Upper(PlainHex(bs)) == PlainHex(bs)
  {
    hide HexDigit, IntToHexChar, PlainHex, ToUpper;
    var pure := PlainHex(bs);
    forall i | 0 <= i < |pure|
      ensures HexDigit(pure[i]) && ToUpper(pure[i]) == pure[i]
    {
      PlainHexAt(bs, i / 2);
      PrintedDigit(bs[i / 2] / 16);
      PrintedDigit(bs[i / 2] % 16);
      assert i == 2 * (i / 2) || i == 2 * (i / 2) + 1;
    }
  }

  lemma PrintedDigit(x: nat)
    requires x < 16
    ensures HexDigit(IntToHexChar(x)) && ToUpper(IntToHexChar(x)) == IntToHexChar(x)
  {
  }

  /** A serial of eight digits stands for eight bytes with these digits in the upper half. */
  lemma EightDigits(s: string)
    requires |s| == SIZE_OUT && forall i :: 0 <= i < SIZE_OUT ==> '0' <= s[i] <= '9'
    ensures PlainSerial(s) && forall i :: 0 <= i < SIZE_OUT ==> SerialBytes(s)[i] == (s[i] - '0') as int * 16
  {
    hide GroupByte;
    forall i | 0 <= i < SIZE_OUT
      ensures SerialGroups(s)[i] == [s[i]] && SerialBytes(s)[i] == (s[i] - '0') as int * 16
    {
      OneDigit(s[i]);
    }
  }

  /** A group of one character has its digit in the upper half. */
  lemma OneDigit(c: char)
    requires '0' <= c <= '9'
    ensures GroupByte([c]) == HexCharToInt(c) * 16 == (c - '0') as int * 16
  {
  }

  /** No code is accepted for two serials that stand for different blocks. */
  lemma OneBlockPerCode(s1: string, s2: string, code: string)
    requires PlainSerial(s1) && PlainSerial(s2)
    requires Check(s1, code) == Answer(true) && Check(s2, code) == Answer(true)
    ensures SerialBytes(s1) == SerialBytes(s2)
  {
    hide Check, Stripped, CString, Parsed, SerialBytes, Tea.Encrypted;
    CheckUnfolds(s1, code);
    CheckOfPlainSerial(s1, code);
    CheckOfPlainSerial(s2, code);
    Tea.EncryptedIsInjective(KEY, SIZE_KEY, true, SerialBytes(s1), SerialBytes(s2));
  }
}
