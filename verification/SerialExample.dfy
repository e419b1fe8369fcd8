/** The access code of one serial number, computed round by round. */
module SerialExample {
  import opened Basics
  import opened Bytes
  import opened MachineWords
  import opened Tea
  import opened HexCodec
  import opened SerialCheck

  const K := Key(0xBADA7D21, 0xDBE2DBB3, 0x11B45501, 0xA5C6EADF)

  /** One round, from the words of its six terms. */
  lemma Round(sum: uint32, n: nat, w: Words, p: Word, q: Word, r: Word, v: Words, s: Word, t: Word, u: Word)
    requires n > 0
    requires var sum' := (sum + 0x9E3779B9) % M;
      && p.Value() == (16 * w.z + K.a) % M && q.Value() == (w.z + sum') % M && r.Value() == (w.z / 32 + K.b) % M
      && s.Value() == (16 * v.y + K.c) % M && t.Value() == (v.y + sum') % M && u.Value() == (v.y / 32 + K.d) % M
    requires v.y == (w.y + p.Xor(q).Xor(r).Value()) % M && v.z == (w.z + s.Xor(t).Xor(u).Value()) % M
    ensures EncryptRounds(K, sum, n, w) == EncryptRounds(K, (sum + 0x9E3779B9) % M, n - 1, v)
  {
    hide Mix, Word.Value, Word.Xor;
    MixIs(w.z, Add(sum, DELTA), K.a, K.b, p, q, r);
    MixIs(v.y, Add(sum, DELTA), K.c, K.d, s, t, u);
    assert Encode(K, Add(sum, DELTA), w) == v;
  }

  lemma Rounds1To4()
    ensures EncryptRounds(K, 0x00000000, 16, Words(0x20102030, 0x40506070))
         == EncryptRounds(K, 0x78DDE6E4, 12, Words(0x7DEBAC31, 0x740BFAC2))
  {
    hide EncryptRounds;
    Round(0x00000000, 16, Words(0x20102030, 0x40506070), Word(0xBFE08421), Word(0xDE87DA29), Word(0xDDE55EB6),
      Words(0xDC9220EE, 0x4D04E310), Word(0xDAD663E1), Word(0x7AC99AA7), Word(0xACAB7BE6));
    Round(0x9E3779B9, 15, Words(0xDC9220EE, 0x4D04E310), Word(0x8B28AE21), Word(0x8973D682), Word(0xDE4B02CB),
      Words(0xB8A29B56, 0x12495E20), Word(0x9BDE0A61), Word(0xF5118EC8), Word(0xAB8BFFB9));
    Round(0x3C6EF372, 14, Words(0xB8A29B56, 0x12495E20), Word(0xDF705F21), Word(0xECEFCB4B), Word(0xDC7526A4),
      Words(0xA88D4E24, 0xC4FB377E), Word(0x9A893741), Word(0x8333BB4F), Word(0xAB0B5550));
    Round(0xDAA66D2B, 13, Words(0xA88D4E24, 0xC4FB377E), Word(0x0A8DF501), Word(0x3DD91E62), Word(0xE20AB56E),
      Words(0x7DEBAC31, 0x740BFAC2), Word(0xF06F1811), Word(0xF6C99315), Word(0xA9B64840));
  }

  lemma Rounds5To8()
    ensures EncryptRounds(K, 0x78DDE6E4, 12, Words(0x7DEBAC31, 0x740BFAC2))
         == EncryptRounds(K, 0xF1BBCDC8, 8, Words(0xC5F894E2, 0xE43B1608))
  {
    hide EncryptRounds;
    Round(0x78DDE6E4, 12, Words(0x7DEBAC31, 0x740BFAC2), Word(0xFB9A2941), Word(0x8B215B5F), Word(0xDF833B89),
      Words(0x2D23F5C8, 0x7506E82B), Word(0xE3F3B181), Word(0x44395665), Word(0xA7300A8D));
    Round(0x1715609D, 11, Words(0x2D23F5C8, 0x7506E82B), Word(0x0B48FFD1), Word(0x2A53C281), Word(0xDF8B12F4),
      Words(0x2BB4256C, 0xFFD9C034), Word(0xCCF6ABC1), Word(0xE100FFC2), Word(0xA7248C0A));
    Round(0xB54CDA56, 10, Words(0x2BB4256C, 0xFFD9C034), Word(0xB8768061), Word(0x535E1443), Word(0xE3E1A9B4),
      Words(0x347D6302, 0x76BBA7FB), Word(0x598A8521), Word(0x8801B711), Word(0xA76AD5F7));
    Round(0x5384540F, 9, Words(0x347D6302, 0x76BBA7FB), Word(0x2694FCD1), Word(0x687775C3), Word(0xDF98B8F2),
      Words(0xC5F894E2, 0xE43B1608), Word(0x713DA321), Word(0xB7B462AA), Word(0xABF6AF86));
  }

  lemma Rounds9To12()
    ensures EncryptRounds(K, 0xF1BBCDC8, 8, Words(0xC5F894E2, 0xE43B1608))
         == EncryptRounds(K, 0x6A99B4AC, 4, Words(0x61B6DC6E, 0xB932B42D))
  {
    hide EncryptRounds;
    Round(0xF1BBCDC8, 8, Words(0xC5F894E2, 0xE43B1608), Word(0xFE8BDDA1), Word(0x742E5D89), Word(0xE304B463),
      Words(0x2F99C92D, 0xF7D9645F), Word(0x0B50E7D1), Word(0xBF8D10AE), Word(0xA743B928));
    Round(0x8FF34781, 7, Words(0x2F99C92D, 0xF7D9645F), Word(0x3870C311), Word(0x26042599), Word(0xE3A1A6D5),
      Words(0x2D6F098A, 0x0BE8A8AD), Word(0xE8A4EDA1), Word(0x5B99CAC4), Word(0xA732632B));
    Round(0x2E2AC13A, 6, Words(0x2D6F098A, 0x0BE8A8AD), Word(0x796507F1), Word(0xD84AE3A0), Word(0xDC4220F8),
      Words(0xAADCCE33, 0x6F8C88F4), Word(0xBF813831), Word(0x773F0926), Word(0xAB1DD150));
    Round(0xCC623AF3, 5, Words(0xAADCCE33, 0x6F8C88F4), Word(0xB3A30C61), Word(0xDA263DA0), Word(0xDF5F3FFA),
      Words(0x61B6DC6E, 0xB932B42D), Word(0x2D221BE1), Word(0xCC50911A), Word(0xA8D4A1C2));
  }

  lemma Rounds13To16()
    ensures EncryptRounds(K, 0x6A99B4AC, 4, Words(0x61B6DC6E, 0xB932B42D))
         == EncryptRounds(K, 0xE3779B90, 0, Words(0xF51E1CF9, 0x71BFC132))
  {
    hide EncryptRounds;
    Round(0x6A99B4AC, 4, Words(0x61B6DC6E, 0xB932B42D), Word(0x4E05BFF1), Word(0xC203E292), Word(0xE1AC7154),
      Words(0xCF6108A5, 0x2CE9CFAC), Word(0x07C4DF51), Word(0xD832370A), Word(0xAC41F324));
    Round(0x08D12E65, 3, Words(0xCF6108A5, 0x2CE9CFAC), Word(0x897777E1), Word(0xD3F277CA), Word(0xDD4A2A30),
      Words(0x573032C0, 0xFEF90756), Word(0x84B78101), Word(0xFE38DADE), Word(0xA8806C75));
    Round(0xA708A81E, 2, Words(0x573032C0, 0xFEF90756), Word(0xAA6AF281), Word(0x4439292D), Word(0xE3DAA3ED),
      Words(0x64B9AB01, 0x5B537954), Word(0x5D4F0511), Word(0xA9F9CCD8), Word(0xA8ECB837));
    Round(0x454021D7, 1, Words(0x64B9AB01, 0x5B537954), Word(0x70121261), Word(0x3ECB14E4), Word(0xDEBD777D),
      Words(0xF51E1CF9, 0x71BFC132), Word(0x63962491), Word(0xD895B889), Word(0xAD6FDBC6));
  }

  lemma Rounds()
    ensures EncryptRounds(K, 0, 16, Words(0x20102030, 0x40506070)) == Words(0xF51E1CF9, 0x71BFC132)
  {
    hide Encode;
    Rounds1To4();
    Rounds5To8();
    Rounds9To12();
    Rounds13To16();
  }

  const PLAIN: seq<byte> := [0x20, 0x10, 0x20, 0x30, 0x40, 0x50, 0x60, 0x70]
  const CIPHER: seq<byte> := [0xF5, 0x1E, 0x1C, 0xF9, 0x71, 0xBF, 0xC1, 0x32]

  lemma KeyIsLoaded()
    ensures LoadKey(true, KEY) == K
  {
    hide Load;
    LoadIs(true, KEY, 0);
    LoadIs(true, KEY, 4);
    LoadIs(true, KEY, 8);
    LoadIs(true, KEY, 12);
  }

  lemma BlocksAreLoaded()
    ensures LoadWords(true, PLAIN) == Words(0x20102030, 0x40506070)
    ensures LoadWords(true, CIPHER) == Words(0xF51E1CF9, 0x71BFC132)
  {
    hide Load;
    LoadIs(true, PLAIN, 0);
    LoadIs(true, PLAIN, 4);
    LoadIs(true, CIPHER, 0);
    LoadIs(true, CIPHER, 4);
  }

  /** Sixteen rounds in network order, under a key of four different words. */
  lemma CiphertextExample()
    ensures Encrypted(KEY, 16, true, PLAIN) == CIPHER
  {
    hide LoadKey, LoadWords, StoreWords, EncryptRounds;
    Rounds();
    KeyIsLoaded();
    BlocksAreLoaded();
    StoreLoad(true, CIPHER);
  }

  lemma ExampleBytes()
    ensures PlainSerial("21234567") && SerialBytes("21234567") == PLAIN
  {
    hide PlainSerial, SerialBytes;
    var s := "21234567";
    EightDigits(s);
    assert s[0] == '2' && s[1] == '1' && s[2] == '2' && s[3] == '3';
    assert s[4] == '4' && s[5] == '5' && s[6] == '6' && s[7] == '7';
  }

  lemma ExamplePrinted()
    ensures BytesToHex(CIPHER) == "F5 1E 1C F9" + " " + "71 BF C1 32"
  {
    hide BytesToHex;
    var a, b := CIPHER[..4], CIPHER[4..];
    assert a == [0xF5, 0x1E, 0x1C, 0xF9] && b == [0x71, 0xBF, 0xC1, 0x32] && CIPHER == a + b;
    ExamplePart1();
    ExamplePart2();
    PrintedAppend(a, b);
  }

  lemma ExamplePart1()
    ensures BytesToHex([0xF5, 0x1E, 0x1C, 0xF9]) == "F5 1E 1C F9"
  {
    PrintedFour(0xF5, 0x1E, 0x1C, 0xF9);
    assert ByteText(0xF5) == "F5" && ByteText(0x1E) == "1E" && ByteText(0x1C) == "1C" && ByteText(0xF9) == "F9";
  }

  lemma ExamplePart2()
    ensures BytesToHex([0x71, 0xBF, 0xC1, 0x32]) == "71 BF C1 32"
  {
    PrintedFour(0x71, 0xBF, 0xC1, 0x32);
    assert ByteText(0x71) == "71" && ByteText(0xBF) == "BF" && ByteText(0xC1) == "C1" && ByteText(0x32) == "32";
  }

  /** The one code of a serial, however it is spaced. */
  lemma ExampleSerial(code: string)
    requires |Stripped(CString(code))| < MAX_NAME_LEN
    requires forall i :: 0 <= i < |Stripped(CString(code))| ==> HexDigit(Stripped(CString(code))[i])
    ensures Check("21234567", code)
         == Answer(Upper(Stripped(CString(code))) == Stripped("F5 1E 1C F9" + " " + "71 BF C1 32"))
  {
    hide Check, Stripped, CString, HexDigit, BytesToHex, SerialBytes, Encrypted;
    ExampleBytes();
    CiphertextExample();
    ExamplePrinted();
    AcceptsExactly("21234567", code);
  }
}
