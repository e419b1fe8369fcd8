/** The byte layout of a block-send telegram: header, parameters, data header, in the
    first telegram the size of the whole block, and a slice of the block. */
module S7Frames {
  import opened Basics

  type word = uint16
  type dword = uint32

  const HEADER_SIZE := 10
  const PARAMS_SIZE := 12
  const DATA_HEADER_SIZE := 12
  const DATA_AT := 34
  const PDU_TYPE_USERDATA: byte := 7
  const GR_BSEND: byte := 0x46
  const TS_RES_OCTET: byte := 0x09

  /** Conversion to a 16-bit field. */
  function ToWord(x: int): word {
    x % 0x1_0000
  }

  function Hi(x: word): byte {
    x / 0x100
  }

  function Lo(x: word): byte {
    x % 0x100
  }

  /** Bytes in network order. */
  function WordBytes(x: word): (b: seq<byte>)
    ensures |b| == 2 && GetWord(b, 0) == x
  {
    [Hi(x), Lo(x)]
  }

  function GetWord(b: seq<byte>, at: nat): word
    requires at + 2 <= |b|
  {
    var hi: int, lo: int := b[at], b[at + 1];
    hi * 0x100 + lo
  }

  function DwordBytes(x: dword): (b: seq<byte>)
    ensures |b| == 4 && GetDword(b, 0) == x
  {
    WordBytes(x / 0x1_0000) + WordBytes(x % 0x1_0000)
  }

  function GetDword(b: seq<byte>, at: nat): dword
    requires at + 4 <= |b|
  {
    var hi: int, lo: int := GetWord(b, at), GetWord(b, at + 2);
    hi * 0x1_0000 + lo
  }

  /** What varies from one telegram of a block to the next. */
  datatype Fields = Fields(sequence: word, seqIn: byte, idSeq: byte, last: bool, first: bool, rid: dword, total: int)

  function Extra(first: bool): nat {
    if first then 2 else 0
  }

  /** The fixed part, for a slice of the given length. */
  function Head(f: Fields, length: nat): (t: seq<byte>)
    ensures |t| == DATA_AT
  {
    [0x32, PDU_TYPE_USERDATA, 0, 0, Lo(f.sequence), Hi(f.sequence)]
    + WordBytes(PARAMS_SIZE) + WordBytes(ToWord(DATA_HEADER_SIZE + length + Extra(f.first)))
    + [0x00, 0x01, 0x12, 0x08, 0x12, GR_BSEND, 0x01, f.seqIn, f.idSeq, if f.last then 0x00 else 0x01, 0x00, 0x00]
    + [0xFF, TS_RES_OCTET] + WordBytes(ToWord(length + 8 + Extra(f.first))) + [0x12, 0x06, 0x13, 0x00]
    + DwordBytes(f.rid)
  }

  function Telegram(f: Fields, slice: seq<byte>): (t: seq<byte>)
    ensures |t| == DATA_AT + Extra(f.first) + |slice|
  {
    Head(f, |slice|) + (if f.first then WordBytes(ToWord(f.total)) else []) + slice
  }

  lemma TelegramBody(f: Fields, slice: seq<byte>)
    ensures Telegram(f, slice)[DATA_AT + Extra(f.first)..] == slice
  {
  }

  // What the receiver reads, at the offsets of its own structures.

  predicate IsBSend(pdu: seq<byte>)
    requires DATA_AT <= |pdu|
  {
    pdu[1] == PDU_TYPE_USERDATA && pdu[15] == GR_BSEND
  }

  predicate EndOfSequence(pdu: seq<byte>)
    requires DATA_AT <= |pdu|
  {
    pdu[19] == 0x00
  }

  /** The length of the slice, from the telegram's length field. */
  function SliceLength(pdu: seq<byte>, first: bool): word
    requires DATA_AT <= |pdu|
  {
    ToWord(GetWord(pdu, 24) - 8 - Extra(first))
  }

  lemma HeadParses(f: Fields, length: nat)
    ensures var t := Head(f, length);
            && IsBSend(t) && (EndOfSequence(t) <==> f.last)
            && GetDword(t, 30) == f.rid && GetWord(t, 24) == ToWord(length + 8 + Extra(f.first))
  {
    hide WordBytes, DwordBytes;
    var t := Head(f, length);
    var lenBytes, ridBytes := WordBytes(ToWord(length + 8 + Extra(f.first))), DwordBytes(f.rid);
    assert t[24..26] == lenBytes && t[30..34] == ridBytes;
    assert t[24] == lenBytes[0] && t[25] == lenBytes[1];
    assert t[30] == ridBytes[0] && t[31] == ridBytes[1] && t[32] == ridBytes[2] && t[33] == ridBytes[3];
  }

  /** What is the same in every telegram, byte by byte, and its three lengths. */
  predicate Framed(t: seq<byte>) {
    DATA_AT <= |t|
    && t[0] == 0x32 && t[1] == 7 && t[2] == 0 && t[3] == 0
    && GetWord(t, 6) == 12 && GetWord(t, 8) == ToWord(|t| - 22)
    && t[10] == 0 && t[11] == 1 && t[12] == 0x12 && t[13] == 8 && t[14] == 0x12 && t[15] == 0x46 && t[16] == 1
    && t[20] == 0 && t[21] == 0 && t[22] == 0xFF && t[23] == 9 && GetWord(t, 24) == ToWord(|t| - 26)
    && t[26] == 0x12 && t[27] == 6 && t[28] == 0x13 && t[29] == 0
  }

  /** The sequence word, which stays in the order of the machine. */
  function SequenceOf(t: seq<byte>): int
    requires DATA_AT <= |t|
  {
    t[4] as int + 0x100 * t[5] as int
  }

  lemma HeadLayout(f: Fields, length: nat)
    ensures var t := Head(f, length);
      && t[0] == 0x32 && t[1] == 7 && t[2] == 0 && t[3] == 0
      && t[10] == 0 && t[11] == 1 && t[12] == 0x12 && t[13] == 8 && t[14] == 0x12 && t[15] == 0x46 && t[16] == 1
      && t[20] == 0 && t[21] == 0 && t[22] == 0xFF && t[23] == 9
      && t[26] == 0x12 && t[27] == 6 && t[28] == 0x13 && t[29] == 0
    ensures var t := Head(f, length);
      t[4] == Lo(f.sequence) && t[5] == Hi(f.sequence) && t[17] == f.seqIn && t[18] == f.idSeq
    ensures var t, l := Head(f, length), WordBytes(ToWord(DATA_HEADER_SIZE + length + Extra(f.first)));
      t[6] == 0 && t[7] == 12 && t[8] == l[0] && t[9] == l[1]
  {
    hide DwordBytes;
  }

  lemma TelegramLayout(f: Fields, slice: seq<byte>)
    ensures var t := Telegram(f, slice);
      Framed(t) && SequenceOf(t) == f.sequence && t[17] == f.seqIn && t[18] == f.idSeq
  {
    hide Head, WordBytes;
    HeadLayout(f, |slice|);
    HeadParses(f, |slice|);
    var t, h := Telegram(f, slice), Head(f, |slice|);
    assert t[..DATA_AT] == h;
    assert forall i :: 0 <= i < DATA_AT ==> t[i] == h[i];
  }

  /** Reading back what does not depend on the slice's length. */
  lemma TelegramSays(f: Fields, slice: seq<byte>)
    ensures var t := Telegram(f, slice);
      && (t[19] == 0 <==> f.last) && GetDword(t, 30) == f.rid && (f.first ==> GetWord(t, 34) == ToWord(f.total))
      && t[34 + Extra(f.first)..] == slice
  {
    hide Head, WordBytes, GetDword;
    HeadParses(f, |slice|);
    var t, h, total := Telegram(f, slice), Head(f, |slice|), WordBytes(ToWord(f.total));
    assert t[..DATA_AT] == h;
    assert forall i :: 0 <= i < DATA_AT ==> t[i] == h[i];
    SameDword(t, h);
    if f.first {
      assert t[34] == total[0] && t[35] == total[1];
    }
  }

  lemma SameDword(t: seq<byte>, h: seq<byte>)
    requires 34 <= |h| <= |t| && forall i :: 30 <= i < 34 ==> t[i] == h[i]
    ensures GetDword(t, 30) == GetDword(h, 30)
  {
  }

  /** Reading back what was written. */
  lemma TelegramParses(f: Fields, slice: seq<byte>)
    requires |slice| + 10 < 0x1_0000
    ensures var t := Telegram(f, slice);
            && IsBSend(t) && (EndOfSequence(t) <==> f.last) && GetDword(t, 30) == f.rid
            && SliceLength(t, f.first) == |slice|
            && (f.first ==> GetWord(t, DATA_AT) == ToWord(f.total))
            && t[DATA_AT + Extra(f.first)..] == slice
  {
    hide Head, WordBytes;
    HeadParses(f, |slice|);
    var t, h, total := Telegram(f, slice), Head(f, |slice|), WordBytes(ToWord(f.total));
    assert t[..DATA_AT] == h;
    assert forall i :: 0 <= i < DATA_AT ==> t[i] == h[i];
    if f.first {
      assert t[34] == total[0] && t[35] == total[1];
    }
  }
}
