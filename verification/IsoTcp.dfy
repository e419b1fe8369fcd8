/** ISO transport over TCP (RFC 1006): each telegram is a TPKT header, a DT TPDU header and
    a payload. A payload may arrive in fragments, which the receiver joins in its buffer. */
module IsoTcp {
  import opened Basics
  import opened S7Frames

  const ISO_TCP_VERSION: byte := 3
  const PDU_TYPE_CR: byte := 0xE0
  const PDU_TYPE_DR: byte := 0x80
  const PDU_TYPE_DT: byte := 0xF0
  const PDU_EOT: byte := 0x80
  const ISO_HEADER := 7
  const ISO_PAYLOAD_SIZE := 4096
  const ISO_FRAME_SIZE := ISO_PAYLOAD_SIZE + ISO_HEADER
  const MAX_ISO_FRAGMENTS := 64

  datatype IsoError = NoError | InvalidPDU | InvalidDataSize | TooManyFragments | PduOverflow | SendPacket | RecvPacket

  // -------------------------------------------------------------------- one telegram

  /** TPKT header with the length of the whole telegram, then length indicator, type and
      end-of-transmission mark of the TPDU. */
  function Header(pduType: byte, eot: byte, length: word): (h: seq<byte>)
    ensures |h| == ISO_HEADER
  {
    [ISO_TCP_VERSION, 0, Hi(length), Lo(length), 2, pduType, eot]
  }

  function Frame(data: seq<byte>, eot: bool): (f: seq<byte>)
    requires |data| <= ISO_PAYLOAD_SIZE
    ensures |f| == |data| + ISO_HEADER
  {
    Header(PDU_TYPE_DT, if eot then PDU_EOT else 0, |data| + ISO_HEADER) + data
  }

  function PduSize(header: seq<byte>): word
    requires |header| == ISO_HEADER
  {
    GetWord(header, 2)
  }

  function CheckPdu(header: seq<byte>, expected: byte): IsoError
    requires |header| == ISO_HEADER
  {
    if PduSize(header) < 7 || PduSize(header) > ISO_PAYLOAD_SIZE || header[4] < 2 || header[5] != expected
    then InvalidPDU else NoError
  }

  datatype Fragment = Fragment(data: seq<byte>, eot: bool, header: seq<byte>, rest: seq<byte>) | Failed(error: IsoError)

  /** One telegram off the stream, with room for `max` bytes of payload. */
  function NextFragment(stream: seq<byte>, max: nat): Fragment {
    if |stream| < ISO_HEADER then Failed(RecvPacket)
    else
      var header, body := stream[..ISO_HEADER], stream[ISO_HEADER..];
      var pduType := header[5];
      if pduType != PDU_TYPE_CR && pduType != PDU_TYPE_DR && pduType != PDU_TYPE_DT then Failed(InvalidPDU)
      else if CheckPdu(header, pduType) != NoError then Failed(InvalidPDU)
      else
        var n := PduSize(header) - ISO_HEADER;
        if n > max then Failed(PduOverflow)
        else if n > |body| then Failed(RecvPacket)
        else Fragment(body[..n], pduType != PDU_TYPE_DT || header[6] >= 0x80, header, body[n..])
  }

  /** Puts data at a position of the buffer; what would fall behind its end is left out. */
  function Put(buffer: seq<byte>, at: nat, data: seq<byte>): (b: seq<byte>)
    ensures |b| == |buffer|
  {
    if at >= |buffer| then buffer
    else
      var n := if at + |data| <= |buffer| then |data| else |buffer| - at;
      buffer[..at] + data[..n] + buffer[at + n..]
  }

  /** A sent telegram byte by byte. */
  lemma FrameLayout(data: seq<byte>, eot: bool)
    requires |data| <= ISO_PAYLOAD_SIZE
    ensures var f := Frame(data, eot);
      && f[0] == 3 && f[1] == 0 && 0x100 * f[2] as int + f[3] as int == |data| + 7
      && f[4] == 2 && f[5] == 0xF0 && f[6] == (if eot then 0x80 else 0) && f[7..] == data
  {
    var f := Frame(data, eot);
    assert f[..7] == Header(PDU_TYPE_DT, if eot then PDU_EOT else 0, |data| + ISO_HEADER);
  }

  /** The size of a telegram, from its header. */
  function SizeOf(stream: seq<byte>): int
    requires 7 <= |stream|
  {
    0x100 * stream[2] as int + stream[3] as int
  }

  /** A header that is accepted: a connection, disconnection or data TPDU of 7 to 4096 bytes,
      with a length indicator of at least 2. */
  predicate GoodHeader(stream: seq<byte>)
    requires 7 <= |stream|
  {
    stream[5] in {0xE0, 0x80, 0xF0} && 7 <= SizeOf(stream) <= 4096 && stream[4] >= 2
  }

  /** For any stream: when a telegram is taken off it and what it is, and why one is refused. */
  lemma FragmentIff(stream: seq<byte>, max: nat)
    ensures var f := NextFragment(stream, max);
      if |stream| < 7 then f == Failed(RecvPacket)
      else if !GoodHeader(stream) then f == Failed(InvalidPDU)
      else if SizeOf(stream) - 7 > max then f == Failed(PduOverflow)
      else if |stream| < SizeOf(stream) then f == Failed(RecvPacket)
      else
        f == Fragment(stream[7..SizeOf(stream)], stream[5] != 0xF0 || stream[6] >= 0x80, stream[..7],
                      stream[SizeOf(stream)..])
  {
    if |stream| >= 7 {
      var header, body := stream[..7], stream[7..];
      assert PduSize(header) == SizeOf(stream);
      if 7 <= SizeOf(stream) <= |stream| {
        assert body[..SizeOf(stream) - 7] == stream[7..SizeOf(stream)];
        assert body[SizeOf(stream) - 7..] == stream[SizeOf(stream)..];
      }
    }
  }

  datatype Received =
    | Received(size: nat, payload: seq<byte>, header: seq<byte>, rest: seq<byte>, parts: nat)
    | Refused(error: IsoError)

  /** The fragment loop. `at` is where the next fragment goes, `offset` how many bytes of
      payload came before it. The original adds the whole offset to its write position in
      every turn, so the two agree only at first. */
  function ReceiveFrom(stream: seq<byte>, payload: seq<byte>, at: nat, offset: nat, numParts: nat): Received
    requires numParts <= MAX_ISO_FRAGMENTS
    decreases MAX_ISO_FRAGMENTS - numParts
  {
    if offset >= ISO_PAYLOAD_SIZE then Refused(TooManyFragments)
    else
      match NextFragment(stream, ISO_PAYLOAD_SIZE - offset)
      case Failed(error) => Refused(error)
      case Fragment(data, eot, header, rest) =>
        var offset' := offset + |data|;
        if eot then Received(offset', Put(payload, at, data), header, rest, numParts)
        else if numParts == MAX_ISO_FRAGMENTS then Refused(TooManyFragments)
        else ReceiveFrom(rest, Put(payload, at, data), at + offset', offset', numParts + 1)
  }

  /** For any stream: at most 64 fragments, at most 4096 bytes accounted for. */
  lemma {:induction false} ReceiveBounded(stream: seq<byte>, payload: seq<byte>, at: nat, offset: nat, numParts: nat)
    requires numParts <= MAX_ISO_FRAGMENTS
    ensures var r := ReceiveFrom(stream, payload, at, offset, numParts);
            r.Received? ==>
              r.size <= ISO_PAYLOAD_SIZE && r.parts <= MAX_ISO_FRAGMENTS && |r.payload| == |payload|
                && |r.header| == ISO_HEADER
    decreases MAX_ISO_FRAGMENTS - numParts
  {
    hide NextFragment, Put;
    FragmentFits(stream, ISO_PAYLOAD_SIZE - offset);
    match NextFragment(stream, if offset >= ISO_PAYLOAD_SIZE then 0 else ISO_PAYLOAD_SIZE - offset)
    case Failed(_) =>
    case Fragment(data, eot, _, rest) =>
      if offset < ISO_PAYLOAD_SIZE && numParts < MAX_ISO_FRAGMENTS {
        ReceiveBounded(rest, Put(payload, at, data), at + offset + |data|, offset + |data|, numParts + 1);
      }
  }

  lemma FragmentFits(stream: seq<byte>, max: int)
    ensures max >= 0 ==>
              var f := NextFragment(stream, max);
              if f.Fragment? then |f.data| <= max && |f.header| == ISO_HEADER else f.error != NoError
  {
  }

  /** One turn of the loop. */
  lemma ReceiveUnfolds(stream: seq<byte>, payload: seq<byte>, at: nat, offset: nat, numParts: nat)
    requires numParts <= MAX_ISO_FRAGMENTS
    ensures offset >= ISO_PAYLOAD_SIZE ==>
      ReceiveFrom(stream, payload, at, offset, numParts) == Refused(TooManyFragments)
    ensures offset < ISO_PAYLOAD_SIZE ==>
              var r, f :=
                ReceiveFrom(stream, payload, at, offset, numParts), NextFragment(stream, ISO_PAYLOAD_SIZE - offset);
              && (f.Failed? ==> r == Refused(f.error))
              && (f.Fragment? && f.eot ==>
                r == Received(offset + |f.data|, Put(payload, at, f.data), f.header, f.rest, numParts))
              && (f.Fragment? && !f.eot && numParts == MAX_ISO_FRAGMENTS ==> r == Refused(TooManyFragments))
              && (f.Fragment? && !f.eot && numParts < MAX_ISO_FRAGMENTS ==>
                    r == ReceiveFrom(f.rest, Put(payload, at, f.data), at + (offset + |f.data|),
                                     offset + |f.data|, numParts + 1))
  {
    hide NextFragment, Put;
  }

  // -------------------------------------------------------------- streams of fragments

  /** Data telegrams, the last of them marked as the end. */
  function Stream(parts: seq<seq<byte>>): seq<byte>
    requires forall i :: 0 <= i < |parts| ==> |parts[i]| <= ISO_PAYLOAD_SIZE
  {
    if parts == [] then [] else Frame(parts[0], |parts| == 1) + Stream(parts[1..])
  }

  /** A telegram can be received when it is at most 4096 bytes long, headers included. */
  predicate Receivable(parts: seq<seq<byte>>) {
    forall i :: 0 <= i < |parts| ==> |parts[i]| <= ISO_PAYLOAD_SIZE - ISO_HEADER
  }

  lemma FrameParses(data: seq<byte>, eot: bool, rest: seq<byte>, max: nat)
    requires |data| <= ISO_PAYLOAD_SIZE
    ensures NextFragment(Frame(data, eot) + rest, max) ==
              if |data| > ISO_PAYLOAD_SIZE - ISO_HEADER then Failed(InvalidPDU)
              else if |data| > max then Failed(PduOverflow)
              else Fragment(data, eot, Frame(data, eot)[..ISO_HEADER], rest)
  {
    var f := Frame(data, eot);
    var s := f + rest;
    assert s[..ISO_HEADER] == f[..ISO_HEADER];
    assert s[ISO_HEADER..] == data + rest;
    assert PduSize(s[..ISO_HEADER]) == |data| + ISO_HEADER;
    assert (data + rest)[|data|..] == rest;
  }

  /** Bounds the loop checks: room before every part, room for it, and at most 64 parts. */
  predicate Accepts(parts: seq<seq<byte>>, offset: nat, numParts: nat) {
    parts != [] && offset < ISO_PAYLOAD_SIZE && offset + |parts[0]| <= ISO_PAYLOAD_SIZE
    && (|parts| == 1 || (numParts < MAX_ISO_FRAGMENTS && Accepts(parts[1..], offset + |parts[0]|, numParts + 1)))
  }

  function PutAll(parts: seq<seq<byte>>, payload: seq<byte>, at: nat, offset: nat): (p: seq<byte>)
    ensures |p| == |payload|
    decreases |parts|
  {
    if parts == [] then payload
    else
      var offset' := offset + |parts[0]|;
      PutAll(parts[1..], Put(payload, at, parts[0]), at + offset', offset')
  }

  /** A stream of telegrams is received exactly when the loop's bounds admit its parts, and
      then each part has been put at the loop's write position. */
  lemma {:induction false} StreamReceived(parts: seq<seq<byte>>, rest: seq<byte>, payload: seq<byte>, at: nat,
                                          offset: nat, numParts: nat)
    requires parts != [] && Receivable(parts) && numParts <= MAX_ISO_FRAGMENTS
    ensures var r := ReceiveFrom(Stream(parts) + rest, payload, at, offset, numParts);
            && (r.Received? <==> Accepts(parts, offset, numParts))
            && (r.Received? ==> r.size == offset + |Concat(parts)| && r.payload == PutAll(parts, payload, at, offset)
                                && r.rest == rest && r.parts == numParts + |parts| - 1)
    decreases |parts|
  {
    hide NextFragment, Put, Frame, ReceiveFrom;
    var part, last := parts[0], |parts| == 1;
    var tail := Stream(parts[1..]) + rest;
    assert Stream(parts) + rest == Frame(part, last) + tail;
    ReceiveUnfolds(Stream(parts) + rest, payload, at, offset, numParts);
    if offset < ISO_PAYLOAD_SIZE {
      FrameParses(part, last, tail, ISO_PAYLOAD_SIZE - offset);
      if last {
        assert tail == rest;
      } else if numParts < MAX_ISO_FRAGMENTS {
        StreamReceived(parts[1..], rest, Put(payload, at, part), at + offset + |part|, offset + |part|, numParts + 1);
      }
    }
  }

  lemma {:induction false} AcceptsIff(parts: seq<seq<byte>>, offset: nat, numParts: nat)
    requires parts != [] && numParts <= MAX_ISO_FRAGMENTS
    ensures Accepts(parts, offset, numParts) <==>
              && numParts + |parts| - 1 <= MAX_ISO_FRAGMENTS
              && offset + |Concat(parts[..|parts| - 1])| < ISO_PAYLOAD_SIZE
              && offset + |Concat(parts)| <= ISO_PAYLOAD_SIZE
    decreases |parts|
  {
    if |parts| == 1 {
      assert parts[1..] == [] && parts[..0] == [];
    } else {
      var front := parts[..|parts| - 1];
      assert front[1..] == parts[1..][..|parts| - 2];
      if numParts < MAX_ISO_FRAGMENTS {
        AcceptsIff(parts[1..], offset + |parts[0]|, numParts + 1);
      }
    }
  }

  /** Some part within the first 64 begins below 4096 bytes and ends above. */
  ghost predicate Overflows(parts: seq<seq<byte>>, offset: nat, numParts: nat) {
    exists m :: OverflowsAt(parts, offset, numParts, m)
  }

  predicate OverflowsAt(parts: seq<seq<byte>>, offset: nat, numParts: nat, m: nat) {
    m < |parts| && numParts + m <= 64
    && offset + |Concat(parts[..m])| < 4096 < offset + |Concat(parts[..m + 1])|
  }

  lemma OverflowsLater(parts: seq<seq<byte>>, offset: nat, numParts: nat, m: nat)
    requires parts != [] && m > 0
    ensures OverflowsAt(parts, offset, numParts, m)
       <==> OverflowsAt(parts[1..], offset + |parts[0]|, numParts + 1, m - 1)
  {
    if m < |parts| {
      assert parts[..m] == [parts[0]] + parts[1..][..m - 1];
      assert parts[..m + 1] == [parts[0]] + parts[1..][..m];
    }
  }

  lemma OverflowsNow(parts: seq<seq<byte>>, offset: nat, numParts: nat)
    requires parts != [] && numParts <= 64
    ensures OverflowsAt(parts, offset, numParts, 0) <==> offset < 4096 < offset + |parts[0]|
  {
    assert parts[..0] == [] && parts[..1] == [parts[0]] && parts[..1][1..] == [];
    assert Concat(parts[..1]) == parts[0] + [];
  }

  lemma OverflowsUnfolds(parts: seq<seq<byte>>, offset: nat, numParts: nat)
    requires parts != [] && numParts <= 64
    ensures Overflows(parts, offset, numParts)
       <==> offset < 4096 < offset + |parts[0]| || Overflows(parts[1..], offset + |parts[0]|, numParts + 1)
  {
    hide OverflowsAt;
    OverflowsNow(parts, offset, numParts);
    if m: nat :| OverflowsAt(parts, offset, numParts, m) {
      if m > 0 {
        OverflowsLater(parts, offset, numParts, m);
      }
    }
    var tail, next, number := parts[1..], offset + |parts[0]|, numParts + 1;
    if m: nat :| OverflowsAt(tail, next, number, m) {
      OverflowsLater(parts, offset, numParts, m + 1);
    }
  }

  lemma OverflowsNowhere(parts: seq<seq<byte>>, offset: nat, numParts: nat)
    ensures parts == [] || offset >= 4096 || numParts > 64 ==> !Overflows(parts, offset, numParts)
  {
  }

  /** Why a stream of telegrams that the loop does not admit is refused. */
  lemma {:induction false} RefusalReason(parts: seq<seq<byte>>, rest: seq<byte>, payload: seq<byte>, at: nat,
                                         offset: nat, numParts: nat)
    requires parts != [] && Receivable(parts) && numParts <= 64 && !Accepts(parts, offset, numParts)
    ensures ReceiveFrom(Stream(parts) + rest, payload, at, offset, numParts)
         == Refused(if Overflows(parts, offset, numParts) then PduOverflow else TooManyFragments)
    decreases |parts|
  {
    hide NextFragment, Put, Frame, ReceiveFrom, Overflows;
    var part, last := parts[0], |parts| == 1;
    var tail := Stream(parts[1..]) + rest;
    assert Stream(parts) + rest == Frame(part, last) + tail;
    ReceiveUnfolds(Stream(parts) + rest, payload, at, offset, numParts);
    OverflowsUnfolds(parts, offset, numParts);
    OverflowsNowhere(parts, offset, numParts);
    OverflowsNowhere(parts[1..], offset + |part|, numParts + 1);
    if offset < 4096 {
      FrameParses(part, last, tail, 4096 - offset);
      if offset + |part| <= 4096 && numParts < 64 {
        RefusalReason(parts[1..], rest, Put(payload, at, part), at + offset + |part|, offset + |part|, numParts + 1);
      }
    }
  }

  /** Every part that carries data is written where the parts before it end. */
  predicate InPlace(parts: seq<seq<byte>>, at: nat, offset: nat)
    decreases |parts|
  {
    parts == []
    || ((parts[0] == [] || at == offset)
        && var offset' := offset + |parts[0]|;
           InPlace(parts[1..], at + offset', offset'))
  }

  /** In terms of the parts: data two or more telegrams back displaces a part. */
  predicate DataAdjacent(parts: seq<seq<byte>>) {
    forall j, m :: 0 <= j && j + 1 < m < |parts| && parts[m] != [] ==> parts[j] == []
  }

  lemma {:induction false} InPlaceFrom(parts: seq<seq<byte>>, at: nat, offset: nat)
    requires at > offset
    ensures InPlace(parts, at, offset) <==> forall m :: 0 <= m < |parts| ==> parts[m] == []
    decreases |parts|
  {
    if parts != [] {
      InPlaceFrom(parts[1..], at + offset + |parts[0]|, offset + |parts[0]|);
      assert forall m :: 0 < m < |parts| ==> parts[m] == parts[1..][m - 1];
    }
  }

  lemma {:induction false} InPlaceIff(parts: seq<seq<byte>>)
    ensures InPlace(parts, 0, 0) <==> DataAdjacent(parts)
    decreases |parts|
  {
    if parts != [] {
      var tail := parts[1..];
      assert forall m :: 0 < m < |parts| ==> parts[m] == tail[m - 1];
      if parts[0] == [] {
        InPlaceIff(tail);
        assert DataAdjacent(parts) ==> DataAdjacent(tail) by {
          assert forall m :: 0 <= m < |tail| ==> tail[m] == parts[m + 1];
        }
        assert DataAdjacent(tail) ==> DataAdjacent(parts);
      } else if tail != [] {
        var n, rest := |parts[0]|, tail[1..];
        assert forall m :: 0 < m < |tail| ==> tail[m] == rest[m - 1];
        assert InPlace(tail, n, n) <==> InPlace(rest, n + n + |tail[0]|, n + |tail[0]|);
        InPlaceFrom(rest, n + n + |tail[0]|, n + |tail[0]|);
        assert DataAdjacent(parts) ==> forall m :: 0 <= m < |rest| ==> rest[m] == [] by {
          assert forall m :: 0 <= m < |rest| ==> rest[m] == parts[m + 2];
        }
      }
    }
  }

  /** What has been put down so far, at the front of the buffer. */
  predicate Front(payload: seq<byte>, done: seq<byte>) {
    |done| <= |payload| && payload[..|done|] == done
  }

  lemma PutFront(payload: seq<byte>, done: seq<byte>, data: seq<byte>)
    requires Front(payload, done) && |done| + |data| <= |payload|
    ensures Front(Put(payload, |done|, data), done + data)
  {
  }

  lemma PutNothing(payload: seq<byte>, at: nat)
    ensures Put(payload, at, []) == payload
  {
  }

  lemma {:induction false} InPlaceJoins(parts: seq<seq<byte>>, payload: seq<byte>, at: nat, done: seq<byte>)
    requires InPlace(parts, at, |done|) && Front(payload, done) && |done| + |Concat(parts)| <= |payload|
    ensures Front(PutAll(parts, payload, at, |done|), done + Concat(parts))
    decreases |parts|
  {
    hide Put;
    if parts == [] {
      assert done + [] == done;
    } else {
      var part := parts[0];
      var offset' := |done| + |part|;
      if part == [] {
        PutNothing(payload, at);
        assert done + part == done;
      } else {
        PutFront(payload, done, part);
      }
      InPlaceJoins(parts[1..], Put(payload, at, part), at + offset', done + part);
      assert done + part + Concat(parts[1..]) == done + Concat(parts);
    }
  }

  lemma {:induction false} BeforeUntouched(parts: seq<seq<byte>>, payload: seq<byte>, at: nat, offset: nat, i: nat)
    requires i < at && i < |payload|
    ensures PutAll(parts, payload, at, offset)[i] == payload[i]
    decreases |parts|
  {
    if parts != [] {
      BeforeUntouched(parts[1..], Put(payload, at, parts[0]), at + offset + |parts[0]|, offset + |parts[0]|, i);
    }
  }

  /** A displaced part leaves the byte where it should start as it was in the buffer. */
  lemma {:induction false} DisplacedLeavesGap(parts: seq<seq<byte>>, payload: seq<byte>, at: nat, offset: nat)
      returns (i: nat)
    requires !InPlace(parts, at, offset) && at >= offset && offset + |Concat(parts)| <= |payload|
    ensures offset <= i < offset + |Concat(parts)| && PutAll(parts, payload, at, offset)[i] == payload[i]
    decreases |parts|
  {
    if parts[0] != [] && at != offset {
      i := offset;
      BeforeUntouched(parts, payload, at, offset, i);
    } else {
      var offset' := offset + |parts[0]|;
      if parts[0] == [] {
        PutNothing(payload, at);
      }
      i := DisplacedLeavesGap(parts[1..], Put(payload, at, parts[0]), at + offset', offset');
    }
  }

  // --------------------------------------------------- writes within the buffer

  /** No write of the loop reaches behind the buffer. */
  predicate WritesInside(parts: seq<seq<byte>>, at: nat, offset: nat)
    decreases |parts|
  {
    parts == []
    || ((parts[0] == [] || at + |parts[0]| <= ISO_PAYLOAD_SIZE)
        && var offset' := offset + |parts[0]|;
           WritesInside(parts[1..], at + offset', offset'))
  }

  /** Where the loop writes part m: part j before it counts m - j times. */
  function Drift(parts: seq<seq<byte>>, m: nat): nat
    requires m <= |parts|
  {
    if m == 0 then 0 else Drift(parts, m - 1) + |Concat(parts[..m])|
  }

  lemma {:induction false} DriftOfTail(parts: seq<seq<byte>>, m: nat)
    requires m < |parts|
    ensures Drift(parts, m + 1) == (m + 1) * |parts[0]| + Drift(parts[1..], m)
    ensures |Concat(parts[..m + 1])| == |parts[0]| + |Concat(parts[1..][..m])|
    decreases m
  {
    assert parts[..m + 1][0] == parts[0] && parts[..m + 1][1..] == parts[1..][..m];
    if m > 0 {
      DriftOfTail(parts, m - 1);
      assert (m + 1) * |parts[0]| == m * |parts[0]| + |parts[0]|;
    } else {
      assert parts[..0] == [] && Drift(parts, 1) == Drift(parts, 0) + |Concat(parts[..1])|;
    }
  }

  lemma {:induction false} WritesInsideFrom(parts: seq<seq<byte>>, at: nat, offset: nat)
    ensures WritesInside(parts, at, offset)
       <==> forall m :: 0 <= m < |parts| && parts[m] != [] ==>
         at + m * offset + Drift(parts, m) + |parts[m]| <= ISO_PAYLOAD_SIZE
    decreases |parts|
  {
    hide Drift;
    if parts != [] {
      var tail, n := parts[1..], |parts[0]|;
      var offset' := offset + n;
      WritesInsideFrom(tail, at + offset', offset');
      assert Drift(parts, 0) == 0 by { NoDrift(parts); }
      forall m | 0 <= m < |tail|
        ensures tail[m] == parts[m + 1]
        ensures at + offset' + m * offset' + Drift(tail, m) == at + (m + 1) * offset + Drift(parts, m + 1)
      {
        DriftOfTail(parts, m);
        Shifted(m, offset, n);
      }
      assert forall m :: 0 < m < |parts| ==> parts[m] == tail[m - 1];
    }
  }

  lemma NoDrift(parts: seq<seq<byte>>)
    ensures Drift(parts, 0) == 0
  {
  }

  lemma Shifted(m: nat, offset: nat, n: nat)
    ensures offset + n + m * (offset + n) == (m + 1) * offset + (m + 1) * n
  {
  }

  /** Every write stays within the buffer exactly when each part that carries data fits
      behind its drifted position. */
  lemma WritesInsideIff(parts: seq<seq<byte>>)
    ensures WritesInside(parts, 0, 0)
       <==> forall m :: 0 <= m < |parts| && parts[m] != [] ==> Drift(parts, m) + |parts[m]| <= ISO_PAYLOAD_SIZE
  {
    hide Drift, WritesInside;
    WritesInsideFrom(parts, 0, 0);
  }

  /** Parts that are joined are also written within the buffer. */
  lemma {:induction false} JoinedInside(parts: seq<seq<byte>>, at: nat, offset: nat)
    requires InPlace(parts, at, offset) && offset + |Concat(parts)| <= ISO_PAYLOAD_SIZE
    ensures WritesInside(parts, at, offset)
    decreases |parts|
  {
    if parts != [] {
      JoinedInside(parts[1..], at + offset + |parts[0]|, offset + |parts[0]|);
    }
  }

  /** Accepted by the loop, and written behind the buffer: the third of these parts starts at
      4090, where 6 bytes are left. */
  lemma WritesOutsideExample(a: seq<byte>, b: seq<byte>, c: seq<byte>)
    requires |a| == 2045 && b == [] && |c| == 7
    ensures Receivable([a, b, c]) && Accepts([a, b, c], 0, 1) && !WritesInside([a, b, c], 0, 0)
  {
    assert [a, b, c][1..] == [b, c] && [b, c][1..] == [c];
    assert !WritesInside([c], 4090, 2045);
  }

  function Different(b: byte): byte {
    if b == 0 then 1 else 0
  }

  predicate Joined(parts: seq<seq<byte>>, payload: seq<byte>)
    requires |Concat(parts)| <= |payload|
  {
    PutAll(parts, payload, 0, 0)[..|Concat(parts)|] == Concat(parts)
  }

  /** The loop joins the parts, whatever was in the buffer, exactly when all the data comes
      in two adjacent telegrams. */
  lemma JoinsIffAdjacent(parts: seq<seq<byte>>)
    requires |Concat(parts)| <= ISO_PAYLOAD_SIZE
    ensures (forall payload: seq<byte> :: |payload| == ISO_PAYLOAD_SIZE ==> Joined(parts, payload))
      <==> DataAdjacent(parts)
  {
    hide DataAdjacent, InPlace, Concat, PutAll;
    InPlaceIff(parts);
    if DataAdjacent(parts) {
      forall payload: seq<byte> | |payload| == ISO_PAYLOAD_SIZE
        ensures Joined(parts, payload)
      {
        InPlaceJoins(parts, payload, 0, []);
        assert [] + Concat(parts) == Concat(parts);
      }
    } else {
      var all := Concat(parts);
      var other :=
        seq(ISO_PAYLOAD_SIZE, i requires 0 <= i < ISO_PAYLOAD_SIZE => if i < |all| then Different(all[i]) else 0);
      var i := DisplacedLeavesGap(parts, other, 0, 0);
      assert PutAll(parts, other, 0, 0)[..|all|][i] != all[i];
    }
  }

  lemma PutAllThree(a: seq<byte>, b: seq<byte>, c: seq<byte>, z: seq<byte>)
    ensures PutAll([a, b, c], z, 0, 0) == Put(Put(Put(z, 0, a), |a|, b), |a| + (|a| + |b|), c)
  {
    hide Put;
    assert [a, b, c][1..] == [b, c] && [b, c][1..] == [c] && [c][1..] == [];
    var p, n := Put(z, 0, a), |a|;
    var q := Put(p, n, b);
    assert PutAll([c], q, n + (n + |b|), n + |b|) == Put(q, n + (n + |b|), c);
    assert PutAll([b, c], p, n, n) == PutAll([c], q, n + (n + |b|), n + |b|);
  }

  /** Three one-byte parts over a cleared buffer: the third lands one byte too far. */
  lemma ThreePartsNotJoined(z: seq<byte>)
    requires |z| == ISO_PAYLOAD_SIZE && forall i :: 0 <= i < |z| ==> z[i] == 0
    ensures !DataAdjacent([[1], [2], [3]])
    ensures PutAll([[1], [2], [3]], z, 0, 0)[..4] == [1, 2, 0, 3]
  {
    hide PutAll;
    var parts: seq<seq<byte>> := [[1], [2], [3]];
    assert parts[0] != [] && parts[2] != [];
    PutAllThree([1], [2], [3], z);
    var p1 := Put(z, 0, [1]);
    assert p1[0] == 1 && p1[1] == 0 && p1[2] == 0 && p1[3] == 0;
    var p2 := Put(p1, 1, [2]);
    assert p2[0] == 1 && p2[1] == 2 && p2[2] == 0 && p2[3] == 0;
  }

  // ---------------------------------------------------------------------- the socket

  class IsoSocket {
    var incoming: seq<byte>
    var outgoing: seq<byte>
    var header: seq<byte>
    const payload: array<byte>
    var lastIsoError: IsoError

    ghost predicate Valid()
      reads this
    {
      payload.Length == ISO_PAYLOAD_SIZE && |header| == ISO_HEADER
    }

    constructor (stream: seq<byte>)
      ensures Valid() && fresh(payload) && incoming == stream && outgoing == []
    {
      incoming, outgoing, lastIsoError := stream, [], NoError;
      header := seq(ISO_HEADER, _ => 0);
      payload := new byte[ISO_PAYLOAD_SIZE](_ => 0);
    }

    /** Builds a telegram around the data and sends it. `sendOk` is how the socket does. */
    method IsoSendBuffer(data: seq<byte>, sendOk: bool) returns (result: IsoError)
      requires Valid()
      modifies this`header, this`outgoing, this`lastIsoError, payload
      ensures Valid() && result == lastIsoError
      ensures result == if |data| > ISO_PAYLOAD_SIZE then InvalidDataSize else if sendOk then NoError else SendPacket
      ensures outgoing == old(outgoing) + if result == NoError then Frame(data, true) else []
    {
      lastIsoError := NoError;
      var isoSize := |data| + ISO_HEADER;
      if isoSize > 0 && isoSize <= ISO_FRAME_SIZE {
        header := Header(PDU_TYPE_DT, PDU_EOT, isoSize);
        forall i | 0 <= i < |data| {
          payload[i] := data[i];
        }
        assert payload[..|data|] == data;
        if sendOk {
          outgoing := outgoing + header + payload[..isoSize - ISO_HEADER];
          assert outgoing == old(outgoing) + (header + data);
        } else {
          lastIsoError := SendPacket;
        }
      } else {
        lastIsoError := InvalidDataSize;
      }
      result := lastIsoError;
    }

    /** Exactly n bytes off the stream; with fewer waiting, the stream is purged. */
    method TakePacket(n: nat) returns (ok: bool, data: seq<byte>)
      modifies this`incoming
      ensures ok == (n <= |old(incoming)|)
      ensures ok ==> data == old(incoming)[..n] && incoming == old(incoming)[n..]
      ensures !ok ==> data == [] && incoming == []
    {
      if n <= |incoming| {
        ok, data := true, incoming[..n];
        incoming := incoming[n..];
      } else {
        ok, data := false, [];
        incoming := [];
      }
    }

    /** memcpy into the payload buffer; bytes that would land behind it are not modelled. */
    method Store(at: nat, data: seq<byte>)
      requires Valid()
      modifies payload
      ensures payload[..] == Put(old(payload[..]), at, data)
    {
      var n := |data|;
      if at >= payload.Length {
        n := 0;
      } else if at + n > payload.Length {
        n := payload.Length - at;
      }
      ghost var was := payload[..];
      forall i | 0 <= i < n {
        payload[at + i] := data[i];
      }
      if at < payload.Length {
        assert payload[..] == was[..at] + data[..n] + was[at + n..];
      } else {
        assert payload[..] == was;
      }
    }

    method IsoRecvFragment(at: nat, max: nat) returns (result: IsoError, size: nat, eot: bool)
      requires Valid()
      modifies this`incoming, this`header, this`lastIsoError, payload
      ensures Valid() && result == lastIsoError
      ensures match NextFragment(old(incoming), max)
              case Failed(error) => result == error && size == 0
              case Fragment(data, e, h, rest) =>
                result == NoError && size == |data| && eot == e && header == h && incoming == rest
                && payload[..] == Put(old(payload[..]), at, data)
    {
      hide Put, GetWord;
      size, eot := 0, false;
      lastIsoError := NoError;
      var ok, h := TakePacket(ISO_HEADER);
      if !ok {
        lastIsoError := RecvPacket;
        return lastIsoError, size, eot;
      }
      header := h;
      var pduType := header[5];
      if pduType == PDU_TYPE_CR || pduType == PDU_TYPE_DR {
        eot := true;
      } else if pduType == PDU_TYPE_DT {
        eot := header[6] >= 0x80;
      } else {
        lastIsoError := InvalidPDU;
        return lastIsoError, size, eot;
      }
      var dataLength := PduSize(header) - ISO_HEADER;
      lastIsoError := CheckPdu(header, pduType);
      if lastIsoError != NoError {
        return lastIsoError, size, eot;
      }
      PutNothing(payload[..], at);
      if dataLength > 0 {
        if dataLength <= max {
          var got, data := TakePacket(dataLength);
          if !got {
            lastIsoError := RecvPacket;
            return lastIsoError, size, eot;
          }
          Store(at, data);
          size := dataLength;
        } else {
          lastIsoError := PduOverflow;
          return lastIsoError, size, eot;
        }
      }
      result := lastIsoError;
    }

    /** Receives one telegram, joining its fragments, and leaves the total in the header. */
    method IsoRecvPdu() returns (result: IsoError)
      requires Valid()
      modifies this`incoming, this`header, this`lastIsoError, payload
      ensures Valid() && result == lastIsoError
      ensures match ReceiveFrom(old(incoming), old(payload[..]), 0, 0, 1)
              case Refused(error) => result == error && result != NoError && incoming == []
              case Received(size, p, _, rest, _) =>
                result == NoError && payload[..] == p && incoming == rest && PduSize(header) == size + ISO_HEADER
    {
      hide NextFragment, Put, ReceiveFrom;
      ghost var start := ReceiveFrom(incoming, payload[..], 0, 0, 1);
      ReceiveBounded(incoming, payload[..], 0, 0, 1);
      var numParts: nat, offset: nat, received: nat, at: nat := 1, 0, 0, 0;
      var complete := false;
      lastIsoError := NoError;
      result := NoError;
      while !complete && result == NoError
        invariant Valid() && 1 <= numParts <= MAX_ISO_FRAGMENTS + 1
        invariant result == lastIsoError && (result == NoError ==> numParts <= MAX_ISO_FRAGMENTS)
        invariant !complete && result == NoError ==>
          ReceiveFrom(incoming, payload[..], at + offset, offset, numParts) == start
        invariant result != NoError ==> start == Refused(result)
        invariant complete && result == NoError ==>
                    start.Received? && start.size == offset + received && start.payload == payload[..]
                      && start.rest == incoming
        decreases MAX_ISO_FRAGMENTS + 1 - numParts, !complete && result == NoError
      {
        at := at + offset;
        var max := ISO_PAYLOAD_SIZE - offset;
        ReceiveUnfolds(incoming, payload[..], at, offset, numParts);
        if max > 0 {
          FragmentFits(incoming, max);
          result, received, complete := IsoRecvFragment(at, max);
          if result == NoError && !complete {
            numParts := numParts + 1;
            offset := offset + received;
            if numParts > MAX_ISO_FRAGMENTS {
              lastIsoError := TooManyFragments;
              result := lastIsoError;
            }
          }
        } else {
          lastIsoError := TooManyFragments;
          result := lastIsoError;
        }
      }
      if result == NoError {
        var size := offset + received + ISO_HEADER;
        header := header[2 := Hi(size)][3 := Lo(size)];
      } else {
        incoming := [];
      }
    }

    method IsoRecvBuffer() returns (result: IsoError, data: seq<byte>)
      requires Valid()
      modifies this`incoming, this`header, this`lastIsoError, payload
      ensures Valid() && result == lastIsoError
      ensures match ReceiveFrom(old(incoming), old(payload[..]), 0, 0, 1)
              case Refused(error) => result == error && data == []
              case Received(size, p, _, rest, _) =>
                result == NoError && size <= |p| && data == p[..size] && incoming == rest
    {
      hide ReceiveFrom, GetWord;
      data := [];
      ReceiveBounded(incoming, payload[..], 0, 0, 1);
      result := IsoRecvPdu();
      if result == NoError {
        var size := PduSize(header) - ISO_HEADER;
        data := payload[..size];
      }
    }
  }

  /** What one socket sends the other receives, exactly up to 4089 bytes; larger payloads
      can be sent but are refused. */
  lemma SentIsReceived(data: seq<byte>, rest: seq<byte>, payload: seq<byte>)
    requires |data| <= ISO_PAYLOAD_SIZE == |payload|
    ensures var r := ReceiveFrom(Frame(data, true) + rest, payload, 0, 0, 1);
            if |data| <= ISO_PAYLOAD_SIZE - ISO_HEADER
            then r.Received? && r.size == |data| && r.payload[..|data|] == data && r.rest == rest
            else r == Refused(InvalidPDU)
  {
    hide NextFragment, Put, Frame;
    FrameParses(data, true, rest, ISO_PAYLOAD_SIZE);
    PutFront(payload, [], data);
    assert [] + data == data;
  }
}
