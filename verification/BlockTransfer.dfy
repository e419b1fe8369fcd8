/** Block send and block receive between S7 partners: the sender slices a block to the
    negotiated telegram size, the receiver is a separate state machine that reassembles it. */
module BlockTransfer {
  import opened Basics
  import opened S7Frames

  const BUFFER_SIZE := 65544
  const ANSWER_SIZE := 26
  /** Bytes of the first telegram that carry no data. */
  const OVERHEAD := HEADER_SIZE + PARAMS_SIZE + DATA_HEADER_SIZE + 2

  datatype ParError = NoError | InvalidPDU | SendRefused | SendingBlock | RecvingBlock | NotLinked | Busy

  /** The result of one exchange: no answer, or the partner's sequence and error fields. */
  datatype Answer = Lost | Answer(seqOut: byte, err: word) {
    predicate Good() {
      Answer? && err == 0
    }
  }

  /** Auto-incrementing, never 0 and never 0xFF. */
  function NextByteAfter(b: byte): byte {
    var n := (b + 1) % 0x100;
    if n == 0xFF then 1 else n
  }

  /** The word handed out, and the counter left behind. */
  function NextWordAfter(w: word): (word, word) {
    if w == 0xFFFF then (0, 1) else (w, w + 1)
  }

  // ----------------------------------------------------------------------- sending

  datatype Job = Job(data: seq<byte>, rid: dword, pduLength: int)

  /** Where the sender is within a block. `index` counts the telegrams sent. */
  datatype Progress = Progress(offset: nat, first: bool, seqIn: byte, nextByte: byte, cntWord: word, index: nat)

  predicate Sendable(job: Job, p: Progress) {
    job.pduLength >= OVERHEAD && p.offset <= |job.data|
  }

  function MaxSlice(job: Job, first: bool): int {
    job.pduLength - OVERHEAD + if first then 0 else 2
  }

  function SliceSize(job: Job, p: Progress): (n: nat)
    requires Sendable(job, p)
    ensures n <= |job.data| - p.offset
  {
    var left := |job.data| - p.offset;
    if left > MaxSlice(job, p.first) then MaxSlice(job, p.first) else left
  }

  predicate IsLast(job: Job, p: Progress)
    requires Sendable(job, p)
  {
    p.offset + SliceSize(job, p) == |job.data|
  }

  /** A single telegram has sequence id 0 and takes no number. */
  function NumberAfter(job: Job, p: Progress): byte
    requires Sendable(job, p)
  {
    if p.first && IsLast(job, p) then p.nextByte else NextByteAfter(p.nextByte)
  }

  function TelegramAt(job: Job, p: Progress): seq<byte>
    requires Sendable(job, p)
  {
    var last := IsLast(job, p);
    var idSeq := if p.first && last then 0 else NumberAfter(job, p);
    Telegram(Fields(NextWordAfter(p.cntWord).0, p.seqIn, idSeq, last, p.first, job.rid, |job.data|),
             job.data[p.offset..p.offset + SliceSize(job, p)])
  }

  function Advance(job: Job, p: Progress, seqOut: byte): (q: Progress)
    requires Sendable(job, p)
    ensures Sendable(job, q)
    ensures p.offset == |job.data| || p.offset < q.offset || (p.first && !q.first && p.offset == q.offset)
  {
    Progress(p.offset + SliceSize(job, p), false, seqOut, NumberAfter(job, p), NextWordAfter(p.cntWord).1, p.index + 1)
  }

  /** The telegrams sent from p on; a bad exchange ends the block after its telegram. */
  function Telegrams(job: Job, p: Progress, exchange: nat -> Answer): seq<seq<byte>>
    requires Sendable(job, p)
    decreases |job.data| - p.offset, p.first
  {
    if p.offset == |job.data| then []
    else
      [TelegramAt(job, p)]
      + if exchange(p.index).Good() then Telegrams(job, Advance(job, p, exchange(p.index).seqOut), exchange) else []
  }

  predicate Completes(job: Job, p: Progress, exchange: nat -> Answer)
    requires Sendable(job, p)
    decreases |job.data| - p.offset, p.first
  {
    p.offset == |job.data|
    || (exchange(p.index).Good() && Completes(job, Advance(job, p, exchange(p.index).seqOut), exchange))
  }

  // --------------------------------------------------------------------- receiving

  datatype RecvLast = RecvLast(done: bool, size: word, result: ParError, rid: dword, count: dword)

  datatype Receiver = Receiver(pending: bool, first: bool, done: bool, offset: nat, totalLength: word, inRid: dword,
                               seqOut: byte, nextByte: byte, buffer: seq<byte>, last: RecvLast)

  /** The slice that a telegram announces is there to be read, and has room in the buffer. */
  predicate Readable(r: Receiver, pdu: seq<byte>) {
    |r.buffer| == BUFFER_SIZE && DATA_AT <= |pdu|
    && (IsBSend(pdu) ==>
          var first := !r.pending || r.first;
          var offset := if first then 0 else r.offset;
          DATA_AT + Extra(first) + SliceLength(pdu, first) <= |pdu| && offset + SliceLength(pdu, first) <= BUFFER_SIZE)
  }

  /** The start of a sequence. */
  function Opened(r: Receiver): Receiver {
    if r.pending then r
    else
      var count := (r.last.count + 1) % 0x1_0000_0000;
      r.(pending := true, first := true, done := false, seqOut := NextByteAfter(r.nextByte),
        nextByte := NextByteAfter(r.nextByte),
         last := RecvLast(false, 0, NoError, 0, if count == 0xFFFF_FFFF then 0 else count))
  }

  /** The telegram's slice put at the running offset. */
  function Picked(r: Receiver, pdu: seq<byte>): Receiver
    requires r.pending && Readable(r, pdu) && IsBSend(pdu)
  {
    var offset := if r.first then 0 else r.offset;
    var n := SliceLength(pdu, r.first);
    var at := DATA_AT + Extra(r.first);
    var s := if r.first then r.(totalLength := GetWord(pdu, DATA_AT), inRid := GetDword(pdu, 30)) else r;
    s.(first := false, done := EndOfSequence(pdu), offset := offset + n,
       buffer := Stored(r.buffer, offset, pdu[at..at + n]))
  }

  function Stored(buffer: seq<byte>, offset: nat, data: seq<byte>): seq<byte>
    requires offset + |data| <= |buffer|
  {
    buffer[..offset] + data + buffer[offset + |data|..]
  }

  lemma PickedIs(r: Receiver, pdu: seq<byte>)
    requires r.pending && Readable(r, pdu) && IsBSend(pdu)
    ensures var offset, n, at := if r.first then 0 else r.offset, SliceLength(pdu, r.first), DATA_AT + Extra(r.first);
      Picked(r, pdu)
      == r.(totalLength := if r.first then GetWord(pdu, DATA_AT) else r.totalLength,
            inRid := if r.first then GetDword(pdu, 30) else r.inRid,
            first := false, done := EndOfSequence(pdu), offset := offset + n,
            buffer := Stored(r.buffer, offset, pdu[at..at + n]))
  {
    hide GetDword, GetWord, SliceLength, IsBSend, EndOfSequence;
  }

  function Cleared(r: Receiver): Receiver {
    r.(pending := false, first := false, done := false, offset := 0, totalLength := 0, inRid := 0, seqOut := 0)
  }

  /** What the receive callback is handed: result, R_ID and the bytes. */
  datatype Delivery = Delivery(result: ParError, rid: dword, data: seq<byte>)

  /** One telegram through the receiver. `answered` says that the answer could be sent. */
  function Receive(r: Receiver, pdu: seq<byte>, answered: bool): (Receiver, ParError)
    requires Readable(r, pdu)
  {
    var o := Opened(r);
    if !IsBSend(pdu) then
      (Cleared(o.(last := o.last.(result := InvalidPDU, done := true))), InvalidPDU)
    else
      var s := Picked(o, pdu);
      if !answered then
        (Cleared(s.(last := s.last.(result := RecvingBlock, done := true))), RecvingBlock)
      else if s.done then
        (Cleared(s.(last := RecvLast(true, s.totalLength, NoError, s.inRid, s.last.count))), NoError)
      else (s, NoError)
  }

  /** The state that a failed or finished block leaves, apart from the buffer. */
  predicate Idle(s: Receiver, last: RecvLast) {
    !s.pending && !s.first && !s.done && s.offset == 0 && s.totalLength == 0 && s.inRid == 0 && s.seqOut == 0
    && s.last == last
  }

  /** The number that follows a partner's own: never 255, and 0 only after 255. */
  function ByteAfter(b: byte): byte {
    if b == 254 then 1 else if b == 255 then 0 else b + 1
  }

  /** How many blocks have been begun, modulo 2^32, with one number left out. */
  function CountAfter(count: dword): dword {
    if count >= 0xFFFF_FFFE then 0 else count + 1
  }

  /** What any telegram does, from the bytes at its offsets. */
  lemma ReceiveInFull(r: Receiver, pdu: seq<byte>, answered: bool)
    requires Readable(r, pdu)
    ensures var first := !r.pending || r.first;
      var s := Receive(r, pdu, answered).0;
      var error := Receive(r, pdu, answered).1;
      var count := if r.pending then r.last.count else CountAfter(r.last.count);
      var number := if r.pending then r.seqOut else ByteAfter(r.nextByte);
      && s.nextByte == (if r.pending then r.nextByte else number) && |s.buffer| == |r.buffer|
      && if pdu[1] != 7 || pdu[15] != 0x46 then
           error == InvalidPDU && s.buffer == r.buffer
           && Idle(s, if r.pending then r.last.(result := InvalidPDU, done := true)
                      else RecvLast(true, 0, InvalidPDU, 0, count))
         else
           var at, from, n := if first then 0 else r.offset, if first then 36 else 34,
             (0x100 * pdu[24] as int + pdu[25] as int - if first then 10 else 8) % 0x1_0000;
           var total := if first then 0x100 * pdu[34] as int + pdu[35] as int else r.totalLength;
           var rid := if first then GetDword(pdu, 30) else r.inRid;
           && s.buffer[at..at + n] == pdu[from..from + n]
           && s.buffer[..at] == r.buffer[..at] && s.buffer[at + n..] == r.buffer[at + n..]
           && if !answered then
                error == RecvingBlock
                && Idle(s, if r.pending then r.last.(result := RecvingBlock, done := true)
                           else RecvLast(true, 0, RecvingBlock, 0, count))
              else if pdu[19] == 0 then error == NoError && Idle(s, RecvLast(true, total, NoError, rid, count))
              else
                error == NoError && s.pending && !s.first && !s.done && s.offset == at + n
                && s.totalLength == total && s.inRid == rid && s.seqOut == number
                && s.last == if r.pending then r.last else RecvLast(false, 0, NoError, 0, count)
  {
    hide GetDword, Opened, Picked, CountAfter, ByteAfter, SliceLength;
    OpenedInFull(r);
    if IsBSend(pdu) {
      OpenedReads(r, pdu);
      PickedInFull(Opened(r), pdu);
    }
  }

  lemma OpenedInFull(r: Receiver)
    ensures var o := Opened(r);
      if r.pending then o == r
      else
        o == r.(pending := true, first := true, done := false, seqOut := ByteAfter(r.nextByte),
                nextByte := ByteAfter(r.nextByte),
                last := RecvLast(false, 0, NoError, 0, CountAfter(r.last.count)))
  {
  }

  lemma OpenedReads(r: Receiver, pdu: seq<byte>)
    requires Readable(r, pdu)
    ensures Readable(Opened(r), pdu)
  {
  }

  lemma PickedInFull(o: Receiver, pdu: seq<byte>)
    requires o.pending && Readable(o, pdu) && IsBSend(pdu)
    ensures var s := Picked(o, pdu);
      var at, from, n := if o.first then 0 else o.offset, if o.first then 36 else 34,
        (0x100 * pdu[24] as int + pdu[25] as int - if o.first then 10 else 8) % 0x1_0000;
      && n == SliceLength(pdu, o.first) && |s.buffer| == |o.buffer|
      && s.buffer[at..at + n] == pdu[from..from + n]
      && s.buffer[..at] == o.buffer[..at] && s.buffer[at + n..] == o.buffer[at + n..]
      && s == o.(first := false, done := pdu[19] == 0, offset := at + n, buffer := s.buffer,
                 totalLength := if o.first then 0x100 * pdu[34] as int + pdu[35] as int else o.totalLength,
                 inRid := if o.first then GetDword(pdu, 30) else o.inRid)
  {
    hide GetDword;
    var s := Picked(o, pdu);
    var at, n := if o.first then 0 else o.offset, SliceLength(pdu, o.first);
    assert s.buffer[at..at + n] == pdu[DATA_AT + Extra(o.first)..DATA_AT + Extra(o.first) + n];
    assert s.buffer[..at] == o.buffer[..at] && s.buffer[at + n..] == o.buffer[at + n..];
  }

  // --------------------------------------------------------------------- round trip

  /** The receiver has exactly what the sender has sent. */
  predicate InStep(job: Job, p: Progress, r: Receiver) {
    |r.buffer| == BUFFER_SIZE && p.offset <= |job.data| <= BUFFER_SIZE
    && r.pending == !p.first
    && (p.first ==> p.offset == 0)
    && (!p.first ==> !r.first && r.offset == p.offset && r.buffer[..p.offset] == job.data[..p.offset]
                     && r.totalLength == ToWord(|job.data|) && r.inRid == job.rid
                     && r.last.result == NoError && !r.last.done)
  }

  predicate Delivered(job: Job, r: Receiver) {
    !r.pending && r.last.done && r.last.result == NoError && r.last.rid == job.rid
    && r.last.size == ToWord(|job.data|)
    && |job.data| <= |r.buffer| && r.buffer[..|job.data|] == job.data
  }

  /** Every telegram is taken; the block is delivered at the last one and not before. */
  predicate DeliveredByLast(job: Job, r: Receiver, telegrams: seq<seq<byte>>)
    decreases |telegrams|
  {
    telegrams != [] && Readable(r, telegrams[0])
    && var (s, error) := Receive(r, telegrams[0], true);
       error == NoError
       && if |telegrams| == 1 then Delivered(job, s)
          else s.pending && !s.last.done && DeliveredByLast(job, s, telegrams[1..])
  }

  lemma TelegramRead(job: Job, p: Progress)
    requires Sendable(job, p) && job.pduLength < 0x1_0000
    ensures var t, n, at := TelegramAt(job, p), SliceSize(job, p), DATA_AT + Extra(p.first);
            && DATA_AT <= |t| == at + n && IsBSend(t) && (EndOfSequence(t) <==> IsLast(job, p))
              && GetDword(t, 30) == job.rid
            && SliceLength(t, p.first) == n && (p.first ==> GetWord(t, DATA_AT) == ToWord(|job.data|))
            && t[at..at + n] == job.data[p.offset..p.offset + n]
  {
    hide Telegram, ToWord, GetWord, GetDword, SliceLength, EndOfSequence, IsBSend, NextWordAfter, NumberAfter;
    var slice := job.data[p.offset..p.offset + SliceSize(job, p)];
    var idSeq := if p.first && IsLast(job, p) then 0 else NumberAfter(job, p);
    TelegramParses(Fields(NextWordAfter(p.cntWord).0, p.seqIn, idSeq, IsLast(job, p), p.first, job.rid, |job.data|),
      slice);
  }

  lemma OneTelegram(job: Job, p: Progress, r: Receiver, seqOut: byte)
    requires Sendable(job, p) && job.pduLength < 0x1_0000 && InStep(job, p, r) && p.offset < |job.data|
    ensures var t := TelegramAt(job, p);
            && Readable(r, t)
            && var (s, error) := Receive(r, t, true);
               error == NoError
               && if IsLast(job, p) then Delivered(job, s)
                  else s.pending && !s.last.done && InStep(job, Advance(job, p, seqOut), s)
  {
    hide TelegramAt, ToWord, GetWord, GetDword, SliceLength, EndOfSequence, IsBSend, NextByteAfter, NextWordAfter,
      NumberAfter;
    TelegramRead(job, p);
    var t, n := TelegramAt(job, p), SliceSize(job, p);
    var o := Opened(r);
    assert o.first == p.first;
    var s := Picked(o, t);
    assert s.buffer[..p.offset + n] == job.data[..p.offset + n];
  }

  // --------------------------------------------------------------------- the answer

  /** The answer overwrites the front of the telegram it answers; header bytes 0 to 5 stay. */
  function AnswerTo(pdu: seq<byte>, seqOut: byte): (a: seq<byte>)
    requires DATA_AT <= |pdu|
    ensures |a| == ANSWER_SIZE
  {
    pdu[..6] + WordBytes(PARAMS_SIZE) + WordBytes(4)
    + [0x00, 0x01, 0x12, 0x08, 0x12, 0x86, 0x01, seqOut, 0x00, 0x00, 0x00, 0x00]
    + [0x0A, 0x00, 0x00, 0x00]
  }

  /** The answer byte by byte, in the telegram's own layout. */
  lemma AnswerLayout(pdu: seq<byte>, seqOut: byte)
    requires DATA_AT <= |pdu|
    ensures var a := AnswerTo(pdu, seqOut);
      && (forall i :: 0 <= i < 6 ==> a[i] == pdu[i]) && a[6] == 0 && a[7] == 12 && a[8] == 0 && a[9] == 4
      && a[10] == 0 && a[11] == 1 && a[12] == 0x12 && a[13] == 8 && a[14] == 0x12 && a[15] == 0x86 && a[16] == 1
      && a[17] == seqOut && a[18] == 0 && a[19] == 0 && a[20] == 0 && a[21] == 0
      && a[22] == 0x0A && a[23] == 0 && a[24] == 0 && a[25] == 0
  {
  }

  /** What the sender reads of an answer, wherever it ends. */
  function AnswerRead(b: seq<byte>): Answer
    requires ANSWER_SIZE <= |b|
  {
    Answer(b[17], GetWord(b, 20))
  }

  /** A receiver that takes a telegram answers it well, with its own sequence number. */
  lemma AnswerIsGood(pdu: seq<byte>, seqOut: byte, b: seq<byte>)
    requires DATA_AT <= |pdu| && ANSWER_SIZE <= |b| && b[..ANSWER_SIZE] == AnswerTo(pdu, seqOut)
    ensures AnswerRead(b) == Answer(seqOut, 0) && AnswerRead(b).Good()
  {
    hide WordBytes;
    var a := AnswerTo(pdu, seqOut);
    assert a[10..22] == [0x00, 0x01, 0x12, 0x08, 0x12, 0x86, 0x01, seqOut, 0x00, 0x00, 0x00, 0x00];
    assert a[17] == a[10..22][7] && a[20] == a[10..22][10] && a[21] == a[10..22][11];
    assert forall i :: 0 <= i < ANSWER_SIZE ==> b[i] == a[i];
  }

  /** Sender and receiver talk to each other: each telegram is taken and answered, and the
      sender goes on with what it reads in the answer. */
  predicate ClosedLoop(job: Job, p: Progress, r: Receiver)
    requires Sendable(job, p)
    decreases |job.data| - p.offset, p.first
  {
    var t := TelegramAt(job, p);
    p.offset < |job.data| && DATA_AT <= |t| && Readable(r, t)
    && var (s, error) := Receive(r, t, true);
       var answer := AnswerRead(AnswerTo(t, Opened(r).seqOut));
       error == NoError && answer.Good()
       && if IsLast(job, p) then Delivered(job, s)
          else s.pending && !s.last.done && ClosedLoop(job, Advance(job, p, answer.seqOut), s)
  }

  /** With nothing assumed about the answers, the block is delivered at its last telegram. */
  lemma {:induction false} LoopDelivers(job: Job, p: Progress, r: Receiver)
    requires Sendable(job, p) && job.pduLength < 0x1_0000 && InStep(job, p, r) && p.offset < |job.data|
    ensures ClosedLoop(job, p, r)
    decreases |job.data| - p.offset, p.first
  {
    hide TelegramAt, Receive, Readable, Delivered, AnswerTo, AnswerRead, InStep, IsBSend, EndOfSequence, SliceLength,
      GetWord, GetDword;
    TelegramRead(job, p);
    var t, seqOut := TelegramAt(job, p), Opened(r).seqOut;
    AnswerIsGood(t, seqOut, AnswerTo(t, seqOut)) by {
      assert AnswerTo(t, seqOut)[..ANSWER_SIZE] == AnswerTo(t, seqOut);
    }
    OneTelegram(job, p, r, seqOut);
    if !IsLast(job, p) {
      LoopDelivers(job, Advance(job, p, seqOut), Receive(r, t, true).0);
    }
  }

  /** A block of any size up to the buffer's, sent in telegrams of any negotiated size,
      arrives unchanged. The size arrives modulo 2^16. */
  lemma {:induction false} BlockArrives(job: Job, p: Progress, r: Receiver, exchange: nat -> Answer)
    requires Sendable(job, p) && job.pduLength < 0x1_0000 && InStep(job, p, r) && p.offset < |job.data|
    requires Completes(job, p, exchange)
    ensures DeliveredByLast(job, r, Telegrams(job, p, exchange))
    decreases |job.data| - p.offset, p.first
  {
    hide TelegramAt, Receive, Readable, Delivered;
    var seqOut := exchange(p.index).seqOut;
    OneTelegram(job, p, r, seqOut);
    var q := Advance(job, p, seqOut);
    var rest := Telegrams(job, q, exchange);
    var ts := Telegrams(job, p, exchange);
    assert ts == [TelegramAt(job, p)] + rest;
    if !IsLast(job, p) {
      BlockArrives(job, q, Receive(r, ts[0], true).0, exchange);
      assert ts[1..] == rest;
    }
  }

  function StartOfBlock(nextByte: byte, cntWord: word): Progress {
    Progress(0, true, 0, nextByte, cntWord, 0)
  }

  /** From an idle receiver: the size arrives unchanged exactly for blocks below 64 KiB. */
  lemma RoundTrip(job: Job, nextByte: byte, cntWord: word, r: Receiver, exchange: nat -> Answer)
    requires OVERHEAD <= job.pduLength < 0x1_0000 && 0 < |job.data| <= 0x1_0000
    requires !r.pending && |r.buffer| == BUFFER_SIZE
    requires Completes(job, StartOfBlock(nextByte, cntWord), exchange)
    ensures DeliveredByLast(job, r, Telegrams(job, StartOfBlock(nextByte, cntWord), exchange))
    ensures ToWord(|job.data|) == |job.data| <==> |job.data| < 0x1_0000
  {
    hide Telegrams, DeliveredByLast, Completes, TelegramAt;
    BlockArrives(job, StartOfBlock(nextByte, cntWord), r, exchange);
  }

  /** The telegrams of the closed loop, and the answers that the sender reads in it. */
  function LoopTelegrams(job: Job, p: Progress, r: Receiver): (ts: seq<seq<byte>>)
    requires Sendable(job, p) && ClosedLoop(job, p, r)
    decreases |job.data| - p.offset, p.first
  {
    var t := TelegramAt(job, p);
    var answer := AnswerRead(AnswerTo(t, Opened(r).seqOut));
    [t] + if IsLast(job, p) then []
          else LoopTelegrams(job, Advance(job, p, answer.seqOut), Receive(r, t, true).0)
  }

  function LoopAnswers(job: Job, p: Progress, r: Receiver): (answers: seq<Answer>)
    requires Sendable(job, p) && ClosedLoop(job, p, r)
    decreases |job.data| - p.offset, p.first
  {
    var t := TelegramAt(job, p);
    var answer := AnswerRead(AnswerTo(t, Opened(r).seqOut));
    [answer] + if IsLast(job, p) then []
               else LoopAnswers(job, Advance(job, p, answer.seqOut), Receive(r, t, true).0)
  }

  /** Exchanges that come out as listed, and get no answer after that. */
  function ExchangeOf(answers: seq<Answer>): nat -> Answer {
    (i: nat) => if i < |answers| then answers[i] else Lost
  }

  /** A sender whose exchanges come out as the receiver's answers sends the loop's telegrams
      and completes the block. */
  lemma {:induction false} LoopIsExchange(job: Job, p: Progress, r: Receiver, exchange: nat -> Answer)
    requires Sendable(job, p) && ClosedLoop(job, p, r)
    requires forall k :: 0 <= k < |LoopAnswers(job, p, r)| ==> exchange(p.index + k) == LoopAnswers(job, p, r)[k]
    ensures Completes(job, p, exchange) && Telegrams(job, p, exchange) == LoopTelegrams(job, p, r)
    decreases |job.data| - p.offset, p.first
  {
    hide TelegramAt, Receive, Readable, Delivered, AnswerTo, AnswerRead, Opened;
    var t, answers := TelegramAt(job, p), LoopAnswers(job, p, r);
    var answer := AnswerRead(AnswerTo(t, Opened(r).seqOut));
    assert exchange(p.index + 0) == answers[0] == answer;
    var q := Advance(job, p, answer.seqOut);
    if !IsLast(job, p) {
      var s := Receive(r, t, true).0;
      assert answers == [answer] + LoopAnswers(job, q, s);
      forall k | 0 <= k < |LoopAnswers(job, q, s)| ensures exchange(q.index + k) == LoopAnswers(job, q, s)[k] {
        assert exchange(p.index + (k + 1)) == answers[k + 1];
      }
      LoopIsExchange(job, q, s, exchange);
    }
  }

  /** A send to an idle receiver whose exchanges are that receiver's answers succeeds, and
      its telegrams, which are those of the loop, deliver the block. */
  lemma LoopSends(job: Job, nextByte: byte, cntWord: word, r: Receiver)
    requires OVERHEAD <= job.pduLength < 0x1_0000 && 0 < |job.data| <= BUFFER_SIZE
    requires !r.pending && |r.buffer| == BUFFER_SIZE
    ensures var start := StartOfBlock(nextByte, cntWord);
      && ClosedLoop(job, start, r)
      && var exchange := ExchangeOf(LoopAnswers(job, start, r));
         && Completes(job, start, exchange) && Telegrams(job, start, exchange) == LoopTelegrams(job, start, r)
         && DeliveredByLast(job, r, LoopTelegrams(job, start, r))
  {
    hide Telegrams, DeliveredByLast, Completes, TelegramAt, ClosedLoop, LoopAnswers, LoopTelegrams;
    var start := StartOfBlock(nextByte, cntWord);
    LoopDelivers(job, start, r);
    var exchange := ExchangeOf(LoopAnswers(job, start, r));
    LoopIsExchange(job, start, r, exchange);
    BlockArrives(job, start, r, exchange);
  }

  /** A block of exactly 64 KiB is received whole and announced as empty. */
  lemma FullBlockAnnouncedEmpty(job: Job, r: Receiver)
    requires |job.data| == 0x1_0000 && Delivered(job, r)
    ensures r.last.size == 0 && r.buffer[..r.last.size] == [] && r.buffer[..0x1_0000] == job.data
  {
  }

  lemma FullBlockExample(r: Receiver)
    requires !r.pending && |r.buffer| == BUFFER_SIZE
    ensures var job := Job(seq(0x1_0000, _ => 7), 1, 480);
            ClosedLoop(job, StartOfBlock(0, 0), r) && ToWord(|job.data|) == 0
  {
    hide ClosedLoop;
    LoopDelivers(Job(seq(0x1_0000, _ => 7), 1, 480), StartOfBlock(0, 0), r);
  }

  /** No telegram exceeds the negotiated size. */
  lemma {:induction false} TelegramsFit(job: Job, p: Progress, exchange: nat -> Answer)
    requires Sendable(job, p)
    ensures forall t :: t in Telegrams(job, p, exchange) ==> |t| <= job.pduLength
    decreases |job.data| - p.offset, p.first
  {
    hide Telegram;
    if p.offset < |job.data| && exchange(p.index).Good() {
      TelegramsFit(job, Advance(job, p, exchange(p.index).seqOut), exchange);
    }
  }

  /** The data parts of a run of telegrams, the first of them with the size field. */
  function Payload(telegrams: seq<seq<byte>>, first: bool): seq<byte> {
    if telegrams == [] then []
    else
      var at := DATA_AT + Extra(first);
      (if at <= |telegrams[0]| then telegrams[0][at..] else []) + Payload(telegrams[1..], false)
  }

  lemma PayloadCons(t: seq<byte>, rest: seq<seq<byte>>, first: bool)
    requires DATA_AT + Extra(first) <= |t|
    ensures Payload([t] + rest, first) == t[DATA_AT + Extra(first)..] + Payload(rest, false)
  {
    assert ([t] + rest)[1..] == rest;
  }

  /** The slices partition the block. */
  lemma {:induction false} SlicesPartition(job: Job, p: Progress, exchange: nat -> Answer)
    requires Sendable(job, p) && Completes(job, p, exchange)
    ensures Payload(Telegrams(job, p, exchange), p.first) == job.data[p.offset..]
    decreases |job.data| - p.offset, p.first
  {
    hide TelegramAt, Advance, Payload;
    if p.offset < |job.data| {
      var q := Advance(job, p, exchange(p.index).seqOut);
      TelegramSlice(job, p, q);
      SlicesPartition(job, q, exchange);
      PayloadCons(TelegramAt(job, p), Telegrams(job, q, exchange), p.first);
      assert job.data[p.offset..] == job.data[p.offset..q.offset] + job.data[q.offset..];
    } else {
      NoPayload(p.first);
    }
  }

  lemma NoPayload(first: bool)
    ensures Payload([], first) == []
  {
  }

  lemma TelegramSlice(job: Job, p: Progress, q: Progress)
    requires Sendable(job, p) && exists seqOut :: q == Advance(job, p, seqOut)
    ensures p.offset <= q.offset <= |job.data| && !q.first
    ensures DATA_AT + Extra(p.first) <= |TelegramAt(job, p)|
    ensures TelegramAt(job, p)[DATA_AT + Extra(p.first)..] == job.data[p.offset..q.offset]
  {
    hide Telegram;
    var slice := job.data[p.offset..p.offset + SliceSize(job, p)];
    var idSeq := if p.first && IsLast(job, p) then 0 else NumberAfter(job, p);
    TelegramBody(Fields(NextWordAfter(p.cntWord).0, p.seqIn, idSeq, IsLast(job, p), p.first, job.rid, |job.data|),
      slice);
  }

  /** The numbers of a run of telegrams, as they stand in their bytes: the sequence word runs
      on from the counter; byte 17 is the partner's last sequence number, at first zero; byte 18
      is zero in a single telegram and otherwise runs on from the sender's own number. */
  predicate Numbered(ts: seq<seq<byte>>, seqIn: byte, number: byte, count: int, single: bool,
                     exchange: nat -> Answer, from: nat) {
    ts == []
    || (var t := ts[0];
        Framed(t) && SequenceOf(t) == WordAt(count) && t[17] == seqIn
        && t[18] == (if single then 0 else ByteAfter(number))
        && (|ts| > 1 ==>
              !single && exchange(from).Good()
              && Numbered(ts[1..], exchange(from).seqOut, t[18], SequenceOf(t) + 1, false, exchange, from + 1)))
  }

  /** The same for the telegram at one place. */
  lemma {:induction false} NumberedAt(ts: seq<seq<byte>>, seqIn: byte, number: byte, count: int, single: bool,
                                      exchange: nat -> Answer, from: nat, k: nat)
    requires Numbered(ts, seqIn, number, count, single, exchange, from) && k < |ts|
    ensures Framed(ts[k]) && (k > 0 ==> Framed(ts[k - 1]) && exchange(from + k - 1).Good())
    ensures SequenceOf(ts[k]) == WordAt(if k == 0 then count else SequenceOf(ts[k - 1]) + 1)
    ensures ts[k][17] == if k == 0 then seqIn else exchange(from + k - 1).seqOut
    ensures ts[k][18] == if single then 0 else ByteAfter(if k == 0 then number else ts[k - 1][18])
  {
    hide SequenceOf, WordAt, ByteAfter;
    if k > 0 {
      NumberedAt(ts[1..], exchange(from).seqOut, ts[0][18], SequenceOf(ts[0]) + 1, false, exchange, from + 1, k - 1);
    }
  }

  function WordAt(count: int): int {
    if count == 0xFFFF then 0 else count
  }

  lemma TelegramNumbers(job: Job, p: Progress)
    requires Sendable(job, p)
    ensures var t := TelegramAt(job, p);
      && Framed(t) && SequenceOf(t) == WordAt(p.cntWord) && NextWordAfter(p.cntWord).1 == SequenceOf(t) + 1
      && t[17] == p.seqIn && t[18] == (if p.first && IsLast(job, p) then 0 else ByteAfter(p.nextByte))
      && (!(p.first && IsLast(job, p)) ==> NumberAfter(job, p) == t[18])
  {
    hide Telegram, Framed;
    var slice := job.data[p.offset..p.offset + SliceSize(job, p)];
    var idSeq := if p.first && IsLast(job, p) then 0 else NumberAfter(job, p);
    TelegramLayout(Fields(NextWordAfter(p.cntWord).0, p.seqIn, idSeq, IsLast(job, p), p.first, job.rid, |job.data|),
      slice);
  }

  lemma {:induction false} NumbersRunOn(job: Job, p: Progress, exchange: nat -> Answer)
    requires Sendable(job, p)
    ensures Numbered(Telegrams(job, p, exchange), p.seqIn, p.nextByte, p.cntWord, p.first && IsLast(job, p), exchange,
                     p.index)
    decreases |job.data| - p.offset, p.first
  {
    hide TelegramAt, Framed, NumberAfter, NextWordAfter, WordAt, ByteAfter, SequenceOf;
    if p.offset < |job.data| {
      TelegramNumbers(job, p);
      var t, answer := TelegramAt(job, p), exchange(p.index);
      TelegramsUnfold(job, p, exchange);
      if answer.Good() {
        var q := Advance(job, p, answer.seqOut);
        NumbersRunOn(job, q, exchange);
        assert Telegrams(job, p, exchange)[1..] == Telegrams(job, q, exchange);
      }
    }
  }

  lemma WholeBlockIsCarried(job: Job, nextByte: byte, cntWord: word, exchange: nat -> Answer)
    requires job.pduLength >= OVERHEAD
    ensures Carries(Telegrams(job, StartOfBlock(nextByte, cntWord), exchange), job.data, job, true)
  {
    hide Carries, Telegrams;
    BlockIsCarried(job, StartOfBlock(nextByte, cntWord), exchange);
    assert job.data[0..] == job.data;
  }

  /** The numbers of a whole block: a single telegram is one that takes all of it. */
  lemma BlockNumbers(job: Job, nextByte: byte, cntWord: word, exchange: nat -> Answer)
    requires job.pduLength >= OVERHEAD
    ensures Numbered(Telegrams(job, StartOfBlock(nextByte, cntWord), exchange), 0, nextByte, cntWord,
                     |job.data| <= job.pduLength - 36, exchange, 0)
  {
    hide Numbered, Telegrams;
    NumbersRunOn(job, StartOfBlock(nextByte, cntWord), exchange);
  }

  /** A run of telegrams carries the data: each as much as the negotiated size allows, the end
      mark in the one that takes the rest, the R_ID in all and the size of the block in the first. */
  predicate Carries(ts: seq<seq<byte>>, data: seq<byte>, job: Job, first: bool) {
    ts == []
    || (var t, head := ts[0], if first then 36 else 34;
        head <= |t| <= head + |data| && (|t| == job.pduLength || (|t| < job.pduLength && |t| == head + |data|))
        && t[head..] == data[..|t| - head] && (t[19] == 0 <==> |t| == head + |data|)
        && GetDword(t, 30) == job.rid && (first ==> GetWord(t, 34) == ToWord(|job.data|))
        && (|ts| > 1 ==> Carries(ts[1..], data[|t| - head..], job, false)))
  }

  lemma TelegramCarries(job: Job, p: Progress)
    requires Sendable(job, p)
    ensures var t, head, n := TelegramAt(job, p), if p.first then 36 else 34, |job.data| - p.offset;
      && head <= |t| <= head + n && (|t| == job.pduLength || (|t| < job.pduLength && |t| == head + n))
      && t[head..] == job.data[p.offset..p.offset + (|t| - head)] && (t[19] == 0 <==> |t| == head + n)
      && GetDword(t, 30) == job.rid && (p.first ==> GetWord(t, 34) == ToWord(|job.data|))
      && SliceSize(job, p) == |t| - head
  {
    hide Telegram, GetDword;
    var slice := job.data[p.offset..p.offset + SliceSize(job, p)];
    var idSeq := if p.first && IsLast(job, p) then 0 else NumberAfter(job, p);
    TelegramSays(Fields(NextWordAfter(p.cntWord).0, p.seqIn, idSeq, IsLast(job, p), p.first, job.rid, |job.data|),
      slice);
  }

  lemma {:induction false} BlockIsCarried(job: Job, p: Progress, exchange: nat -> Answer)
    requires Sendable(job, p)
    ensures Carries(Telegrams(job, p, exchange), job.data[p.offset..], job, p.first)
    decreases |job.data| - p.offset, p.first
  {
    hide TelegramAt, GetDword, GetWord, NumberAfter, NextWordAfter, SliceSize;
    if p.offset < |job.data| {
      TelegramCarries(job, p);
      var t, answer, rest := TelegramAt(job, p), exchange(p.index), job.data[p.offset..];
      var head := if p.first then 36 else 34;
      assert t[head..] == rest[..|t| - head];
      TelegramsUnfold(job, p, exchange);
      if answer.Good() {
        var q := Advance(job, p, answer.seqOut);
        BlockIsCarried(job, q, exchange);
        assert rest[|t| - head..] == job.data[q.offset..];
        assert Telegrams(job, p, exchange)[1..] == Telegrams(job, q, exchange);
      }
    }
  }

  /** What is still to be sent from p, added to what was sent, is what the start called for. */
  predicate SentSoFar(job: Job, start: Progress, p: Progress, sent: seq<seq<byte>>, exchange: nat -> Answer)
    requires Sendable(job, start) && Sendable(job, p)
  {
    sent + Telegrams(job, p, exchange) == Telegrams(job, start, exchange)
    && (Completes(job, p, exchange) <==> Completes(job, start, exchange))
  }

  lemma SentNothing(job: Job, start: Progress, exchange: nat -> Answer)
    requires Sendable(job, start)
    ensures SentSoFar(job, start, start, [], exchange)
  {
  }

  lemma SentOneMore(job: Job, start: Progress, p: Progress, sent: seq<seq<byte>>, exchange: nat -> Answer)
    requires Sendable(job, start) && Sendable(job, p) && p.offset < |job.data|
      && SentSoFar(job, start, p, sent, exchange)
    ensures var answer, more := exchange(p.index), sent + [TelegramAt(job, p)];
            if answer.Good() then SentSoFar(job, start, Advance(job, p, answer.seqOut), more, exchange)
            else more == Telegrams(job, start, exchange) && !Completes(job, start, exchange)
  {
    hide TelegramAt, Advance, Telegrams, Completes;
    TelegramsUnfold(job, p, exchange);
    if exchange(p.index).Good() {
      var rest := Telegrams(job, Advance(job, p, exchange(p.index).seqOut), exchange);
      assert sent + ([TelegramAt(job, p)] + rest) == sent + [TelegramAt(job, p)] + rest;
    }
  }

  lemma TelegramsUnfold(job: Job, p: Progress, exchange: nat -> Answer)
    requires Sendable(job, p) && p.offset < |job.data|
    ensures !exchange(p.index).Good() ==>
      Telegrams(job, p, exchange) == [TelegramAt(job, p)] && !Completes(job, p, exchange)
    ensures exchange(p.index).Good() ==>
              var q := Advance(job, p, exchange(p.index).seqOut);
              Telegrams(job, p, exchange) == [TelegramAt(job, p)] + Telegrams(job, q, exchange)
              && (Completes(job, p, exchange) <==> Completes(job, q, exchange))
  {
    hide TelegramAt;
  }

  lemma SentAll(job: Job, start: Progress, p: Progress, sent: seq<seq<byte>>, exchange: nat -> Answer)
    requires Sendable(job, start) && Sendable(job, p) && p.offset == |job.data|
      && SentSoFar(job, start, p, sent, exchange)
    ensures sent == Telegrams(job, start, exchange) && Completes(job, start, exchange)
  {
  }

  // -------------------------------------------------------------------- the partner

  class Partner {
    const pduLength: int
    var linked: bool
    var txData: seq<byte>
    var txRid: dword
    var sendPending: bool
    var lastError: ParError
    var nextByte: byte
    var cntWord: word
    // receive status
    var recvPending: bool
    var first: bool
    var done: bool
    var offset: nat
    var totalLength: word
    var inRid: dword
    var seqOut: byte
    var recvLast: RecvLast
    const rxBuffer: array<byte>

    ghost predicate Valid()
      reads this
    {
      rxBuffer.Length == BUFFER_SIZE && (recvPending ==> !recvLast.done)
    }

    /** The receive half of the state. */
    ghost function State(): Receiver
      reads this, rxBuffer
    {
      Receiver(recvPending, first, done, offset, totalLength, inRid, seqOut, nextByte, rxBuffer[..], recvLast)
    }

    constructor (pduLength: int)
      ensures Valid() && fresh(rxBuffer) && this.pduLength == pduLength && !recvPending && !sendPending && !linked
        && nextByte == 0 && cntWord == 0
      ensures State() == Receiver(false, false, false, 0, 0, 0, 0, 0, rxBuffer[..], RecvLast(false, 0, NoError, 0, 0))
    {
      this.pduLength := pduLength;
      linked, txData, txRid, sendPending, lastError, nextByte, cntWord := false, [], 0, false, NoError, 0, 0;
      recvPending, first, done, offset, totalLength, inRid, seqOut := false, false, false, 0, 0, 0, 0;
      recvLast := RecvLast(false, 0, NoError, 0, 0);
      rxBuffer := new byte[BUFFER_SIZE](_ => 0);
    }

    method GetNextByte() returns (b: byte)
      modifies this`nextByte
      ensures b == nextByte == NextByteAfter(old(nextByte))
      ensures old(nextByte) < 0xFF ==> 0 < b < 0xFF
    {
      nextByte := (nextByte + 1) % 0x100;
      if nextByte == 0xFF {
        nextByte := 1;
      }
      b := nextByte;
    }

    method GetNextWord() returns (w: word)
      modifies this`cntWord
      ensures (w, cntWord) == NextWordAfter(old(cntWord))
    {
      if cntWord == 0xFFFF {
        cntWord := 0;
      }
      w := cntWord;
      cntWord := cntWord + 1;
    }

    /** Hands a block to the worker. */
    method AsBSend(rid: dword, usrData: seq<byte>) returns (result: ParError)
      modifies this`txData, this`txRid, this`sendPending, this`lastError
      ensures result == if !linked then NotLinked else if old(sendPending) then Busy else NoError
      ensures result == NoError ==> txData == usrData && txRid == rid && sendPending && lastError == old(lastError)
      ensures result != NoError ==> txData == old(txData) && txRid == old(txRid) && sendPending == old(sendPending)
      ensures lastError == if result == NotLinked then NotLinked else old(lastError)
    {
      if linked {
        if !sendPending {
          txData := usrData;
          txRid := rid;
          sendPending := true;
          return NoError;
        } else {
          return Busy;
        }
      } else {
        lastError := NotLinked;
        return NotLinked;
      }
    }

    /** Numbers and builds one telegram. */
    method MakeTelegram(source: nat, slice: nat, isFirst: bool, last: bool, seqIn: byte, ghost p: Progress)
        returns (telegram: seq<byte>)
      requires source + slice <= |txData|
      requires var job := Job(txData, txRid, pduLength);
               Sendable(job, p) && p == Progress(source, isFirst, seqIn, nextByte, cntWord, p.index)
               && slice == SliceSize(job, p) && last == IsLast(job, p)
      modifies this`nextByte, this`cntWord
      ensures var job := Job(txData, txRid, pduLength);
              telegram == TelegramAt(job, p)
              && (forall seqOut ::
                    Advance(job, p, seqOut) == Progress(source + slice, false, seqOut, nextByte, cntWord, p.index + 1))
    {
      hide Telegram, NextWordAfter, NextByteAfter;
      var sequence := GetNextWord();
      var idSeq: byte := 0;
      if !(isFirst && last) {
        idSeq := GetNextByte();
      }
      telegram :=
        Telegram(Fields(sequence, seqIn, idSeq, last, isFirst, txRid, |txData|), txData[source..source + slice]);
    }

    /** Sends the block telegram by telegram; `exchange(i)` is how exchange i comes out. */
    method BlockSend(exchange: nat -> Answer) returns (ok: bool, sent: seq<seq<byte>>)
      requires pduLength >= OVERHEAD
      modifies this`lastError, this`nextByte, this`cntWord
      ensures var job, start := Job(txData, txRid, pduLength), StartOfBlock(old(nextByte), old(cntWord));
              sent == Telegrams(job, start, exchange) && ok == Completes(job, start, exchange)
      ensures Numbered(sent, 0, old(nextByte), old(cntWord), |txData| <= pduLength - 36, exchange, 0)
      ensures Carries(sent, txData, Job(txData, txRid, pduLength), true)
      ensures ok == (lastError == NoError)
      ensures !ok ==> |sent| > 0 && lastError == if exchange(|sent| - 1).Lost? then SendingBlock else SendRefused
    {
      hide Numbered, Carries, Telegram, TelegramAt, Advance, NextWordAfter, NextByteAfter, SentSoFar, Telegrams,
        Completes;
      SentNothing(Job(txData, txRid, pduLength), StartOfBlock(nextByte, cntWord), exchange);
      BlockNumbers(Job(txData, txRid, pduLength), nextByte, cntWord, exchange);
      WholeBlockIsCarried(Job(txData, txRid, pduLength), nextByte, cntWord, exchange);
      ghost var job, start := Job(txData, txRid, pduLength), StartOfBlock(nextByte, cntWord);
      ghost var p := start;
      lastError := NoError;
      sent := [];
      var totalSize := |txData|;
      var at := 0;
      var isFirst := true;
      var seqIn: byte := 0;
      var maxSlice := pduLength - HEADER_SIZE - PARAMS_SIZE - DATA_HEADER_SIZE - 2;
      while totalSize > 0 && lastError == NoError
        invariant Sendable(job, p) && totalSize == |txData| - at && 0 <= at <= |txData| && |sent| == p.index
        invariant maxSlice == MaxSlice(job, isFirst)
        invariant lastError == NoError ==> p == Progress(at, isFirst, seqIn, nextByte, cntWord, |sent|)
        invariant lastError != NoError ==>
          |sent| > 0 && lastError == if exchange(|sent| - 1).Lost? then SendingBlock else SendRefused
        invariant lastError == NoError ==> SentSoFar(job, start, p, sent, exchange)
        invariant lastError != NoError ==> sent == Telegrams(job, start, exchange) && !Completes(job, start, exchange)
        decreases lastError == NoError, totalSize, isFirst
      {
        var slice := totalSize;
        if slice > maxSlice {
          slice := maxSlice;
        }
        var source := at;
        totalSize := totalSize - slice;
        at := at + slice;
        var last := totalSize == 0;
        var telegram := MakeTelegram(source, slice, isFirst, last, seqIn, p);
        var answer := exchange(|sent|);
        SentOneMore(job, start, p, sent, exchange);
        sent := sent + [telegram];
        if answer.Lost? {
          lastError := SendingBlock;
        } else {
          seqIn := answer.seqOut;
          if answer.err != 0 {
            lastError := SendRefused;
          }
        }
        if isFirst {
          isFirst := false;
          maxSlice := maxSlice + 2;
        }
        p := Advance(job, p, seqIn);
      }
      ok := lastError == NoError;
      if ok {
        SentAll(job, start, p, sent, exchange);
      }
    }

    method ClearRecv()
      modifies this`recvPending, this`first, this`done, this`offset, this`totalLength, this`inRid, this`seqOut
      ensures State() == Cleared(old(State()))
    {
      first, done, offset, totalLength, inRid, seqOut := false, false, 0, 0, 0, 0;
      recvPending := false;
    }

    method OpenSequence()
      requires Valid()
      modifies this`recvPending, this`first, this`done, this`seqOut, this`recvLast, this`nextByte
      ensures Valid() && State() == Opened(old(State()))
    {
      hide NextByteAfter;
      if !recvPending {
        recvPending := true;
        first := true;
        done := false;
        seqOut := GetNextByte();
        var count := (recvLast.count + 1) % 0x1_0000_0000;
        if count == 0xFFFF_FFFF {
          count := 0;
        }
        recvLast := RecvLast(false, 0, NoError, 0, count);
      }
    }

    /** Takes the slice of one telegram and answers it. */
    method PickData(pdu: seq<byte>, answered: bool) returns (ok: bool, answer: seq<byte>)
      requires Valid() && recvPending && Readable(State(), pdu)
      modifies this`lastError, this`done, this`offset, this`totalLength, this`inRid, rxBuffer
      ensures ok == (lastError == NoError)
      ensures !IsBSend(pdu) ==> lastError == InvalidPDU && State() == old(State())
      ensures IsBSend(pdu) ==> lastError == (if answered then NoError else RecvingBlock)
      ensures IsBSend(pdu) ==> State().(first := false) == Picked(old(State()), pdu)
      ensures answer == if IsBSend(pdu) && answered then AnswerTo(pdu, seqOut) else []
    {
      hide AnswerTo, GetWord, GetDword, SliceLength, IsBSend, EndOfSequence, Picked, Stored;
      lastError := NoError;
      if !IsBSend(pdu) {
        lastError := InvalidPDU;
        return false, [];
      }
      PickedIs(State(), pdu);
      var slice := SliceLength(pdu, first);
      var source := DATA_AT + Extra(first);
      if first {
        totalLength := GetWord(pdu, DATA_AT);
        inRid := GetDword(pdu, 30);
        offset := 0;
      }
      done := EndOfSequence(pdu);
      Store(pdu[source..source + slice]);
      offset := offset + slice;
      answer := [];
      if answered {
        answer := AnswerTo(pdu, seqOut);
      } else {
        lastError := RecvingBlock;
      }
      ok := lastError == NoError;
    }

    /** memcpy to the running offset. */
    method Store(data: seq<byte>)
      requires offset + |data| <= rxBuffer.Length
      modifies rxBuffer
      ensures rxBuffer[..] == Stored(old(rxBuffer[..]), offset, data)
    {
      forall i | 0 <= i < |data| {
        rxBuffer[offset + i] := data[i];
      }
    }

    /** One incoming user-data telegram. The callback is called at the end of a block, and
        when a telegram fails, with the result, the R_ID and the received bytes. */
    method BlockRecv(pdu: seq<byte>, answered: bool) returns (ok: bool, answer: seq<byte>, callback: seq<Delivery>)
      requires Valid() && Readable(State(), pdu)
      modifies this`recvPending, this`first, this`done, this`offset, this`totalLength, this`inRid, this`seqOut
      modifies this`recvLast, this`nextByte, this`lastError, rxBuffer
      ensures Valid() && (State(), lastError) == Receive(old(State()), pdu, answered) && ok == (lastError == NoError)
      ensures answer == if IsBSend(pdu) && answered then AnswerTo(pdu, Opened(old(State())).seqOut) else []
      ensures callback == if recvLast.done then [Delivery(lastError, recvLast.rid, rxBuffer[..recvLast.size])] else []
    {
      hide AnswerTo, GetWord, GetDword, SliceLength, IsBSend, EndOfSequence, NextByteAfter;
      OpenSequence();
      ok, answer := PickData(pdu, answered);
      first := false;
      callback := [];
      if !ok || done {
        recvLast := recvLast.(result := lastError);
        if ok {
          recvLast := recvLast.(rid := inRid, size := totalLength);
        }
        callback := [Delivery(recvLast.result, recvLast.rid, rxBuffer[..recvLast.size])];
        recvLast := recvLast.(done := true);
        ClearRecv();
      }
    }
  }
}
