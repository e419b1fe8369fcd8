/** Block transfer over ISO transport: every telegram of a block goes out in a frame, is
    received into the transport buffer, and the partner reads it there. */
module PartnerLink {
  import opened Basics
  import opened S7Frames
  import opened BlockTransfer
  import Iso = IsoTcp

  lemma PrefixReads(t: seq<byte>, b: seq<byte>)
    requires DATA_AT <= |t| <= |b| && b[..|t|] == t
    ensures IsBSend(b) == IsBSend(t) && EndOfSequence(b) == EndOfSequence(t) && GetDword(b, 30) == GetDword(t, 30)
    ensures forall first :: SliceLength(b, first) == SliceLength(t, first)
    ensures DATA_AT + 2 <= |t| ==> GetWord(b, DATA_AT) == GetWord(t, DATA_AT)
  {
    assert forall i :: 0 <= i < |t| ==> b[i] == t[i];
  }

  /** The partner reads the transport buffer; what lies behind the telegram is ignored. */
  lemma TailIgnored(r: Receiver, t: seq<byte>, b: seq<byte>, answered: bool)
    requires |t| <= |b| && b[..|t|] == t && Readable(r, t) && IsBSend(t)
    ensures Readable(r, b) && Receive(r, b, answered) == Receive(r, t, answered)
  {
    hide IsBSend, EndOfSequence, GetDword, GetWord, SliceLength, NextByteAfter;
    PrefixReads(t, b);
    var o := Opened(r);
    var at, n := DATA_AT + Extra(o.first), SliceLength(t, o.first);
    assert t[at..at + n] == b[at..at + n];
    assert Picked(o, b) == Picked(o, t);
  }

  /** The whole path. `before(i)` is what the transport buffer held before telegram i. */
  predicate DeliveredOverIso(job: Job, r: Receiver, telegrams: seq<seq<byte>>, before: nat -> seq<byte>, i: nat)
    decreases |telegrams|
  {
    telegrams != [] && |telegrams[0]| <= Iso.ISO_PAYLOAD_SIZE
    && var rx := Iso.ReceiveFrom(Iso.Frame(telegrams[0], true), before(i), 0, 0, 1);
       rx.Received? && rx.rest == [] && Readable(r, rx.payload)
       && var (s, error) := Receive(r, rx.payload, true);
          error == NoError
          && if |telegrams| == 1 then Delivered(job, s)
             else s.pending && !s.last.done && DeliveredOverIso(job, s, telegrams[1..], before, i + 1)
  }

  lemma TelegramCrosses(r: Receiver, t: seq<byte>, buffer: seq<byte>)
    requires |t| <= Iso.ISO_PAYLOAD_SIZE - Iso.ISO_HEADER && |buffer| == Iso.ISO_PAYLOAD_SIZE
    requires Readable(r, t) && IsBSend(t)
    ensures var rx := Iso.ReceiveFrom(Iso.Frame(t, true), buffer, 0, 0, 1);
            rx.Received? && rx.rest == [] && Readable(r, rx.payload)
              && Receive(r, rx.payload, true) == Receive(r, t, true)
  {
    hide Readable, Receive, IsBSend, Iso.ReceiveFrom, Iso.Frame;
    Iso.SentIsReceived(t, [], buffer);
    Iso.ReceiveBounded(Iso.Frame(t, true), buffer, 0, 0, 1);
    assert Iso.Frame(t, true) + [] == Iso.Frame(t, true);
    TailIgnored(r, t, Iso.ReceiveFrom(Iso.Frame(t, true), buffer, 0, 0, 1).payload, true);
  }

  /** Negotiated sizes up to 4089 carry every block end to end. */
  lemma {:induction false} BlockCrosses(job: Job, p: Progress, r: Receiver, exchange: nat -> Answer,
                                        before: nat -> seq<byte>, i: nat)
    requires Sendable(job, p) && job.pduLength <= Iso.ISO_PAYLOAD_SIZE - Iso.ISO_HEADER
    requires InStep(job, p, r) && p.offset < |job.data| && Completes(job, p, exchange)
    requires forall j: nat :: |before(j)| == Iso.ISO_PAYLOAD_SIZE
    ensures DeliveredOverIso(job, r, Telegrams(job, p, exchange), before, i)
    decreases |job.data| - p.offset, p.first
  {
    hide TelegramAt, Receive, Readable, Delivered, Iso.ReceiveFrom, Iso.Frame, IsBSend, InStep;
    var seqOut := exchange(p.index).seqOut;
    var t, ts, q := TelegramAt(job, p), Telegrams(job, p, exchange), Advance(job, p, seqOut);
    OneTelegram(job, p, r, seqOut);
    TelegramIsBSend(job, p);
    TelegramCrosses(r, t, before(i));
    assert ts == [t] + Telegrams(job, q, exchange);
    if !IsLast(job, p) {
      assert ts[1..] == Telegrams(job, q, exchange);
      BlockCrosses(job, q, Receive(r, t, true).0, exchange, before, i + 1);
    }
  }

  /** Both directions of the link, with the two transport buffers: the telegram goes out in a
      frame and is taken from the receiver's buffer, the answer is written over its front,
      goes back in a frame, and is read from the sender's buffer. */
  predicate LinkLoop(job: Job, p: Progress, r: Receiver, sender: seq<byte>, receiver: seq<byte>)
    requires Sendable(job, p) && |sender| == |receiver| == Iso.ISO_PAYLOAD_SIZE
    decreases |job.data| - p.offset, p.first
  {
    var t := TelegramAt(job, p);
    p.offset < |job.data| && |t| <= Iso.ISO_PAYLOAD_SIZE
    && var there := Iso.ReceiveFrom(Iso.Frame(t, true), receiver, 0, 0, 1);
       there.Received? && there.rest == [] && |there.payload| == Iso.ISO_PAYLOAD_SIZE && Readable(r, there.payload)
       && var (s, error) := Receive(r, there.payload, true);
          var answer := AnswerTo(there.payload, Opened(r).seqOut);
          var back := Iso.ReceiveFrom(Iso.Frame(answer, true), Iso.Put(sender, 0, t), 0, 0, 1);
          error == NoError && back.Received? && back.rest == [] && |back.payload| == Iso.ISO_PAYLOAD_SIZE
          && var read := AnswerRead(back.payload);
             read.Good()
             && if IsLast(job, p) then Delivered(job, s)
                else s.pending && !s.last.done
                     && LinkLoop(job, Advance(job, p, read.seqOut), s, back.payload, Iso.Put(there.payload, 0, answer))
  }

  lemma AnswerCrosses(pdu: seq<byte>, seqOut: byte, buffer: seq<byte>)
    requires DATA_AT <= |pdu| && |buffer| == Iso.ISO_PAYLOAD_SIZE
    ensures var back := Iso.ReceiveFrom(Iso.Frame(AnswerTo(pdu, seqOut), true), buffer, 0, 0, 1);
      && back.Received? && back.rest == [] && |back.payload| == Iso.ISO_PAYLOAD_SIZE
      && AnswerRead(back.payload) == Answer(seqOut, 0)
  {
    hide AnswerTo, AnswerRead, Iso.ReceiveFrom, Iso.Frame;
    var a := AnswerTo(pdu, seqOut);
    Iso.SentIsReceived(a, [], buffer);
    Iso.ReceiveBounded(Iso.Frame(a, true), buffer, 0, 0, 1);
    assert Iso.Frame(a, true) + [] == Iso.Frame(a, true);
    AnswerIsGood(pdu, seqOut, Iso.ReceiveFrom(Iso.Frame(a, true), buffer, 0, 0, 1).payload);
  }

  /** Over the link, whatever the buffers hold at first and with nothing assumed about any
      exchange, a block is delivered at its last telegram for negotiated sizes up to 4089. */
  lemma {:induction false} LinkDelivers(job: Job, p: Progress, r: Receiver, sender: seq<byte>, receiver: seq<byte>)
    requires Sendable(job, p) && job.pduLength <= Iso.ISO_PAYLOAD_SIZE - Iso.ISO_HEADER
    requires InStep(job, p, r) && p.offset < |job.data| && |sender| == |receiver| == Iso.ISO_PAYLOAD_SIZE
    ensures LinkLoop(job, p, r, sender, receiver)
    decreases |job.data| - p.offset, p.first
  {
    hide TelegramAt, Receive, Readable, Delivered, Iso.ReceiveFrom, Iso.Frame, Iso.Put, IsBSend, InStep, AnswerTo,
      AnswerRead;
    var t, seqOut := TelegramAt(job, p), Opened(r).seqOut;
    OneTelegram(job, p, r, seqOut);
    TelegramIsBSend(job, p);
    TelegramCrosses(r, t, receiver);
    var there := Iso.ReceiveFrom(Iso.Frame(t, true), receiver, 0, 0, 1);
    Iso.ReceiveBounded(Iso.Frame(t, true), receiver, 0, 0, 1);
    AnswerCrosses(there.payload, seqOut, Iso.Put(sender, 0, t));
    if !IsLast(job, p) {
      var answer := AnswerTo(there.payload, seqOut);
      var back := Iso.ReceiveFrom(Iso.Frame(answer, true), Iso.Put(sender, 0, t), 0, 0, 1);
      LinkDelivers(job, Advance(job, p, seqOut), Receive(r, t, true).0, back.payload,
        Iso.Put(there.payload, 0, answer));
    }
  }

  lemma TelegramIsBSend(job: Job, p: Progress)
    requires Sendable(job, p) && job.pduLength < 0x1_0000 && p.offset < |job.data|
    ensures |TelegramAt(job, p)| <= job.pduLength && DATA_AT <= |TelegramAt(job, p)| && IsBSend(TelegramAt(job, p))
  {
    hide Telegram, IsBSend;
    var slice := job.data[p.offset..p.offset + SliceSize(job, p)];
    var idSeq := if p.first && IsLast(job, p) then 0 else NumberAfter(job, p);
    TelegramParses(Fields(NextWordAfter(p.cntWord).0, p.seqIn, idSeq, IsLast(job, p), p.first, job.rid, |job.data|),
      slice);
  }

  /** A negotiated size of 4090 to 4096 does not: a telegram of that size is sent and refused. */
  lemma FullTelegramRefused(job: Job, p: Progress, buffer: seq<byte>)
    requires Sendable(job, p)
      && Iso.ISO_PAYLOAD_SIZE - Iso.ISO_HEADER < job.pduLength <= Iso.ISO_PAYLOAD_SIZE == |buffer|
    requires |job.data| - p.offset >= MaxSlice(job, p.first)
    ensures |TelegramAt(job, p)| == job.pduLength
    ensures Iso.ReceiveFrom(Iso.Frame(TelegramAt(job, p), true), buffer, 0, 0, 1) == Iso.Refused(Iso.InvalidPDU)
  {
    hide Telegram, Iso.ReceiveFrom, Iso.Frame;
    var t := TelegramAt(job, p);
    Iso.SentIsReceived(t, [], buffer);
    assert Iso.Frame(t, true) + [] == Iso.Frame(t, true);
  }
}
