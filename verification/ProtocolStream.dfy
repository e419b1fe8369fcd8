/** Messages on a byte stream: a 30-byte packed header whose last field is the length of the
    body, then the body. */
module ProtocolStreams {
  import opened Basics
  import opened Bytes

  const HEAD := 30
  const LEN_AT := 26

  datatype Header = Header(tranId: uint64, timeStamp: uint64, processId: uint32, processType: uint16,
                           command: uint16, version: uint16, len: uint32)

  datatype Message = Message(head: Header, body: seq<byte>) {
    predicate Valid() {
      head.len == |body|
    }
  }

  // --------------------------------------------------------------------- the header

  function HeaderBytes(h: Header): (b: seq<byte>)
    ensures |b| == HEAD
  {
    LowBytes(h.tranId, 8) + LowBytes(h.timeStamp, 8) + LowBytes(h.processId, 4) + LowBytes(h.processType, 2)
    + LowBytes(h.command, 2) + LowBytes(h.version, 2) + LowBytes(h.len, 4)
  }

  lemma Bounds()
    ensures Bound(2) == 0x1_0000 && Bound(4) == 0x1_0000_0000 && Bound(8) == 0x1_0000_0000_0000_0000
  {
    assert Bound(4) == 256 * (256 * Bound(2));
    assert Bound(8) == 256 * (256 * (256 * (256 * Bound(4))));
  }

  /** The n bytes at `at`. */
  function Field(b: seq<byte>, at: nat, n: nat): (v: nat)
    requires at + n <= |b|
    ensures v < Bound(n)
  {
    ValueOfBytes(b[at..at + n]);
    LittleEndian(b[at..at + n])
  }

  function HeaderOf(b: seq<byte>): Header
    requires |b| == HEAD
  {
    Bounds();
    Header(Field(b, 0, 8), Field(b, 8, 8), Field(b, 16, 4), Field(b, 20, 2), Field(b, 22, 2), Field(b, 24, 2),
      Field(b, LEN_AT, 4))
  }

  lemma FieldOf(b: seq<byte>, at: nat, n: nat, v: nat)
    requires at + n <= |b| && v < Bound(n) && b[at..at + n] == LowBytes(v, n)
    ensures Field(b, at, n) == v
  {
    BytesOfValue(v, n);
  }

  /** Where each field lies. */
  lemma HeaderFields(h: Header)
    ensures var b := HeaderBytes(h);
      && b[0..8] == LowBytes(h.tranId, 8) && b[8..16] == LowBytes(h.timeStamp, 8)
      && b[16..20] == LowBytes(h.processId, 4) && b[20..22] == LowBytes(h.processType, 2)
      && b[22..24] == LowBytes(h.command, 2) && b[24..26] == LowBytes(h.version, 2)
      && b[LEN_AT..LEN_AT + 4] == LowBytes(h.len, 4)
  {
    hide LowBytes;
    var low := LowBytes(h.tranId, 8) + LowBytes(h.timeStamp, 8) + LowBytes(h.processId, 4);
    var high := LowBytes(h.processType, 2) + LowBytes(h.command, 2) + LowBytes(h.version, 2);
    var b := HeaderBytes(h);
    assert b == low + high + LowBytes(h.len, 4);
    assert b[..20] == low && b[20..26] == high;
    assert b[LEN_AT..LEN_AT + 4] == LowBytes(h.len, 4);
  }

  lemma HeaderRoundTrip(h: Header)
    ensures HeaderOf(HeaderBytes(h)) == h
  {
    hide LowBytes, Field, Bound;
    Bounds();
    var b := HeaderBytes(h);
    HeaderFields(h);
    FieldOf(b, 0, 8, h.tranId);
    FieldOf(b, 8, 8, h.timeStamp);
    FieldOf(b, 16, 4, h.processId);
    FieldOf(b, 20, 2, h.processType);
    FieldOf(b, 22, 2, h.command);
    FieldOf(b, 24, 2, h.version);
    FieldOf(b, LEN_AT, 4, h.len);
  }

  lemma BytesOfField(b: seq<byte>, at: nat, n: nat)
    requires at + n <= |b|
    ensures LowBytes(Field(b, at, n), n) == b[at..at + n]
  {
    ValueOfBytes(b[at..at + n]);
  }

  lemma HeaderBytesRoundTrip(b: seq<byte>)
    requires |b| == HEAD
    ensures HeaderBytes(HeaderOf(b)) == b
  {
    hide LowBytes, Field, Bound;
    BytesOfField(b, 0, 8);
    BytesOfField(b, 8, 8);
    BytesOfField(b, 16, 4);
    BytesOfField(b, 20, 2);
    BytesOfField(b, 22, 2);
    BytesOfField(b, 24, 2);
    BytesOfField(b, LEN_AT, 4);
    assert b == b[0..8] + b[8..16] + b[16..20] + b[20..22] + b[22..24] + b[24..26] + b[26..30];
  }

  function Wire(m: Message): seq<byte> {
    HeaderBytes(m.head) + m.body
  }

  function WireAll(ms: seq<Message>): seq<byte> {
    if ms == [] then [] else Wire(ms[0]) + WireAll(ms[1..])
  }

  lemma WireAllCons(m: Message, ms: seq<Message>)
    ensures WireAll([m] + ms) == Wire(m) + WireAll(ms)
  {
    assert ([m] + ms)[1..] == ms;
  }

  lemma NothingSent()
    ensures WireAll([]) == []
  {
  }

  // ------------------------------------------------------------------------- parsing

  /** A whole message stands at the front of s. */
  predicate Complete(s: seq<byte>) {
    |s| >= HEAD && |s| - HEAD >= HeaderOf(s[..HEAD]).len
  }

  function First(s: seq<byte>): Message
    requires Complete(s)
  {
    var h := HeaderOf(s[..HEAD]);
    Message(h, s[HEAD..HEAD + h.len])
  }

  function After(s: seq<byte>): (rest: seq<byte>)
    requires Complete(s)
    ensures |rest| < |s|
  {
    s[HEAD + HeaderOf(s[..HEAD]).len..]
  }

  datatype Parsed = Parsed(messages: seq<Message>, rest: seq<byte>)

  function Parse(s: seq<byte>): Parsed
    decreases |s|
  {
    if !Complete(s) then Parsed([], s)
    else
      var p := Parse(After(s));
      Parsed([First(s)] + p.messages, p.rest)
  }

  lemma ParseUnfolds(s: seq<byte>, emitted: seq<Message>)
    ensures !Complete(s) ==> Parse(s) == Parsed([], s)
    ensures Complete(s) ==> emitted + Parse(s).messages == emitted + [First(s)] + Parse(After(s)).messages
    ensures Complete(s) ==> Parse(s).rest == Parse(After(s)).rest
  {
  }

  lemma FirstIs(s: seq<byte>, h: Header)
    requires |s| >= HEAD && h == HeaderOf(s[..HEAD]) && |s| - HEAD >= h.len
    ensures Complete(s) && First(s) == Message(h, s[HEAD..HEAD + h.len]) && After(s) == s[HEAD + h.len..]
  {
  }

  lemma IncompleteBody(s: seq<byte>, h: Header)
    requires |s| >= HEAD && h == HeaderOf(s[..HEAD]) && |s| - HEAD < h.len
    ensures !Complete(s)
  {
  }

  lemma FirstIsWire(s: seq<byte>)
    requires Complete(s)
    ensures First(s).Valid() && s == Wire(First(s)) + After(s)
  {
    hide HeaderOf, HeaderBytes;
    HeaderBytesRoundTrip(s[..HEAD]);
  }

  lemma WireIsFirst(m: Message, rest: seq<byte>)
    requires m.Valid()
    ensures Complete(Wire(m) + rest) && First(Wire(m) + rest) == m && After(Wire(m) + rest) == rest
  {
    hide HeaderOf, HeaderBytes;
    HeaderRoundTrip(m.head);
    var s := Wire(m) + rest;
    assert s[..HEAD] == HeaderBytes(m.head);
    assert s[HEAD..HEAD + m.head.len] == m.body && s[HEAD + m.head.len..] == rest;
  }

  /** Nothing is lost: messages and leftover are the stream, and no message is left. */
  lemma {:induction false} ParseConserves(s: seq<byte>)
    ensures s == WireAll(Parse(s).messages) + Parse(s).rest && !Complete(Parse(s).rest)
    ensures forall m :: m in Parse(s).messages ==> m.Valid()
    decreases |s|
  {
    hide Wire, WireAll, First, After, Complete;
    NothingSent();
    if Complete(s) {
      FirstIsWire(s);
      var p := Parse(After(s));
      ParseConserves(After(s));
      WireAllCons(First(s), p.messages);
      assert Wire(First(s)) + (WireAll(p.messages) + p.rest) == WireAll(Parse(s).messages) + p.rest;
    }
  }

  /** There is only one way to cut a stream: what was sent is what is parsed. */
  lemma {:induction false} ParseOfWire(ms: seq<Message>, rest: seq<byte>)
    requires !Complete(rest) && forall m :: m in ms ==> m.Valid()
    ensures Parse(WireAll(ms) + rest) == Parsed(ms, rest)
  {
    hide Wire, First, After, Complete;
    if ms == [] {
      assert WireAll(ms) + rest == rest;
    } else {
      ParseOfWire(ms[1..], rest);
      WireIsFirst(ms[0], WireAll(ms[1..]) + rest);
      assert WireAll(ms) + rest == Wire(ms[0]) + (WireAll(ms[1..]) + rest);
    }
  }

  /** The leftover is a strict prefix of a single message. */
  lemma LeftoverIsPrefix(s: seq<byte>) returns (m: Message)
    requires !Complete(s)
    ensures m.Valid() && s < Wire(m)
  {
    hide HeaderOf, HeaderBytes;
    var zeros := seq(HEAD, _ => 0);
    if |s| < HEAD {
      var b := s + zeros[|s|..];
      var h := HeaderOf(b);
      m := Message(h, seq(h.len, _ => 0));
      HeaderBytesRoundTrip(b);
      assert Wire(m)[..|s|] == s;
    } else {
      var h := HeaderOf(s[..HEAD]);
      m := Message(h, s[HEAD..] + seq(h.len - (|s| - HEAD), _ => 0));
      HeaderBytesRoundTrip(s[..HEAD]);
      assert Wire(m)[..|s|] == s;
    }
  }

  // ------------------------------------------------------------------------ chunking

  /** What the buffer holds and what has been emitted after the chunks arrived one by one. */
  function Feed(chunks: seq<seq<byte>>): Parsed {
    if chunks == [] then Parsed([], [])
    else
      var before := Feed(chunks[..|chunks| - 1]);
      var p := Parse(before.rest + chunks[|chunks| - 1]);
      Parsed(before.messages + p.messages, p.rest)
  }

  function Joined(chunks: seq<seq<byte>>): seq<byte> {
    if chunks == [] then [] else Joined(chunks[..|chunks| - 1]) + chunks[|chunks| - 1]
  }

  /** However the stream is cut, the messages and the leftover are those of the whole stream. */
  lemma {:induction false} ChunksDoNotMatter(chunks: seq<seq<byte>>)
    ensures Feed(chunks) == Parse(Joined(chunks))
  {
    hide Complete;
    if chunks == [] {
      assert !Complete([]) by { ShortIsIncomplete([]); }
    } else {
      var a, b := Joined(chunks[..|chunks| - 1]), chunks[|chunks| - 1];
      ChunksDoNotMatter(chunks[..|chunks| - 1]);
      ParseContinues(a, b);
    }
  }

  lemma ShortIsIncomplete(s: seq<byte>)
    requires |s| < HEAD
    ensures !Complete(s)
  {
  }

  lemma ParseContinues(a: seq<byte>, b: seq<byte>)
    ensures var p := Parse(a);
            var q := Parse(p.rest + b);
            Parse(a + b) == Parsed(p.messages + q.messages, q.rest)
  {
    hide Parse, Complete, WireAll;
    var p := Parse(a);
    var q := Parse(p.rest + b);
    ParseConserves(a);
    ParseConserves(p.rest + b);
    WireAllAppend(p.messages, q.messages);
    assert a + b == WireAll(p.messages) + (p.rest + b);
    assert a + b == WireAll(p.messages + q.messages) + q.rest;
    ParseOfWire(p.messages + q.messages, q.rest);
  }

  lemma {:induction false} WireAllAppend(a: seq<Message>, b: seq<Message>)
    ensures WireAll(a + b) == WireAll(a) + WireAll(b)
  {
    hide Wire, WireAll;
    if a == [] {
      assert a + b == b;
      assert WireAll([]) == [] by { NothingSent(); }
    } else {
      WireAllAppend(a[1..], b);
      WireAllCons(a[0], a[1..]);
      WireAllCons(a[0], a[1..] + b);
      assert [a[0]] + (a[1..] + b) == a + b && [a[0]] + a[1..] == a;
    }
  }

  /** What is sent whole arrives whole, in any chunks. */
  lemma SentIsReceived(ms: seq<Message>, chunks: seq<seq<byte>>)
    requires Joined(chunks) == WireAll(ms) && forall m :: m in ms ==> m.Valid()
    ensures Feed(chunks) == Parsed(ms, [])
  {
    ChunksDoNotMatter(chunks);
    ParseOfWire(ms, []);
    assert WireAll(ms) + [] == WireAll(ms);
  }

  // ------------------------------------------------------------------------- sending

  /** Pending when the device's answers so far neither finish nor fail the message. */
  datatype Outcome = Sent | Failed | Pending

  /** The device answers a write with how many bytes it took, or a negative number. */
  function Took(answer: int, len: nat): nat {
    if answer < 0 then 0 else if answer > len then len else answer
  }

  /** How much of a message of the given length is taken, and how that ends. */
  function Taken(answers: seq<int>, len: nat): (nat, Outcome)
    decreases |answers|
  {
    if len == 0 then (0, Sent)
    else if answers == [] then (0, Pending)
    else if answers[0] < 0 then (0, Failed)
    else
      var k := Took(answers[0], len);
      var r := Taken(answers[1..], len - k);
      (k + r.0, r.1)
  }

  /** True is returned exactly when every byte is on its way. */
  lemma {:induction false} SentIffAll(answers: seq<int>, len: nat)
    ensures Taken(answers, len).0 <= len
    ensures Taken(answers, len).1 == Sent <==> Taken(answers, len).0 == len
    decreases |answers|
  {
    if len > 0 && answers != [] && answers[0] >= 0 {
      SentIffAll(answers[1..], len - Took(answers[0], len));
    }
  }

  /** What the device takes before it first answers a negative number. */
  function Accepted(answers: seq<int>): (n: nat) {
    if answers == [] || answers[0] < 0 then 0 else answers[0] + Accepted(answers[1..])
  }

  /** How much of a message goes out, and how it ends, from all the answers: it is sent when the
      device takes enough before it fails, and fails when it answers a negative number first. */
  lemma {:induction false} SentInFull(answers: seq<int>, len: nat)
    ensures var n, r := Accepted(answers), Taken(answers, len);
      && r.0 == (if n < len then n else len)
      && r.1 == if n >= len then Sent else if exists k :: 0 <= k < |answers| && answers[k] < 0 then Failed else Pending
    decreases |answers|
  {
    if len > 0 && answers != [] && answers[0] >= 0 {
      var k := if answers[0] > len then len else answers[0];
      SentInFull(answers[1..], len - k);
      assert forall j :: 0 < j < |answers| ==> answers[j] == answers[1..][j - 1];
    }
  }

  // ------------------------------------------------------------------------- objects

  /** A buffered device: what a transaction has read comes back when it is rolled back. */
  class Device {
    var incoming: seq<byte>
    var position: nat
    var transaction: bool
    var outgoing: seq<byte>

    ghost predicate Valid()
      reads this
    {
      position <= |incoming| && (!transaction ==> position == 0)
    }

    function BytesAvailable(): (n: nat)
      requires Valid()
      reads this
      ensures n == |incoming| - position
    {
      |incoming| - position
    }

    method StartTransaction()
      requires Valid() && !transaction
      modifies this`transaction
      ensures Valid() && transaction
    {
      transaction := true;
    }

    method Read(maxSize: nat) returns (b: seq<byte>)
      requires Valid()
      modifies this`incoming, this`position
      ensures Valid()
      ensures var n := if maxSize <= old(BytesAvailable()) then maxSize else old(BytesAvailable());
              && b == old(incoming)[old(position)..old(position) + n]
              && (if transaction then incoming == old(incoming) && position == old(position) + n
                  else incoming == old(incoming)[n..] && position == 0)
    {
      var n := if maxSize <= BytesAvailable() then maxSize else BytesAvailable();
      b := incoming[position..position + n];
      if transaction {
        position := position + n;
      } else {
        incoming := incoming[n..];
      }
    }

    method CommitTransaction()
      requires Valid() && transaction
      modifies this`incoming, this`position, this`transaction
      ensures Valid() && !transaction && incoming == old(incoming)[old(position)..]
    {
      incoming, position, transaction := incoming[position..], 0, false;
    }

    method RollbackTransaction()
      requires Valid() && transaction
      modifies this`position, this`transaction
      ensures Valid() && !transaction && position == 0
    {
      position, transaction := 0, false;
    }

    /** `answer` is the device's own: what it does with the bytes is up to it. */
    method Write(data: seq<byte>, answer: int) returns (bytes: int)
      modifies this`outgoing
      ensures outgoing == old(outgoing) + data[..Took(answer, |data|)]
      ensures bytes == if answer < 0 then answer else Took(answer, |data|)
    {
      outgoing := outgoing + data[..Took(answer, |data|)];
      bytes := if answer < 0 then answer else Took(answer, |data|);
    }
  }

  class ProtocolStream {
    const device: Device
    var head: Header
    /** The messages signalled so far. */
    var emitted: seq<Message>

    constructor (device: Device, head: Header)
      ensures this.device == device && emitted == [] && this.head == head
    {
      this.device, this.head, emitted := device, head, [];
    }

    method OnReadyRead()
      requires device.Valid() && !device.transaction
      modifies this`head, this`emitted, device`incoming, device`position, device`transaction
      ensures device.Valid() && !device.transaction
      ensures emitted == old(emitted) + Parse(old(device.incoming)).messages
      ensures device.incoming == Parse(old(device.incoming)).rest
    {
      hide HeaderOf, Parse, Complete, First, After;
      ghost var start := device.incoming;
      while true
        invariant device.Valid() && !device.transaction
        invariant emitted + Parse(device.incoming).messages == old(emitted) + Parse(start).messages
        invariant Parse(device.incoming).rest == Parse(start).rest
        decreases |device.incoming|
      {
        ghost var s, before := device.incoming, emitted;
        ParseUnfolds(s, before);
        var bytesAvailable := device.BytesAvailable();
        if bytesAvailable >= HEAD {
          device.StartTransaction();
          var b := device.Read(HEAD);
          assert b == s[..HEAD];
          head := HeaderOf(b);
          bytesAvailable := bytesAvailable - HEAD;
          if bytesAvailable >= head.len {
            FirstIs(s, head);
            if head.len > 0 {
              var body := device.Read(head.len);
              assert body == s[HEAD..HEAD + head.len];
              emitted := emitted + [Message(head, body)];
            } else {
              assert s[HEAD..HEAD + head.len] == [];
              emitted := emitted + [Message(head, [])];
            }
            device.CommitTransaction();
            continue;
          }
          device.RollbackTransaction();
          IncompleteBody(s, head);
        } else {
          ShortIsIncomplete(s);
        }
        break;
      }
    }

    /** Writes until everything is taken or a write fails; `answers` are the device's. */
    method SendMessage(msg: seq<byte>, answers: seq<int>) returns (r: Outcome)
      modifies device`outgoing
      ensures r == Taken(answers, |msg|).1
      ensures Taken(answers, |msg|).0 <= |msg|
      ensures device.outgoing == old(device.outgoing) + msg[..Taken(answers, |msg|).0]
    {
      SentIffAll(answers, |msg|);
      var data, next := msg, 0;
      ghost var done := 0;
      assert answers[0..] == answers && msg[0..] == msg;
      while |data| > 0
        invariant 0 <= next <= |answers| && done <= |msg| && data == msg[done..]
        invariant device.outgoing == old(device.outgoing) + msg[..done]
        invariant Taken(answers, |msg|).0 == done + Taken(answers[next..], |data|).0
        invariant Taken(answers, |msg|).1 == Taken(answers[next..], |data|).1
        decreases |answers| - next
      {
        if next == |answers| {
          return Pending;
        }
        assert answers[next..][0] == answers[next] && answers[next..][1..] == answers[next + 1..];
        var bytes := device.Write(data, answers[next]);
        next := next + 1;
        if bytes < 0 {
          return Failed;
        }
        assert msg[..done] + data[..bytes] == msg[..done + bytes];
        data := data[bytes..];
        done := done + bytes;
      }
      r := Sent;
    }
  }
}
