/** The star wire format and the session that exchanges frames
    (protocol/star/message.go, protocol/star/session.go). */
module StarFrame {
  import opened Bytes

  const PROTOCOL_VERSION: byte := 1
  const HEADER_SIZE := 12
  const MAX_PAYLOAD := 0x10_0000
  const FLAG_HALF_CLOSE: byte := 1

  const MSG_DATA: byte := 0x10
  const MSG_STREAM_CLOSE: byte := 0x11

  datatype Message = Message(typ: byte, flags: byte, streamID: uint32, payload: seq<byte>)
  {
    predicate Sendable() {
      |payload| <= MAX_PAYLOAD
    }

    /** flags & 1 is the low-order bit of flags. */
    predicate IsHalfClose() {
      typ == MSG_STREAM_CLOSE && flags % 2 == FLAG_HALF_CLOSE
    }
  }

  function HalfClose(id: uint32): Message {
    Message(MSG_STREAM_CLOSE, FLAG_HALF_CLOSE, id, [])
  }

  function FullClose(id: uint32): Message {
    Message(MSG_STREAM_CLOSE, 0, id, [])
  }

  datatype DecodeResult =
    | Decoded(msg: Message, rest: seq<byte>)
    | Truncated
    | BadVersion(version: byte)
    | TooLarge(length: nat)

  /** A stream close is a half close exactly when the lowest flag bit is set, whatever the others are;
      a frame of another type never is. */
  lemma HalfCloseBit(m: Message)
    ensures m.IsHalfClose() <==> m.typ == 0x11 && Bit(m.flags, 0) == 1
    ensures forall id: uint32 :: HalfClose(id).IsHalfClose() && !FullClose(id).IsHalfClose()
  {
  }

  // ---------- one frame ----------

  function Encode(m: Message): (b: seq<byte>)
    requires m.Sendable()
    ensures |b| == HEADER_SIZE + |m.payload|
  {
    [PROTOCOL_VERSION, m.typ, m.flags, 0] + BigEndian(m.streamID, 4) + BigEndian(|m.payload|, 4) + m.payload
  }

  function Decode(b: seq<byte>): (r: DecodeResult)
    ensures r.Decoded? ==> r.msg.Sendable() && |r.rest| + HEADER_SIZE + |r.msg.payload| == |b|
  {
    if |b| < HEADER_SIZE then Truncated
    else if b[0] != PROTOCOL_VERSION then BadVersion(b[0])
    else
      Widths();
      var n := FromBigEndian(b[8..12]);
      if n > MAX_PAYLOAD then TooLarge(n)
      else if |b| < HEADER_SIZE + n then Truncated
      else
        Decoded(Message(b[1], b[2], FromBigEndian(b[4..8]), b[HEADER_SIZE..HEADER_SIZE + n]), b[HEADER_SIZE + n..])
  }

  /** The header is twelve bytes: version 1, type, flags, a reserved byte, number and length. */
  lemma EncodeLayout(m: Message, tail: seq<byte>)
    requires m.Sendable()
    ensures var b := Encode(m) + tail;
            |b| == 12 + |m.payload| + |tail|
            && b[0] == 1 && b[1] == m.typ && b[2] == m.flags && b[3] == 0
            && b[4..8] == BigEndian(m.streamID, 4)
            && b[8..12] == BigEndian(|m.payload|, 4)
            && FromBigEndian(b[4..8]) == m.streamID && FromBigEndian(b[8..12]) == |m.payload|
            && b[12..] == m.payload + tail
  {
    Widths();
    BigEndianInverse(m.streamID, 4);
    BigEndianInverse(|m.payload|, 4);
    FourFields([PROTOCOL_VERSION, m.typ, m.flags, 0], BigEndian(m.streamID, 4), BigEndian(|m.payload|, 4), m.payload, tail);
    hide BigEndian, FromBigEndian;
    var b := Encode(m) + tail;
    assert b[..4][0] == b[0] && b[..4][1] == b[1] && b[..4][2] == b[2] && b[..4][3] == b[3];
  }

  lemma FourFields(a: seq<byte>, b: seq<byte>, c: seq<byte>, d: seq<byte>, tail: seq<byte>)
    requires |a| == |b| == |c| == 4
    ensures var s := a + b + c + d + tail;
            s[..4] == a && s[4..8] == b && s[8..12] == c && s[12..] == d + tail
  {
  }

  lemma EncodeParts(m: Message, b: seq<byte>)
    requires m.Sendable() && |b| == HEADER_SIZE + |m.payload|
    requires b[..4] == [PROTOCOL_VERSION, m.typ, m.flags, 0]
    requires b[4..8] == BigEndian(m.streamID, 4) && b[8..12] == BigEndian(|m.payload|, 4)
    requires b[12..] == m.payload
    ensures b == Encode(m)
  {
    assert b == b[..4] + b[4..8] + b[8..12] + b[12..];
  }

  /** Reading back a written frame yields the message and leaves exactly the tail. */
  lemma DecodeEncode(m: Message, tail: seq<byte>)
    requires m.Sendable()
    ensures Decode(Encode(m) + tail) == Decoded(m, tail)
  {
    EncodeLayout(m, tail);
    var b := Encode(m) + tail;
    var n := |m.payload|;
    assert b[12..12 + n] == b[12..][..n] == m.payload;
    assert b[12 + n..] == b[12..][n..] == tail;
  }

  /** Why an input yields no message: too few bytes for the header or for the payload it announces, a
      version other than 1, or a payload of more than 1 MiB announced; the version is looked at first. */
  lemma RefusedExactly(b: seq<byte>)
    ensures Decode(b).BadVersion? <==> 12 <= |b| && b[0] != 1
    ensures Decode(b).BadVersion? ==> Decode(b).version == b[0]
    ensures Decode(b).TooLarge? <==> 12 <= |b| && b[0] == 1 && 1048576 < FromBigEndian(b[8..12])
    ensures Decode(b).TooLarge? ==> Decode(b).length == FromBigEndian(b[8..12])
    ensures Decode(b).Truncated? <==> |b| < 12 || (b[0] == 1 && FromBigEndian(b[8..12]) <= 1048576 && |b| < 12 + FromBigEndian(b[8..12]))
  {
    hide FromBigEndian;
  }

  /** Every strict prefix of a frame fails without yielding a message. */
  lemma StrictPrefixTruncated(m: Message, k: nat)
    requires m.Sendable() && k < |Encode(m)|
    ensures Decode(Encode(m)[..k]) == Truncated
  {
    var b := Encode(m);
    EncodeLayout(m, []);
    assert b + [] == b;
    if HEADER_SIZE <= k {
      assert b[..k][8..12] == b[8..12];
    }
  }

  /** Decoding then re-encoding only zeroes the second reserved byte. */
  lemma Reencode(b: seq<byte>)
    requires Decode(b).Decoded?
    ensures Encode(Decode(b).msg) + Decode(b).rest == b[3 := 0]
  {
    Widths();
    var r := Decode(b);
    FromBigEndianInverse(b[4..8]);
    FromBigEndianInverse(b[8..12]);
    var e := Encode(r.msg);
    assert e[4..8] == b[4..8];
    assert e[8..12] == b[8..12];
    assert forall i :: 4 <= i < 8 ==> e[i] == e[4..8][i - 4] && b[i] == b[4..8][i - 4];
    assert forall i :: 8 <= i < 12 ==> e[i] == e[8..12][i - 8] && b[i] == b[8..12][i - 8];
    assert e[12..] == r.msg.payload == b[12..|e|];
    assert forall i :: 12 <= i < |e| ==> e[i] == e[12..][i - 12] && b[i] == b[12..|e|][i - 12];
    assert e == b[3 := 0][..|e|];
  }

  /** The accepted inputs are exactly the written frames, up to the second reserved byte. */
  lemma AcceptedExactly(b: seq<byte>, m: Message, rest: seq<byte>)
    requires HEADER_SIZE <= |b|
    ensures Decode(b) == Decoded(m, rest) <==> m.Sendable() && Encode(m) + rest == b[3 := 0]
  {
    if Decode(b) == Decoded(m, rest) {
      Reencode(b);
    }
    if m.Sendable() && Encode(m) + rest == b[3 := 0] {
      DecodeEncode(m, rest);
      ReservedByteIgnored(b);
    }
  }

  lemma ReservedByteIgnored(b: seq<byte>)
    requires HEADER_SIZE <= |b|
    ensures Decode(b[3 := 0]) == Decode(b)
  {
    var c := b[3 := 0];
    assert c[4..8] == b[4..8] && c[8..12] == b[8..12] && c[12..] == b[12..];
    var n := FromBigEndian(b[8..12]);
    if 12 + n <= |b| {
      assert c[12..12 + n] == c[12..][..n] == b[12..][..n] == b[12..12 + n];
      assert c[12 + n..] == c[12..][n..] == b[12..][n..] == b[12 + n..];
    }
  }

  lemma DecodeMore(b: seq<byte>, more: seq<byte>)
    requires Decode(b).Decoded?
    ensures Decode(b + more) == Decoded(Decode(b).msg, Decode(b).rest + more)
  {
    var c := b + more;
    assert c[4..8] == b[4..8] && c[8..12] == b[8..12];
    var n := FromBigEndian(b[8..12]);
    assert c[12..12 + n] == b[12..12 + n];
    assert c[12 + n..] == b[12 + n..] + more;
  }

  // ---------- a stream of frames ----------

  predicate AllSendable(ms: seq<Message>) {
    forall m <- ms :: m.Sendable()
  }

  function EncodeAll(ms: seq<Message>): seq<byte>
    requires AllSendable(ms)
  {
    if ms == [] then [] else Encode(ms[0]) + EncodeAll(ms[1..])
  }

  /** The whole frames at the front of a byte stream. */
  function Frames(b: seq<byte>): (ms: seq<Message>)
    ensures AllSendable(ms)
    decreases |b|
  {
    match Decode(b)
    case Decoded(m, rest) => [m] + Frames(rest)
    case _ => []
  }

  /** What is left of a byte stream once no further frame can be read. */
  function Torn(b: seq<byte>): seq<byte>
    decreases |b|
  {
    match Decode(b)
    case Decoded(_, rest) => Torn(rest)
    case _ => b
  }

  lemma EmptyInput()
    ensures Decode([]) == Truncated
  {
  }

  /** Decoding distributes over a cut at a frame boundary. */
  lemma {:induction false} FramesAppend(b: seq<byte>, more: seq<byte>)
    requires Torn(b) == []
    ensures Frames(b + more) == Frames(b) + Frames(more)
    ensures Torn(b + more) == Torn(more)
    decreases |b|
  {
    hide Decode;
    if b == [] {
      EmptyInput();
      assert b + more == more;
    } else {
      DecodeMore(b, more);
      FramesAppend(Decode(b).rest, more);
    }
  }

  lemma FramesCons(m: Message, rest: seq<byte>)
    requires m.Sendable()
    ensures Frames(Encode(m) + rest) == [m] + Frames(rest)
    ensures Torn(Encode(m) + rest) == Torn(rest)
  {
    DecodeEncode(m, rest);
  }

  lemma FramesOfOne(m: Message)
    requires m.Sendable()
    ensures Frames(Encode(m)) == [m] && Torn(Encode(m)) == []
  {
    FramesCons(m, []);
    assert Encode(m) + [] == Encode(m);
  }

  /** Decoding the concatenation of encoded messages returns the messages, whatever follows. */
  lemma {:induction false} FramesEncodeAll(ms: seq<Message>, tail: seq<byte>)
    requires AllSendable(ms)
    ensures Frames(EncodeAll(ms) + tail) == ms + Frames(tail)
    ensures Torn(EncodeAll(ms) + tail) == Torn(tail)
  {
    hide Decode, Encode;
    if ms == [] {
      assert EncodeAll(ms) + tail == tail;
    } else {
      var rest := EncodeAll(ms[1..]) + tail;
      FramesEncodeAll(ms[1..], tail);
      FramesCons(ms[0], rest);
      assert EncodeAll(ms) + tail == Encode(ms[0]) + rest;
      assert ms + Frames(tail) == [ms[0]] + (ms[1..] + Frames(tail));
    }
  }

  /** Wherever a frame stream is cut, the front decodes to the frames that arrived whole,
      and the torn remainder is shorter than the next frame. */
  lemma {:induction false} CutStream(ms: seq<Message>, k: nat) returns (j: nat)
    requires AllSendable(ms) && k <= |EncodeAll(ms)|
    ensures j <= |ms|
    ensures Frames(EncodeAll(ms)[..k]) == ms[..j]
    ensures |Torn(EncodeAll(ms)[..k])| + |EncodeAll(ms[..j])| == k
    ensures j < |ms| ==> |Torn(EncodeAll(ms)[..k])| < |Encode(ms[j])|
    ensures j == |ms| ==> Torn(EncodeAll(ms)[..k]) == []
  {
    hide Decode, Encode;
    if ms == [] {
      j := 0;
      EmptyInput();
      return;
    }
    var first, b := Encode(ms[0]), EncodeAll(ms);
    if k < |first| {
      j := 0;
      assert b[..k] == first[..k];
      StrictPrefixTruncated(ms[0], k);
    } else {
      var i := CutStream(ms[1..], k - |first|);
      j := i + 1;
      var after := EncodeAll(ms[1..])[..k - |first|];
      assert b[..k] == first + after;
      FramesCons(ms[0], after);
      FrontOfMessages(ms, i);
    }
  }

  lemma FrontOfMessages(ms: seq<Message>, i: nat)
    requires AllSendable(ms) && ms != [] && i <= |ms| - 1
    ensures ms[..i + 1] == [ms[0]] + ms[1..][..i]
    ensures AllSendable(ms[..i + 1]) && AllSendable(ms[1..][..i])
    ensures EncodeAll(ms[..i + 1]) == Encode(ms[0]) + EncodeAll(ms[1..][..i])
  {
    hide Encode;
    assert ms[..i + 1][1..] == ms[1..][..i];
  }

  // ---------- the imperative codec ----------

  datatype Outcome = Ok | PayloadTooLarge

  /** message.go WriteMessage: one buffer, one write. */
  method WriteMessage(w: Sink, m: Message) returns (r: Outcome)
    modifies w
    ensures r == (if m.Sendable() then Ok else PayloadTooLarge)
    ensures w.written == old(w.written) + (if m.Sendable() then Encode(m) else [])
  {
    if |m.payload| > MAX_PAYLOAD {
      return PayloadTooLarge;
    }
    var n := |m.payload|;
    var frame := new byte[HEADER_SIZE + n](_ => 0);
    frame[0], frame[1], frame[2] := PROTOCOL_VERSION, m.typ, m.flags;
    PutUint32(frame, 4, m.streamID);
    PutUint32(frame, 8, n);
    label filled:
    assert frame[4..8] == BigEndian(m.streamID, 4);
    forall i | 0 <= i < n {
      frame[HEADER_SIZE + i] := m.payload[i];
    }
    assert frame[4..8] == old@filled(frame[4..8]) && frame[8..12] == old@filled(frame[8..12]);
    EncodeParts(m, frame[..]);
    w.Write(frame[..]);
    return Ok;
  }

  method PutUint32(frame: array<byte>, at: nat, n: uint32)
    requires at + 4 <= frame.Length
    modifies frame
    ensures frame[at..at + 4] == BigEndian(n, 4)
    ensures forall i :: 0 <= i < frame.Length && !(at <= i < at + 4) ==> frame[i] == old(frame[i])
  {
    var b := BigEndian(n, 4);
    forall i | 0 <= i < 4 {
      frame[at + i] := b[i];
    }
  }

  /** message.go ReadMessage: the header, then the payload it announces. */
  method ReadMessage(r: Source) returns (res: DecodeResult)
    modifies r
    ensures res == Decode(old(r.rest))
    ensures res.Decoded? ==> r.rest == res.rest
    ensures res.Truncated? ==> r.rest == []
    ensures res.BadVersion? || res.TooLarge? ==> r.rest == old(r.rest)[HEADER_SIZE..]
  {
    ghost var input := r.rest;
    var ok, head := r.ReadFull(HEADER_SIZE);
    if !ok {
      return Truncated;
    }
    if head[0] != PROTOCOL_VERSION {
      return BadVersion(head[0]);
    }
    Widths();
    assert head[4..8] == input[4..8] && head[8..12] == input[8..12];
    var length := FromBigEndian(head[8..12]);
    if length > MAX_PAYLOAD {
      return TooLarge(length);
    }
    var payload := [];
    if length > 0 {
      ok, payload := r.ReadFull(length);
      if !ok {
        return Truncated;
      }
    }
    assert payload == input[12..12 + length];
    return Decoded(Message(head[1], head[2], FromBigEndian(head[4..8]), payload), r.rest);
  }

  /** session.go Session: one frame per locked write, frames read one after the other. */
  class Session {
    const conn: Sink
    const reader: Source

    constructor (conn: Sink, reader: Source)
      ensures this.conn == conn && this.reader == reader
    {
      this.conn, this.reader := conn, reader;
    }

    method Send(m: Message) returns (r: Outcome)
      modifies conn
      ensures r == (if m.Sendable() then Ok else PayloadTooLarge)
      ensures conn.written == old(conn.written) + (if m.Sendable() then Encode(m) else [])
      ensures m.Sendable() && Torn(old(conn.written)) == [] ==>
                Frames(conn.written) == Frames(old(conn.written)) + [m] && Torn(conn.written) == []
    {
      r := WriteMessage(conn, m);
      if m.Sendable() && Torn(old(conn.written)) == [] {
        FramesAppend(old(conn.written), Encode(m));
        FramesOfOne(m);
      }
    }

    method Receive() returns (res: DecodeResult)
      modifies reader
      ensures res == Decode(old(reader.rest))
      ensures res.Decoded? ==>
                reader.rest == res.rest && Frames(old(reader.rest)) == [res.msg] + Frames(reader.rest)
      ensures !res.Decoded? ==> Frames(old(reader.rest)) == []
    {
      res := ReadMessage(reader);
    }
  }
}
