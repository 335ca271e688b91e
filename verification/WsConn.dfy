/** A WebSocket connection: reading and writing frames, and assembling messages
    (protocol/ws/ws.go; RFC 6455, sections 5.4 and 5.5). */
module WsConn {
  import opened Bytes
  import opened Ws

  // ---------- message assembly ----------

  datatype ReadError =
    | FrameError(e: DecodeResult)
    | UnexpectedContinuation
    | UnknownOpcode(op: byte)
    | PongFailed

  datatype Result = Message(msg: seq<byte>) | EOF | Failed(e: ReadError)

  /** What ReadMessage returns, the input it leaves, and the control frames it writes. */
  datatype Outcome = Outcome(res: Result, rest: seq<byte>, replies: seq<Frame>)

  function Pong(p: seq<byte>): Frame {
    Frame(true, OP_PONG, p)
  }

  const CLOSE_REPLY := Frame(true, OP_CLOSE, [])

  /** The loop of ReadMessage over the input b.  closed: this end has closed the connection, so
      that writeFrame refuses. */
  function Assemble(b: seq<byte>, assembling: bool, msg: seq<byte>, closed: bool): Outcome
    decreases |b|
  {
    var r := Decode(b);
    if !r.Got? then Outcome(Failed(FrameError(r)), b, [])
    else
      var (fin, op, p) := (r.frame.fin, r.frame.op, r.frame.payload);
      if op == OP_TEXT || op == OP_BINARY then
        if fin then Outcome(Message(p), r.rest, []) else Assemble(r.rest, true, p, closed)
      else if op == OP_CONTINUATION then
        if !assembling then Outcome(Failed(UnexpectedContinuation), r.rest, [])
        else if fin then Outcome(Message(msg + p), r.rest, [])
        else Assemble(r.rest, true, msg + p, closed)
      else if op == OP_PING then
        if closed then Outcome(Failed(PongFailed), r.rest, [])
        else
          var o := Assemble(r.rest, assembling, msg, closed);
          o.(replies := [Pong(p)] + o.replies)
      else if op == OP_PONG then Assemble(r.rest, assembling, msg, closed)
      else if op == OP_CLOSE then Outcome(EOF, r.rest, if closed then [] else [CLOSE_REPLY])
      else Outcome(Failed(UnknownOpcode(op)), r.rest, [])
  }

  lemma AssembledBy(b: seq<byte>, assembling: bool, msg: seq<byte>, closed: bool)
    ensures var r, o := Decode(b), Assemble(b, assembling, msg, closed);
            if !r.Got? then o == Outcome(Failed(FrameError(r)), b, [])
            else
              var f, t := r.frame, r.rest;
              if f.op == OP_TEXT || f.op == OP_BINARY then
                o == if f.fin then Outcome(Message(f.payload), t, []) else Assemble(t, true, f.payload, closed)
              else if f.op == OP_CONTINUATION then
                o == if !assembling then Outcome(Failed(UnexpectedContinuation), t, [])
                     else if f.fin then Outcome(Message(msg + f.payload), t, [])
                     else Assemble(t, true, msg + f.payload, closed)
              else if f.op == OP_PING then
                if closed then o == Outcome(Failed(PongFailed), t, [])
                else
                  var later := Assemble(t, assembling, msg, closed);
                  o == later.(replies := [Pong(f.payload)] + later.replies)
              else if f.op == OP_PONG then o == Assemble(t, assembling, msg, closed)
              else if f.op == OP_CLOSE then o == Outcome(EOF, t, if closed then [] else [CLOSE_REPLY])
              else o == Outcome(Failed(UnknownOpcode(f.op)), t, [])
  {
    hide Decode;
  }

  /** The bytes of frames written one after the other, the k-th of them with the k-th mask. */
  function EncodeFrames(fs: seq<Frame>, masks: nat -> Mask, k: nat): seq<byte> {
    if fs == [] then [] else Encode(fs[0], masks(k)) + EncodeFrames(fs[1..], masks, k + 1)
  }

  lemma {:induction false} EncodeFramesAppend(a: seq<Frame>, b: seq<Frame>, masks: nat -> Mask, k: nat)
    ensures EncodeFrames(a + b, masks, k) == EncodeFrames(a, masks, k) + EncodeFrames(b, masks, k + |a|)
  {
    hide Encode;
    if a == [] {
      assert a + b == b;
    } else {
      EncodeFramesAppend(a[1..], b, masks, k + 1);
      assert a + b == [a[0]] + (a[1..] + b);
      EncodeFramesCons(a[0], a[1..] + b, masks, k);
      EncodeFramesCons(a[0], a[1..], masks, k);
    }
  }

  lemma EncodeFramesCons(f: Frame, fs: seq<Frame>, masks: nat -> Mask, k: nat)
    ensures EncodeFrames([f] + fs, masks, k) == Encode(f, masks(k)) + EncodeFrames(fs, masks, k + 1)
  {
    hide Encode;
    assert ([f] + fs)[1..] == fs;
  }

  lemma NoFrames(masks: nat -> Mask, k: nat)
    ensures EncodeFrames([], masks, k) == []
  {
  }

  lemma EncodeFramesSnoc(fs: seq<Frame>, f: Frame, masks: nat -> Mask, k: nat)
    ensures EncodeFrames(fs + [f], masks, k) == EncodeFrames(fs, masks, k) + Encode(f, masks(k + |fs|))
  {
    hide Encode;
    EncodeFramesAppend(fs, [f], masks, k);
    assert [f] + [] == [f];
    EncodeFramesCons(f, [], masks, k + |fs|);
    assert Encode(f, masks(k + |fs|)) + [] == Encode(f, masks(k + |fs|));
  }

  // ---------- fragmented messages with control frames between the fragments ----------

  datatype Control = Ping(p: seq<byte>) | PongIn(p: seq<byte>)
  {
    function ToFrame(): Frame {
      Frame(true, if Ping? then OP_PING else OP_PONG, p)
    }
  }

  /** The replies owed to control frames: a pong with the same payload for every ping. */
  function Replies(cs: seq<Control>): seq<Frame> {
    if cs == [] then []
    else
      var rest := Replies(cs[1..]);
      if cs[0].Ping? then [Pong(cs[0].p)] + rest else rest
  }

  function ControlFrames(cs: seq<Control>): seq<Frame> {
    if cs == [] then [] else [cs[0].ToFrame()] + ControlFrames(cs[1..])
  }

  /** A message as the sender may cut it up: control frames, a fragment, control frames, a
      fragment, and so on; the first fragment carries the opcode. */
  datatype Piece = Piece(controls: seq<Control>, fragment: seq<byte>)

  function Fragments(op: byte, pieces: seq<Piece>): seq<Frame> {
    if pieces == [] then []
    else
      ControlFrames(pieces[0].controls) + [Frame(|pieces| == 1, op, pieces[0].fragment)]
        + Fragments(OP_CONTINUATION, pieces[1..])
  }

  function AllControls(pieces: seq<Piece>): seq<Control> {
    if pieces == [] then [] else pieces[0].controls + AllControls(pieces[1..])
  }

  function Text(pieces: seq<Piece>): seq<byte> {
    if pieces == [] then [] else pieces[0].fragment + Text(pieces[1..])
  }

  predicate Sized(pieces: seq<Piece>) {
    forall x <- pieces ::
      |x.fragment| <= MAX_MESSAGE && (forall c <- x.controls :: |c.p| <= MAX_MESSAGE)
  }

  lemma {:induction false} SkipControls(cs: seq<Control>, masks: nat -> Mask, k: nat, tail: seq<byte>, assembling: bool, msg: seq<byte>)
    requires forall c <- cs :: |c.p| <= MAX_MESSAGE
    ensures var o := Assemble(tail, assembling, msg, false);
            Assemble(EncodeFrames(ControlFrames(cs), masks, k) + tail, assembling, msg, false) ==
            o.(replies := Replies(cs) + o.replies)
  {
    hide Decode, Encode, Assemble;
    if cs == [] {
      assert EncodeFrames(ControlFrames(cs), masks, k) + tail == tail;
    } else {
      var f, fs := cs[0].ToFrame(), ControlFrames(cs[1..]);
      var after := EncodeFrames(fs, masks, k + 1) + tail;
      SkipControls(cs[1..], masks, k + 1, tail, assembling, msg);
      OneControl(cs[0], masks(k), after, assembling, msg);
      EncodeFramesCons(f, fs, masks, k);
      hide EncodeFrames;
      assert EncodeFrames(ControlFrames(cs), masks, k) + tail == Encode(f, masks(k)) + after;
      ReplyFirst(cs, Assemble(tail, assembling, msg, false).replies);
    }
  }

  lemma ReplyFirst(cs: seq<Control>, more: seq<Frame>)
    requires cs != []
    ensures Replies(cs) + more ==
            if cs[0].Ping? then [Pong(cs[0].p)] + (Replies(cs[1..]) + more) else Replies(cs[1..]) + more
  {
  }

  lemma OneControl(c: Control, mask: Mask, after: seq<byte>, assembling: bool, msg: seq<byte>)
    requires |c.p| <= MAX_MESSAGE
    ensures var o := Assemble(after, assembling, msg, false);
            Assemble(Encode(c.ToFrame(), mask) + after, assembling, msg, false) ==
            if c.Ping? then o.(replies := [Pong(c.p)] + o.replies) else o
  {
    hide Decode, Encode;
    DecodeEncode(c.ToFrame(), mask, after);
  }

  lemma {:induction false} Reassembles(op: byte, pieces: seq<Piece>, masks: nat -> Mask, k: nat, tail: seq<byte>, assembling: bool, msg: seq<byte>)
    requires pieces != [] && Sized(pieces)
    requires if assembling then op == OP_CONTINUATION else op == OP_TEXT || op == OP_BINARY
    ensures Assemble(EncodeFrames(Fragments(op, pieces), masks, k) + tail, assembling, msg, false) ==
            Outcome(Message((if assembling then msg else []) + Text(pieces)), tail, Replies(AllControls(pieces)))
  {
    hide Decode, Encode, Assemble, EncodeFrames;
    var cs, p, more := pieces[0].controls, pieces[0].fragment, pieces[1..];
    assert pieces[0] in pieces;
    var f, j := Frame(|pieces| == 1, op, p), k + |ControlFrames(cs)|;
    var after := EncodeFrames(Fragments(OP_CONTINUATION, more), masks, j + 1) + tail;
    var start := if assembling then msg else [];
    FragmentsFirst(op, pieces, masks, k, tail);
    SkipControls(cs, masks, k, Encode(f, masks(j)) + after, assembling, msg);
    OneFragment(f, masks(j), after, assembling, msg);
    if more == [] {
      NoFrames(masks, j + 1);
      assert after == tail;
      assert AllControls(pieces) == cs && Text(pieces) == p && Replies(cs) + [] == Replies(cs);
    } else {
      SizedRest(pieces);
      Reassembles(OP_CONTINUATION, more, masks, j + 1, tail, true, start + p);
      assert start + p + Text(more) == start + Text(pieces);
      RepliesAppend(cs, AllControls(more));
    }
  }

  lemma SizedRest(pieces: seq<Piece>)
    requires pieces != [] && Sized(pieces)
    ensures Sized(pieces[1..])
  {
  }

  lemma FragmentsFirst(op: byte, pieces: seq<Piece>, masks: nat -> Mask, k: nat, tail: seq<byte>)
    requires pieces != []
    ensures var cs := ControlFrames(pieces[0].controls);
            var j := k + |cs|;
            var f := Frame(|pieces| == 1, op, pieces[0].fragment);
            EncodeFrames(Fragments(op, pieces), masks, k) + tail ==
            EncodeFrames(cs, masks, k)
              + (Encode(f, masks(j)) + (EncodeFrames(Fragments(OP_CONTINUATION, pieces[1..]), masks, j + 1) + tail))
  {
    hide Encode;
    var cs := ControlFrames(pieces[0].controls);
    var f := Frame(|pieces| == 1, op, pieces[0].fragment);
    var rest := Fragments(OP_CONTINUATION, pieces[1..]);
    assert Fragments(op, pieces) == cs + ([f] + rest);
    EncodeFramesAppend(cs, [f] + rest, masks, k);
    EncodeFramesCons(f, rest, masks, k + |cs|);
  }

  lemma OneFragment(f: Frame, mask: Mask, after: seq<byte>, assembling: bool, msg: seq<byte>)
    requires f.Legal()
    requires if assembling then f.op == OP_CONTINUATION else f.op == OP_TEXT || f.op == OP_BINARY
    ensures var text := (if assembling then msg else []) + f.payload;
            Assemble(Encode(f, mask) + after, assembling, msg, false) ==
            if f.fin then Outcome(Message(text), after, []) else Assemble(after, true, text, false)
  {
    hide Decode, Encode;
    DecodeEncode(f, mask, after);
    assert [] + f.payload == f.payload;
  }

  lemma {:induction false} RepliesAppend(a: seq<Control>, b: seq<Control>)
    ensures Replies(a + b) == Replies(a) + Replies(b)
  {
    if a == [] {
      assert a + b == b;
    } else {
      RepliesAppend(a[1..], b);
      assert (a + b)[1..] == a[1..] + b;
    }
  }

  /** Sections 5.4 and 5.5: however a message is cut up, masked and interleaved with pings and
      pongs, ReadMessage returns the whole of it, answers every ping once with its own payload and
      in order, and stops right after the final fragment. */
  lemma ReadMessageReassembles(op: byte, pieces: seq<Piece>, masks: nat -> Mask, tail: seq<byte>)
    requires pieces != [] && Sized(pieces) && (op == OP_TEXT || op == OP_BINARY)
    ensures Assemble(EncodeFrames(Fragments(op, pieces), masks, 0) + tail, false, [], false) ==
            Outcome(Message(Text(pieces)), tail, Replies(AllControls(pieces)))
  {
    Reassembles(op, pieces, masks, 0, tail, false, []);
    assert [] + Text(pieces) == Text(pieces);
  }

  // ---------- any frames one call reads, orderly or not ----------

  predicate IsStart(f: Frame) {
    f.op == OP_TEXT || f.op == OP_BINARY
  }

  predicate IsData(f: Frame) {
    IsStart(f) || f.op == OP_CONTINUATION
  }

  /** What one successful call reads: pings, pongs and data frames up to the first final one, no
      continuation before a text or binary frame; but these may come again at any point. */
  predicate Readable(fs: seq<Frame>, assembling: bool) {
    fs != [] && fs[0].Legal() &&
    if fs[0].op == OP_PING || fs[0].op == OP_PONG then Readable(fs[1..], assembling)
    else
      && (IsStart(fs[0]) || (fs[0].op == OP_CONTINUATION && assembling))
      && (if fs[0].fin then |fs| == 1 else Readable(fs[1..], true))
  }

  function DataBytes(fs: seq<Frame>): seq<byte> {
    if fs == [] then []
    else
      var rest := DataBytes(fs[1..]);
      if IsData(fs[0]) then fs[0].payload + rest else rest
  }

  function Pongs(fs: seq<Frame>): seq<Frame> {
    if fs == [] then []
    else
      var rest := Pongs(fs[1..]);
      if fs[0].op == OP_PING then [Pong(fs[0].payload)] + rest else rest
  }

  /** The payloads of the pings among fs. */
  function PingPayloads(fs: seq<Frame>): seq<seq<byte>> {
    if fs == [] then []
    else
      var rest := PingPayloads(fs[1..]);
      if fs[0].op == 9 then [fs[0].payload] + rest else rest
  }

  /** The replies are one final frame of opcode 10 for every ping, with the ping's own payload, in the
      order of the pings. */
  lemma {:induction false} PongsAnswerPings(fs: seq<Frame>, k: nat)
    ensures |Pongs(fs)| == |PingPayloads(fs)|
    ensures k < |Pongs(fs)| ==> Pongs(fs)[k].fin && Pongs(fs)[k].op == 10 && Pongs(fs)[k].payload == PingPayloads(fs)[k]
  {
    if fs != [] {
      PongsAnswerPings(fs[1..], if fs[0].op == 9 && 0 < k then k - 1 else k);
    }
  }

  /** The place of the last text or binary frame, if any. */
  function LastStart(fs: seq<Frame>): (at: nat)
    ensures at <= |fs|
    ensures forall i :: at < i < |fs| ==> !IsStart(fs[i])
    ensures at < |fs| ==> IsStart(fs[at])
    ensures at == |fs| ==> forall i :: 0 <= i < |fs| ==> !IsStart(fs[i])
  {
    if fs == [] then 0
    else
      var at := LastStart(fs[1..]);
      if at == |fs| - 1 && IsStart(fs[0]) then 0 else at + 1
  }

  lemma OneFrame(f: Frame, mask: Mask, after: seq<byte>, assembling: bool, msg: seq<byte>)
    requires f.Legal()
    requires f.op == OP_PING || f.op == OP_PONG || IsStart(f) || (f.op == OP_CONTINUATION && assembling)
    ensures var text := if IsStart(f) then f.payload else msg + f.payload;
            var o := Assemble(after, assembling, msg, false);
            Assemble(Encode(f, mask) + after, assembling, msg, false) ==
            if f.op == OP_PING then o.(replies := [Pong(f.payload)] + o.replies)
            else if f.op == OP_PONG then o
            else if f.fin then Outcome(Message(text), after, []) else Assemble(after, true, text, false)
  {
    hide Decode, Encode;
    DecodeEncode(f, mask, after);
  }

  /** What a call that has assembled msg so far returns. */
  function Returned(fs: seq<Frame>, msg: seq<byte>): seq<byte> {
    if LastStart(fs) == |fs| then msg + DataBytes(fs) else DataBytes(fs[LastStart(fs)..])
  }

  lemma ReturnedStep(fs: seq<Frame>, msg: seq<byte>)
    requires fs != []
    ensures var f := fs[0];
            Returned(fs, msg) ==
            Returned(fs[1..], if IsStart(f) then f.payload else if IsData(f) then msg + f.payload else msg)
  {
    var f, rest := fs[0], fs[1..];
    var at := LastStart(rest);
    assert msg + (f.payload + DataBytes(rest)) == msg + f.payload + DataBytes(rest);
    if at < |rest| {
      assert fs[at + 1..] == rest[at..];
    } else if IsStart(f) {
      assert fs[0..] == fs;
    }
  }

  lemma {:induction false} ReadsSinceStart(fs: seq<Frame>, masks: nat -> Mask, k: nat, tail: seq<byte>, assembling: bool, msg: seq<byte>)
    requires Readable(fs, assembling)
    ensures Assemble(EncodeFrames(fs, masks, k) + tail, assembling, msg, false) ==
            Outcome(Message(Returned(fs, msg)), tail, Pongs(fs))
  {
    hide Decode, Encode, Assemble, Returned;
    var f, rest := fs[0], fs[1..];
    var after := EncodeFrames(rest, masks, k + 1) + tail;
    assert EncodeFrames(fs, masks, k) + tail == Encode(f, masks(k)) + after;
    OneFrame(f, masks(k), after, assembling, msg);
    ReturnedStep(fs, msg);
    if rest == [] {
      assert after == tail;
      assert forall m :: Returned([], m) == m by { NothingReturned(); }
    } else {
      var text := if IsStart(f) then f.payload else if IsData(f) then msg + f.payload else msg;
      ReadsSinceStart(rest, masks, k + 1, tail, assembling || IsData(f), text);
    }
  }

  lemma NothingReturned()
    ensures forall m :: Returned([], m) == m
  {
    forall m ensures Returned([], m) == m { assert m + [] == m; }
  }

  /** For any such frames ReadMessage returns the data since the last text or binary frame, and has
      answered every ping in order. */
  lemma ReadMessageReturns(fs: seq<Frame>, masks: nat -> Mask, tail: seq<byte>)
    requires Readable(fs, false)
    ensures LastStart(fs) < |fs|
    ensures Assemble(EncodeFrames(fs, masks, 0) + tail, false, [], false) ==
            Outcome(Message(DataBytes(fs[LastStart(fs)..])), tail, Pongs(fs))
  {
    hide Assemble, Encode, EncodeFrames;
    ReadsSinceStart(fs, masks, 0, tail, false, []);
    StartsSomewhere(fs);
  }

  lemma {:induction false} StartsSomewhere(fs: seq<Frame>)
    requires Readable(fs, false)
    ensures LastStart(fs) < |fs|
  {
    if !IsStart(fs[0]) { StartsSomewhere(fs[1..]); }
  }

  // ---------- how else a call ends ----------

  /** Frames that none of them ends the call. */
  predicate Goes(fs: seq<Frame>, assembling: bool) {
    fs != [] ==>
      && fs[0].Legal()
      && if fs[0].op == OP_PING || fs[0].op == OP_PONG then Goes(fs[1..], assembling)
         else (IsStart(fs[0]) || (fs[0].op == OP_CONTINUATION && assembling)) && !fs[0].fin && Goes(fs[1..], true)
  }

  predicate Started(fs: seq<Frame>, assembling: bool) {
    if fs == [] then assembling else Started(fs[1..], assembling || IsData(fs[0]))
  }

  /** After such frames the call goes on with what it has assembled, and the pings are answered. */
  lemma {:induction false} GoesOn(fs: seq<Frame>, masks: nat -> Mask, k: nat, tail: seq<byte>, assembling: bool, msg: seq<byte>)
      returns (more: seq<byte>)
    requires Goes(fs, assembling)
    ensures var o := Assemble(tail, Started(fs, assembling), more, false);
            Assemble(EncodeFrames(fs, masks, k) + tail, assembling, msg, false) == o.(replies := Pongs(fs) + o.replies)
  {
    hide Decode, Encode, Assemble;
    if fs == [] {
      more := msg;
      assert EncodeFrames(fs, masks, k) + tail == tail;
    } else {
      var f, rest := fs[0], fs[1..];
      var after := EncodeFrames(rest, masks, k + 1) + tail;
      assert EncodeFrames(fs, masks, k) + tail == Encode(f, masks(k)) + after;
      hide EncodeFrames;
      OneFrame(f, masks(k), after, assembling, msg);
      var text := if IsStart(f) then f.payload else if IsData(f) then msg + f.payload else msg;
      more := GoesOn(rest, masks, k + 1, tail, assembling || IsData(f), text);
      var o := Assemble(tail, Started(fs, assembling), more, false);
      if f.op == OP_PING {
        assert [Pong(f.payload)] + (Pongs(rest) + o.replies) == [Pong(f.payload)] + Pongs(rest) + o.replies;
      }
    }
  }

  /** Then a close frame is answered by one, and ends the call as end of file; a continuation with no
      message begun and a frame of any other opcode are refused; all pings before have been answered. */
  lemma {:induction false} EndsExactly(fs: seq<Frame>, t: Frame, masks: nat -> Mask, tail: seq<byte>)
    requires Goes(fs, false) && t.Legal()
    ensures var o := Assemble(EncodeFrames(fs, masks, 0) + (Encode(t, masks(|fs|)) + tail), false, [], false);
            && (t.op == 8 ==> o == Outcome(EOF, tail, Pongs(fs) + [Frame(true, 8, [])]))
            && (t.op == 0 && !Started(fs, false) ==> o == Outcome(Failed(UnexpectedContinuation), tail, Pongs(fs)))
            && (t.op !in {0, 1, 2, 8, 9, 10} ==> o == Outcome(Failed(UnknownOpcode(t.op)), tail, Pongs(fs)))
  {
    hide Decode, Encode, EncodeFrames, Pongs;
    var after := Encode(t, masks(|fs|)) + tail;
    var more := GoesOn(fs, masks, 0, after, false, []);
    DecodeEncode(t, masks(|fs|), tail);
    AssembledBy(after, Started(fs, false), more, false);
    hide Assemble, Goes, Started;
    assert Pongs(fs) + [] == Pongs(fs);
  }

  /** Once this end has closed, nothing is answered: a ping fails the call, a close frame just ends it. */
  lemma {:induction false} ClosedAnswersNothing(b: seq<byte>, assembling: bool, msg: seq<byte>)
    ensures Assemble(b, assembling, msg, true).replies == []
    ensures Decode(b).Got? && Decode(b).frame.op == 9 ==> Assemble(b, assembling, msg, true).res == Failed(PongFailed)
    ensures Decode(b).Got? && Decode(b).frame.op == 8 ==> Assemble(b, assembling, msg, true).res == EOF
    decreases |b|
  {
    hide Decode;
    AssembledBy(b, assembling, msg, true);
    var r := Decode(b);
    if r.Got? {
      var p := r.frame.payload;
      ClosedAnswersNothing(r.rest, true, p);
      ClosedAnswersNothing(r.rest, true, msg + p);
      ClosedAnswersNothing(r.rest, assembling, msg);
    }
  }

  lemma {:induction false} DataBytesAppend(a: seq<Frame>, b: seq<Frame>)
    ensures DataBytes(a + b) == DataBytes(a) + DataBytes(b)
  {
    if a == [] {
      assert a + b == b;
    } else {
      DataBytesAppend(a[1..], b);
      assert a + b == [a[0]] + (a[1..] + b);
    }
  }

  lemma {:induction false} NoDataBytes(fs: seq<Frame>)
    ensures DataBytes(fs) == [] <==> forall i :: 0 <= i < |fs| && IsData(fs[i]) ==> fs[i].payload == []
  {
    if fs != [] {
      NoDataBytes(fs[1..]);
      assert forall i :: 1 <= i < |fs| ==> fs[i] == fs[1..][i - 1];
    }
  }

  /** So it is all the data that was sent exactly when every data frame before the last text or
      binary frame was empty: in particular when no text or binary frame starts inside a message. */
  lemma {:induction false} WholeExactly(fs: seq<Frame>, masks: nat -> Mask, tail: seq<byte>)
    requires Readable(fs, false)
    ensures Assemble(EncodeFrames(fs, masks, 0) + tail, false, [], false).res == Message(DataBytes(fs))
            <==> forall i :: 0 <= i < LastStart(fs) && IsData(fs[i]) ==> fs[i].payload == []
  {
    hide Assemble, EncodeFrames;
    ReadMessageReturns(fs, masks, tail);
    var at := LastStart(fs);
    assert fs == fs[..at] + fs[at..];
    DataBytesAppend(fs[..at], fs[at..]);
    NoDataBytes(fs[..at]);
  }

  /** Section 5.4 forbids a new data frame inside a fragmented message; this reader accepts it and
      drops the fragments it had. */
  lemma NewMessageDropsFragments(first: seq<byte>, second: seq<byte>, mask: Mask, tail: seq<byte>)
    requires |first| <= MAX_MESSAGE && |second| <= MAX_MESSAGE
    ensures Assemble(Encode(Frame(false, OP_TEXT, first), mask) + (Encode(Frame(true, OP_BINARY, second), mask) + tail),
                     false, [], false) == Outcome(Message(second), tail, [])
  {
    hide Decode, Encode;
    DecodeEncode(Frame(false, OP_TEXT, first), mask, Encode(Frame(true, OP_BINARY, second), mask) + tail);
    DecodeEncode(Frame(true, OP_BINARY, second), mask, tail);
  }

  // ---------- the connection ----------

  datatype WriteResult = Written | ErrClosed

  class Conn {
    const out: Sink
    const br: Source
    const client: bool
    const keys: nat -> Key      // what the random source will deliver
    var drawn: nat              // how many keys have been drawn
    var closed: bool

    constructor (out: Sink, br: Source, client: bool, keys: nat -> Key)
      ensures this.out == out && this.br == br && this.client == client && this.keys == keys
      ensures !closed && drawn == 0
    {
      this.out, this.br, this.client, this.keys := out, br, client, keys;
      drawn, closed := 0, false;
    }

    /** The mask of the k-th frame this end writes: a client must mask, a server must not. */
    function MaskAt(k: nat): Mask {
      if client then Masked(keys(k)) else NoMask
    }

    method ReadFrame() returns (r: DecodeResult)
      modifies br
      ensures r == Decode(old(br.rest))
      ensures r.Got? ==> br.rest == r.rest
    {
      ghost var input := br.rest;
      var ok, head := br.ReadFull(2);
      if !ok {
        return Incomplete;
      }
      var fin := head[0] >= 128;
      if head[0] % 128 / 16 != 0 {
        return ReservedBits;
      }
      var opcode := head[0] % 16;
      var length;
      ok, length := ReadLength(head[1]);
      if !ok {
        return Incomplete;
      }
      ghost var at := 2 + ExtLen(head[1]);
      assert br.rest == input[at..] && length == LengthOf(input) by {
        assert input[2..][..ExtLen(head[1])] == input[2..at];
      }
      if length > MAX_MESSAGE {
        return TooLarge(length);
      }
      r := ReadBody(fin, opcode, head[1] >= 128, length);
    }

    /** The mask key, if there is one, and the payload. */
    method ReadBody(fin: bool, opcode: byte, masked: bool, length: nat) returns (r: DecodeResult)
      modifies br
      ensures r == BodyOf(old(br.rest), fin, opcode, masked, length)
      ensures r.Got? ==> br.rest == r.rest
    {
      hide ApplyMask;
      if masked && 4 + length <= |br.rest| {
        DropSlice(br.rest, 4, length);
      }
      var ok, mask := ReadMask(masked);
      if !ok {
        return Incomplete;
      }
      var payload;
      ok, payload := br.ReadFull(length);
      if !ok {
        return Incomplete;
      }
      var plain := Unmask(payload, mask);
      return Got(Frame(fin, opcode, plain), mask, br.rest);
    }

    method ReadLength(b1: byte) returns (ok: bool, n: nat)
      modifies br
      ensures ok <==> ExtLen(b1) <= |old(br.rest)|
      ensures ok ==> br.rest == old(br.rest)[ExtLen(b1)..]
      ensures ok ==> n == if ExtLen(b1) == 0 then b1 % 128 else FromBigEndian(old(br.rest)[..ExtLen(b1)])
    {
      ok, n := true, b1 % 128;
      if n == 126 || n == 127 {
        var ext;
        ok, ext := br.ReadFull(if n == 126 then 2 else 8);
        if ok {
          n := FromBigEndian(ext);
        }
      }
    }

    method ReadMask(masked: bool) returns (ok: bool, mask: Mask)
      modifies br
      ensures ok <==> !masked || 4 <= |old(br.rest)|
      ensures ok ==> br.rest == if masked then old(br.rest)[4..] else old(br.rest)
      ensures ok ==> mask == if masked then Masked(old(br.rest)[..4]) else NoMask
    {
      ok, mask := true, NoMask;
      if masked {
        var key;
        ok, key := br.ReadFull(4);
        if ok {
          mask := Masked(key);
        }
      }
    }

    /** The unmasking loop, in place. */
    method Unmask(payload: seq<byte>, mask: Mask) returns (plain: seq<byte>)
      ensures plain == ApplyMask(payload, mask)
    {
      if mask.NoMask? {
        return payload;
      }
      var buf := new byte[|payload|](i requires 0 <= i < |payload| => payload[i]);
      for i := 0 to buf.Length
        invariant forall j :: 0 <= j < i ==> buf[j] == ApplyMask(payload, mask)[j]
        invariant forall j :: i <= j < buf.Length ==> buf[j] == payload[j]
      {
        buf[i] := Xor(buf[i], mask.key[i % 4]);
      }
      return buf[..];
    }

    method Header(fin: bool, op: byte, n: nat) returns (head: seq<byte>)
      requires n <= 0xffff_ffff_ffff_ffff
      ensures head == [FirstByte(fin, op)] + LengthBytes(client, n)
    {
      var bit := if client then 128 else 0;
      head := [FirstByte(fin, op)];
      if n < 126 {
        head := head + [bit + n];
      } else if n <= 0xffff {
        head := head + [bit + 126] + BigEndian(n, 2);
      } else {
        head := head + [bit + 127] + BigEndian(n, 8);
      }
    }

    method WriteFrame(f: Frame) returns (r: WriteResult)
      requires |f.payload| <= 0xffff_ffff_ffff_ffff
      modifies this`drawn, out
      ensures r == if closed then ErrClosed else Written
      ensures out.written == old(out.written) + if closed then [] else Encode(f, MaskAt(old(drawn)))
      ensures drawn == old(drawn) + if closed || !client then 0 else 1
    {
      if closed {
        return ErrClosed;
      }
      hide LengthBytes, ApplyMask, FirstByte;
      var head := Header(f.fin, f.op, |f.payload|);
      var mask := MaskAt(drawn);
      if client {
        head := head + keys(drawn);
        drawn := drawn + 1;
      } else {
        assert head + [] == head;
      }
      var body := Unmask(f.payload, mask);
      out.Write(head + body);
      return Written;
    }

    /** Close: the connection is marked closed before the close frame is attempted, so writeFrame
        refuses it and nothing is sent. */
    method Close()
      modifies this`closed, this`drawn, out
      ensures closed && out.written == old(out.written) && drawn == old(drawn)
    {
      var before := closed;
      closed := true;
      if !before {
        var _ := WriteFrame(CLOSE_REPLY);
      }
      assert out.written + [] == out.written;
    }

    /** ReadMessage: its result, the input it leaves and the frames it writes are those of Assemble. */
    method ReadMessage() returns (r: Result)
      modifies br, out, this`drawn
      ensures var o := Assemble(old(br.rest), false, [], closed);
              && r == o.res
              && out.written == old(out.written) + EncodeFrames(o.replies, MaskAt, old(drawn))
              && (!r.Failed? || !r.e.FrameError? ==> br.rest == o.rest)
    {
      hide Decode, Encode, EncodeFrames, Assemble;
      NoFrames(MaskAt, drawn);
      assert out.written + [] == out.written;
      var assembling, msg := false, [];
      ghost var input, before, k := br.rest, out.written, drawn;
      ghost var sent: seq<Frame> := [];
      while true
        invariant var o := Assemble(br.rest, assembling, msg, closed);
                  Assemble(input, false, [], closed) == o.(replies := sent + o.replies)
        invariant out.written == before + EncodeFrames(sent, MaskAt, k)
        invariant drawn == k + if client then |sent| else 0
        decreases |br.rest|
      {
        assert sent + [] == sent;
        AssembledBy(br.rest, assembling, msg, closed);
        var d := ReadFrame();
        if !d.Got? {
          return Failed(FrameError(d));
        }
        var op, payload := d.frame.op, d.frame.payload;
        if op == OP_TEXT || op == OP_BINARY {
          if d.frame.fin {
            return Message(payload);
          }
          assembling, msg := true, payload;
        } else if op == OP_CONTINUATION {
          if !assembling {
            return Failed(UnexpectedContinuation);
          }
          msg := msg + payload;
          if d.frame.fin {
            return Message(msg);
          }
        } else if op == OP_PING {
          var w := WriteFrame(Pong(payload));
          if w.ErrClosed? {
            return Failed(PongFailed);
          }
          EncodeFramesSnoc(sent, Pong(payload), MaskAt, k);
          sent := sent + [Pong(payload)];
        } else if op == OP_CLOSE {
          EncodeFramesSnoc(sent, CLOSE_REPLY, MaskAt, k);
          var _ := WriteFrame(CLOSE_REPLY);
          return EOF;
        } else if op != OP_PONG {
          return Failed(UnknownOpcode(op));
        }
      }
    }
  }
}
