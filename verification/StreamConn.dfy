/** One star stream as a connection (protocol/star/adapter.go, StreamConn). */
module StreamConn {
  import opened Bytes
  import opened StarFrame

  const FEED_CAP := 32
  const WRITE_CHUNK := 0x1_0000

  /** adapter.go feedItem: what the read loop hands to a stream. */
  datatype Item = Data(data: seq<byte>) | Half | Full
  {
    predicate IsClose() { !Data? }
  }

  datatype CloseReason = NetErrClosed | SessionEOF
  datatype Closed = Open | ClosedBy(reason: CloseReason)

  /** The read side of a stream. */
  datatype RecvState = RecvState(feed: seq<Item>, pending: seq<byte>, readEOF: bool, closed: Closed)
  {
    /** markClosed: only the first reason sticks. */
    function Mark(reason: CloseReason): RecvState {
      if closed.Open? then this.(closed := ClosedBy(reason)) else this
    }
  }

  /** Only the first reason for closing sticks, and marking changes nothing else. */
  lemma FirstReasonSticks(r: RecvState, a: CloseReason, b: CloseReason)
    ensures r.Mark(a).Mark(b) == r.Mark(a)
    ensures r.Mark(a) == r.(closed := if r.closed.Open? then ClosedBy(a) else r.closed)
  {
  }

  const FRESH_RECV := RecvState([], [], false, Open)

  datatype ReadOutcome = Got(data: seq<byte>) | EOF | Failed(reason: CloseReason) | Blocked | Again

  /** One turn of the loop in Read with an n-byte buffer. */
  function ReadTurn(r: RecvState, n: nat): (RecvState, ReadOutcome) {
    if r.readEOF then (r, EOF)
    else if r.pending != [] then
      var k := Min(n, |r.pending|);
      (r.(pending := r.pending[k..]), Got(r.pending[..k]))
    else if r.feed != [] then
      var r' := r.(feed := r.feed[1..]);
      match r.feed[0]
      case Data(d) =>
        var k := Min(n, |d|);
        if d == [] then (r', Again) else (r'.(pending := d[k..]), Got(d[..k]))
      case _ => (r'.(readEOF := true), EOF)
    else if r.closed.ClosedBy? then (r, Failed(r.closed.reason))
    else (r, Blocked)
  }

  /** A whole call of Read. */
  function ReadCall(r: RecvState, n: nat): (RecvState, ReadOutcome)
    decreases |r.feed|
  {
    var (r', out) := ReadTurn(r, n);
    if out.Again? then ReadCall(r', n) else (r', out)
  }

  /** An n-byte buffer gets as much of what is available as it can hold; the rest stays pending. */
  predicate Fills(available: seq<byte>, n: nat, out: ReadOutcome, rest: seq<byte>) {
    out.Got? && |out.data| == Min(n, |available|) && out.data + rest == available
  }

  /** What one Read(n) may do, without saying how: nothing after end of file; else the pending rest; else
      the first queued item that is not an empty frame, those before it being skipped. */
  ghost predicate ReadRight(r: RecvState, n: nat, r': RecvState, out: ReadOutcome) {
    if r.readEOF then out.EOF? && r' == r
    else if r.pending != [] then Fills(r.pending, n, out, r'.pending) && r' == r.(pending := r'.pending)
    else
      exists k :: 0 <= k <= |r.feed| && Reaches(r, n, r', out, k)
  }

  /** The k queued items in front are empty frames, and the next one decides. */
  predicate Reaches(r: RecvState, n: nat, r': RecvState, out: ReadOutcome, k: nat)
    requires k <= |r.feed|
  {
    && (forall i :: 0 <= i < k ==> r.feed[i] == Data([]))
    && if k == |r.feed| then
         r' == r.(feed := []) && out == if r.closed.ClosedBy? then Failed(r.closed.reason) else Blocked
       else
         && r' == r.(feed := r.feed[k + 1..], pending := r'.pending, readEOF := r.feed[k].IsClose())
         && match r.feed[k]
            case Data(d) => d != [] && Fills(d, n, out, r'.pending)
            case _ => out.EOF? && r'.pending == []
  }

  /** Read never gives more than the buffer holds, and loses and repeats nothing. */
  lemma {:induction false} ReadKeepsToBuffer(r: RecvState, n: nat)
    ensures ReadRight(r, n, ReadCall(r, n).0, ReadCall(r, n).1)
    decreases |r.feed|
  {
    var (r', out) := ReadTurn(r, n);
    var (t, end) := ReadCall(r, n);
    if !r.readEOF && r.pending == [] {
      if r.feed == [] {
        assert Reaches(r, n, t, end, 0);
      } else if out.Again? {
        ReadKeepsToBuffer(r', n);
        var k :| 0 <= k <= |r'.feed| && Reaches(r', n, t, end, k);
        assert forall i :: 1 <= i <= |r'.feed| ==> r.feed[i] == r'.feed[i - 1];
        assert r'.feed[k..] == r.feed[k + 1..];
        assert k < |r'.feed| ==> r'.feed[k + 1..] == r.feed[k + 2..];
        assert Reaches(r, n, t, end, k + 1);
      } else {
        assert Reaches(r, n, t, end, 0);
      }
    }
  }

  /** A closed stream never keeps its reader waiting; what was queued before is still returned. */
  lemma {:induction false} ClosedNeverBlocks(r: RecvState, n: nat)
    requires r.closed.ClosedBy?
    ensures !ReadCall(r, n).1.Blocked?
    decreases |r.feed|
  {
    var (r', out) := ReadTurn(r, n);
    if out.Again? { ClosedNeverBlocks(r', n); }
  }

  lemma BufferBound(r: RecvState, n: nat)
    ensures var out := ReadCall(r, n).1; out.Got? ==> |out.data| <= n
  {
    ReadKeepsToBuffer(r, n);
  }

  /** The data frames one Write(p) sends. */
  function Chunks(id: uint32, p: seq<byte>): (ms: seq<Message>)
    ensures AllSendable(ms)
    decreases |p|
  {
    if p == [] then []
    else
      var k := Min(WRITE_CHUNK, |p|);
      [Message(MSG_DATA, 0, id, p[..k])] + Chunks(id, p[k..])
  }

  function Payloads(ms: seq<Message>): seq<byte> {
    if ms == [] then [] else ms[0].payload + Payloads(ms[1..])
  }

  /** Chunking loses nothing, sends no empty frame and respects the frame limit. */
  lemma {:induction false} ChunksCarryTheArgument(id: uint32, p: seq<byte>)
    ensures Payloads(Chunks(id, p)) == p
    ensures forall m <- Chunks(id, p) ::
              m.typ == 0x10 && m.streamID == id && 1 <= |m.payload| <= 0x1_0000
    ensures forall i :: 0 <= i < |Chunks(id, p)| - 1 ==> |Chunks(id, p)[i].payload| == 0x1_0000
    decreases |p|
  {
    if p != [] {
      var k := Min(WRITE_CHUNK, |p|);
      ChunksCarryTheArgument(id, p[k..]);
      assert p == p[..k] + p[k..];
      assert Chunks(id, p)[1..] == Chunks(id, p[k..]);
    }
  }

  lemma {:induction false} ChunksSplit(id: uint32, p: seq<byte>, off: nat)
    requires off <= |p| && off % WRITE_CHUNK == 0
    ensures Chunks(id, p) == Chunks(id, p[..off]) + Chunks(id, p[off..])
    decreases |p|
  {
    if off == 0 {
      assert p[..0] == [] && p[0..] == p;
    } else {
      var k := WRITE_CHUNK;
      ChunksSplit(id, p[k..], off - k);
      assert p[..off][..k] == p[..k];
      assert p[..off][k..] == p[k..][..off - k];
      assert p[k..][off - k..] == p[off..];
    }
  }

  /** The bytes one Write(p) puts on the shared connection. */
  function Sent(id: uint32, p: seq<byte>): seq<byte> {
    EncodeAll(Chunks(id, p))
  }

  lemma NothingSent(id: uint32)
    ensures Sent(id, []) == []
  {
  }

  /** One turn of the loop in Write extends the frames sent so far by one. */
  lemma NextChunk(id: uint32, p: seq<byte>, off: nat)
    requires off < |p| && off % WRITE_CHUNK == 0
    ensures var end := Min(off + WRITE_CHUNK, |p|);
            Sent(id, p[..end]) ==
            Sent(id, p[..off]) + Encode(Message(MSG_DATA, 0, id, p[off..end]))
  {
    var end := Min(off + WRITE_CHUNK, |p|);
    var m := Message(MSG_DATA, 0, id, p[off..end]);
    ChunksSplit(id, p[..end], off);
    assert p[..end][..off] == p[..off] && p[..end][off..] == p[off..end];
    assert Chunks(id, p[off..end]) == [m] by {
      assert p[off..end][|p[off..end]|..] == [];
      assert p[off..end][..|p[off..end]|] == p[off..end];
    }
    EncodeAllSnoc(Chunks(id, p[..off]), m);
  }

  /** The loop of Write: one frame per chunk of at most WRITE_CHUNK bytes. */
  method SendChunks(sess: Session, id: uint32, p: seq<byte>)
    modifies sess.conn
    ensures sess.conn.written == old(sess.conn.written) + Sent(id, p)
  {
    hide Encode, Sent, Frames, Torn;
    ghost var before := sess.conn.written;
    NothingSent(id);
    assert p[..0] == [];
    var off := 0;
    while off < |p|
      invariant 0 <= off <= |p| && (off == |p| || off % WRITE_CHUNK == 0)
      invariant sess.conn.written == before + Sent(id, p[..off])
    {
      var end := Min(off + WRITE_CHUNK, |p|);
      NextChunk(id, p, off);
      var _ := sess.Send(Message(MSG_DATA, 0, id, p[off..end]));
      off := end;
    }
    assert p[..|p|] == p;
  }

  datatype WriteOutcome = Wrote(n: nat) | ErrClosed

  class Conn {
    const sess: Session
    const connID: uint32
    var feed: seq<Item>
    var closed: Closed
    var readEOF: bool
    var writeHalf: bool
    var pending: seq<byte>

    constructor (sess: Session, connID: uint32)
      ensures this.sess == sess && this.connID == connID
      ensures Recv() == FRESH_RECV && !writeHalf
    {
      this.sess, this.connID := sess, connID;
      feed, pending, readEOF, writeHalf, closed := [], [], false, false, Open;
    }

    function Recv(): RecvState
      reads this
    {
      RecvState(feed, pending, readEOF, closed)
    }

    /** Read, with Blocked for the case in which the caller would wait. */
    method Read(n: nat) returns (out: ReadOutcome)
      modifies this`feed, this`pending, this`readEOF
      ensures (Recv(), out) == ReadCall(old(Recv()), n)
      ensures ReadRight(old(Recv()), n, Recv(), out)
      ensures out.Got? ==> |out.data| <= n
    {
      ReadKeepsToBuffer(Recv(), n);
      hide ReadRight;
      BufferBound(Recv(), n);
      while true
        invariant ReadCall(Recv(), n) == ReadCall(old(Recv()), n)
        invariant closed == old(closed)
        decreases |feed|
      {
        if readEOF {
          return EOF;
        }
        if |pending| > 0 {
          var k := Min(n, |pending|);
          out := Got(pending[..k]);
          pending := pending[k..];
          return;
        }
        if feed == [] {
          return if closed.ClosedBy? then Failed(closed.reason) else Blocked;
        }
        var item := feed[0];
        feed := feed[1..];
        if item.IsClose() {
          readEOF := true;
          return EOF;
        }
        if item.data != [] {
          var k := Min(n, |item.data|);
          pending := item.data[k..];
          return Got(item.data[..k]);
        }
      }
    }

    /** Write: the argument leaves as one data frame per chunk, in order. */
    method Write(p: seq<byte>) returns (r: WriteOutcome)
      modifies sess.conn
      ensures r == if closed.Open? then Wrote(|p|) else ErrClosed
      ensures sess.conn.written ==
              old(sess.conn.written) + if closed.Open? then Sent(connID, p) else []
    {
      if !closed.Open? {
        return ErrClosed;
      }
      SendChunks(sess, connID, p);
      return Wrote(|p|);
    }

    /** CloseWrite: one half-close frame, however often it is called. */
    method CloseWrite()
      modifies this`writeHalf, sess.conn
      ensures writeHalf
      ensures sess.conn.written ==
              old(sess.conn.written) + if old(writeHalf) then [] else Encode(HalfClose(connID))
    {
      var before := writeHalf;
      writeHalf := true;
      if before {
        return;
      }
      var _ := sess.Send(HalfClose(connID));
    }

    method MarkClosed(reason: CloseReason)
      modifies this`closed
      ensures Recv() == old(Recv()).Mark(reason)
    {
      if closed.Open? {
        closed := ClosedBy(reason);
      }
    }

    method Close()
      modifies this`closed, sess.conn
      ensures Recv() == old(Recv()).Mark(NetErrClosed)
      ensures sess.conn.written == old(sess.conn.written) + Encode(FullClose(connID))
    {
      MarkClosed(NetErrClosed);
      var _ := sess.Send(FullClose(connID));
    }
  }

  lemma {:induction false} EncodeAllSnoc(ms: seq<Message>, m: Message)
    requires AllSendable(ms) && m.Sendable()
    ensures AllSendable(ms + [m])
    ensures EncodeAll(ms + [m]) == EncodeAll(ms) + Encode(m)
  {
    hide Encode;
    if ms == [] {
      assert [m][1..] == [];
      assert Encode(m) + [] == Encode(m);
    } else {
      EncodeAllSnoc(ms[1..], m);
      assert (ms + [m])[1..] == ms[1..] + [m];
    }
  }
}
