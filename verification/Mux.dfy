/** Many streams over one framed connection: one direction of a session, from the stream
    writers at one end to the stream readers at the other
    (protocol/star/adapter.go, protocol/star/session.go, protocol/star/message.go). */
module Mux {
  import opened Bytes
  import opened StarFrame
  import opened StreamConn

  /** One stream at the writing end.  calls holds the unsent rest of every Write in progress;
      log, written and serial are histories: the items sent, the arguments of all Writes, and
      whether no two Writes of this stream ever overlapped. */
  datatype Sender = Sender(
    writeHalf: bool, calls: seq<seq<byte>>, log: seq<Item>, written: seq<byte>, serial: bool)

  const FRESH_SENDER := Sender(false, [], [], [], true)

  /** One stream at the reading end.  All but recv are histories: the items taken from the feed, the
      bytes returned by Read, and whether this end has closed or removed the stream; the items handed
      to deliver, the places among them of those that were queued, whether any was dropped, and
      whether one was queued after a dropped one. */
  datatype Receiver = Receiver(
    recv: RecvState, consumed: seq<Item>, read: seq<byte>, local: bool,
    seen: seq<Item>, kept: seq<nat>, dropped: bool, gap: bool)

  const FRESH_RECEIVER := Receiver(FRESH_RECV, [], [], false, [], [], false, false)

  /** The session read loop: between frames, blocked in deliver, or gone. */
  datatype Loop = Idle | Delivering(id: uint32, item: Item) | Done

  datatype State = State(
    snd: map<uint32, Sender>,
    wire: seq<byte>,            // bytes written to the connection and not yet consumed
    broken: bool,               // a write failed part-way; nothing can be sent any more
    hub: set<uint32>,           // StreamHub.conns at the reading end
    rcv: map<uint32, Receiver>,
    loop: Loop)

  const INIT := State(map[], [], false, {}, map[], Idle)

  datatype Action =
    | Register(id: uint32)                 // the reading end's hub learns a fresh stream
    | Attach(id: uint32)                   // the opening handshake ends: the stream is handed to its writers
    | StartWrite(id: uint32, p: seq<byte>)
    | SendChunk(id: uint32, k: nat)        // the k-th Write in progress sends its next chunk
    | SendHalf(id: uint32)                 // CloseWrite
    | SendFull(id: uint32)                 // Close
    | SendOther(m: Message)                // any control frame of the session
    | Break(m: Message, k: nat)            // the connection fails k bytes into a frame
    | Receive                              // the read loop takes one frame and dispatches it
    | Deliver                              // the frame enters the stream's queue
    | Drop                                 // or is dropped because the stream is closed here
    | ReadStep(id: uint32, n: nat)         // one turn of a Read with an n-byte buffer
    | HubRemove(id: uint32)                // StreamHub.Remove, first half
    | LocalClose(id: uint32)               // markClosed(net.ErrClosed)
    | SessionEnd                           // the read loop exits and SessionClosed empties the hub
    | SessionMark(id: uint32)              // SessionClosed marks one stream

  // ---------- dispatch ----------

  predicate IsStreamFrame(m: Message) {
    m.typ == MSG_DATA || m.typ == MSG_STREAM_CLOSE
  }

  function FrameItem(m: Message): Item
    requires IsStreamFrame(m)
  {
    if m.typ == MSG_DATA then Data(m.payload) else if m.IsHalfClose() then Half else Full
  }

  /** What a frame carries for stream id. */
  function ItemsOf(m: Message, id: uint32): seq<Item> {
    if IsStreamFrame(m) && m.streamID == id then [FrameItem(m)] else []
  }

  function Proj(ms: seq<Message>, id: uint32): seq<Item> {
    if ms == [] then [] else ItemsOf(ms[0], id) + Proj(ms[1..], id)
  }

  function Chunk(rest: seq<byte>): nat {
    Min(WRITE_CHUNK, |rest|)
  }

  function DataFrame(id: uint32, d: seq<byte>): Message {
    Message(MSG_DATA, 0, id, d)
  }

  function Noted(rcv: map<uint32, Receiver>, id: uint32, item: Item): map<uint32, Receiver> {
    if id in rcv then rcv[id := rcv[id].(seen := rcv[id].seen + [item])] else rcv
  }

  /** StreamHub.Feed up to the point where deliver may block. */
  function Dispatch(s: State, m: Message): State {
    if IsStreamFrame(m) && m.streamID in s.hub then
      var hub := if m.typ == MSG_STREAM_CLOSE then s.hub - {m.streamID} else s.hub;
      s.(hub := hub, loop := Delivering(m.streamID, FrameItem(m)), rcv := Noted(s.rcv, m.streamID, FrameItem(m)))
    else s
  }

  // ---------- steps ----------

  predicate Enabled(s: State, a: Action) {
    match a
    case Register(id) => id !in s.rcv && !s.loop.Done?
    case Attach(id) => id in s.rcv && id !in s.snd
    case StartWrite(id, p) => id in s.snd
    case SendChunk(id, k) => id in s.snd && k < |s.snd[id].calls| && !s.broken
    case SendHalf(id) => id in s.snd && !s.snd[id].writeHalf && !s.broken
    case SendFull(id) => id in s.snd && !s.broken
    case SendOther(m) => m.Sendable() && !IsStreamFrame(m) && !s.broken
    case Break(m, k) => m.Sendable() && k < |Encode(m)| && !s.broken
    case Receive => s.loop.Idle? && Decode(s.wire).Decoded?
    case Deliver => s.loop.Delivering? && s.loop.id in s.rcv && |s.rcv[s.loop.id].recv.feed| < FEED_CAP
    case Drop => s.loop.Delivering? && s.loop.id in s.rcv && s.rcv[s.loop.id].recv.closed.ClosedBy?
    case ReadStep(id, n) => id in s.rcv
    case HubRemove(id) => id in s.rcv
    case LocalClose(id) => id in s.rcv
    case SessionEnd => s.loop.Idle?
    case SessionMark(id) => s.loop.Done? && id in s.rcv
  }

  function SetRecv(s: State, id: uint32, r: Receiver): State {
    s.(rcv := s.rcv[id := r])
  }

  /** What is left of the Writes in progress after the k-th has sent a chunk. */
  function CallsLeft(calls: seq<seq<byte>>, k: nat): seq<seq<byte>>
    requires k < |calls|
  {
    var rest := calls[k][Chunk(calls[k])..];
    if rest == [] then calls[..k] + calls[k + 1..] else calls[k := rest]
  }

  function Push(s: State, id: uint32, m: Message, item: Item, x: Sender): State
    requires m.Sendable()
  {
    s.(wire := s.wire + Encode(m), snd := s.snd[id := x.(log := x.log + [item])])
  }

  /** The last item handed to deliver is queued. */
  function Queued(r: Receiver, item: Item): Receiver {
    r.(recv := r.recv.(feed := r.recv.feed + [item]),
       kept := r.kept + [if r.seen == [] then 0 else |r.seen| - 1],
       gap := r.gap || r.dropped)
  }

  function ReadBy(r: Receiver, n: nat): Receiver {
    var (recv, out) := ReadTurn(r.recv, n);
    r.(recv := recv,
       consumed := if |recv.feed| < |r.recv.feed| then r.consumed + [r.recv.feed[0]] else r.consumed,
       read := r.read + if out.Got? then out.data else [])
  }

  function Apply(s: State, a: Action): State
    requires Enabled(s, a)
  {
    match a
    case Register(id) => s.(rcv := s.rcv[id := FRESH_RECEIVER], hub := s.hub + {id})
    case Attach(id) => s.(snd := s.snd[id := FRESH_SENDER])
    case StartWrite(id, p) =>
      var x := s.snd[id];
      s.(snd := s.snd[id := x.(calls := if p == [] then x.calls else x.calls + [p],
                               written := x.written + p,
                               serial := x.serial && x.calls == [])])
    case SendChunk(id, k) =>
      var x := s.snd[id];
      var c := Chunk(x.calls[k]);
      var d := x.calls[k][..c];
      Push(s, id, DataFrame(id, d), Data(d), x.(calls := CallsLeft(x.calls, k)))
    case SendHalf(id) => Push(s, id, HalfClose(id), Half, s.snd[id].(writeHalf := true))
    case SendFull(id) => Push(s, id, FullClose(id), Full, s.snd[id])
    case SendOther(m) => s.(wire := s.wire + Encode(m))
    case Break(m, k) => s.(wire := s.wire + Encode(m)[..k], broken := true)
    case Receive => var d := Decode(s.wire); Dispatch(s.(wire := d.rest), d.msg)
    case Deliver =>
      var r := s.rcv[s.loop.id];
      SetRecv(s, s.loop.id, Queued(r, s.loop.item)).(loop := Idle)
    case Drop => SetRecv(s, s.loop.id, s.rcv[s.loop.id].(dropped := true)).(loop := Idle)
    case ReadStep(id, n) => SetRecv(s, id, ReadBy(s.rcv[id], n))
    case HubRemove(id) => SetRecv(s, id, s.rcv[id].(local := true)).(hub := s.hub - {id})
    case LocalClose(id) =>
      SetRecv(s, id, s.rcv[id].(local := true, recv := s.rcv[id].recv.Mark(NetErrClosed)))
    case SessionEnd => s.(loop := Done, hub := {})
    case SessionMark(id) => SetRecv(s, id, s.rcv[id].(recv := s.rcv[id].recv.Mark(SessionEOF)))
  }

  function Step(s: State, a: Action): State {
    if Enabled(s, a) then Apply(s, a) else s
  }

  /** Any schedule at all: an action that is not enabled leaves the state as it is. */
  function Run(actions: seq<Action>): State {
    if actions == [] then INIT else Step(Run(actions[..|actions| - 1]), actions[|actions| - 1])
  }

  // ---------- what the histories mean ----------

  function BytesOf(items: seq<Item>): seq<byte> {
    if items == [] then []
    else (if items[0].Data? then items[0].data else []) + BytesOf(items[1..])
  }

  predicate NoClose(items: seq<Item>) {
    forall i <- items :: !i.IsClose()
  }

  /** The items up to and including the first close, or all of them. */
  function UpToClose(items: seq<Item>): seq<Item> {
    if items == [] then []
    else if items[0].IsClose() then [items[0]]
    else [items[0]] + UpToClose(items[1..])
  }

  /** The writer sent nothing after its first close frame. */
  predicate Silent(x: Sender) {
    UpToClose(x.log) == x.log
  }

  function LogOf(s: State, id: uint32): seq<Item> {
    if id in s.snd then s.snd[id].log else []
  }

  /** The item the read loop is holding for a stream. */
  function Moving(s: State, id: uint32): seq<Item> {
    if s.loop.Delivering? && s.loop.id == id then [s.loop.item] else []
  }

  /** The items still on the connection for a stream. */
  function Ahead(s: State, id: uint32): seq<Item> {
    Proj(Frames(s.wire), id)
  }

  // ---------- the invariant ----------

  /** At most the last item is a close. */
  predicate CloseOnlyLast(items: seq<Item>) {
    forall i :: 0 <= i < |items| - 1 ==> !items[i].IsClose()
  }

  ghost predicate WireInv(s: State) {
    && (if s.broken then Decode(Torn(s.wire)) == Truncated else Torn(s.wire) == [])
    && s.snd.Keys <= s.rcv.Keys
    && s.hub <= s.rcv.Keys
    && (forall id: uint32 :: id !in s.snd ==> Ahead(s, id) == [])
    && (s.loop.Delivering? ==> s.loop.id in s.rcv)
    && (s.loop.Done? ==> s.hub == {})
  }

  predicate SenderInv(x: Sender) {
    && (forall c <- x.calls :: c != [])
    && (x.serial ==>
          && |x.calls| <= 1
          && BytesOf(x.log) + Concat(x.calls) == x.written)
  }

  /** 0, 1, 2 and so on. */
  predicate Straight(places: seq<nat>) {
    forall i :: 0 <= i < |places| ==> places[i] == i
  }

  lemma StraightSnoc(places: seq<nat>, p: nat)
    ensures Straight(places + [p]) <==> Straight(places) && p == |places|
  {
    var more := places + [p];
    assert more[|places|] == p && forall i :: 0 <= i < |places| ==> more[i] == places[i];
  }

  /** The items d are those seen at these places, all of them before n, in order. */
  predicate PlacesOk(seen: seq<Item>, places: seq<nat>, d: seq<Item>, n: nat) {
    && |places| == |d| <= n <= |seen|
    && (forall i :: 0 <= i < |d| ==> i <= places[i] < n && d[i] == seen[places[i]])
    && (forall i, j :: 0 <= i < j < |d| ==> places[i] < places[j])
  }

  /** The items queued are those seen at the places kept; n items are dealt with. */
  predicate KeptOk(r: Receiver, n: nat) {
    var d := r.consumed + r.recv.feed;
    && PlacesOk(r.seen, r.kept, d, n)
    && (r.gap <==> !Straight(r.kept))
    && (r.dropped <==> |d| < n) && (r.gap ==> r.dropped)
  }

  /** What Read has returned against the items it has taken. */
  predicate ReadOk(r: Receiver) {
    && r.read + r.recv.pending == BytesOf(r.consumed)
    && (if r.recv.readEOF then
          r.recv.pending == [] && r.consumed != [] && r.consumed[|r.consumed| - 1].IsClose()
        else NoClose(r.consumed))
  }

  /** One stream's receiver against what its writer logged: the items seen are the first ones of the
      log, and while the stream is in the hub the others are still ahead on the wire. */
  predicate SeenOk(r: Receiver, moving: seq<Item>, ahead: seq<Item>, log: seq<Item>, inHub: bool, done: bool) {
    && |moving| <= 1 && |moving| <= |r.seen| && moving == r.seen[|r.seen| - |moving|..]
    && r.seen <= log
    && CloseOnlyLast(r.seen)
    && (inHub ==> NoClose(r.seen) && r.seen + ahead == log)
    && (r.recv.closed.ClosedBy? ==> r.local || done)
    && (r.dropped ==> r.local)
  }

  predicate StreamOk(r: Receiver, moving: seq<Item>, ahead: seq<Item>, log: seq<Item>, inHub: bool, done: bool) {
    SeenOk(r, moving, ahead, log, inHub, done) && ReadOk(r) && KeptOk(r, |r.seen| - |moving|)
  }

  ghost predicate StreamInv(s: State, id: uint32)
    requires id in s.rcv
  {
    StreamOk(s.rcv[id], Moving(s, id), Ahead(s, id), LogOf(s, id), id in s.hub, s.loop.Done?)
  }

  ghost predicate Inv(s: State) {
    && WireInv(s)
    && (forall id <- s.snd :: SenderInv(s.snd[id]))
    && (forall id <- s.rcv :: StreamInv(s, id))
  }

  // ---------- sequences of items ----------

  lemma {:induction false} ProjAppend(a: seq<Message>, m: Message, id: uint32)
    ensures Proj(a + [m], id) == Proj(a, id) + ItemsOf(m, id)
  {
    if a == [] {
      assert [m][1..] == [];
    } else {
      ProjAppend(a[1..], m, id);
      assert (a + [m])[1..] == a[1..] + [m];
    }
  }

  lemma {:induction false} BytesOfAppend(a: seq<Item>, b: seq<Item>)
    ensures BytesOf(a + b) == BytesOf(a) + BytesOf(b)
  {
    if a == [] {
      assert a + b == b;
    } else {
      BytesOfAppend(a[1..], b);
      assert a + b == [a[0]] + (a[1..] + b);
      assert (a + b)[1..] == a[1..] + b;
    }
  }

  lemma BytesOfSnoc(a: seq<Item>, i: Item)
    ensures BytesOf(a + [i]) == BytesOf(a) + if i.Data? then i.data else []
  {
    BytesOfAppend(a, [i]);
    assert [i][1..] == [];
  }

  lemma BytesOfPrefix(a: seq<Item>, b: seq<Item>)
    requires a <= b
    ensures BytesOf(a) <= BytesOf(b)
  {
    BytesOfAppend(a, b[|a|..]);
    assert b == a + b[|a|..];
  }

  lemma {:induction false} UpToCloseIs(d: seq<Item>, log: seq<Item>)
    requires d <= log && d != [] && CloseOnlyLast(d) && d[|d| - 1].IsClose()
    ensures UpToClose(log) == d
  {
    if |d| > 1 {
      UpToCloseIs(d[1..], log[1..]);
    }
  }

  // ---------- one stream, one step ----------

  lemma OkMoreLog(r: Receiver, moving: seq<Item>, ahead: seq<Item>, log: seq<Item>, inHub: bool, done: bool, x: seq<Item>)
    requires StreamOk(r, moving, ahead, log, inHub, done)
    ensures StreamOk(r, moving, ahead + x, log + x, inHub, done)
  {
    hide ReadOk, KeptOk;
    assert r.seen + ahead + x == r.seen + (ahead + x);
  }

  lemma OkDispatch(r: Receiver, item: Item, ahead: seq<Item>, log: seq<Item>)
    requires StreamOk(r, [], [item] + ahead, log, true, false)
    ensures StreamOk(r.(seen := r.seen + [item]), [item], ahead, log, !item.IsClose(), false)
  {
    var seen := r.seen + [item];
    assert r.seen + ([item] + ahead) == seen + ahead;
    assert seen[|seen| - 1..] == [item];
    assert SeenOk(r.(seen := seen), [item], ahead, log, !item.IsClose(), false);
    assert KeptOk(r.(seen := seen), |seen| - 1);
  }

  lemma OkDeliver(r: Receiver, item: Item, ahead: seq<Item>, log: seq<Item>, inHub: bool, done: bool)
    requires StreamOk(r, [item], ahead, log, inHub, done)
    ensures StreamOk(Queued(r, item), [], ahead, log, inHub, done)
  {
    var r' := Queued(r, item);
    var d := r.consumed + r.recv.feed;
    assert r'.consumed + r'.recv.feed == d + [item];
    assert r.seen[|r.seen| - 1..][0] == item;
    assert KeptOk(r', |r.seen|) by { KeptMore(r, r', item); }
    assert SeenOk(r', [], ahead, log, inHub, done);
  }

  lemma PlacesMore(seen: seq<Item>, places: seq<nat>, d: seq<Item>, n: nat)
    requires PlacesOk(seen, places, d, n) && n < |seen|
    ensures PlacesOk(seen, places + [n], d + [seen[n]], n + 1)
  {
    var p, e := places + [n], d + [seen[n]];
    forall i | 0 <= i < |e| ensures i <= p[i] < n + 1 && e[i] == seen[p[i]] {
      if i < |d| { assert p[i] == places[i] && e[i] == d[i]; }
    }
    forall i, j | 0 <= i < j < |e| ensures p[i] < p[j] {
      assert p[i] == places[i];
      if j < |d| { assert p[j] == places[j]; }
    }
  }

  lemma KeptMore(r: Receiver, r': Receiver, item: Item)
    requires r.seen != [] && r.seen[|r.seen| - 1] == item && KeptOk(r, |r.seen| - 1)
    requires r' == Queued(r, item)
    ensures KeptOk(r', |r.seen|)
  {
    var d, n := r.consumed + r.recv.feed, |r.seen| - 1;
    assert r'.consumed + r'.recv.feed == d + [item];
    StraightSnoc(r.kept, n);
    PlacesMore(r.seen, r.kept, d, n);
    assert |r.kept| == |d|;
    hide Straight, PlacesOk;
  }

  lemma SameRead(r: Receiver, r': Receiver)
    requires ReadOk(r) && r'.recv == r.recv && r'.read == r.read && r'.consumed == r.consumed
    ensures ReadOk(r')
  {
  }

  lemma OkDrop(r: Receiver, item: Item, ahead: seq<Item>, log: seq<Item>, inHub: bool)
    requires StreamOk(r, [item], ahead, log, inHub, false) && r.recv.closed.ClosedBy?
    ensures StreamOk(r.(dropped := true), [], ahead, log, inHub, false)
  {
    hide ReadOk, Straight;
    assert SeenOk(r.(dropped := true), [], ahead, log, inHub, false);
    assert KeptOk(r.(dropped := true), |r.seen|);
    assert ReadOk(r.(dropped := true)) by { SameRead(r, r.(dropped := true)); }
  }

  lemma CutAnywhere(a: seq<byte>, d: seq<byte>, k: nat)
    requires k <= |d|
    ensures a + d[..k] + d[k..] == a + d
  {
  }

  /** A Read that takes an item from the queue. */
  lemma TakesItem(r: Receiver, n: nat)
    requires !r.recv.readEOF && r.recv.pending == [] && r.recv.feed != []
    ensures var r', item := ReadBy(r, n), r.recv.feed[0];
            && r'.consumed == r.consumed + [item] && r'.recv.feed == r.recv.feed[1..]
            && r'.recv.readEOF == item.IsClose()
            && match item
               case Data(d) =>
                 var k := Min(n, |d|);
                 r'.read == r.read + d[..k] && r'.recv.pending == d[k..]
               case _ => r'.read == r.read + [] && r'.recv.pending == []
  {
  }

  lemma ItemRead(r: Receiver, n: nat)
    requires !r.recv.readEOF && r.recv.pending == [] && r.recv.feed != []
    ensures ReadBy(r, n).read + ReadBy(r, n).recv.pending
            == r.read + if r.recv.feed[0].Data? then r.recv.feed[0].data else []
  {
    hide ReadBy;
    TakesItem(r, n);
    if r.recv.feed[0].Data? {
      var d := r.recv.feed[0].data;
      CutAnywhere(r.read, d, Min(n, |d|));
    }
  }

  lemma ReadItem(r: Receiver, n: nat)
    requires ReadOk(r) && !r.recv.readEOF && r.recv.pending == [] && r.recv.feed != []
    ensures ReadOk(ReadBy(r, n)) && ReadBy(r, n).consumed + ReadBy(r, n).recv.feed == r.consumed + r.recv.feed
  {
    hide BytesOf, ReadBy;
    var r', item := ReadBy(r, n), r.recv.feed[0];
    TakesItem(r, n);
    ItemRead(r, n);
    BytesOfSnoc(r.consumed, item);
    assert r.read + [] == r.read;
    assert r.consumed + ([item] + r.recv.feed[1..]) == r.consumed + [item] + r.recv.feed[1..];
  }

  lemma ReadRest(r: Receiver, n: nat)
    requires ReadOk(r) && (r.recv.readEOF || r.recv.pending != [] || r.recv.feed == [])
    ensures ReadOk(ReadBy(r, n)) && ReadBy(r, n).consumed + ReadBy(r, n).recv.feed == r.consumed + r.recv.feed
  {
    hide BytesOf;
    var p, k := r.recv.pending, Min(n, |r.recv.pending|);
    assert r.read + p == r.read + p[..k] + p[k..];
  }

  lemma SameKept(r: Receiver, r': Receiver, n: nat)
    requires KeptOk(r, n) && r'.consumed + r'.recv.feed == r.consumed + r.recv.feed
    requires r'.seen == r.seen && r'.kept == r.kept && r'.gap == r.gap && r'.dropped == r.dropped
    ensures KeptOk(r', n)
  {
  }

  lemma OkRead(r: Receiver, n: nat, moving: seq<Item>, ahead: seq<Item>, log: seq<Item>, inHub: bool, done: bool)
    requires StreamOk(r, moving, ahead, log, inHub, done)
    ensures StreamOk(ReadBy(r, n), moving, ahead, log, inHub, done)
  {
    if !r.recv.readEOF && r.recv.pending == [] && r.recv.feed != [] {
      ReadItem(r, n);
    } else {
      ReadRest(r, n);
    }
    hide ReadOk;
    SameKept(r, ReadBy(r, n), |r.seen| - |moving|);
    hide KeptOk;
  }

  // ---------- every step keeps the invariant ----------

  lemma WireAppend(s: State, m: Message)
    requires Torn(s.wire) == [] && m.Sendable()
    ensures Frames(s.wire + Encode(m)) == Frames(s.wire) + [m]
    ensures Torn(s.wire + Encode(m)) == []
  {
    hide Decode, Encode, Frames, Torn;
    FramesAppend(s.wire, Encode(m));
    FramesOfOne(m);
  }

  lemma {:induction false} PushKeepsInv(s: State, id: uint32, m: Message, item: Item, x: Sender)
    requires Inv(s) && !s.broken && id in s.snd
    requires m.Sendable() && ItemsOf(m, id) == [item]
    requires x.log == s.snd[id].log && SenderInv(x.(log := x.log + [item]))
    ensures Inv(Push(s, id, m, item, x))
  {
    hide Decode, Encode, Frames, Torn, StreamOk, SenderInv;
    var t := Push(s, id, m, item, x);
    WireAppend(s, m);
    forall j: uint32
      ensures Ahead(t, j) == Ahead(s, j) + if j == id then [item] else []
    {
      ProjAppend(Frames(s.wire), m, j);
    }
    forall j <- t.rcv
      ensures StreamInv(t, j)
    {
      assert StreamInv(s, j);
      if j == id {
        OkMoreLog(s.rcv[j], Moving(s, j), Ahead(s, j), LogOf(s, j), j in s.hub, s.loop.Done?, [item]);
      } else {
        assert Ahead(t, j) == Ahead(s, j) && LogOf(t, j) == LogOf(s, j);
      }
    }
  }

  lemma CallsLeftWanting(calls: seq<seq<byte>>, k: nat)
    requires k < |calls| && forall c <- calls :: c != []
    ensures forall c <- CallsLeft(calls, k) :: c != []
  {
    var left := CallsLeft(calls, k);
    var rest := calls[k][Chunk(calls[k])..];
    forall i | 0 <= i < |left|
      ensures left[i] != []
    {
      assert calls[if rest == [] && i >= k then i + 1 else i] in calls;
    }
  }

  lemma OneCallLeft(calls: seq<seq<byte>>, k: nat)
    requires k < |calls| <= 1
    ensures Concat(calls) == calls[k] && Concat(CallsLeft(calls, k)) == calls[k][Chunk(calls[k])..]
    ensures |CallsLeft(calls, k)| <= 1
  {
    var rest := calls[k][Chunk(calls[k])..];
    ConcatSnoc([], calls[0]);
    ConcatSnoc([], rest);
    assert calls == [] + [calls[0]];
    assert CallsLeft(calls, k) == if rest == [] then [] else [] + [rest];
    assert [] + calls[0] == calls[0] && [] + rest == rest;
  }

  lemma ChunkKeepsSender(x: Sender, k: nat)
    requires SenderInv(x) && k < |x.calls|
    ensures SenderInv(x.(calls := CallsLeft(x.calls, k), log := x.log + [Data(x.calls[k][..Chunk(x.calls[k])])]))
  {
    var c := Chunk(x.calls[k]);
    var (d, rest) := (x.calls[k][..c], x.calls[k][c..]);
    CallsLeftWanting(x.calls, k);
    if x.serial {
      OneCallLeft(x.calls, k);
      BytesOfSnoc(x.log, Data(d));
      hide BytesOf, CallsLeft;
      CutAnywhere(BytesOf(x.log), x.calls[k], c);
    }
  }

  lemma {:induction false} SendChunkKeepsInv(s: State, id: uint32, k: nat)
    requires Inv(s) && Enabled(s, SendChunk(id, k))
    ensures Inv(Apply(s, SendChunk(id, k)))
  {
    hide Decode, Encode, Frames, Torn, StreamInv, WireInv, Chunk;
    var x := s.snd[id];
    assert SenderInv(x);
    ChunkKeepsSender(x, k);
    ChunkFits(x.calls[k]);
    var d := x.calls[k][..Chunk(x.calls[k])];
    hide SenderInv, CallsLeft;
    PushKeepsInv(s, id, DataFrame(id, d), Data(d), x.(calls := CallsLeft(x.calls, k)));
  }

  lemma ChunkFits(b: seq<byte>)
    ensures Chunk(b) <= |b| && Chunk(b) <= MAX_PAYLOAD
  {
  }

  lemma {:induction false} SendCloseKeepsInv(s: State, a: Action)
    requires Inv(s) && Enabled(s, a) && (a.SendHalf? || a.SendFull?)
    ensures Inv(Apply(s, a))
  {
    hide Decode, Encode, Frames, Torn, StreamInv, WireInv;
    var x := s.snd[a.id];
    assert SenderInv(x);
    BytesOfSnoc(x.log, Half);
    BytesOfSnoc(x.log, Full);
    if a.SendHalf? {
      PushKeepsInv(s, a.id, HalfClose(a.id), Half, x.(writeHalf := true));
    } else {
      PushKeepsInv(s, a.id, FullClose(a.id), Full, x);
    }
  }

  lemma TornOfTruncated(b: seq<byte>)
    requires Decode(b) == Truncated
    ensures Frames(b) == [] && Torn(b) == b
  {
  }

  lemma {:induction false} OtherBytesKeepInv(s: State, a: Action)
    requires Inv(s) && Enabled(s, a) && (a.SendOther? || a.Break?)
    ensures Inv(Apply(s, a))
  {
    hide Decode, Encode, Frames, Torn, StreamOk, SenderInv;
    var t := Apply(s, a);
    if a.SendOther? {
      WireAppend(s, a.m);
      forall j: uint32
        ensures Ahead(t, j) == Ahead(s, j)
      {
        ProjAppend(Frames(s.wire), a.m, j);
      }
    } else {
      StrictPrefixTruncated(a.m, a.k);
      FramesAppend(s.wire, Encode(a.m)[..a.k]);
      TornOfTruncated(Encode(a.m)[..a.k]);
      assert Frames(t.wire) == Frames(s.wire);
    }
    forall j <- t.rcv
      ensures StreamInv(t, j)
    {
      assert StreamInv(s, j);
    }
  }

  lemma TakeFrame(b: seq<byte>)
    requires Decode(b).Decoded?
    ensures Frames(b) == [Decode(b).msg] + Frames(Decode(b).rest) && Torn(b) == Torn(Decode(b).rest)
    ensures forall j: uint32 ::
              Proj(Frames(b), j) == ItemsOf(Decode(b).msg, j) + Proj(Frames(Decode(b).rest), j)
  {
    forall j: uint32
      ensures Proj(Frames(b), j) == ItemsOf(Decode(b).msg, j) + Proj(Frames(Decode(b).rest), j)
    {
      assert Frames(b)[1..] == Frames(Decode(b).rest);
    }
  }

  /** The next frame as one stream sees it: handed to it, another's, or not for any stream. */
  lemma OkReceived(r: Receiver, m: Message, ahead: seq<Item>, log: seq<Item>, id: uint32, inHub: bool)
    requires StreamOk(r, [], ItemsOf(m, id) + ahead, log, inHub, false)
    ensures if inHub && IsStreamFrame(m) && m.streamID == id then
              StreamOk(r.(seen := r.seen + [FrameItem(m)]), [FrameItem(m)], ahead, log, m.typ != MSG_STREAM_CLOSE, false)
            else StreamOk(r, [], ahead, log, inHub, false)
  {
    if !inHub {
      OkNotInHub(r, [], ItemsOf(m, id) + ahead, ahead, log, false);
    } else if ItemsOf(m, id) == [] {
      assert ItemsOf(m, id) + ahead == ahead;
    } else {
      OkDispatch(r, FrameItem(m), ahead, log);
    }
    hide StreamOk;
  }

  lemma ReceivedByStream(s: State, t: State, m: Message, j: uint32)
    requires s.loop.Idle? && j in s.rcv && StreamInv(s, j)
    requires t == Dispatch(s.(wire := t.wire), m) && j in t.rcv
    requires Ahead(s, j) == ItemsOf(m, j) + Ahead(t, j)
    ensures StreamInv(t, j)
  {
    hide StreamOk, Frames;
    OkReceived(s.rcv[j], m, Ahead(t, j), LogOf(s, j), j, j in s.hub);
  }

  lemma {:induction false} ReceiveKeepsInv(s: State)
    requires Inv(s) && Enabled(s, Receive)
    ensures Inv(Apply(s, Receive))
  {
    hide Decode, Encode, Frames, Torn, StreamInv, SenderInv;
    var t := Apply(s, Receive);
    TakeFrame(s.wire);
    forall j <- t.rcv
      ensures StreamInv(t, j)
    {
      ReceivedByStream(s, t, Decode(s.wire).msg, j);
    }
    forall j: uint32 | j !in t.snd
      ensures Ahead(t, j) == []
    {
      assert Ahead(s, j) == [];
    }
  }

  lemma OkNotInHub(r: Receiver, moving: seq<Item>, ahead: seq<Item>, ahead': seq<Item>, log: seq<Item>, done: bool)
    requires StreamOk(r, moving, ahead, log, false, done)
    ensures StreamOk(r, moving, ahead', log, false, done)
  {
  }

  /** Closing, removing and the end of the session change nothing but these fields. */
  lemma OkAway(r: Receiver, recv: RecvState, local: bool, moving: seq<Item>, ahead: seq<Item>, log: seq<Item>, inHub: bool, done: bool)
    requires StreamOk(r, moving, ahead, log, inHub, done)
    requires recv.(closed := r.recv.closed) == r.recv
    requires r.local ==> local
    requires recv.closed.ClosedBy? ==> local || done
    ensures StreamOk(r.(recv := recv, local := local), moving, ahead, log, inHub, done)
    ensures StreamOk(r.(recv := recv, local := local), moving, ahead, log, false, done)
    ensures StreamOk(r.(recv := recv, local := local), moving, ahead, log, false, true)
  {
    var r' := r.(recv := recv, local := local);
    assert ReadOk(r') && KeptOk(r', |r.seen| - |moving|);
    hide ReadOk, KeptOk;
  }

  lemma DeliverKeepsStream(s: State, t: State, a: Action)
    requires WireInv(s) && Enabled(s, a) && (a.Deliver? || a.Drop?) && StreamInv(s, s.loop.id)
    requires t == Apply(s, a) && s.loop.id in t.rcv
    ensures StreamInv(t, s.loop.id)
  {
    hide Decode, Encode, Frames, Torn, StreamOk, Queued, WireInv;
    var j := s.loop.id;
    assert Ahead(t, j) == Ahead(s, j) && LogOf(t, j) == LogOf(s, j) && Moving(t, j) == [];
    if a.Deliver? {
      OkDeliver(s.rcv[j], s.loop.item, Ahead(s, j), LogOf(s, j), j in s.hub, s.loop.Done?);
    } else {
      OkDrop(s.rcv[j], s.loop.item, Ahead(s, j), LogOf(s, j), j in s.hub);
    }
  }

  lemma {:induction false} DeliverKeepsInv(s: State, a: Action)
    requires Inv(s) && Enabled(s, a) && (a.Deliver? || a.Drop?)
    ensures Inv(Apply(s, a))
  {
    hide Decode, Encode, Frames, Torn, SenderInv, StreamOk, Queued;
    var t := Apply(s, a);
    forall j <- t.rcv
      ensures StreamInv(t, j)
    {
      assert StreamInv(s, j);
      if j == s.loop.id {
        DeliverKeepsStream(s, t, a);
      } else {
        assert Ahead(t, j) == Ahead(s, j);
      }
    }
  }

  lemma AtReaderKeepsStream(s: State, t: State, a: Action, j: uint32)
    requires WireInv(s) && Enabled(s, a) && j in s.rcv && StreamInv(s, j)
    requires a.ReadStep? || a.HubRemove? || a.LocalClose? || a.SessionEnd? || a.SessionMark?
    requires t == Apply(s, a) && j in t.rcv
    ensures StreamInv(t, j)
  {
    hide Decode, Encode, Frames, Torn, StreamOk, ReadBy, Noted;
    var r := s.rcv[j];
    if a.ReadStep? {
      OkRead(r, a.n, Moving(s, j), Ahead(s, j), LogOf(s, j), j in s.hub, s.loop.Done?);
    } else {
      AwayNeeds(r, Moving(s, j), Ahead(s, j), LogOf(s, j), j in s.hub, s.loop.Done?);
      OkAway(r, t.rcv[j].recv, t.rcv[j].local, Moving(s, j), Ahead(s, j), LogOf(s, j), j in s.hub, s.loop.Done?);
    }
  }

  lemma {:induction false} AtReaderKeepsInv(s: State, a: Action)
    requires Inv(s) && Enabled(s, a)
    requires a.ReadStep? || a.HubRemove? || a.LocalClose? || a.SessionEnd? || a.SessionMark?
    ensures Inv(Apply(s, a))
  {
    hide Decode, Encode, Frames, Torn, SenderInv, StreamInv, ReadBy;
    var t := Apply(s, a);
    forall j <- t.rcv
      ensures StreamInv(t, j)
    {
      AtReaderKeepsStream(s, t, a, j);
    }
    forall j: uint32 | j !in t.snd
      ensures Ahead(t, j) == []
    {
      assert Ahead(s, j) == [];
    }
  }

  lemma AwayNeeds(r: Receiver, moving: seq<Item>, ahead: seq<Item>, log: seq<Item>, inHub: bool, done: bool)
    requires StreamOk(r, moving, ahead, log, inHub, done)
    ensures r.recv.closed.ClosedBy? ==> r.local || done
  {
  }

  lemma SameStream(s: State, t: State, j: uint32)
    requires j in s.rcv && j in t.rcv && StreamInv(s, j)
    requires t.rcv[j] == s.rcv[j] && t.wire == s.wire && t.loop == s.loop
    requires LogOf(t, j) == LogOf(s, j) && (j in t.hub <==> j in s.hub)
    ensures StreamInv(t, j)
  {
    hide StreamOk, Frames;
  }

  lemma FreshStream(t: State, j: uint32)
    requires j in t.rcv && t.rcv[j] == FRESH_RECEIVER && j in t.hub && !t.loop.Done?
    requires Ahead(t, j) == [] && LogOf(t, j) == [] && Moving(t, j) == []
    ensures StreamInv(t, j)
  {
    FreshOk();
    hide StreamOk, Frames;
  }

  lemma {:induction false} OpeningKeepsInv(s: State, a: Action)
    requires Inv(s) && Enabled(s, a)
    requires a.Register? || a.Attach? || a.StartWrite?
    ensures Inv(Apply(s, a))
  {
    hide Decode, Encode, Frames, Torn, StreamInv;
    var t := Apply(s, a);
    if a.StartWrite? {
      var x := s.snd[a.id];
      assert SenderInv(x);
      StartKeepsSender(x, a.p);
    }
    forall j <- t.rcv
      ensures StreamInv(t, j)
    {
      assert Ahead(t, j) == Ahead(s, j) && LogOf(t, j) == LogOf(s, j);
      if j in s.rcv { SameStream(s, t, j); } else { FreshStream(t, j); }
    }
    forall j: uint32 | j !in t.snd
      ensures Ahead(t, j) == []
    {
      assert Ahead(s, j) == [];
    }
  }

  lemma StartKeepsSender(x: Sender, p: seq<byte>)
    requires SenderInv(x)
    ensures SenderInv(x.(calls := if p == [] then x.calls else x.calls + [p],
                         written := x.written + p, serial := x.serial && x.calls == []))
  {
    ConcatSnoc(x.calls, p);
  }

  lemma FreshOk()
    ensures StreamOk(FRESH_RECEIVER, [], [], [], true, false)
  {
  }

  lemma {:induction false} StepKeepsInv(s: State, a: Action)
    requires Inv(s)
    ensures Inv(Step(s, a))
  {
    hide Inv, Apply, Enabled;
    if Enabled(s, a) {
      match a
      case SendChunk(id, k) => SendChunkKeepsInv(s, id, k);
      case SendHalf(_) => SendCloseKeepsInv(s, a);
      case SendFull(_) => SendCloseKeepsInv(s, a);
      case SendOther(_) => OtherBytesKeepInv(s, a);
      case Break(_, _) => OtherBytesKeepInv(s, a);
      case Receive => ReceiveKeepsInv(s);
      case Deliver => DeliverKeepsInv(s, a);
      case Drop => DeliverKeepsInv(s, a);
      case Register(_) => OpeningKeepsInv(s, a);
      case Attach(_) => OpeningKeepsInv(s, a);
      case StartWrite(_, _) => OpeningKeepsInv(s, a);
      case _ => AtReaderKeepsInv(s, a);
    }
  }

  lemma {:induction false} RunKeepsInv(actions: seq<Action>)
    ensures Inv(Run(actions))
  {
    hide Step;
    if actions == [] {
      EmptyInput();
      assert Frames([]) == [] && Torn([]) == [];
    } else {
      hide Inv;
      RunKeepsInv(actions[..|actions| - 1]);
      StepKeepsInv(Run(actions[..|actions| - 1]), actions[|actions| - 1]);
    }
  }

  // ---------- results, for every schedule ----------

  /** What Read has returned is a prefix of what the other end wrote, for every stream of which no
      item was queued after a dropped one; so always for one that this end has not closed, and also
      after a local close as long as deliver drops nothing. */
  lemma ReadsArePrefix(actions: seq<Action>, id: uint32)
    requires id in Run(actions).rcv && !Run(actions).rcv[id].gap
    ensures var s := Run(actions);
            && s.rcv[id].read <= BytesOf(LogOf(s, id))
            && (id in s.snd && s.snd[id].serial ==> s.rcv[id].read <= s.snd[id].written)
  {
    hide Decode, Frames, Torn, StreamOk;
    var s := Run(actions);
    RunKeepsInv(actions);
    assert StreamInv(s, id);
    OkPrefix(s.rcv[id], Moving(s, id), Ahead(s, id), LogOf(s, id), id in s.hub, s.loop.Done?);
    if id in s.snd {
      assert SenderInv(s.snd[id]);
    }
  }

  lemma InPlace(r: Receiver, n: nat)
    requires KeptOk(r, n) && !r.gap && n <= |r.seen|
    ensures r.consumed <= r.seen && r.consumed + r.recv.feed <= r.seen
  {
    var d := r.consumed + r.recv.feed;
    assert forall i :: 0 <= i < |d| ==> d[i] == r.seen[i];
    assert d == r.seen[..|d|];
    assert r.consumed == d[..|r.consumed|];
  }

  lemma OkPrefix(r: Receiver, moving: seq<Item>, ahead: seq<Item>, log: seq<Item>, inHub: bool, done: bool)
    requires StreamOk(r, moving, ahead, log, inHub, done) && !r.gap
    ensures r.read <= BytesOf(log)
  {
    InPlace(r, |r.seen| - |moving|);
    assert r.consumed <= log;
    BytesOfPrefix(r.consumed, log);
  }

  /** Only a stream closed here drops anything, and only one that has dropped can have a gap. */
  lemma NoGapBeforeDrop(actions: seq<Action>, id: uint32)
    requires id in Run(actions).rcv
    ensures var r := Run(actions).rcv[id]; (r.gap ==> r.dropped) && (r.dropped ==> r.local)
  {
    hide Run;
    RunKeepsInv(actions);
    assert StreamInv(Run(actions), id);
  }

  /** Item by item, closed or not: what was queued for a stream are the items its writer logged at
      the places kept, these places increase, and they are 0, 1, 2 and so on without a gap exactly
      when no item was queued after a dropped one. */
  lemma {:induction false} OrderExact(actions: seq<Action>, id: uint32)
    requires id in Run(actions).rcv
    ensures var s := Run(actions);
            var r, log := s.rcv[id], LogOf(s, id);
            var d := r.consumed + r.recv.feed;
            && |r.kept| == |d|
            && (forall i :: 0 <= i < |d| ==> r.kept[i] < |log| && d[i] == log[r.kept[i]])
            && (forall i, j :: 0 <= i < j < |d| ==> r.kept[i] < r.kept[j])
            && (Straight(r.kept) <==> !r.gap)
  {
    hide Run, StreamOk, Straight;
    RunKeepsInv(actions);
    var s := Run(actions);
    assert StreamInv(s, id);
    OkOrder(s.rcv[id], Moving(s, id), Ahead(s, id), LogOf(s, id), id in s.hub, s.loop.Done?);
  }

  lemma OkOrder(r: Receiver, moving: seq<Item>, ahead: seq<Item>, log: seq<Item>, inHub: bool, done: bool)
    requires StreamOk(r, moving, ahead, log, inHub, done)
    ensures var d := r.consumed + r.recv.feed;
            && |r.kept| == |d|
            && (forall i :: 0 <= i < |d| ==> r.kept[i] < |log| && d[i] == log[r.kept[i]])
            && (forall i, j :: 0 <= i < j < |d| ==> r.kept[i] < r.kept[j])
            && (Straight(r.kept) <==> !r.gap)
  {
    hide ReadOk, Straight;
    assert forall i :: 0 <= i < |r.seen| ==> r.seen[i] == log[i];
  }

  /** End of file after a half or full close comes exactly when everything sent before that close
      has been returned; all that was written, if nothing was written after it. */
  lemma {:induction false} EofIsComplete(actions: seq<Action>, id: uint32)
    requires id in Run(actions).rcv && !Run(actions).rcv[id].gap && Run(actions).rcv[id].recv.readEOF
    ensures var s := Run(actions);
            && s.rcv[id].read == BytesOf(UpToClose(LogOf(s, id)))
            && (id in s.snd && s.snd[id].serial && s.snd[id].calls == [] && Silent(s.snd[id])
                ==> s.rcv[id].read == s.snd[id].written)
  {
    hide Decode, Frames, Torn, StreamOk;
    var s := Run(actions);
    RunKeepsInv(actions);
    assert StreamInv(s, id);
    OkEof(s.rcv[id], Moving(s, id), Ahead(s, id), LogOf(s, id), id in s.hub, s.loop.Done?);
    if id in s.snd {
      assert SenderInv(s.snd[id]);
    }
  }

  lemma OkEof(r: Receiver, moving: seq<Item>, ahead: seq<Item>, log: seq<Item>, inHub: bool, done: bool)
    requires StreamOk(r, moving, ahead, log, inHub, done) && !r.gap && r.recv.readEOF
    ensures r.read == BytesOf(UpToClose(log))
  {
    InPlace(r, |r.seen| - |moving|);
    assert r.seen[|r.consumed| - 1].IsClose();
    assert r.consumed == r.seen;
    UpToCloseIs(r.consumed, log);
  }

  /** Nothing is lost on the way: once a stream in the hub that has dropped nothing has nothing
      queued, in hand or on the wire, all bytes sent on it have been read. */
  lemma QuietMeansDelivered(actions: seq<Action>, id: uint32)
    requires var s := Run(actions);
             && id in s.hub && id in s.rcv && !s.rcv[id].dropped
             && s.rcv[id].recv.feed == [] && s.rcv[id].recv.pending == []
             && Moving(s, id) == [] && Ahead(s, id) == []
    ensures var s := Run(actions); s.rcv[id].read == BytesOf(LogOf(s, id))
  {
    hide Run, Moving, Ahead;
    var s := Run(actions);
    RunKeepsInv(actions);
    assert StreamInv(s, id);
    OkQuiet(s.rcv[id], LogOf(s, id), s.loop.Done?);
  }

  lemma OkQuiet(r: Receiver, log: seq<Item>, done: bool)
    requires StreamOk(r, [], [], log, true, done) && !r.dropped && r.recv.feed == [] && r.recv.pending == []
    ensures r.read == BytesOf(log)
  {
    InPlace(r, |r.seen|);
    assert r.consumed + [] == r.consumed == r.seen;
    assert r.seen + [] == r.seen && r.read + [] == r.read;
  }

  /** The read loop never meets a bad version byte or an oversized length, even when the
      connection broke in the middle of a frame. */
  lemma NeverMisframed(actions: seq<Action>)
    ensures Decode(Run(actions).wire).Decoded? || Decode(Run(actions).wire).Truncated?
  {
    RunKeepsInv(actions);
    EmptyInput();
  }

  /** The state reached from s. */
  function After(s: State, actions: seq<Action>): State
    decreases |actions|
  {
    if actions == [] then s else After(Step(s, actions[0]), actions[1..])
  }

  lemma {:induction false} RunAppend(a: seq<Action>, b: seq<Action>)
    ensures Run(a + b) == After(Run(a), b)
    decreases |b|
  {
    hide Step;
    if b == [] {
      assert a + b == a;
    } else {
      assert (a + [b[0]])[..|a|] == a;
      assert a + b == (a + [b[0]]) + b[1..];
      RunAppend(a + [b[0]], b[1..]);
    }
  }

  lemma AfterTwo(s: State, a: Action, b: Action)
    ensures After(s, [a, b]) == Step(Step(s, a), b)
  {
    hide Step;
    assert [a, b][1..] == [b] && [b][1..] == [];
    var t := Step(s, a);
    assert After(t, [b]) == After(Step(t, b), []) == Step(t, b);
  }

  /** One turn of a Read with an n-byte buffer adds at most n bytes to what was read. */
  lemma ReadStepBounded(actions: seq<Action>, id: uint32, n: nat)
    requires id in Run(actions).rcv
    ensures id in Run(actions + [ReadStep(id, n)]).rcv
    ensures var before, after := Run(actions).rcv[id].read, Run(actions + [ReadStep(id, n)]).rcv[id].read;
            before <= after && |after| <= |before| + n
  {
    hide ReadBy;
    assert (actions + [ReadStep(id, n)])[..|actions|] == actions;
    TurnBounded(Run(actions).rcv[id], n);
  }

  lemma TurnBounded(r: Receiver, n: nat)
    ensures r.read <= ReadBy(r, n).read && |ReadBy(r, n).read| <= |r.read| + n
  {
  }

  /** The chunks of a Write in progress are those of Write: the next one is the first of them. */
  lemma ChunkIsFirst(id: uint32, rest: seq<byte>)
    requires rest != []
    ensures Chunks(id, rest)[0] == DataFrame(id, rest[..Chunk(rest)])
  {
  }

  /** Closing a stream here, and the mark that the end of the session leaves on it, let its reader go on:
      nothing queued is lost, and no Read blocks any more. */
  lemma {:induction false} ClosingUnblocks(actions: seq<Action>, id: uint32, a: Action, n: nat)
    requires id in Run(actions).rcv && (a == LocalClose(id) || (a == SessionMark(id) && Run(actions).loop.Done?))
    ensures var s, t := Run(actions), Run(actions + [a]);
            && id in t.rcv && t.rcv[id].recv.feed == s.rcv[id].recv.feed && t.rcv[id].recv.pending == s.rcv[id].recv.pending
            && !ReadCall(t.rcv[id].recv, n).1.Blocked?
  {
    hide ReadCall;
    assert (actions + [a])[..|actions|] == actions;
    var t := Run(actions + [a]);
    ClosedNeverBlocks(t.rcv[id].recv, n);
  }

  lemma AwayStep(s: State, a: Action, id: uint32)
    requires id in s.rcv && id !in s.hub
    ensures var t := Step(s, a); id in t.rcv && id !in t.hub && t.rcv[id].seen == s.rcv[id].seen
  {
    hide Decode, Encode, ReadTurn;
  }

  lemma {:induction false} AwayStays(s: State, more: seq<Action>, id: uint32)
    requires id in s.rcv && id !in s.hub
    ensures var t := After(s, more); id in t.rcv && id !in t.hub && t.rcv[id].seen == s.rcv[id].seen
    decreases |more|
  {
    hide Step;
    if more != [] {
      AwayStep(s, more[0], id);
      AwayStays(Step(s, more[0]), more[1..], id);
    }
  }

  /** Once a stream is removed from the hub no further item is handed to it, whatever still arrives. */
  lemma {:induction false} RemovedGetsNothing(actions: seq<Action>, more: seq<Action>, id: uint32)
    requires id in Run(actions).rcv
    ensures var t := After(Run(actions + [HubRemove(id)]), more);
            id in t.rcv && id !in t.hub && t.rcv[id].seen == Run(actions).rcv[id].seen
  {
    assert (actions + [HubRemove(id)])[..|actions|] == actions;
    hide After;
    AwayStays(Run(actions + [HubRemove(id)]), more, id);
  }

  /** Each receiver's queue and why it was closed. */
  predicate QueueOk(r: Receiver, done: bool) {
    && |r.recv.feed| <= 32
    && (r.recv.closed == ClosedBy(NetErrClosed) ==> r.local)
    && (r.recv.closed == ClosedBy(SessionEOF) ==> done)
  }

  lemma QueueStep(s: State, a: Action, id: uint32)
    requires id in Step(s, a).rcv
    requires id in s.rcv ==> QueueOk(s.rcv[id], s.loop.Done?)
    requires a.Receive? || a.SessionEnd? || a.Deliver? ==> !s.loop.Done?
    ensures QueueOk(Step(s, a).rcv[id], Step(s, a).loop.Done?)
  {
    hide Decode, Encode;
  }

  /** No queue is ever longer than 32 items.  A Read fails with net.ErrClosed only where this end closed
      the stream, and reports the end of the session only after it. */
  lemma {:induction false} QueueBounded(actions: seq<Action>, id: uint32)
    requires id in Run(actions).rcv
    ensures var s := Run(actions);
            && |s.rcv[id].recv.feed| <= 32
            && (s.rcv[id].recv.closed == ClosedBy(NetErrClosed) ==> s.rcv[id].local)
            && (s.rcv[id].recv.closed == ClosedBy(SessionEOF) ==> s.loop.Done?)
  {
    if actions != [] {
      var before, a := actions[..|actions| - 1], actions[|actions| - 1];
      if id in Run(before).rcv { QueueBounded(before, id); }
      if Enabled(Run(before), a) { QueueStep(Run(before), a, id); }
      hide Step;
    }
  }

  lemma EndedStep(s: State, a: Action)
    requires s.loop.Done? && s.hub == {}
    ensures var t := Step(s, a);
            && t.loop.Done? && t.hub == {} && t.rcv.Keys == s.rcv.Keys
            && forall id <- s.rcv :: t.rcv[id].seen == s.rcv[id].seen && t.rcv[id].kept == s.rcv[id].kept
  {
    hide Decode, Encode, ReadTurn;
  }

  lemma {:induction false} EndedStays(s: State, more: seq<Action>)
    requires s.loop.Done? && s.hub == {}
    ensures var t := After(s, more);
            && t.loop.Done? && t.hub == {} && t.rcv.Keys == s.rcv.Keys
            && forall id <- s.rcv :: t.rcv[id].seen == s.rcv[id].seen && t.rcv[id].kept == s.rcv[id].kept
    decreases |more|
  {
    hide Step;
    if more != [] {
      EndedStep(s, more[0]);
      EndedStays(Step(s, more[0]), more[1..]);
    }
  }

  /** After the read loop has ended no stream is registered, nothing is handed to a stream and nothing
      queued, whatever happens later. */
  lemma {:induction false} SessionEndIsFinal(actions: seq<Action>, more: seq<Action>)
    requires Run(actions).loop.Idle?
    ensures var s, t := Run(actions), After(Run(actions + [SessionEnd]), more);
            && t.loop.Done? && t.hub == {} && t.rcv.Keys == s.rcv.Keys
            && forall id <- s.rcv :: t.rcv[id].seen == s.rcv[id].seen && t.rcv[id].kept == s.rcv[id].kept
  {
    assert (actions + [SessionEnd])[..|actions|] == actions;
    hide After;
    EndedStays(Run(actions + [SessionEnd]), more);
  }

  // ---------- everything sent can be read ----------

  /** The steps of the read loop, without drops, and of readers. */
  predicate Relay(a: Action) {
    a.Receive? || a.Deliver? || a.ReadStep?
  }

  predicate AllRelay(actions: seq<Action>) {
    forall a <- actions :: Relay(a)
  }

  lemma {:induction false} AfterAppend(s: State, a: seq<Action>, b: seq<Action>)
    ensures After(s, a + b) == After(After(s, a), b)
    decreases |a|
  {
    hide Step;
    if a == [] {
      assert a + b == b;
    } else {
      assert a + b == [a[0]] + (a[1..] + b);
      AfterAppend(Step(s, a[0]), a[1..], b);
    }
  }

  lemma AfterOne(s: State, a: Action)
    ensures After(s, [a]) == Step(s, a)
  {
    hide Step;
    assert [a][1..] == [];
    assert After(Step(s, a), []) == Step(s, a);
  }

  /** In the hub, or taken out of it by its own close frame. */
  predicate Served(s: State, id: uint32)
    requires id in s.rcv
  {
    id in s.hub || (s.rcv[id].seen != [] && s.rcv[id].seen[|s.rcv[id].seen| - 1].IsClose())
  }

  ghost predicate Going(s: State, id: uint32, log: seq<Item>) {
    && Inv(s) && !s.loop.Done?
    && id in s.rcv && !s.rcv[id].dropped && Served(s, id) && LogOf(s, id) == log
  }

  lemma {:induction false} RelayKeepsGoing(s: State, a: Action, id: uint32, log: seq<Item>)
    requires Going(s, id, log) && Relay(a)
    ensures Going(Step(s, a), id, log)
  {
    StepKeepsInv(s, a);
    hide Inv;
    if Enabled(s, a) {
      if a.Receive? { ReceiveServes(s, id); } else { OthersServe(s, a, id); }
    }
  }

  lemma ReceiveServes(s: State, id: uint32)
    requires Enabled(s, Receive) && id in s.rcv && !s.rcv[id].dropped && Served(s, id)
    ensures var t := Step(s, Receive);
            t.snd == s.snd && !t.loop.Done? && id in t.rcv && !t.rcv[id].dropped && Served(t, id)
  {
    hide Decode;
  }

  lemma OthersServe(s: State, a: Action, id: uint32)
    requires Enabled(s, a) && (a.Deliver? || a.ReadStep?) && id in s.rcv && !s.rcv[id].dropped && Served(s, id) && !s.loop.Done?
    ensures var t := Step(s, a);
            t.snd == s.snd && !t.loop.Done? && id in t.rcv && !t.rcv[id].dropped && Served(t, id)
  {
    hide ReadTurn;
  }

  lemma {:induction false} RelaysKeepGoing(s: State, actions: seq<Action>, id: uint32, log: seq<Item>)
    requires Going(s, id, log) && AllRelay(actions)
    ensures Going(After(s, actions), id, log)
    decreases |actions|
  {
    hide Step, Going;
    if actions != [] {
      RelayKeepsGoing(s, actions[0], id, log);
      RelaysKeepGoing(Step(s, actions[0]), actions[1..], id, log);
    }
  }

  /** How much a reader still has to take. */
  function Left(r: RecvState): nat {
    2 * |r.feed| + if r.pending == [] then 0 else 1
  }

  /** Behind a close that was read there is nothing. */
  lemma EofIsLast(r: Receiver, moving: seq<Item>, ahead: seq<Item>, log: seq<Item>, inHub: bool, done: bool)
    requires StreamOk(r, moving, ahead, log, inHub, done) && r.recv.readEOF
    ensures Left(r.recv) == 0
  {
    var d, k := r.consumed + r.recv.feed, |r.consumed| - 1;
    assert d[k].IsClose() && r.seen[r.kept[k]].IsClose();
    assert r.kept[k] == |r.seen| - 1;
    LastPlace(r.seen, r.kept, d, |r.seen| - |moving|, k);
  }

  lemma LastPlace(seen: seq<Item>, places: seq<nat>, d: seq<Item>, n: nat, k: nat)
    requires PlacesOk(seen, places, d, n) && k < |d| && places[k] == |seen| - 1
    ensures k == |d| - 1
  {
    assert places[|d| - 1] < |seen|;
  }

  /** One read that takes whatever comes next. */
  function NextRead(r: RecvState): nat {
    if r.pending != [] then |r.pending|
    else if r.feed != [] && r.feed[0].Data? then |r.feed[0].data|
    else 0
  }

  lemma ReadsSome(r: Receiver)
    requires !r.recv.readEOF && 0 < Left(r.recv)
    ensures Left(ReadBy(r, NextRead(r.recv)).recv) < Left(r.recv)
  {
    if r.recv.pending == [] { TakesItem(r, NextRead(r.recv)); }
  }

  lemma {:induction false} MoreToRead(s: State, j: uint32)
    requires Inv(s) && j in s.rcv && 0 < Left(s.rcv[j].recv)
    ensures !s.rcv[j].recv.readEOF
  {
    hide WireInv, Decode, StreamOk, Left;
    var r := s.rcv[j];
    assert StreamInv(s, j);
    if r.recv.readEOF { EofIsLast(r, Moving(s, j), Ahead(s, j), LogOf(s, j), j in s.hub, s.loop.Done?); }
  }

  lemma ReadStepIs(s: State, j: uint32, n: nat)
    requires j in s.rcv
    ensures Step(s, ReadStep(j, n)) == SetRecv(s, j, ReadBy(s.rcv[j], n))
  {
    hide ReadBy;
  }

  lemma {:induction false} ReadOnce(s: State, j: uint32) returns (a: Action)
    requires Inv(s) && j in s.rcv && 0 < Left(s.rcv[j].recv)
    ensures a.ReadStep? && j in Step(s, a).rcv && Left(Step(s, a).rcv[j].recv) < Left(s.rcv[j].recv)
    ensures Step(s, a) == s.(rcv := Step(s, a).rcv)
  {
    hide Inv, Left, ReadBy, Step, NextRead;
    MoreToRead(s, j);
    ReadsSome(s.rcv[j]);
    var n := NextRead(s.rcv[j].recv);
    ReadStepIs(s, j, n);
    a := ReadStep(j, n);
  }

  /** A stream's queue can be read empty, which changes nothing else. */
  lemma {:induction false} DrainReader(s: State, j: uint32) returns (actions: seq<Action>)
    requires Inv(s) && j in s.rcv
    ensures AllRelay(actions) && Inv(After(s, actions)) && After(s, actions) == s.(rcv := After(s, actions).rcv)
    ensures j in After(s, actions).rcv && Left(After(s, actions).rcv[j].recv) == 0
    decreases Left(s.rcv[j].recv)
  {
    hide Inv, Step, Left;
    if Left(s.rcv[j].recv) == 0 {
      actions := [];
    } else {
      var a := ReadOnce(s, j);
      StepKeepsInv(s, a);
      var more := DrainReader(Step(s, a), j);
      actions := [a] + more;
      assert actions[1..] == more;
    }
  }

  lemma LoopSteps(s: State)
    requires Inv(s) && s.loop.Delivering?
    ensures s.loop.id in s.rcv
  {
    hide Decode, StreamInv;
  }

  lemma DeliverStep(s: State)
    requires s.loop.Delivering? && s.loop.id in s.rcv && Left(s.rcv[s.loop.id].recv) == 0
    ensures Step(s, Deliver) == s.(rcv := Step(s, Deliver).rcv, loop := Idle)
  {
  }

  lemma ReceiveStep(s: State)
    requires s.loop.Idle? && Decode(s.wire).Decoded?
    ensures |Step(s, Receive).wire| < |s.wire| && !Step(s, Receive).loop.Done?
  {
  }

  /** Everything that has arrived whole can be delivered, whatever queues are full. */
  lemma {:induction false} Forward(s: State) returns (actions: seq<Action>)
    requires Inv(s) && !s.loop.Done?
    ensures AllRelay(actions)
    ensures After(s, actions).loop.Idle? && !Decode(After(s, actions).wire).Decoded?
    decreases |s.wire|, s.loop.Delivering?
  {
    hide Inv, Step, Decode, Left;
    var first: seq<Action> := [];
    if s.loop.Delivering? {
      LoopSteps(s);
      first := DrainReader(s, s.loop.id);
      DeliverStep(After(s, first));
      var t := Step(After(s, first), Deliver);
      StepKeepsInv(After(s, first), Deliver);
      var more := Forward(t);
      assert ([Deliver] + more)[1..] == more;
      AfterAppend(s, first, [Deliver] + more);
      actions := first + ([Deliver] + more);
    } else if Decode(s.wire).Decoded? {
      ReceiveStep(s);
      StepKeepsInv(s, Receive);
      var more := Forward(Step(s, Receive));
      actions := [Receive] + more;
      assert actions[1..] == more;
    } else {
      actions := [];
    }
  }

  lemma {:induction false} NoCloseUpTo(log: seq<Item>)
    requires NoClose(log)
    ensures UpToClose(log) == log
  {
    if log != [] {
      assert log[0] in log && forall i <- log[1..] :: i in log;
      NoCloseUpTo(log[1..]);
    }
  }

  lemma OkAllRead(r: Receiver, log: seq<Item>, inHub: bool, done: bool)
    requires StreamOk(r, [], [], log, inHub, done) && !r.dropped && Left(r.recv) == 0
    requires inHub || (r.seen != [] && r.seen[|r.seen| - 1].IsClose())
    ensures r.read == BytesOf(UpToClose(log))
  {
    InPlace(r, |r.seen|);
    assert r.consumed + [] == r.consumed == r.seen;
    assert r.read + [] == r.read;
    if inHub {
      assert r.seen + [] == r.seen;
      NoCloseUpTo(log);
    } else {
      UpToCloseIs(r.seen, log);
    }
  }

  /** Progress: as long as nothing was dropped, the read loop and the readers can between them bring a
      stream's reader to the point where it has read all that was sent on it, up to the first close,
      whatever other streams' queues look like. */
  lemma {:induction false} SentCanBeRead(actions: seq<Action>, id: uint32) returns (more: seq<Action>)
    requires id in Run(actions).hub && id in Run(actions).rcv && !Run(actions).rcv[id].dropped
    ensures AllRelay(more)
    ensures var t := After(Run(actions), more);
            id in t.rcv && t.rcv[id].read == BytesOf(UpToClose(LogOf(Run(actions), id)))
  {
    hide Step, Run, After, Left, Decode;
    var s := Run(actions);
    var log := LogOf(s, id);
    RunKeepsInv(actions);
    assert Going(s, id, log);
    hide Inv;
    var first := Forward(s);
    RelaysKeepGoing(s, first, id, log);
    var t := After(s, first);
    var second := DrainReader(t, id);
    RelaysKeepGoing(t, second, id, log);
    AfterAppend(s, first, second);
    more := first + second;
    NothingAhead(After(t, second), id, log);
  }

  lemma {:induction false} NothingAhead(s: State, id: uint32, log: seq<Item>)
    requires Going(s, id, log) && s.loop.Idle? && !Decode(s.wire).Decoded? && Left(s.rcv[id].recv) == 0
    ensures s.rcv[id].read == BytesOf(UpToClose(log))
  {
    assert Frames(s.wire) == [] && Ahead(s, id) == [] && Moving(s, id) == [];
    assert StreamInv(s, id);
    hide Decode, Frames;
    OkAllRead(s.rcv[id], log, id in s.hub, s.loop.Done?);
  }

  lemma SendLastByte(s: State, x: byte)
    requires 1 in s.snd && s.snd[1].calls == [[x]] && !s.broken
    ensures Step(s, SendChunk(1, 0)) ==
            s.(wire := s.wire + Encode(DataFrame(1, [x])),
               snd := s.snd[1 := s.snd[1].(calls := [], log := s.snd[1].log + [Data([x])])])
  {
    hide Encode, Decode;
    assert [x][..1] == [x] && [x][1..] == [];
    assert s.snd[1].calls[..0] + s.snd[1].calls[1..] == [];
  }

  lemma WriteByte(s: State, x: byte)
    requires 1 in s.snd && s.snd[1].calls == [] && !s.broken
    ensures var t := After(s, [StartWrite(1, [x]), SendChunk(1, 0)]);
            && 1 in t.snd && t.snd[1].calls == [] && t.snd[1].log == s.snd[1].log + [Data([x])]
            && t.(snd := s.snd) == s.(wire := s.wire + Encode(DataFrame(1, [x])))
  {
    hide Encode, Decode;
    AfterTwo(s, StartWrite(1, [x]), SendChunk(1, 0));
    SendLastByte(Step(s, StartWrite(1, [x])), x);
  }

  lemma Opened()
    ensures Run([Register(1), Attach(1)]) ==
            INIT.(snd := map[1 := FRESH_SENDER], hub := {1}, rcv := map[1 := FRESH_RECEIVER])
  {
    AfterTwo(INIT, Register(1), Attach(1));
    RunAppend([], [Register(1), Attach(1)]);
    assert [] + [Register(1), Attach(1)] == [Register(1), Attach(1)];
  }

  lemma Closed(s: State)
    requires 1 in s.rcv && s.rcv[1] == FRESH_RECEIVER
    ensures After(s, [LocalClose(1)]) ==
            s.(rcv := s.rcv[1 := FRESH_RECEIVER.(local := true, recv := FRESH_RECV.(closed := ClosedBy(NetErrClosed)))])
  {
    assert [LocalClose(1)][1..] == [];
  }

  /** Two one-byte writes on the wire of a stream that its reader has closed. */
  lemma TwoBytesOnTheWire() returns (actions: seq<Action>)
    ensures var s := Run(actions);
            && s.wire == Encode(DataFrame(1, [7])) + Encode(DataFrame(1, [8]))
            && LogOf(s, 1) == [Data([7]), Data([8])]
            && s.hub == {1} && s.loop.Idle?
            && s.rcv == map[1 := FRESH_RECEIVER.(local := true, recv := FRESH_RECV.(closed := ClosedBy(NetErrClosed)))]
  {
    hide Encode, Decode, Step, Run, After;
    Opened();
    var s1 := [Register(1), Attach(1)];
    WriteByte(Run(s1), 7);
    RunAppend(s1, [StartWrite(1, [7]), SendChunk(1, 0)]);
    var s2 := s1 + [StartWrite(1, [7]), SendChunk(1, 0)];
    WriteByte(Run(s2), 8);
    RunAppend(s2, [StartWrite(1, [8]), SendChunk(1, 0)]);
    var s3 := s2 + [StartWrite(1, [8]), SendChunk(1, 0)];
    Closed(Run(s3));
    RunAppend(s3, [LocalClose(1)]);
    actions := s3 + [LocalClose(1)];
  }

  lemma DropFirst(s: State, x: byte, rest: seq<byte>)
    requires s.wire == Encode(DataFrame(1, [x])) + rest && s.loop.Idle?
    requires 1 in s.hub && 1 in s.rcv && s.rcv[1].recv.closed.ClosedBy?
    ensures var t := After(s, [Receive, Drop]);
            && t == s.(wire := rest, rcv := t.rcv)
            && t.rcv == s.rcv[1 := s.rcv[1].(seen := s.rcv[1].seen + [Data([x])], dropped := true)]
  {
    hide Encode, Decode;
    AfterTwo(s, Receive, Drop);
    DecodeEncode(DataFrame(1, [x]), rest);
  }

  lemma TakeSecond(s: State, x: byte)
    requires s.wire == Encode(DataFrame(1, [x])) && s.loop.Idle?
    requires 1 in s.hub && 1 in s.rcv && s.rcv[1].recv.feed == []
    ensures var t := After(s, [Receive, Deliver]);
            && t.rcv.Keys == s.rcv.Keys && t.snd == s.snd
            && t.rcv[1].recv == s.rcv[1].recv.(feed := [Data([x])])
            && t.rcv[1].read == s.rcv[1].read && t.rcv[1].local == s.rcv[1].local
  {
    hide Encode, Decode;
    AfterTwo(s, Receive, Deliver);
    DecodeEncode(DataFrame(1, [x]), []);
    assert Encode(DataFrame(1, [x])) + [] == Encode(DataFrame(1, [x]));
  }

  /** After a local Close the prefix property is gone: deliver may drop a frame and still queue
      the next one, so the reader sees a gap. */
  lemma LocalCloseLeavesGap() returns (actions: seq<Action>)
    ensures 1 in Run(actions).rcv && Run(actions).rcv[1].local
    ensures Run(actions).rcv[1].read == [8] && BytesOf(LogOf(Run(actions), 1)) == [7, 8]
  {
    hide Decode, Encode, Step;
    var written := TwoBytesOnTheWire();
    var dropped, taken := written + [Receive, Drop], written + [Receive, Drop] + [Receive, Deliver];
    DropFirst(Run(written), 7, Encode(DataFrame(1, [8])));
    RunAppend(written, [Receive, Drop]);
    TakeSecond(Run(dropped), 8);
    RunAppend(dropped, [Receive, Deliver]);
    actions := taken + [ReadStep(1, 1)];
    assert actions[..|taken|] == taken;
    ReadByte(Run(taken), 8);
    assert [Data([7]), Data([8])][1..] == [Data([8])] && [Data([8])][1..] == [];
  }

  lemma ReadByte(s: State, x: byte)
    requires 1 in s.rcv && s.rcv[1].recv.feed == [Data([x])]
    requires s.rcv[1].recv.pending == [] && !s.rcv[1].recv.readEOF
    ensures var t := Step(s, ReadStep(1, 1));
            && t.rcv.Keys == s.rcv.Keys && t.snd == s.snd
            && t.rcv[1].read == s.rcv[1].read + [x] && t.rcv[1].local == s.rcv[1].local
  {
    assert [x][..1] == [x];
  }
}
