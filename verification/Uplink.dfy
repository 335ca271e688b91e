/** The external-to-intranet direction of proxied connections: the proxy listener's read loop, the
    credit window, both read loops of one ctrl session and the client's write pumps
    (internal/star/starserver/proxy_server.go, internal/handler/star/ctrl_hub.go,
    internal/handler/star/ctrlproxy.go, protocol/star/ctrlclient.go). */
module Uplink {
  import opened Bytes
  import opened Window
  import StarFrame

  const LIMIT := DEFAULT_STREAM_WINDOW
  const QUEUE_CAP := 32

  /** What the server sends on a connection, as its client sees it arrive. */
  datatype Arrival = Data(payload: seq<byte>) | Half

  /** What the client's write pump finds in its queue: a payload, or the nil that means
      "drain, then CloseWrite". */
  datatype Entry = Payload(p: seq<byte>) | Sentinel

  datatype Down = ToClient(id: uint32, a: Arrival) | FullClose(id: uint32)
  datatype Up = WindowUpdate(id: uint32, delta: uint32) | ClientHalf(id: uint32) | ClientFull(id: uint32)

  /** The loop of the proxy's handleConn. */
  datatype Proxy = Reading | Acquiring(payload: seq<byte>, left: int) | Holding(payload: seq<byte>) | Finished | Gone

  /** The client's write pump. */
  datatype Pump = Idle | Writing(p: seq<byte>) | Crediting(n: nat) | Dead

  datatype Conn = Conn(
    // server
    mapped: bool,                // in CtrlHub.conns
    win: Win,
    proxy: Proxy,
    // client
    live: bool,                  // in CtrlClient.conns and connsQ
    queue: seq<Entry>,
    pump: Pump,
    writeClosed: bool,           // CloseWrite was called on the intranet connection
    intranet: seq<byte>,         // bytes written to the intranet connection
    // histories
    read: seq<seq<byte>>,        // payloads read from the external connection
    sent: seq<Arrival>,
    arrived: seq<Arrival>,       // frames the client queued
    done: seq<Entry>,            // queue entries the pump has dealt with
    atClose: seq<byte>,          // intranet at the first CloseWrite
    acquired: int,
    released: int)

  const FRESH := Conn(true, Win(0, LIMIT, false, []), Reading, true, [], Idle, false, [],
                      [], [], [], [], [], 0, 0)

  datatype State = State(conns: map<uint32, Conn>, down: seq<Down>, up: seq<Up>)

  const INIT := State(map[], [], [])

  datatype Action =
    | Open(id: uint32)                      // OpenConn acknowledged: both ends know the connection
    | ReadPayload(id: uint32, p: seq<byte>) // ReadMessage on the external connection
    | ReadEOF(id: uint32)
    | ReadFail(id: uint32)                  // it fails with any other error: the loop ends
    | AcquireStep(id: uint32)               // one locked section of AcquireSend
    | SendData(id: uint32)
    | Teardown(id: uint32)                  // CloseConn(id, notify) at the server, whoever calls it
    | ClientReceive                         // the client read loop takes one frame
    | PumpTake(id: uint32)
    | PumpWrite(id: uint32)
    | PumpFail(id: uint32, k: nat)          // conn.Write fails after k bytes
    | PumpCredit(id: uint32)                // SendControl(MsgWindowUpdate)
    | ClientCloseConn(id: uint32)           // closeConn(id, true) from the other direction's pump
    | ClientHalfClose(id: uint32)           // the intranet side finished writing
    | ServerReceive                         // the server read loop takes one frame

  function EntryOf(a: Arrival): Entry {
    match a
    case Data(p) => if p == [] then Sentinel else Payload(p)
    case Half => Sentinel
  }

  // ---------- one connection ----------

  function AcquireOn(c: Conn): Conn
    requires c.proxy.Acquiring?
  {
    var (win, turn) := AcquireTurn(c.win, c.proxy.left, 0);
    match turn
    case WasClosed => c.(proxy := Gone)
    case MustWait => c                      // parked; a later section tries again
    case Took(take) =>
      var left := c.proxy.left - take;
      c.(win := win, acquired := c.acquired + take,
         proxy := if left <= 0 then Holding(c.proxy.payload) else Acquiring(c.proxy.payload, left))
  }

  /** CtrlClient.closeConn: the queue is closed but the pump still drains it. */
  function ClientDrop(c: Conn): Conn {
    c.(live := false)
  }

  function Arrive(c: Conn, a: Arrival): Conn {
    if c.live then c.(queue := c.queue + [EntryOf(a)], arrived := c.arrived + [a]) else c
  }

  function TakeEntry(c: Conn): Conn
    requires c.queue != []
  {
    var c' := c.(queue := c.queue[1..]);
    match c.queue[0]
    case Payload(p) => c'.(pump := Writing(p))
    case Sentinel =>
      c'.(done := c.done + [Sentinel], writeClosed := true,
          atClose := if c.writeClosed then c.atClose else c.intranet)
  }

  function Unmap(c: Conn, closeWindow: bool): Conn {
    if c.mapped then c.(mapped := false, win := if closeWindow then CloseSection(c.win) else c.win) else c
  }

  function Credit(c: Conn, delta: nat): Conn {
    if c.mapped then c.(win := ReleaseSection(c.win, delta), released := c.released + delta) else c
  }

  /** The client read loop's reaction to a frame for this connection. */
  function OnDown(c: Conn, x: Down): Conn {
    match x
    case ToClient(_, a) => Arrive(c, a)
    case FullClose(_) => ClientDrop(c)
  }

  /** The server read loop's reaction to a frame for this connection. */
  function OnUp(c: Conn, x: Up): Conn {
    match x
    case WindowUpdate(_, d) => Credit(c, d)
    case ClientHalf(_) => Unmap(c, false)
    case ClientFull(_) => Unmap(c, true)
  }

  // ---------- steps ----------

  predicate Enabled(s: State, a: Action) {
    match a
    case Open(id) => id !in s.conns
    case ReadPayload(id, _) => id in s.conns && s.conns[id].proxy.Reading?
    case ReadEOF(id) => id in s.conns && s.conns[id].proxy.Reading?
    case ReadFail(id) => id in s.conns && s.conns[id].proxy.Reading?
    case AcquireStep(id) => id in s.conns && s.conns[id].proxy.Acquiring?
    case SendData(id) => id in s.conns && s.conns[id].proxy.Holding?
    case Teardown(id) => id in s.conns
    case ClientReceive =>
      && s.down != []
      && (s.down[0].ToClient? && s.down[0].id in s.conns && s.conns[s.down[0].id].live ==>
            |s.conns[s.down[0].id].queue| < QUEUE_CAP)
    case PumpTake(id) => id in s.conns && s.conns[id].pump.Idle? && s.conns[id].queue != []
    case PumpWrite(id) => id in s.conns && s.conns[id].pump.Writing?
    case PumpFail(id, k) => id in s.conns && s.conns[id].pump.Writing? && k <= |s.conns[id].pump.p|
    case PumpCredit(id) => id in s.conns && s.conns[id].pump.Crediting? && s.conns[id].pump.n < 0x1_0000_0000
    case ClientCloseConn(id) => id in s.conns
    case ClientHalfClose(id) => id in s.conns
    case ServerReceive => s.up != []
  }

  function Set(s: State, id: uint32, c: Conn): State {
    s.(conns := s.conns[id := c])
  }

  function Apply(s: State, a: Action): State
    requires Enabled(s, a)
  {
    match a
    case Open(id) => Set(s, id, FRESH)
    case ReadPayload(id, p) =>
      var c := s.conns[id];
      Set(s, id, c.(proxy := Acquiring(p, |p|), read := c.read + [p]))
    case ReadEOF(id) =>
      var c := s.conns[id];
      Set(s, id, c.(proxy := Finished, sent := c.sent + [Half])).(down := s.down + [ToClient(id, Half)])
    case ReadFail(id) => Set(s, id, s.conns[id].(proxy := Gone))
    case AcquireStep(id) => Set(s, id, AcquireOn(s.conns[id]))
    case SendData(id) =>
      var c := s.conns[id];
      var p := c.proxy.payload;
      if |p| <= StarFrame.MAX_PAYLOAD then
        Set(s, id, c.(proxy := Reading, sent := c.sent + [Data(p)])).(down := s.down + [ToClient(id, Data(p))])
      else Set(s, id, c.(proxy := Gone))
    case Teardown(id) =>
      var c := s.conns[id];
      Set(s, id, Unmap(c, true)).(down := if c.mapped then s.down + [FullClose(id)] else s.down)
    case ClientReceive =>
      var t, x := s.(down := s.down[1..]), s.down[0];
      if x.id in s.conns then Set(t, x.id, OnDown(s.conns[x.id], x)) else t
    case PumpTake(id) => Set(s, id, TakeEntry(s.conns[id]))
    case PumpWrite(id) =>
      var c := s.conns[id];
      Set(s, id, c.(pump := Crediting(|c.pump.p|), intranet := c.intranet + c.pump.p,
                    done := c.done + [Payload(c.pump.p)]))
    case PumpFail(id, k) =>
      var c := s.conns[id];
      Set(s, id, ClientDrop(c).(pump := Dead, intranet := c.intranet + c.pump.p[..k]))
        .(up := if c.live then s.up + [ClientFull(id)] else s.up)
    case PumpCredit(id) =>
      var c := s.conns[id];
      Set(s, id, c.(pump := Idle)).(up := s.up + [WindowUpdate(id, c.pump.n)])
    case ClientCloseConn(id) =>
      var c := s.conns[id];
      Set(s, id, ClientDrop(c)).(up := if c.live then s.up + [ClientFull(id)] else s.up)
    case ClientHalfClose(id) => s.(up := s.up + [ClientHalf(id)])
    case ServerReceive =>
      var t, x := s.(up := s.up[1..]), s.up[0];
      if x.id in s.conns then Set(t, x.id, OnUp(s.conns[x.id], x)) else t
  }

  function Step(s: State, a: Action): State {
    if Enabled(s, a) then Apply(s, a) else s
  }

  function After(s: State, actions: seq<Action>): State {
    if actions == [] then s else Step(After(s, actions[..|actions| - 1]), actions[|actions| - 1])
  }

  function Run(actions: seq<Action>): State {
    After(INIT, actions)
  }

  // ---------- projections and sums ----------

  function AheadOf(down: seq<Down>, id: uint32): seq<Arrival> {
    if down == [] then []
    else
      var rest := AheadOf(down[1..], id);
      if down[0].ToClient? && down[0].id == id then [down[0].a] + rest else rest
  }

  /** The WindowUpdate credit of one connection in transit to the server. */
  function CreditsOf(up: seq<Up>, id: uint32): nat {
    if up == [] then 0
    else (if up[0].WindowUpdate? && up[0].id == id then up[0].delta else 0) + CreditsOf(up[1..], id)
  }

  function Len(xs: seq<Arrival>): nat {
    if xs == [] then 0 else (if xs[0].Data? then |xs[0].payload| else 0) + Len(xs[1..])
  }

  function EntryBytes(es: seq<Entry>): seq<byte> {
    if es == [] then []
    else
      var rest := EntryBytes(es[1..]);
      if es[0].Payload? then es[0].p + rest else rest
  }

  function Entries(xs: seq<Arrival>): seq<Entry> {
    if xs == [] then [] else [EntryOf(xs[0])] + Entries(xs[1..])
  }

  function DataOf(xs: seq<Arrival>): seq<seq<byte>> {
    if xs == [] then []
    else
      var rest := DataOf(xs[1..]);
      if xs[0].Data? then [xs[0].payload] + rest else rest
  }

  /** Bytes taken from the window for a payload that is not on the wire yet. */
  function Held(c: Conn): int {
    match c.proxy
    case Acquiring(p, left) => |p| - left
    case Holding(p) => |p|
    case _ => 0
  }

  /** The queue entries the pump has taken. */
  function Started(c: Conn): seq<Entry> {
    if c.pump.Writing? then c.done + [Payload(c.pump.p)] else c.done
  }

  /** Bytes queued or being written at the client, and credit it has not sent back yet. */
  function Buffered(c: Conn): nat {
    |EntryBytes(c.queue)| + (match c.pump case Writing(p) => |p| case Crediting(n) => n case _ => 0)
  }

  /** Everything that left the window and has not come back. */
  function Outside(c: Conn, ahead: seq<Arrival>, credits: nat): int {
    Held(c) + Len(ahead) + Buffered(c) + credits
  }

  /** Neither end has started closing the connection. */
  predicate Steady(c: Conn) {
    c.mapped && c.live && !c.proxy.Gone?
  }

  predicate HasSentinel(es: seq<Entry>) {
    es != [] && (es[0].Sentinel? || HasSentinel(es[1..]))
  }

  predicate AllFit(xs: seq<Arrival>) {
    xs != [] ==> (xs[0].Data? ==> |xs[0].payload| <= LIMIT) && AllFit(xs[1..])
  }

  function BeforeSentinel(es: seq<Entry>): seq<Entry> {
    if es == [] || es[0].Sentinel? then [] else [es[0]] + BeforeSentinel(es[1..])
  }

  // ---------- the invariant of one connection ----------

  predicate CreditOk(c: Conn, ahead: seq<Arrival>, credits: nat) {
    && c.win.limit == LIMIT
    && c.win.outstanding <= LIMIT
    && c.win.outstanding == c.acquired - c.released
    && Outside(c, ahead, credits) <= c.win.outstanding
    && (Steady(c) ==> Outside(c, ahead, credits) == c.win.outstanding)
    && (c.pump.Dead? ==> !c.live)
    && (c.mapped ==> !c.win.closed)
  }

  /** Acquire takes the whole window or finishes: a payload that fills it is stuck. */
  predicate ProxyOk(c: Conn) {
    match c.proxy
    case Acquiring(p, left) => 0 <= left <= |p| && (left == |p| || (0 < left && LIMIT <= |p| - left))
    case Holding(p) => |p| <= LIMIT
    case _ => true
  }

  predicate OrderOk(c: Conn, ahead: seq<Arrival>) {
    && AllFit(c.sent)
    && (if c.live then c.arrived + ahead == c.sent else c.arrived <= c.sent)
    && (match c.proxy
        case Acquiring(p, _) => DataOf(c.sent) + [p] == c.read
        case Holding(p) => DataOf(c.sent) + [p] == c.read
        case Gone => DataOf(c.sent) <= c.read
        case _ => DataOf(c.sent) == c.read)
  }

  predicate HalfOnlyLast(xs: seq<Arrival>) {
    forall i :: 0 <= i < |xs| - 1 ==> !xs[i].Half?
  }

  predicate EndsInHalf(xs: seq<Arrival>) {
    xs != [] && xs[|xs| - 1].Half?
  }

  /** The half-close is the last thing sent, by a listener that has read everything. */
  predicate HalfLast(c: Conn) {
    HalfOnlyLast(c.sent) && (EndsInHalf(c.sent) <==> c.proxy.Finished?)
  }

  predicate PumpOk(c: Conn) {
    && (if c.pump.Dead? then c.done <= Entries(c.arrived) && c.intranet <= EntryBytes(Entries(c.arrived))
        else Started(c) + c.queue == Entries(c.arrived) && c.intranet == EntryBytes(c.done))
    && (c.writeClosed <==> HasSentinel(c.done))
    && (c.writeClosed ==> c.atClose == EntryBytes(BeforeSentinel(c.done)))
  }

  predicate ConnOk(c: Conn, ahead: seq<Arrival>, credits: nat) {
    CreditOk(c, ahead, credits) && ProxyOk(c) && OrderOk(c, ahead) && PumpOk(c) && HalfLast(c)
  }

  ghost predicate Inv(s: State) {
    && (forall id <- s.conns :: ConnOk(s.conns[id], AheadOf(s.down, id), CreditsOf(s.up, id)))
    && (forall id: uint32 :: id !in s.conns ==> AheadOf(s.down, id) == [] && CreditsOf(s.up, id) == 0)
  }

  // ---------- sequences ----------

  lemma {:induction false} AheadAppend(down: seq<Down>, x: Down, id: uint32)
    ensures AheadOf(down + [x], id) ==
            if x.ToClient? && x.id == id then AheadOf(down, id) + [x.a] else AheadOf(down, id)
  {
    if down == [] {
      assert [x][1..] == [];
    } else {
      AheadAppend(down[1..], x, id);
      assert (down + [x])[1..] == down[1..] + [x];
    }
  }

  lemma {:induction false} CreditsAppend(up: seq<Up>, x: Up, id: uint32)
    ensures CreditsOf(up + [x], id) == CreditsOf(up, id) + if x.WindowUpdate? && x.id == id then x.delta else 0
  {
    if up == [] {
      assert [x][1..] == [];
    } else {
      CreditsAppend(up[1..], x, id);
      assert (up + [x])[1..] == up[1..] + [x];
    }
  }

  lemma {:induction false} ArrivalsAppend(xs: seq<Arrival>, x: Arrival)
    ensures Len(xs + [x]) == Len(xs) + if x.Data? then |x.payload| else 0
    ensures Entries(xs + [x]) == Entries(xs) + [EntryOf(x)]
  {
    if xs == [] {
      assert [x][1..] == [];
    } else {
      ArrivalsAppend(xs[1..], x);
      assert (xs + [x])[1..] == xs[1..] + [x];
    }
  }

  lemma {:induction false} SentAppend(xs: seq<Arrival>, x: Arrival)
    ensures DataOf(xs + [x]) == if x.Data? then DataOf(xs) + [x.payload] else DataOf(xs)
    ensures AllFit(xs + [x]) == (AllFit(xs) && (x.Data? ==> |x.payload| <= LIMIT))
  {
    if xs == [] {
      assert [x][1..] == [];
    } else {
      SentAppend(xs[1..], x);
      assert (xs + [x])[1..] == xs[1..] + [x];
    }
  }

  lemma {:induction false} EntryBytesAppend(a: seq<Entry>, b: seq<Entry>)
    ensures EntryBytes(a + b) == EntryBytes(a) + EntryBytes(b)
  {
    if a == [] {
      assert a + b == b;
    } else {
      EntryBytesAppend(a[1..], b);
      assert (a + b)[1..] == a[1..] + b;
    }
  }

  lemma {:induction false} BeforeSentinelAppend(a: seq<Entry>, b: seq<Entry>)
    ensures BeforeSentinel(a + b) == if HasSentinel(a) then BeforeSentinel(a) else a + BeforeSentinel(b)
    ensures HasSentinel(a + b) == (HasSentinel(a) || HasSentinel(b))
  {
    if a == [] {
      assert a + b == b;
    } else {
      BeforeSentinelAppend(a[1..], b);
      assert (a + b)[1..] == a[1..] + b;
      if !HasSentinel(a) {
        assert [a[0]] + (a[1..] + BeforeSentinel(b)) == a + BeforeSentinel(b);
      }
    }
  }

  lemma OneEntry(e: Entry)
    ensures EntryBytes([e]) == if e.Payload? then e.p else []
    ensures HasSentinel([e]) == e.Sentinel?
    ensures BeforeSentinel([e]) == if e.Payload? then [e] else []
  {
    assert [e][1..] == [];
  }

  // ---------- one connection, one step ----------

  lemma ReadOk(c: Conn, p: seq<byte>, ahead: seq<Arrival>, credits: nat)
    requires ConnOk(c, ahead, credits) && c.proxy.Reading?
    ensures ConnOk(c.(proxy := Acquiring(p, |p|), read := c.read + [p]), ahead, credits)
  {
    hide EntryBytes, Entries, HasSentinel, AllFit, BeforeSentinel, Len;
  }

  lemma EofOk(c: Conn, ahead: seq<Arrival>, credits: nat)
    requires ConnOk(c, ahead, credits) && c.proxy.Reading?
    ensures ConnOk(c.(proxy := Finished, sent := c.sent + [Half]), ahead + [Half], credits)
  {
    ArrivalsAppend(ahead, Half);
    SentAppend(c.sent, Half);
    HalfAfterHalf(c);
    hide EntryBytes, Entries, HasSentinel, AllFit, BeforeSentinel, Len, DataOf, HalfLast;
    assert c.arrived + ahead + [Half] == c.arrived + (ahead + [Half]);
  }

  lemma AcquireOk(c: Conn, ahead: seq<Arrival>, credits: nat)
    requires ConnOk(c, ahead, credits) && c.proxy.Acquiring?
    ensures ConnOk(AcquireOn(c), ahead, credits)
  {
    hide EntryBytes, Entries, HasSentinel, AllFit, BeforeSentinel, Len, DataOf, PumpOk;
    var c' := AcquireOn(c);
    assert PumpOk(c') by { SamePump(c, c'); }
    assert 0 <= Len(ahead) + Buffered(c) + credits;
  }

  lemma SamePump(c: Conn, c': Conn)
    requires PumpOk(c) && c'.pump == c.pump && c'.intranet == c.intranet && c'.arrived == c.arrived
    requires c'.done == c.done && c'.queue == c.queue && c'.writeClosed == c.writeClosed && c'.atClose == c.atClose
    ensures PumpOk(c')
  {
  }

  lemma SendOk(c: Conn, ahead: seq<Arrival>, credits: nat)
    requires ConnOk(c, ahead, credits) && c.proxy.Holding?
    ensures var x := Data(c.proxy.payload);
            ConnOk(c.(proxy := Reading, sent := c.sent + [x]), ahead + [x], credits)
  {
    var x := Data(c.proxy.payload);
    ArrivalsAppend(ahead, x);
    SentAppend(c.sent, x);
    HalfAfterData(c, x);
    hide EntryBytes, Entries, HasSentinel, AllFit, BeforeSentinel, Len, DataOf, PumpOk, HalfLast;
    SamePump(c, c.(proxy := Reading, sent := c.sent + [x]));
    assert c.arrived + ahead + [x] == c.arrived + (ahead + [x]);
  }

  lemma HalfAfterData(c: Conn, x: Arrival)
    requires HalfLast(c) && c.proxy.Holding? && x.Data?
    ensures HalfLast(c.(proxy := Reading, sent := c.sent + [x]))
  {
  }

  lemma HalfAfterHalf(c: Conn)
    requires HalfLast(c) && c.proxy.Reading?
    ensures HalfLast(c.(proxy := Finished, sent := c.sent + [Half]))
  {
  }

  lemma SameHalf(c: Conn, c': Conn)
    requires HalfLast(c) && c'.proxy == c.proxy && c'.sent == c.sent
    ensures HalfLast(c')
  {
  }

  /** Closing only ever forgets: the connection is no longer steady, and what was outside still
      fits in the window. */
  lemma ClosingOk(c: Conn, ahead: seq<Arrival>, credits: nat, c': Conn)
    requires ConnOk(c, ahead, credits)
    requires c' == c.(mapped := c'.mapped, win := c'.win, proxy := c'.proxy, live := c'.live)
    requires c'.win.(closed := c.win.closed, notify := c.win.notify) == c.win
    requires c'.proxy == c.proxy || (c'.proxy.Gone? && !c.proxy.Finished?)
    requires (c'.mapped ==> c.mapped && c'.win == c.win) && (c'.live ==> c.live)
    ensures ConnOk(c', ahead, credits)
  {
    hide EntryBytes, Entries, HasSentinel, AllFit, BeforeSentinel, Len, DataOf, PumpOk;
    SamePump(c, c');
    assert 0 <= Held(c);
    assert c.arrived <= c.arrived + ahead;
  }

  lemma ArriveKeepsOthers(c: Conn, x: Arrival, ahead: seq<Arrival>, credits: nat)
    requires ConnOk(c, [x] + ahead, credits)
    ensures var c' := Arrive(c, x); CreditOk(c', ahead, credits) && ProxyOk(c') && OrderOk(c', ahead)
  {
    ArriveKeepsOrder(c, x, ahead);
    ArriveMoves(c, x, ahead);
    hide EntryBytes, Entries, HasSentinel, AllFit, BeforeSentinel, Len, DataOf, PumpOk, OrderOk, HalfLast, Buffered;
  }

  /** What arrives is no longer ahead, and is buffered if the connection lives. */
  lemma ArriveMoves(c: Conn, x: Arrival, ahead: seq<Arrival>)
    ensures Len([x] + ahead) + Buffered(c) >= Len(ahead) + Buffered(Arrive(c, x))
    ensures c.live ==> Len([x] + ahead) + Buffered(c) == Len(ahead) + Buffered(Arrive(c, x))
  {
    assert ([x] + ahead)[1..] == ahead;
    EntryBytesAppend(c.queue, [EntryOf(x)]);
    OneEntry(EntryOf(x));
  }

  lemma ArriveKeepsOrder(c: Conn, x: Arrival, ahead: seq<Arrival>)
    requires OrderOk(c, [x] + ahead)
    ensures OrderOk(Arrive(c, x), ahead)
  {
    hide AllFit, DataOf;
    assert c.arrived + ([x] + ahead) == (c.arrived + [x]) + ahead;
  }

  lemma ArriveKeepsPump(c: Conn, x: Arrival)
    requires PumpOk(c) && (c.pump.Dead? ==> !c.live)
    ensures PumpOk(Arrive(c, x))
  {
    ArrivalsAppend(c.arrived, x);
    hide EntryBytes, Entries, HasSentinel, AllFit, BeforeSentinel;
    assert Started(c) + c.queue + [EntryOf(x)] == Started(c) + (c.queue + [EntryOf(x)]);
  }

  lemma ArriveOk(c: Conn, x: Arrival, ahead: seq<Arrival>, credits: nat)
    requires ConnOk(c, [x] + ahead, credits)
    ensures ConnOk(Arrive(c, x), ahead, credits)
  {
    ArriveKeepsOthers(c, x, ahead, credits);
    ArriveKeepsPump(c, x);
    hide CreditOk, ProxyOk, OrderOk, PumpOk;
  }

  lemma TakeSentinelKeepsPump(c: Conn)
    requires PumpOk(c) && c.pump.Idle? && c.queue != [] && c.queue[0].Sentinel?
    ensures PumpOk(TakeEntry(c))
  {
    SentinelDone(c.done, c.queue);
    hide EntryBytes, Entries, HasSentinel, AllFit, BeforeSentinel;
  }

  lemma SentinelDone(done: seq<Entry>, queue: seq<Entry>)
    requires queue != [] && queue[0].Sentinel?
    ensures (done + [Sentinel]) + queue[1..] == done + queue
    ensures EntryBytes(done + [Sentinel]) == EntryBytes(done)
    ensures HasSentinel(done + [Sentinel])
    ensures BeforeSentinel(done + [Sentinel]) == if HasSentinel(done) then BeforeSentinel(done) else done
  {
    OneEntry(Sentinel);
    EntryBytesAppend(done, [Sentinel]);
    BeforeSentinelAppend(done, [Sentinel]);
    assert EntryBytes(done) + [] == EntryBytes(done) && done + [] == done;
  }

  lemma TakePayloadKeepsPump(c: Conn)
    requires PumpOk(c) && c.pump.Idle? && c.queue != [] && c.queue[0].Payload?
    ensures PumpOk(TakeEntry(c))
  {
    hide EntryBytes, Entries, HasSentinel, AllFit, BeforeSentinel;
    var rest := c.queue[1..];
    assert c.queue == [c.queue[0]] + rest;
    assert c.done + c.queue == c.done + [c.queue[0]] + rest;
  }

  lemma TakeKeepsBuffered(c: Conn)
    requires c.pump.Idle? && c.queue != []
    ensures Buffered(TakeEntry(c)) == Buffered(c)
  {
    var e := c.queue[0];
    assert c.queue == [e] + c.queue[1..];
    OneEntry(e);
    EntryBytesAppend([e], c.queue[1..]);
  }

  lemma TakeOk(c: Conn, ahead: seq<Arrival>, credits: nat)
    requires ConnOk(c, ahead, credits) && c.pump.Idle? && c.queue != []
    ensures ConnOk(TakeEntry(c), ahead, credits)
  {
    TakeKeepsBuffered(c);
    if c.queue[0].Payload? {
      TakePayloadKeepsPump(c);
    } else {
      TakeSentinelKeepsPump(c);
    }
    TakeChangesPump(c);
    SameHalf(c, TakeEntry(c));
    hide EntryBytes, Entries, HasSentinel, AllFit, Len, DataOf, BeforeSentinel, PumpOk, Buffered, HalfLast, TakeEntry;
  }

  lemma TakeChangesPump(c: Conn)
    requires c.queue != [] && c.pump.Idle?
    ensures var t := TakeEntry(c);
            && t == c.(queue := t.queue, pump := t.pump, done := t.done, writeClosed := t.writeClosed, atClose := t.atClose)
            && !t.pump.Dead?
  {
  }

  lemma WriteOk(c: Conn, ahead: seq<Arrival>, credits: nat)
    requires ConnOk(c, ahead, credits) && c.pump.Writing?
    ensures ConnOk(c.(pump := Crediting(|c.pump.p|), intranet := c.intranet + c.pump.p,
                      done := c.done + [Payload(c.pump.p)]), ahead, credits)
  {
    WriteKeepsPump(c);
    hide EntryBytes, Entries, HasSentinel, AllFit, Len, DataOf, BeforeSentinel, PumpOk;
  }

  lemma WriteKeepsPump(c: Conn)
    requires PumpOk(c) && c.pump.Writing?
    ensures PumpOk(c.(pump := Crediting(|c.pump.p|), intranet := c.intranet + c.pump.p,
                      done := c.done + [Payload(c.pump.p)]))
  {
    var e := Payload(c.pump.p);
    OneEntry(e);
    EntryBytesAppend(c.done, [e]);
    BeforeSentinelAppend(c.done, [e]);
    hide EntryBytes, Entries, HasSentinel, AllFit, BeforeSentinel;
  }

  lemma FailKeepsPump(c: Conn, k: nat)
    requires PumpOk(c) && c.pump.Writing? && k <= |c.pump.p|
    ensures PumpOk(ClientDrop(c).(pump := Dead, intranet := c.intranet + c.pump.p[..k]))
  {
    var e := Payload(c.pump.p);
    OneEntry(e);
    EntryBytesAppend(c.done, [e]);
    EntryBytesAppend(c.done + [e], c.queue);
    hide EntryBytes, Entries, HasSentinel, AllFit, BeforeSentinel;
    var all := EntryBytes(c.done) + c.pump.p + EntryBytes(c.queue);
    assert c.intranet + c.pump.p[..k] == all[..|c.intranet| + k];
  }

  lemma FailOk(c: Conn, k: nat, ahead: seq<Arrival>, credits: nat)
    requires ConnOk(c, ahead, credits) && c.pump.Writing? && k <= |c.pump.p|
    ensures ConnOk(ClientDrop(c).(pump := Dead, intranet := c.intranet + c.pump.p[..k]), ahead, credits)
  {
    FailKeepsPump(c, k);
    hide EntryBytes, Entries, HasSentinel, AllFit, Len, DataOf, BeforeSentinel, PumpOk;
    assert c.arrived <= c.arrived + ahead;
  }

  lemma CreditSentOk(c: Conn, ahead: seq<Arrival>, credits: nat)
    requires ConnOk(c, ahead, credits) && c.pump.Crediting?
    ensures ConnOk(c.(pump := Idle), ahead, credits + c.pump.n)
  {
    hide EntryBytes, Entries, HasSentinel, AllFit, Len, DataOf, BeforeSentinel;
  }

  lemma CreditOkReceived(c: Conn, d: nat, ahead: seq<Arrival>, credits: nat)
    requires ConnOk(c, ahead, credits) && d <= credits
    ensures ConnOk(Credit(c, d), ahead, credits - d)
  {
    hide EntryBytes, Entries, HasSentinel, AllFit, Len, DataOf, BeforeSentinel;
  }

  lemma OnDownOk(c: Conn, x: Down, ahead: seq<Arrival>, credits: nat)
    requires ConnOk(c, if x.ToClient? then [x.a] + ahead else ahead, credits)
    ensures ConnOk(OnDown(c, x), ahead, credits)
  {
    hide ConnOk, Arrive;
    if x.ToClient? {
      ArriveOk(c, x.a, ahead, credits);
    } else {
      ClosingOk(c, ahead, credits, ClientDrop(c));
    }
  }

  lemma OnUpOk(c: Conn, x: Up, ahead: seq<Arrival>, credits: nat)
    requires ConnOk(c, ahead, (if x.WindowUpdate? then x.delta else 0) + credits)
    ensures ConnOk(OnUp(c, x), ahead, credits)
  {
    hide ConnOk, Credit;
    if x.WindowUpdate? {
      CreditOkReceived(c, x.delta, ahead, x.delta + credits);
    } else {
      ClosingOk(c, ahead, credits, OnUp(c, x));
    }
  }

  // ---------- every step keeps the invariant ----------

  lemma Reassemble(s: State, t: State, id: uint32)
    requires Inv(s)
    requires id in t.conns && t.conns == s.conns[id := t.conns[id]]
    requires forall j: uint32 :: j != id ==>
               AheadOf(t.down, j) == AheadOf(s.down, j) && CreditsOf(t.up, j) == CreditsOf(s.up, j)
    requires ConnOk(t.conns[id], AheadOf(t.down, id), CreditsOf(t.up, id))
    ensures Inv(t)
  {
    hide ConnOk, AheadOf, CreditsOf;
  }

  lemma Skip(s: State, t: State)
    requires Inv(s) && t.conns == s.conns
    requires forall j: uint32 :: AheadOf(t.down, j) == AheadOf(s.down, j) && CreditsOf(t.up, j) == CreditsOf(s.up, j)
    ensures Inv(t)
  {
    hide ConnOk, AheadOf, CreditsOf;
  }

  lemma Appended(s: State, d: Down, u: Up)
    ensures forall j: uint32 :: AheadOf(s.down + [d], j) ==
                                if d.ToClient? && d.id == j then AheadOf(s.down, j) + [d.a] else AheadOf(s.down, j)
    ensures forall j: uint32 :: CreditsOf(s.up + [u], j) ==
                                CreditsOf(s.up, j) + if u.WindowUpdate? && u.id == j then u.delta else 0
  {
    forall j: uint32 {
      AheadAppend(s.down, d, j);
    }
    forall j: uint32 {
      CreditsAppend(s.up, u, j);
    }
  }

  lemma ServerKeepsInv(s: State, a: Action)
    requires Inv(s) && Enabled(s, a)
    requires a.Open? || a.ReadPayload? || a.ReadEOF? || a.ReadFail? || a.AcquireStep? || a.SendData? || a.Teardown?
    ensures Inv(Apply(s, a))
  {
    hide ConnOk, AheadOf, CreditsOf, AcquireOn;
    var t := Apply(s, a);
    var ahead, credits := AheadOf(s.down, a.id), CreditsOf(s.up, a.id);
    match a
    case Open(id) =>
      FreshOk(FRESH);
      Reassemble(s, t, id);
    case ReadPayload(id, p) =>
      ReadOk(s.conns[id], p, ahead, credits);
      Reassemble(s, t, id);
    case ReadEOF(id) =>
      EofOk(s.conns[id], ahead, credits);
      Appended(s, ToClient(id, Half), ClientHalf(id));
      Reassemble(s, t, id);
    case ReadFail(id) =>
      ClosingOk(s.conns[id], ahead, credits, t.conns[id]);
      Reassemble(s, t, id);
    case AcquireStep(id) =>
      AcquireOk(s.conns[id], ahead, credits);
      Reassemble(s, t, id);
    case SendData(id) =>
      var c := s.conns[id];
      SendOk(c, ahead, credits);
      ClosingOk(c, ahead, credits, c.(proxy := Gone));
      Appended(s, ToClient(id, Data(c.proxy.payload)), ClientHalf(id));
      Reassemble(s, t, id);
    case Teardown(id) =>
      var c := s.conns[id];
      ClosingOk(c, ahead, credits, t.conns[id]);
      Appended(s, FullClose(id), ClientHalf(id));
      Reassemble(s, t, id);
  }

  lemma Nothing()
    ensures EntryBytes([]) == [] && Entries([]) == [] && DataOf([]) == [] && Len([]) == 0
    ensures AllFit([]) && !HasSentinel([])
  {
  }

  lemma FreshOk(c: Conn)
    requires c.win.limit == LIMIT && c.win.outstanding == c.acquired == c.released == 0
    requires c.live && c.proxy.Reading? && c.pump.Idle? && !c.writeClosed && !c.win.closed
    requires c.queue == [] && c.done == [] && c.sent == [] && c.arrived == [] && c.read == [] && c.intranet == []
    ensures ConnOk(c, [], 0)
  {
    Nothing();
    hide EntryBytes, Entries, HasSentinel, AllFit, DataOf, Len, BeforeSentinel;
    assert Started(c) + c.queue == [];
  }

  lemma PumpKeepsInv(s: State, a: Action)
    requires Inv(s) && Enabled(s, a)
    requires a.PumpTake? || a.PumpWrite? || a.PumpFail? || a.PumpCredit? || a.ClientCloseConn? || a.ClientHalfClose?
    ensures Inv(Apply(s, a))
  {
    hide ConnOk, AheadOf, CreditsOf, TakeEntry;
    var t := Apply(s, a);
    var c := s.conns[a.id];
    var ahead, credits := AheadOf(s.down, a.id), CreditsOf(s.up, a.id);
    match a
    case PumpTake(id) =>
      TakeOk(c, ahead, credits);
      Reassemble(s, t, id);
    case PumpWrite(id) =>
      WriteOk(c, ahead, credits);
      Reassemble(s, t, id);
    case PumpFail(id, k) =>
      FailOk(c, k, ahead, credits);
      Appended(s, FullClose(id), ClientFull(id));
      Reassemble(s, t, id);
    case PumpCredit(id) =>
      CreditSentOk(c, ahead, credits);
      Appended(s, FullClose(id), WindowUpdate(id, c.pump.n));
      Reassemble(s, t, id);
    case ClientCloseConn(id) =>
      ClosingOk(c, ahead, credits, t.conns[id]);
      Appended(s, FullClose(id), ClientFull(id));
      Reassemble(s, t, id);
    case ClientHalfClose(id) =>
      Appended(s, FullClose(id), ClientHalf(id));
      Skip(s, t);
  }

  lemma ClientReceiveKeepsInv(s: State)
    requires Inv(s) && Enabled(s, ClientReceive)
    ensures Inv(Apply(s, ClientReceive))
  {
    var t := Apply(s, ClientReceive);
    var x := s.down[0];
    assert forall j: uint32 :: AheadOf(s.down, j) ==
                               if x.ToClient? && x.id == j then [x.a] + AheadOf(s.down[1..], j) else AheadOf(s.down[1..], j);
    hide ConnOk, AheadOf, CreditsOf, OnDown;
    if x.id !in s.conns {
      assert AheadOf(s.down, x.id) == [];
      Skip(s, t);
    } else {
      OnDownOk(s.conns[x.id], x, AheadOf(t.down, x.id), CreditsOf(s.up, x.id));
      Reassemble(s, t, x.id);
    }
  }

  lemma TakeUp(up: seq<Up>)
    requires up != []
    ensures forall j: uint32 :: CreditsOf(up, j) ==
                                (if up[0].WindowUpdate? && up[0].id == j then up[0].delta else 0) + CreditsOf(up[1..], j)
  {
  }

  lemma ServerReceiveKeepsInv(s: State)
    requires Inv(s) && Enabled(s, ServerReceive)
    ensures Inv(Apply(s, ServerReceive))
  {
    hide ConnOk, AheadOf, CreditsOf, OnUp;
    var t := Apply(s, ServerReceive);
    var x := s.up[0];
    TakeUp(s.up);
    if x.id !in s.conns {
      assert CreditsOf(s.up, x.id) == 0;
      Skip(s, t);
    } else {
      OnUpOk(s.conns[x.id], x, AheadOf(s.down, x.id), CreditsOf(t.up, x.id));
      Reassemble(s, t, x.id);
    }
  }

  lemma StepKeepsInv(s: State, a: Action)
    requires Inv(s)
    ensures Inv(Step(s, a))
  {
    hide Inv, Apply, Enabled;
    if Enabled(s, a) {
      match a
      case ClientReceive => ClientReceiveKeepsInv(s);
      case ServerReceive => ServerReceiveKeepsInv(s);
      case PumpTake(_) => PumpKeepsInv(s, a);
      case PumpWrite(_) => PumpKeepsInv(s, a);
      case PumpFail(_, _) => PumpKeepsInv(s, a);
      case PumpCredit(_) => PumpKeepsInv(s, a);
      case ClientCloseConn(_) => PumpKeepsInv(s, a);
      case ClientHalfClose(_) => PumpKeepsInv(s, a);
      case _ => ServerKeepsInv(s, a);
    }
  }

  lemma {:induction false} RunKeepsInv(actions: seq<Action>)
    ensures Inv(Run(actions))
  {
    hide Step;
    if actions != [] {
      hide Inv;
      RunKeepsInv(actions[..|actions| - 1]);
      StepKeepsInv(Run(actions[..|actions| - 1]), actions[|actions| - 1]);
    }
  }

  // ---------- results, for every schedule of any number of connections ----------

  /** Credit is conserved: until a connection starts closing, outstanding is exactly what was
      taken and not yet sent, plus the data in transit, plus what the client queues or writes, plus
      the credit on its way back; afterwards it is at most that.  So the client never has more
      than the window of a connection in its hands. */
  lemma CreditConserved(actions: seq<Action>, id: uint32)
    requires id in Run(actions).conns
    ensures var s := Run(actions); var c := s.conns[id];
            var outside := Held(c) + Len(AheadOf(s.down, id)) + Buffered(c) + CreditsOf(s.up, id);
            && outside <= c.win.outstanding <= DEFAULT_STREAM_WINDOW
            && (Steady(c) ==> outside == c.win.outstanding)
            && Len(AheadOf(s.down, id)) + Buffered(c) <= DEFAULT_STREAM_WINDOW
  {
    RunKeepsInv(actions);
    var s := Run(actions);
    var c := s.conns[id];
    assert ConnOk(c, AheadOf(s.down, id), CreditsOf(s.up, id));
    hide EntryBytes, AheadOf, CreditsOf, Len, OrderOk, PumpOk;
    assert 0 <= Held(c);
  }

  /** Acquire never completes for more than the window: a payload is sent only if it fits, and
      the sender of a larger one finds no room in any later state. */
  lemma OversizedNeverSent(actions: seq<Action>, id: uint32)
    requires id in Run(actions).conns
    ensures var c := Run(actions).conns[id];
            && AllFit(c.sent)
            && (c.proxy.Acquiring? && c.proxy.left < |c.proxy.payload| ==>
                  DEFAULT_STREAM_WINDOW < |c.proxy.payload| && !c.win.Fits(c.proxy.left))
  {
    RunKeepsInv(actions);
    var s := Run(actions);
    var c := s.conns[id];
    assert ConnOk(c, AheadOf(s.down, id), CreditsOf(s.up, id));
    hide EntryBytes, AheadOf, CreditsOf, Len, OrderOk, PumpOk;
    assert 0 <= Len(AheadOf(s.down, id)) + Buffered(c) + CreditsOf(s.up, id);
  }

  /** What reaches the intranet is, in order, a prefix of what was read outside. */
  lemma IntranetGetsPrefix(actions: seq<Action>, id: uint32)
    requires id in Run(actions).conns
    ensures var c := Run(actions).conns[id]; c.intranet <= Concat(c.read)
  {
    RunKeepsInv(actions);
    var s := Run(actions);
    var c := s.conns[id];
    var ahead := AheadOf(s.down, id);
    assert ConnOk(c, ahead, CreditsOf(s.up, id));
    hide AheadOf, CreditsOf, CreditOk, ProxyOk, After;
    WrittenIsArrived(c);
    assert c.arrived <= c.sent by {
      assert c.arrived <= c.arrived + ahead;
    }
    EntriesAreData(c.arrived);
    DataOfPrefix(c.arrived, c.sent);
    hide EntryBytes, Entries, DataOf;
    assert DataOf(c.sent) <= c.read;
    ConcatPrefix(DataOf(c.sent), c.read);
  }

  lemma WrittenIsArrived(c: Conn)
    requires PumpOk(c)
    ensures c.intranet <= EntryBytes(Entries(c.arrived))
  {
    var rest := Entries(c.arrived)[|c.done|..];
    assert Entries(c.arrived) == c.done + rest;
    EntryBytesAppend(c.done, rest);
  }

  lemma {:induction false} DataOfPrefix(xs: seq<Arrival>, ys: seq<Arrival>)
    requires xs <= ys
    ensures Concat(DataOf(xs)) <= Concat(DataOf(ys))
  {
    if xs != [] {
      DataOfPrefix(xs[1..], ys[1..]);
      ConcatData(xs);
      ConcatData(ys);
    }
  }

  lemma ConcatData(xs: seq<Arrival>)
    requires xs != []
    ensures Concat(DataOf(xs)) ==
            if xs[0].Data? then xs[0].payload + Concat(DataOf(xs[1..])) else Concat(DataOf(xs[1..]))
  {
    if xs[0].Data? {
      assert DataOf(xs)[1..] == DataOf(xs[1..]);
    }
  }

  lemma ConcatPrefix(a: seq<seq<byte>>, b: seq<seq<byte>>)
    requires a <= b
    ensures Concat(a) <= Concat(b)
  {
    ConcatAppend(a, b[|a|..]);
    assert b == a + b[|a|..];
  }

  lemma {:induction false} EntriesAreData(xs: seq<Arrival>)
    ensures EntryBytes(Entries(xs)) == Concat(DataOf(xs))
  {
    if xs != [] {
      EntriesAreData(xs[1..]);
      ConcatData(xs);
      assert Entries(xs)[1..] == Entries(xs[1..]);
    }
  }

  // ---------- half-close ordering at the client ----------

  /** The bytes of the frames that arrived before the first one whose payload is nil: a half-close,
      or a data frame without payload. */
  function BeforeNil(xs: seq<Arrival>): seq<byte> {
    if xs == [] || EntryOf(xs[0]).Sentinel? then [] else EntryOf(xs[0]).p + BeforeNil(xs[1..])
  }

  function BeforeHalf(xs: seq<Arrival>): seq<byte> {
    if xs == [] || xs[0].Half? then [] else xs[0].payload + BeforeHalf(xs[1..])
  }

  /** No data frame without payload has arrived. */
  predicate NoEmptyFrame(xs: seq<Arrival>) {
    xs != [] ==> xs[0] != Data([]) && NoEmptyFrame(xs[1..])
  }

  /** CloseWrite on the intranet connection happens only after a nil entry arrived, and at that
      moment exactly the data frames that arrived before that entry have been written.  Without
      empty data frames that entry is the half-close frame. */
  lemma CloseWriteAfterData(actions: seq<Action>, id: uint32)
    requires id in Run(actions).conns && Run(actions).conns[id].writeClosed
    ensures var c := Run(actions).conns[id];
            && c.atClose == BeforeNil(c.arrived)
            && (NoEmptyFrame(c.arrived) ==> Half in c.arrived && c.atClose == BeforeHalf(c.arrived))
  {
    hide After;
    RunKeepsInv(actions);
    var s := Run(actions);
    var c := s.conns[id];
    assert ConnOk(c, AheadOf(s.down, id), CreditsOf(s.up, id));
    ClosedAt(c);
    BeforeNilIs(c.arrived);
    if NoEmptyFrame(c.arrived) {
      NilIsHalf(c.arrived);
    }
  }

  /** End to end: without empty messages, everything read outside has been written to the intranet
      connection before it is write-closed. */
  lemma {:induction false} CloseWriteAfterAllRead(actions: seq<Action>, id: uint32)
    requires id in Run(actions).conns && Run(actions).conns[id].writeClosed
    requires NoEmptyFrame(Run(actions).conns[id].arrived)
    ensures var c := Run(actions).conns[id]; c.atClose == Concat(c.read) && c.proxy.Finished?
  {
    hide Run, CreditOk, ProxyOk, PumpOk;
    CloseWriteAfterData(actions, id);
    RunKeepsInv(actions);
    var s := Run(actions);
    var c, ahead := s.conns[id], AheadOf(s.down, id);
    assert ConnOk(c, ahead, CreditsOf(s.up, id));
    assert c.arrived <= c.arrived + ahead;
    AllArrived(c);
    BeforeHalfIsAll(c.sent);
  }

  /** A half-close that has arrived is the last thing that was ever sent. */
  lemma AllArrived(c: Conn)
    requires HalfLast(c) && c.arrived <= c.sent && Half in c.arrived
    ensures c.proxy.Finished? && c.arrived == c.sent
  {
    var i :| 0 <= i < |c.arrived| && c.arrived[i] == Half;
    assert c.sent[i].Half?;
  }

  lemma {:induction false} BeforeHalfIsAll(xs: seq<Arrival>)
    requires HalfOnlyLast(xs) && EndsInHalf(xs)
    ensures BeforeHalf(xs) == Concat(DataOf(xs))
  {
    ConcatData(xs);
    if |xs| == 1 {
      assert DataOf(xs[1..]) == [];
    } else {
      assert !xs[0].Half?;
      BeforeHalfIsAll(xs[1..]);
    }
  }

  lemma ClosedAt(c: Conn)
    requires PumpOk(c) && c.writeClosed
    ensures c.atClose == EntryBytes(BeforeSentinel(Entries(c.arrived))) && HasSentinel(Entries(c.arrived))
  {
    var rest := Entries(c.arrived)[|c.done|..];
    assert Entries(c.arrived) == c.done + rest;
    BeforeSentinelAppend(c.done, rest);
  }

  lemma {:induction false} BeforeNilIs(xs: seq<Arrival>)
    ensures EntryBytes(BeforeSentinel(Entries(xs))) == BeforeNil(xs)
  {
    if xs != [] {
      BeforeNilIs(xs[1..]);
      assert Entries(xs)[1..] == Entries(xs[1..]);
      if EntryOf(xs[0]).Payload? {
        var rest := BeforeSentinel(Entries(xs[1..]));
        assert ([Entries(xs)[0]] + rest)[1..] == rest;
      }
    }
  }

  lemma {:induction false} NilIsHalf(xs: seq<Arrival>)
    requires NoEmptyFrame(xs)
    ensures BeforeNil(xs) == BeforeHalf(xs)
    ensures HasSentinel(Entries(xs)) <==> Half in xs
  {
    if xs != [] {
      NilIsHalf(xs[1..]);
      assert Entries(xs)[1..] == Entries(xs[1..]);
      assert xs == [xs[0]] + xs[1..];
    }
  }

  predicate HasNil(xs: seq<Arrival>) {
    xs != [] && (EntryOf(xs[0]).Sentinel? || HasNil(xs[1..]))
  }

  lemma {:induction false} HasNilIs(xs: seq<Arrival>)
    ensures HasSentinel(Entries(xs)) == HasNil(xs)
  {
    if xs != [] {
      HasNilIs(xs[1..]);
      assert Entries(xs)[1..] == Entries(xs[1..]);
    }
  }

  /** Exactly when: once the pump has caught up, the intranet connection is write-closed if and
      only if a half-close or an empty data frame has arrived. */
  lemma WriteClosedIff(actions: seq<Action>, id: uint32)
    requires id in Run(actions).conns
    requires Run(actions).conns[id].pump.Idle? && Run(actions).conns[id].queue == []
    ensures var c := Run(actions).conns[id]; c.writeClosed <==> HasNil(c.arrived)
  {
    RunKeepsInv(actions);
    var s := Run(actions);
    var c := s.conns[id];
    assert ConnOk(c, AheadOf(s.down, id), CreditsOf(s.up, id));
    assert c.done + [] == c.done;
    HasNilIs(c.arrived);
  }

  lemma RunOne(actions: seq<Action>, a: Action)
    ensures Run(actions + [a]) == Step(Run(actions), a)
  {
    assert (actions + [a])[..|actions|] == actions;
  }

  /** One empty message from outside write-closes the intranet connection although nobody has
      half-closed: its frame decodes to the same nil that stands for the half-close. */
  lemma EmptyMessageClosesEarly() returns (actions: seq<Action>)
    ensures 1 in Run(actions).conns
    ensures var c := Run(actions).conns[1]; c.writeClosed && c.arrived == [Data([])] && c.proxy.Reading?
  {
    hide Step;
    actions := AcquireEmpty();
    SendAndReceiveEmpty(actions, Run(actions).conns[1]);
    actions := actions + [SendData(1)] + [ClientReceive];
    RunOne(actions, PumpTake(1));
    TakeNil(Run(actions));
    actions := actions + [PumpTake(1)];
  }

  lemma AcquireEmpty() returns (actions: seq<Action>)
    ensures var s := Run(actions);
            && 1 in s.conns && s.down == []
            && s.conns[1] == FRESH.(proxy := Holding([]), read := s.conns[1].read)
  {
    hide AcquireTurn;
    actions := [Open(1)];
    RunOne([], Open(1));
    assert [] + [Open(1)] == [Open(1)];
    var s := Run(actions);
    assert 1 in s.conns && s.conns[1] == FRESH && s.down == [];
    RunOne(actions, ReadPayload(1, [])); actions := actions + [ReadPayload(1, [])];
    var t := Run(actions);
    assert t.conns[1] == FRESH.(proxy := Acquiring([], 0), read := t.conns[1].read) && t.down == [];
    RunOne(actions, AcquireStep(1)); actions := actions + [AcquireStep(1)];
    NothingToTake(t.conns[1].win);
  }

  lemma NothingToTake(w: Win)
    requires w.outstanding == 0 && w.limit == LIMIT && !w.closed
    ensures AcquireTurn(w, 0, 0) == (w, Took(0))
  {
  }

  lemma TakeNil(s: State)
    requires 1 in s.conns && s.conns[1].pump.Idle? && s.conns[1].queue == [Sentinel]
    ensures var t := Step(s, PumpTake(1));
            && 1 in t.conns && t.conns[1].writeClosed
            && t.conns[1].arrived == s.conns[1].arrived && t.conns[1].proxy == s.conns[1].proxy
  {
  }

  lemma SendAndReceiveEmpty(actions: seq<Action>, c: Conn)
    requires var s := Run(actions); 1 in s.conns && s.conns[1] == c && s.down == []
    requires c.proxy == Holding([]) && c.live && c.queue == [] && c.sent == [] && c.arrived == [] && c.pump.Idle?
    ensures var s := Run(actions + [SendData(1)] + [ClientReceive]);
            && 1 in s.conns && s.conns[1].queue == [Sentinel] && s.conns[1].arrived == [Data([])]
            && s.conns[1].proxy.Reading? && s.conns[1].pump.Idle?
  {
    RunOne(actions, SendData(1));
    var s := Run(actions + [SendData(1)]);
    assert s.down == [ToClient(1, Data([]))];
    RunOne(actions + [SendData(1)], ClientReceive);
  }

  // ---------- after the intranet side has half-closed ----------

  /** Once the server has dropped the mapping, nothing is ever given back to the window. */
  lemma {:induction false} UnmappedNeverCredited(s: State, actions: seq<Action>, id: uint32)
    requires id in s.conns && !s.conns[id].mapped
    ensures var t := After(s, actions);
            id in t.conns && !t.conns[id].mapped && t.conns[id].released == s.conns[id].released
  {
    hide Step;
    if actions != [] {
      UnmappedNeverCredited(s, actions[..|actions| - 1], id);
      StaysUnmapped(After(s, actions[..|actions| - 1]), actions[|actions| - 1], id);
    }
  }

  lemma StaysUnmapped(s: State, a: Action, id: uint32)
    requires id in s.conns && !s.conns[id].mapped
    ensures var t := Step(s, a);
            id in t.conns && !t.conns[id].mapped && t.conns[id].released == s.conns[id].released
  {
    hide AcquireTurn;
  }

  lemma {:induction false} AfterKeepsInv(s: State, actions: seq<Action>)
    requires Inv(s)
    ensures Inv(After(s, actions))
  {
    hide Inv, Step;
    if actions != [] {
      AfterKeepsInv(s, actions[..|actions| - 1]);
      StepKeepsInv(After(s, actions[..|actions| - 1]), actions[|actions| - 1]);
    }
  }

  /** ClientClosed drops the mapping although the connection lives on: from then on the external
      side can push through at most one more window, however long the connection lasts. */
  lemma HalfClosedConnStarves(before: seq<Action>, later: seq<Action>, id: uint32)
    requires id in Run(before).conns && !Run(before).conns[id].mapped
    ensures var t := After(Run(before), later);
            id in t.conns && t.conns[id].acquired - Run(before).conns[id].acquired
                             <= DEFAULT_STREAM_WINDOW - Run(before).conns[id].win.outstanding
  {
    RunKeepsInv(before);
    var s := Run(before);
    AfterKeepsInv(s, later);
    UnmappedNeverCredited(s, later, id);
    var t := After(s, later);
    assert ConnOk(s.conns[id], AheadOf(s.down, id), CreditsOf(s.up, id));
    assert ConnOk(t.conns[id], AheadOf(t.down, id), CreditsOf(t.up, id));
  }

  // ---------- when an Acquire can be granted ----------

  /** The steps of the pumps and of the two read loops, without failures and closes. */
  predicate Relay(a: Action) {
    a.ClientReceive? || a.PumpTake? || a.PumpWrite? || a.PumpCredit? || a.ServerReceive?
  }

  predicate AllRelay(actions: seq<Action>) {
    forall a <- actions :: Relay(a)
  }

  /** No close of the connection is in transit. */
  ghost predicate NoClosing(s: State, id: uint32) {
    && (forall x <- s.down :: x != FullClose(id))
    && (forall x <- s.up :: x.WindowUpdate? || x.id != id)
  }

  /** The proxy listener waits for credit on a connection that nobody is closing. */
  ghost predicate Waits(s: State, id: uint32, p: seq<byte>, left: int) {
    && Inv(s) && NoClosing(s, id)
    && id in s.conns && Steady(s.conns[id]) && s.conns[id].proxy == Acquiring(p, left)
  }

  lemma {:induction false} AfterBoth(s: State, a: seq<Action>, b: seq<Action>)
    ensures After(s, a + b) == After(After(s, a), b)
    decreases |b|
  {
    hide Step;
    if b == [] {
      assert a + b == a;
    } else {
      assert (a + b)[..|a + b| - 1] == a + b[..|b| - 1];
      AfterBoth(s, a, b[..|b| - 1]);
    }
  }

  lemma AfterOne(s: State, a: Action)
    ensures After(s, [a]) == Step(s, a)
  {
    assert [a][..0] == [];
    assert After(s, []) == s;
  }

  lemma RelayKeepsWaiting(s: State, a: Action, id: uint32, p: seq<byte>, left: int)
    requires Waits(s, id, p, left) && Relay(a)
    ensures Waits(Step(s, a), id, p, left)
  {
    StepKeepsInv(s, a);
    hide Inv;
    if Enabled(s, a) {
      RelayKeepsConn(s, a, id);
      RelayAddsNoClose(s, a, id);
    }
  }

  lemma RelayKeepsConn(s: State, a: Action, id: uint32)
    requires Enabled(s, a) && Relay(a) && NoClosing(s, id) && id in s.conns && Steady(s.conns[id])
    ensures var t := Step(s, a); id in t.conns && Steady(t.conns[id]) && t.conns[id].proxy == s.conns[id].proxy
  {
    if a.ClientReceive? { assert s.down[0] in s.down; }
    if a.ServerReceive? { assert s.up[0] in s.up; }
  }

  lemma RelayAddsNoClose(s: State, a: Action, id: uint32)
    requires Enabled(s, a) && Relay(a) && NoClosing(s, id)
    ensures NoClosing(Step(s, a), id)
  {
    hide TakeEntry, OnDown, OnUp;
    var t := Step(s, a);
    assert forall x <- t.down :: x in s.down;
    assert forall x <- t.up :: x in s.up || x.WindowUpdate?;
  }

  lemma {:induction false} RelaysKeepWaiting(s: State, actions: seq<Action>, id: uint32, p: seq<byte>, left: int)
    requires Waits(s, id, p, left) && AllRelay(actions)
    ensures Waits(After(s, actions), id, p, left)
  {
    hide Step, Waits;
    if actions != [] {
      RelaysKeepWaiting(s, actions[..|actions| - 1], id, p, left);
      RelayKeepsWaiting(After(s, actions[..|actions| - 1]), actions[|actions| - 1], id, p, left);
    }
  }

  /** How many steps the pump of a connection still has to make. */
  function Work(c: Conn): nat {
    3 * |c.queue| + match c.pump case Writing(_) => 2 case Crediting(_) => 1 case _ => 0
  }

  lemma CreditFits(s: State, id: uint32)
    requires Inv(s) && id in s.conns && s.conns[id].pump.Crediting?
    ensures s.conns[id].pump.n <= LIMIT
  {
    var c := s.conns[id];
    assert ConnOk(c, AheadOf(s.down, id), CreditsOf(s.up, id));
    hide EntryBytes, AheadOf, CreditsOf, Len, OrderOk, PumpOk;
    assert 0 <= Held(c);
  }

  /** A living pump with work to do can do some, and touches nothing else but the way up. */
  lemma PumpOnce(s: State, id: uint32) returns (a: Action)
    requires Inv(s) && id in s.conns && !s.conns[id].pump.Dead? && 0 < Work(s.conns[id])
    ensures Relay(a) && Step(s, a).down == s.down && id in Step(s, a).conns
    ensures !Step(s, a).conns[id].pump.Dead? && Work(Step(s, a).conns[id]) < Work(s.conns[id])
  {
    hide Inv;
    var c := s.conns[id];
    match c.pump
    case Writing(_) => a := PumpWrite(id);
    case Crediting(_) =>
      CreditFits(s, id);
      a := PumpCredit(id);
    case Idle => a := PumpTake(id);
  }

  /** So it can do all of it. */
  lemma {:induction false} Drain(s: State, id: uint32) returns (actions: seq<Action>)
    requires Inv(s) && id in s.conns && !s.conns[id].pump.Dead?
    ensures AllRelay(actions) && After(s, actions).down == s.down && id in After(s, actions).conns
    ensures Inv(After(s, actions)) && Work(After(s, actions).conns[id]) == 0
    decreases Work(s.conns[id])
  {
    hide Inv, Step;
    if Work(s.conns[id]) == 0 {
      actions := [];
    } else {
      var a := PumpOnce(s, id);
      StepKeepsInv(s, a);
      var more := Drain(Step(s, a), id);
      actions := [a] + more;
      AfterOne(s, a);
      AfterBoth(s, [a], more);
    }
  }

  lemma LivePump(s: State, id: uint32)
    requires Inv(s) && id in s.conns && s.conns[id].live
    ensures !s.conns[id].pump.Dead?
  {
    assert ConnOk(s.conns[id], AheadOf(s.down, id), CreditsOf(s.up, id));
  }

  /** Everything on the way down can be delivered, whatever queues are full. */
  lemma {:induction false} ClearDown(s: State) returns (actions: seq<Action>)
    requires Inv(s)
    ensures AllRelay(actions) && Inv(After(s, actions)) && After(s, actions).down == []
    decreases |s.down|
  {
    hide Inv, Work;
    if s.down == [] {
      actions := [];
    } else {
      var x := s.down[0];
      var first: seq<Action> := [];
      if !Enabled(s, ClientReceive) {
        LivePump(s, x.id);
        first := Drain(s, x.id);
        assert Enabled(After(s, first), ClientReceive) by { NothingLeft(After(s, first).conns[x.id]); }
      }
      var t := After(s, first);
      StepKeepsInv(t, ClientReceive);
      assert Step(t, ClientReceive).down == t.down[1..];
      var more := ClearDown(Step(t, ClientReceive));
      AfterOne(t, ClientReceive);
      AfterBoth(t, [ClientReceive], more);
      AfterBoth(s, first, [ClientReceive] + more);
      actions := first + ([ClientReceive] + more);
    }
  }

  lemma NothingLeft(c: Conn)
    requires Work(c) == 0
    ensures c.queue == [] && !c.pump.Writing? && !c.pump.Crediting?
  {
  }

  /** And everything on the way up, which leaves queues and pumps alone. */
  lemma {:induction false} ClearUp(s: State, id: uint32) returns (actions: seq<Action>)
    requires Inv(s) && id in s.conns
    ensures AllRelay(actions) && Inv(After(s, actions)) && After(s, actions).up == [] && After(s, actions).down == s.down
    ensures id in After(s, actions).conns && Work(After(s, actions).conns[id]) == Work(s.conns[id])
    decreases |s.up|
  {
    hide Inv;
    if s.up == [] {
      actions := [];
    } else {
      StepKeepsInv(s, ServerReceive);
      var t := Step(s, ServerReceive);
      var more := ClearUp(t, id);
      actions := [ServerReceive] + more;
      AfterOne(s, ServerReceive);
      AfterBoth(s, [ServerReceive], more);
    }
  }

  /** With nothing in transit and the pump done, nothing is outstanding but what is held. */
  lemma AllCreditBack(s: State, id: uint32, p: seq<byte>, left: int)
    requires Waits(s, id, p, left) && s.down == [] && s.up == [] && Work(s.conns[id]) == 0
    ensures s.conns[id].win.outstanding == |p| - left && !s.conns[id].win.closed && s.conns[id].win.limit == LIMIT
  {
    var c := s.conns[id];
    assert ConnOk(c, AheadOf(s.down, id), CreditsOf(s.up, id));
    Nothing();
    NothingLeft(c);
    assert AheadOf([], id) == [] && CreditsOf([], id) == 0;
    hide EntryBytes, OrderOk, PumpOk;
  }

  lemma {:induction false} NeverHolds(s: State, later: seq<Action>, id: uint32, p: seq<byte>)
    requires Inv(s) && LIMIT < |p| && id in After(s, later).conns
    ensures After(s, later).conns[id].proxy != Holding(p)
  {
    hide After;
    AfterKeepsInv(s, later);
    var t := After(s, later);
    assert ConnOk(t.conns[id], AheadOf(t.down, id), CreditsOf(t.up, id));
  }

  ghost predicate CanHold(s: State, id: uint32, p: seq<byte>) {
    exists later :: id in After(s, later).conns && After(s, later).conns[id].proxy == Holding(p)
  }

  /** Credit comes back: pumps and read loops alone can bring a waiting connection to the point where
      its next section takes all it wants, exactly when that is at most the window; with more than
      the window no continuation of any kind ever does. */
  lemma {:induction false} GrantedIffFits(before: seq<Action>, id: uint32, p: seq<byte>, left: int) returns (relays: seq<Action>)
    requires var s := Run(before);
             NoClosing(s, id) && id in s.conns && Steady(s.conns[id]) && s.conns[id].proxy == Acquiring(p, left)
    ensures AllRelay(relays)
    ensures CanHold(Run(before), id, p) <==> |p| <= DEFAULT_STREAM_WINDOW
    ensures |p| <= DEFAULT_STREAM_WINDOW ==>
              var t := After(Run(before), relays + [AcquireStep(id)]); id in t.conns && t.conns[id].proxy == Holding(p)
  {
    hide Step, Waits, Inv, Work, After, NoClosing, Steady;
    var s := Run(before);
    RunKeepsInv(before);
    WaitsNow(s, id, p, left);
    relays := [];
    if |p| <= LIMIT {
      relays := Relays(s, id, p, left);
      WholeGranted(After(s, relays), id, p, left);
      AfterOne(After(s, relays), AcquireStep(id));
      AfterBoth(s, relays, [AcquireStep(id)]);
    } else {
      forall later | id in After(s, later).conns ensures After(s, later).conns[id].proxy != Holding(p) {
        NeverHolds(s, later, id, p);
      }
    }
  }

  lemma WaitsNow(s: State, id: uint32, p: seq<byte>, left: int)
    requires Inv(s) && NoClosing(s, id) && id in s.conns && Steady(s.conns[id]) && s.conns[id].proxy == Acquiring(p, left)
    ensures Waits(s, id, p, left)
  {
  }

  lemma WholeGranted(s: State, id: uint32, p: seq<byte>, left: int)
    requires Waits(s, id, p, left) && |p| <= LIMIT && s.down == [] && s.up == [] && Work(s.conns[id]) == 0
    ensures var t := Step(s, AcquireStep(id)); id in t.conns && t.conns[id].proxy == Holding(p)
  {
    hide Step, Waits, Inv, Work;
    WholeWanted(s, id, p, left);
    AllCreditBack(s, id, p, left);
    GrantedNow(s, id, p);
  }

  /** A payload that fits is still wanted whole. */
  lemma WholeWanted(s: State, id: uint32, p: seq<byte>, left: int)
    requires Waits(s, id, p, left) && |p| <= LIMIT
    ensures left == |p| && id in s.conns && s.conns[id].proxy == Acquiring(p, |p|)
  {
    assert ConnOk(s.conns[id], AheadOf(s.down, id), CreditsOf(s.up, id));
  }

  lemma Relays(s: State, id: uint32, p: seq<byte>, left: int) returns (relays: seq<Action>)
    requires Waits(s, id, p, left)
    ensures AllRelay(relays) && Waits(After(s, relays), id, p, left)
    ensures var t := After(s, relays); t.down == [] && t.up == [] && Work(t.conns[id]) == 0
  {
    hide Step, After, Work, NoClosing;
    var down := ClearDown(s);
    RelaysKeepWaiting(s, down, id, p, left);
    var t1 := After(s, down);
    LivePump(t1, id);
    var pump := Drain(t1, id);
    RelaysKeepWaiting(t1, pump, id, p, left);
    var t2 := After(t1, pump);
    var up := ClearUp(t2, id);
    RelaysKeepWaiting(t2, up, id, p, left);
    AfterBoth(s, down, pump);
    AfterBoth(s, down + pump, up);
    relays := down + pump + up;
  }

  lemma GrantedNow(s: State, id: uint32, p: seq<byte>)
    requires id in s.conns && s.conns[id].proxy == Acquiring(p, |p|) && |p| <= LIMIT
    requires s.conns[id].win.outstanding == 0 && !s.conns[id].win.closed && s.conns[id].win.limit == LIMIT
    ensures var t := Step(s, AcquireStep(id)); id in t.conns && t.conns[id].proxy == Holding(p)
  {
  }

  /** A payload larger than the window: after one section the whole window is taken, the rest never
      fits, and nothing that can happen later lets the payload go. */
  lemma {:induction false} OversizedStuck(p: seq<byte>) returns (actions: seq<Action>)
    requires DEFAULT_STREAM_WINDOW < |p|
    ensures 1 in Run(actions).conns
    ensures var c := Run(actions).conns[1];
            && Steady(c) && c.proxy == Acquiring(p, |p| - DEFAULT_STREAM_WINDOW)
            && c.win.outstanding == DEFAULT_STREAM_WINDOW && !c.win.Fits(c.proxy.left)
    ensures !CanHold(Run(actions), 1, p)
  {
    hide Step;
    actions := [Open(1)] + [ReadPayload(1, p)] + [AcquireStep(1)];
    RunOne([], Open(1));
    assert [] + [Open(1)] == [Open(1)];
    RunOne([Open(1)], ReadPayload(1, p));
    RunOne([Open(1)] + [ReadPayload(1, p)], AcquireStep(1));
    TakesWholeWindow(INIT, p);
    RunKeepsInv(actions);
    hide After;
    forall later | 1 in After(Run(actions), later).conns ensures After(Run(actions), later).conns[1].proxy != Holding(p) {
      NeverHolds(Run(actions), later, 1, p);
    }
  }

  lemma TakesWholeWindow(s: State, p: seq<byte>)
    requires 1 !in s.conns && LIMIT < |p|
    ensures var t := Step(Step(Step(s, Open(1)), ReadPayload(1, p)), AcquireStep(1));
            && 1 in t.conns && Steady(t.conns[1]) && t.conns[1].proxy == Acquiring(p, |p| - LIMIT)
            && t.conns[1].win.outstanding == LIMIT && !t.conns[1].win.Fits(t.conns[1].proxy.left)
  {
    var t2 := Step(Step(s, Open(1)), ReadPayload(1, p));
    assert t2.conns[1] == FRESH.(proxy := Acquiring(p, |p|), read := t2.conns[1].read);
  }

  // ---------- credit after the mapping is gone ----------

  /** An arriving WindowUpdate reaches the window exactly when the connection is still mapped. */
  lemma CreditReachesIff(s: State, id: uint32, delta: uint32)
    requires s.up != [] && s.up[0] == WindowUpdate(id, delta) && 0 < delta && id in s.conns
    ensures id in Step(s, ServerReceive).conns
    ensures Step(s, ServerReceive).conns[id].win.outstanding == s.conns[id].win.outstanding - delta <==> s.conns[id].mapped
    ensures !s.conns[id].mapped ==> Step(s, ServerReceive).conns[id] == s.conns[id]
  {
  }

  /** The mapping is gone, and the listener waits for more than there is room for. */
  predicate Stalled(c: Conn, p: seq<byte>, left: int) {
    !c.mapped && !c.win.closed && c.proxy == Acquiring(p, left) && !c.win.Fits(left)
  }

  lemma StallStays(s: State, a: Action, id: uint32, p: seq<byte>, left: int)
    requires id in s.conns && Stalled(s.conns[id], p, left)
    ensures var t := Step(s, a);
            && id in t.conns && Stalled(t.conns[id], p, left)
            && t.conns[id].win == s.conns[id].win && t.conns[id].acquired == s.conns[id].acquired
  {
  }

  /** Nothing that can happen later lets it take any credit, and nothing ends its wait either: not even
      a teardown finds the connection any more, so nobody closes the window. */
  lemma {:induction false} StalledForEver(s: State, later: seq<Action>, id: uint32, p: seq<byte>, left: int)
    requires id in s.conns && Stalled(s.conns[id], p, left)
    ensures var t := After(s, later);
            && id in t.conns && Stalled(t.conns[id], p, left)
            && t.conns[id].win == s.conns[id].win && t.conns[id].acquired == s.conns[id].acquired
  {
    hide Step, Stalled;
    if later != [] {
      StalledForEver(s, later[..|later| - 1], id, p, left);
      StallStays(After(s, later[..|later| - 1]), later[|later| - 1], id, p, left);
    }
  }

  /** So a payload read after the mapping is gone is ever granted exactly when the window is open and
      has room for all of it at that moment. */
  lemma {:induction false} UnmappedGrantedIff(before: seq<Action>, id: uint32, p: seq<byte>)
    requires var s := Run(before);
             id in s.conns && !s.conns[id].mapped && s.conns[id].proxy == Acquiring(p, |p|)
    ensures var w := Run(before).conns[id].win;
            CanHold(Run(before), id, p) <==> !w.closed && w.outstanding + |p| <= DEFAULT_STREAM_WINDOW
  {
    var s := Run(before);
    RunKeepsInv(before);
    var c := s.conns[id];
    assert c.win.limit == LIMIT && c.win.outstanding <= LIMIT by {
      assert ConnOk(c, AheadOf(s.down, id), CreditsOf(s.up, id));
    }
    hide Inv, After;
    if LIMIT < |p| {
      forall later | id in After(s, later).conns ensures After(s, later).conns[id].proxy != Holding(p) {
        NeverHolds(s, later, id, p);
      }
      WindowNotNegative(s, id);
    } else {
      AfterOne(s, AcquireStep(id));
      OneSection(s, id, p);
      if c.win.closed || !c.win.Fits(|p|) {
        forall later ensures !(id in After(s, later).conns && After(s, later).conns[id].proxy == Holding(p)) {
          if c.win.closed { ClosedForEver(s, later, id, p); } else { StalledForEver(s, later, id, p, |p|); }
        }
      }
    }
  }

  lemma WindowNotNegative(s: State, id: uint32)
    requires Inv(s) && id in s.conns
    ensures 0 <= s.conns[id].win.outstanding
  {
    var c := s.conns[id];
    assert ConnOk(c, AheadOf(s.down, id), CreditsOf(s.up, id));
    hide EntryBytes, AheadOf, CreditsOf, Len, OrderOk, PumpOk;
    assert 0 <= Held(c);
  }

  lemma OneSection(s: State, id: uint32, p: seq<byte>)
    requires id in s.conns && s.conns[id].proxy == Acquiring(p, |p|) && |p| <= LIMIT && s.conns[id].win.limit == LIMIT
    ensures var t := Step(s, AcquireStep(id));
            id in t.conns && (!s.conns[id].win.closed && s.conns[id].win.Fits(|p|) ==> t.conns[id].proxy == Holding(p))
  {
  }

  predicate Shut(c: Conn) {
    c.win.closed && (c.proxy.Gone? || c.proxy.Acquiring?)
  }

  lemma ShutStays(s: State, a: Action, id: uint32)
    requires id in s.conns && Shut(s.conns[id])
    ensures id in Step(s, a).conns && Shut(Step(s, a).conns[id])
  {
  }

  lemma {:induction false} ClosedForEver(s: State, later: seq<Action>, id: uint32, p: seq<byte>)
    requires id in s.conns && Shut(s.conns[id])
    ensures id in After(s, later).conns && After(s, later).conns[id].proxy != Holding(p)
    ensures Shut(After(s, later).conns[id])
  {
    hide Step;
    if later != [] {
      ClosedForEver(s, later[..|later| - 1], id, p);
      ShutStays(After(s, later[..|later| - 1]), later[|later| - 1], id);
    }
  }

  // ---------- full and half close ----------

  /** No longer mapped, the window shut, and so much acquired in all. */
  predicate ShutAt(c: Conn, acquired: int) {
    !c.mapped && c.win.closed && c.acquired == acquired
  }

  lemma ShutAtStays(s: State, a: Action, id: uint32, acquired: int)
    requires id in s.conns && ShutAt(s.conns[id], acquired)
    ensures id in Step(s, a).conns && ShutAt(Step(s, a).conns[id], acquired)
  {
  }

  lemma {:induction false} ShutForEver(s: State, later: seq<Action>, id: uint32, acquired: int)
    requires id in s.conns && ShutAt(s.conns[id], acquired)
    ensures id in After(s, later).conns && ShutAt(After(s, later).conns[id], acquired)
  {
    hide Step, ShutAt;
    if later != [] {
      ShutForEver(s, later[..|later| - 1], id, acquired);
      ShutAtStays(After(s, later[..|later| - 1]), later[|later| - 1], id, acquired);
    }
  }

  predicate OpenUnmapped(c: Conn) {
    !c.mapped && !c.win.closed
  }

  lemma OpenStays(s: State, a: Action, id: uint32)
    requires id in s.conns && OpenUnmapped(s.conns[id])
    ensures id in Step(s, a).conns && OpenUnmapped(Step(s, a).conns[id])
  {
  }

  lemma {:induction false} OpenForEver(s: State, later: seq<Action>, id: uint32)
    requires id in s.conns && OpenUnmapped(s.conns[id])
    ensures id in After(s, later).conns && OpenUnmapped(After(s, later).conns[id])
  {
    hide Step, OpenUnmapped;
    if later != [] {
      OpenForEver(s, later[..|later| - 1], id);
      OpenStays(After(s, later[..|later| - 1]), later[|later| - 1], id);
    }
  }

  /** The server's own close of a connection, or a close frame of the client about to be taken. */
  predicate IsFullClose(s: State, a: Action, id: uint32) {
    a == Teardown(id) || (a.ServerReceive? && s.up != [] && s.up[0] == ClientFull(id))
  }

  predicate IsHalfClose(s: State, a: Action, id: uint32) {
    a.ServerReceive? && s.up != [] && s.up[0] == ClientHalf(id)
  }

  /** A mapped connection that is closed in either way is told apart for ever by its window: after a
      full close it is shut and nothing more is acquired in any continuation, after a half close it
      is open in every continuation. */
  lemma {:induction false} ClosesToldApart(before: seq<Action>, a: Action, later: seq<Action>, id: uint32)
    requires id in Run(before).conns && Run(before).conns[id].mapped
    requires IsFullClose(Run(before), a, id) || IsHalfClose(Run(before), a, id)
    ensures var s, t := Run(before), After(Run(before + [a]), later);
            && id in t.conns && !t.conns[id].mapped
            && (t.conns[id].win.closed <==> IsFullClose(s, a, id))
            && (IsFullClose(s, a, id) ==> t.conns[id].acquired == s.conns[id].acquired)
  {
    hide After;
    var s := Run(before);
    RunKeepsInv(before);
    RunOne(before, a);
    MappedIsOpen(s, id);
    hide Inv;
    OneClose(s, a, id);
    if IsFullClose(s, a, id) {
      ShutForEver(Run(before + [a]), later, id, s.conns[id].acquired);
    } else {
      OpenForEver(Run(before + [a]), later, id);
    }
  }

  lemma MappedIsOpen(s: State, id: uint32)
    requires Inv(s) && id in s.conns && s.conns[id].mapped
    ensures !s.conns[id].win.closed
  {
    assert ConnOk(s.conns[id], AheadOf(s.down, id), CreditsOf(s.up, id));
  }

  lemma OneClose(s: State, a: Action, id: uint32)
    requires id in s.conns && s.conns[id].mapped && !s.conns[id].win.closed
    requires IsFullClose(s, a, id) || IsHalfClose(s, a, id)
    ensures var t := Step(s, a);
            && id in t.conns
            && (if IsFullClose(s, a, id) then ShutAt(t.conns[id], s.conns[id].acquired) else OpenUnmapped(t.conns[id]))
            && t.conns[id].proxy == s.conns[id].proxy
  {
  }

  /** And a listener waiting for credit then ends with its next section, having sent nothing. */
  lemma {:induction false} FullCloseEndsWaiter(before: seq<Action>, a: Action, id: uint32)
    requires id in Run(before).conns && Run(before).conns[id].mapped && Run(before).conns[id].proxy.Acquiring?
    requires IsFullClose(Run(before), a, id)
    ensures var t := Run(before + [a] + [AcquireStep(id)]);
            id in t.conns && t.conns[id].proxy.Gone? && t.conns[id].sent == Run(before).conns[id].sent
  {
    hide After;
    var s := Run(before);
    RunKeepsInv(before);
    RunOne(before, a);
    RunOne(before + [a], AcquireStep(id));
    MappedIsOpen(s, id);
    hide Inv;
    ClosedThenAcquire(s, a, id);
  }

  lemma ClosedThenAcquire(s: State, a: Action, id: uint32)
    requires id in s.conns && s.conns[id].mapped && s.conns[id].proxy.Acquiring? && IsFullClose(s, a, id)
    ensures var t := Step(Step(s, a), AcquireStep(id));
            id in t.conns && t.conns[id].proxy.Gone? && t.conns[id].sent == s.conns[id].sent
  {
  }

  // ---------- closes reach the other end ----------

  /** The client has been told, or the frame that tells it is on its way. */
  ghost predicate ClientTold(s: State, id: uint32) {
    id in s.conns && (!s.conns[id].live || FullClose(id) in s.down)
  }

  ghost predicate ServerTold(s: State, id: uint32) {
    id in s.conns && (!s.conns[id].mapped || ClientFull(id) in s.up)
  }

  lemma ClientToldStays(s: State, a: Action, id: uint32)
    requires ClientTold(s, id)
    ensures ClientTold(Step(s, a), id)
  {
    if Enabled(s, a) && FullClose(id) in s.down && a.ClientReceive? && s.down[0] != FullClose(id) {
      var i :| 0 <= i < |s.down| && s.down[i] == FullClose(id);
      assert s.down[1..][i - 1] == FullClose(id);
    }
  }

  lemma ServerToldStays(s: State, a: Action, id: uint32)
    requires ServerTold(s, id)
    ensures ServerTold(Step(s, a), id)
  {
    if Enabled(s, a) && ClientFull(id) in s.up && a.ServerReceive? && s.up[0] != ClientFull(id) {
      var i :| 0 <= i < |s.up| && s.up[i] == ClientFull(id);
      assert s.up[1..][i - 1] == ClientFull(id);
    }
  }

  lemma {:induction false} ToldForEver(s: State, later: seq<Action>, id: uint32)
    ensures ClientTold(s, id) ==> ClientTold(After(s, later), id)
    ensures ServerTold(s, id) ==> ServerTold(After(s, later), id)
  {
    hide Step, ClientTold, ServerTold;
    if later != [] {
      ToldForEver(s, later[..|later| - 1], id);
      var t := After(s, later[..|later| - 1]);
      if ClientTold(t, id) { ClientToldStays(t, later[|later| - 1], id); }
      if ServerTold(t, id) { ServerToldStays(t, later[|later| - 1], id); }
    }
  }

  /** After a teardown of a mapped connection the client drops it as soon as it has taken what is on the
      way, and after the client's own close or a failed write the server does. */
  lemma {:induction false} CloseReachesPeer(before: seq<Action>, a: Action, later: seq<Action>, id: uint32, k: nat)
    requires id in Run(before).conns && Enabled(Run(before), a)
    requires a == Teardown(id) || a == ClientCloseConn(id) || a == PumpFail(id, k)
    ensures var s, t := Run(before), After(Run(before + [a]), later);
            && id in t.conns
            && (a.Teardown? && s.conns[id].mapped && t.down == [] ==> !t.conns[id].live)
            && (!a.Teardown? && s.conns[id].live && t.up == [] ==> !t.conns[id].mapped)
  {
    hide After;
    var s := Run(before);
    RunOne(before, a);
    var u := Run(before + [a]);
    ToldNow(s, a, id, k);
    ToldForEver(u, later, id);
    StillThere(u, later, id);
  }

  lemma ToldNow(s: State, a: Action, id: uint32, k: nat)
    requires id in s.conns && Enabled(s, a)
    requires a == Teardown(id) || a == ClientCloseConn(id) || a == PumpFail(id, k)
    ensures id in Step(s, a).conns
    ensures a.Teardown? && s.conns[id].mapped ==> ClientTold(Step(s, a), id)
    ensures !a.Teardown? && s.conns[id].live ==> ServerTold(Step(s, a), id)
  {
    if a.Teardown? { assert FullClose(id) in s.down + [FullClose(id)]; } else { assert ClientFull(id) in s.up + [ClientFull(id)]; }
  }

  lemma {:induction false} StillThere(s: State, later: seq<Action>, id: uint32)
    requires id in s.conns
    ensures id in After(s, later).conns
  {
    hide Step;
    if later != [] {
      StillThere(s, later[..|later| - 1], id);
      KeptConn(After(s, later[..|later| - 1]), later[|later| - 1], id);
    }
  }

  lemma KeptConn(s: State, a: Action, id: uint32)
    requires id in s.conns
    ensures id in Step(s, a).conns
    ensures s.conns[id].proxy.Gone? ==> Step(s, a).conns[id].proxy.Gone? && Step(s, a).conns[id].sent == s.conns[id].sent
  {
  }

  lemma QueueStep(s: State, a: Action, id: uint32)
    requires id in Step(s, a).conns
    requires id in s.conns ==> |s.conns[id].queue| <= 32
    ensures |Step(s, a).conns[id].queue| <= 32
  {
    hide AcquireTurn;
  }

  /** The client never has more than 32 entries queued for one connection. */
  lemma {:induction false} QueueBounded(actions: seq<Action>, id: uint32)
    requires id in Run(actions).conns
    ensures |Run(actions).conns[id].queue| <= 32
  {
    hide Step;
    if actions != [] {
      var before := actions[..|actions| - 1];
      if id in Run(before).conns { QueueBounded(before, id); }
      QueueStep(Run(before), actions[|actions| - 1], id);
    }
  }

  /** Closing again at either end does nothing: no second frame, no change. */
  lemma ClosingTwice(before: seq<Action>, id: uint32)
    requires id in Run(before).conns
    ensures !Run(before).conns[id].mapped ==> Run(before + [Teardown(id)]) == Run(before)
    ensures !Run(before).conns[id].live ==> Run(before + [ClientCloseConn(id)]) == Run(before)
  {
    RunOne(before, Teardown(id));
    RunOne(before, ClientCloseConn(id));
    hide Run;
    SetSame(Run(before), id);
  }

  lemma SetSame(s: State, id: uint32)
    requires id in s.conns
    ensures Set(s, id, s.conns[id]) == s
  {
    assert s.conns[id := s.conns[id]] == s.conns;
  }

  /** A failed read ends the listener: it sends nothing more. */
  lemma {:induction false} FailedReadEnds(before: seq<Action>, later: seq<Action>, id: uint32)
    requires id in Run(before).conns && Run(before).conns[id].proxy.Reading?
    ensures var t := After(Run(before + [ReadFail(id)]), later);
            id in t.conns && t.conns[id].proxy.Gone? && t.conns[id].sent == Run(before).conns[id].sent
  {
    hide After;
    RunOne(before, ReadFail(id));
    GoneForGood(Run(before + [ReadFail(id)]), later, id);
  }

  lemma {:induction false} GoneForGood(s: State, later: seq<Action>, id: uint32)
    requires id in s.conns && s.conns[id].proxy.Gone?
    ensures var t := After(s, later); id in t.conns && t.conns[id].proxy.Gone? && t.conns[id].sent == s.conns[id].sent
  {
    hide Step;
    if later != [] {
      GoneForGood(s, later[..|later| - 1], id);
      KeptConn(After(s, later[..|later| - 1]), later[|later| - 1], id);
    }
  }

  // ---------- a run that stalls ----------

  lemma {:induction false} AfterIs(s: State, plan: seq<Action>, states: seq<State>)
    requires |states| == |plan| + 1 && states[0] == s
    requires forall i :: 0 <= i < |plan| ==> states[i + 1] == Step(states[i], plan[i])
    ensures After(s, plan) == states[|plan|]
  {
    hide Step;
    if plan != [] {
      AfterIs(s, plan[..|plan| - 1], states[..|plan|]);
    }
  }

  /** One living connection with nothing queued or in transit. */
  ghost predicate AtRest(s: State, mapped: bool, outstanding: int) {
    && s.down == [] && s.up == [] && 1 in s.conns
    && var c := s.conns[1];
       && c.mapped == mapped && c.live && c.queue == [] && c.pump.Idle?
       && c.win.outstanding == outstanding && c.win.limit == LIMIT && !c.win.closed
  }

  lemma HalfCloses() returns (actions: seq<Action>)
    ensures var s := Run(actions); AtRest(s, false, 0) && s.conns[1].proxy.Reading? && s.conns[1].intranet == []
  {
    actions := [Open(1), ClientHalfClose(1), ServerReceive];
    var s1 := Step(INIT, actions[0]);
    var s2 := Step(s1, actions[1]);
    assert s2 == s1.(up := [ClientHalf(1)]);
    AfterIs(INIT, actions, [INIT, s1, s2, Step(s2, actions[2])]);
  }

  lemma SendsWindow(s: State, p: seq<byte>) returns (actions: seq<Action>)
    requires AtRest(s, false, 0) && s.conns[1].proxy.Reading? && |p| == LIMIT
    ensures var t := After(s, actions);
            && t.down == [ToClient(1, Data(p))] && t.up == [] && 1 in t.conns && t.conns[1].proxy.Reading?
            && AtRest(t.(down := []), false, LIMIT) && t.conns[1].intranet == s.conns[1].intranet
  {
    actions := [ReadPayload(1, p), AcquireStep(1), SendData(1)];
    var s1 := Step(s, actions[0]);
    var s2 := Step(s1, actions[1]);
    assert s2.conns[1].proxy == Holding(p) && s2.conns[1].win.outstanding == LIMIT;
    var s3 := Step(s2, actions[2]);
    assert s3.down == [ToClient(1, Data(p))];
    AfterIs(s, actions, [s, s1, s2, s3]);
  }

  lemma WritesAndCredits(s: State, p: seq<byte>) returns (actions: seq<Action>)
    requires AtRest(s.(down := []), false, LIMIT) && s.down == [ToClient(1, Data(p))] && |p| == LIMIT
    ensures var t := After(s, actions);
            AtRest(t, false, LIMIT) && t.conns[1].intranet == s.conns[1].intranet + p && t.conns[1].proxy == s.conns[1].proxy
  {
    actions := [ClientReceive, PumpTake(1), PumpWrite(1), PumpCredit(1), ServerReceive];
    Writes(s, p);
    var s1, s2 := Step(s, actions[0]), Step(Step(s, actions[0]), actions[1]);
    var s3 := Step(s2, actions[2]);
    CreditLost(s3, s3.conns[1].pump.n);
    hide Step;
    AfterIs(s, actions, [s, s1, s2, s3, Step(s3, actions[3]), Step(Step(s3, actions[3]), actions[4])]);
  }

  lemma Writes(s: State, p: seq<byte>)
    requires AtRest(s.(down := []), false, LIMIT) && s.down == [ToClient(1, Data(p))] && |p| == LIMIT
    ensures var t := Step(Step(Step(s, ClientReceive), PumpTake(1)), PumpWrite(1));
            && t.down == [] && t.up == [] && 1 in t.conns && t.conns[1].pump == Crediting(LIMIT)
            && AtRest(Set(t, 1, t.conns[1].(pump := Idle)), false, LIMIT)
            && t.conns[1].intranet == s.conns[1].intranet + p && t.conns[1].proxy == s.conns[1].proxy
  {
    var s1 := Step(s, ClientReceive);
    assert s1.down == [] && s1.conns[1].queue == [Payload(p)];
    var s2 := Step(s1, PumpTake(1));
    assert s2.conns[1].pump == Writing(p) && s2.conns[1].queue == [];
  }

  lemma CreditLost(s: State, n: nat)
    requires s.down == [] && s.up == [] && 1 in s.conns && s.conns[1].pump == Crediting(n) && n <= LIMIT
    requires AtRest(Set(s, 1, s.conns[1].(pump := Idle)), false, LIMIT)
    ensures var t := Step(Step(s, PumpCredit(1)), ServerReceive);
            AtRest(t, false, LIMIT) && t.conns[1].intranet == s.conns[1].intranet && t.conns[1].proxy == s.conns[1].proxy
  {
    var s1 := Step(s, PumpCredit(1));
    assert s1.up == [WindowUpdate(1, n)] && s1.conns[1].pump.Idle?;
  }

  lemma NoRoomLeft(s: State, q: seq<byte>)
    requires AtRest(s, false, LIMIT) && s.conns[1].proxy.Reading? && q != []
    ensures var t := After(s, [ReadPayload(1, q), AcquireStep(1)]);
            AtRest(t, false, LIMIT) && t.conns[1].proxy == Acquiring(q, |q|) && t.conns[1].intranet == s.conns[1].intranet
  {
    var plan := [ReadPayload(1, q), AcquireStep(1)];
    var s1 := Step(s, plan[0]);
    AfterIs(s, plan, [s, s1, Step(s1, plan[1])]);
  }

  /** A connection at both ends alive: the intranet side half-closes, one more window is sent,
      written to the intranet and credited, and then nothing more can ever be sent on it, while the
      listener waits for ever. */
  lemma {:induction false} HalfClosedStalls(p: seq<byte>, q: seq<byte>) returns (actions: seq<Action>)
    requires |p| == DEFAULT_STREAM_WINDOW && q != []
    ensures var s := Run(actions);
            && AtRest(s, false, DEFAULT_STREAM_WINDOW) && s.conns[1].proxy == Acquiring(q, |q|)
            && s.conns[1].intranet == p && !s.conns[1].win.Fits(|q|)
    ensures forall later :: var t := After(Run(actions), later);
              1 in t.conns && t.conns[1].acquired == Run(actions).conns[1].acquired && t.conns[1].proxy == Acquiring(q, |q|)
  {
    hide After, Step;
    var a := HalfCloses();
    var b := SendsWindow(Run(a), p);
    AfterBoth(INIT, a, b);
    var c := WritesAndCredits(Run(a + b), p);
    AfterBoth(INIT, a + b, c);
    NoRoomLeft(Run(a + b + c), q);
    AfterBoth(INIT, a + b + c, [ReadPayload(1, q), AcquireStep(1)]);
    actions := a + b + c + [ReadPayload(1, q), AcquireStep(1)];
    var s := Run(actions);
    assert [] + p == p;
    forall later ensures var t := After(s, later); 1 in t.conns && t.conns[1].acquired == s.conns[1].acquired && t.conns[1].proxy == Acquiring(q, |q|) {
      StalledForEver(s, later, 1, q, |q|);
    }
  }
}
