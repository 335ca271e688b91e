/** The hub of one session's streams (protocol/star/adapter.go, StreamHub): callers of OpenStream,
    the read loop feeding it, Remove and SessionClosed, in every interleaving of their locked
    sections, channel operations and marks. */
module StreamHub {
  import opened Bytes
  import opened StreamConn

  const ID_WRAP := 0x1_0000_0000

  /** Accepted: made by NewStreamConn.  The others follow one call of OpenStream; Failing: about to
      take its connection out of the hub again. */
  datatype Pc = Accepted | Sending | Waiting | Failing | Opened | Refused

  /** One stream connection.  chan is the ack channel, of capacity one; the rest are histories.
      sends: acks sent to it; dropped: its ack entry was deleted or overwritten before any came;
      lost: its entry in conns was overwritten, or deleted by a removal meant for another connection;
      told: it was closed, or a close item queued. */
  datatype Obj = Obj(
    id: nat, recv: RecvState, pc: Pc, chan: seq<bool>, sends: nat, dropped: bool, lost: bool, told: bool)
  {
    predicate Handed() { pc.Accepted? || pc.Opened? }
    predicate Asking() { pc.Sending? || pc.Waiting? }
  }

  datatype Loop =
    | Idle
    | GotClose(o: nat, item: Item)  // the connection of a close frame looked up
    | Delivering(o: nat, item: Item)
    | AckDue(o: nat, ok: bool)      // the ack entry taken out, the send still due

  datatype Remover = Looked(o: nat) | Deleted(o: nat)

  /** toMark, toAck: what SessionClosed took from the maps and still has to close or answer. */
  datatype State = State(
    objs: seq<Obj>,
    conns: map<nat, nat>, acks: map<nat, nat>, connSeq: nat,
    loop: Loop, removers: map<nat, Remover>,
    dead: bool, toMark: set<nat>, toAck: set<nat>)
  {
    function With(o: nat, x: Obj): State
      requires o < |objs|
    {
      this.(objs := objs[o := x])
    }
  }

  const INIT := State([], map[], map[], 0, Idle, map[], false, {}, {})

  datatype Action =
    | NewStreamConn(id: nat)
    | OpenStream
    | SendOpen(o: nat, ok: bool)
    | TakeAck(o: nat)
    | TimeOut(o: nat)
    | GiveUp(o: nat)
    | FeedData(id: nat, data: seq<byte>)
    | FeedClose(id: nat, half: bool)
    | LoopRemove
    | LoopDeliver
    | LoopDiscard
    | FeedAck(id: nat, ok: bool)
    | LoopAck
    | SessionClosed
    | Mark(o: nat)
    | Answer(o: nat)
    | RemoveLook(t: nat, id: nat)
    | RemoveDelete(t: nat)
    | RemoveMark(t: nat)
    | Read(o: nat, n: nat)
    | Close(o: nat)

  predicate Enabled(s: State, a: Action) {
    match a
    case NewStreamConn(_) => true
    case OpenStream => true
    case SendOpen(o, _) => o < |s.objs| && s.objs[o].pc.Sending?
    case TakeAck(o) => o < |s.objs| && s.objs[o].pc.Waiting? && s.objs[o].chan != []
    case TimeOut(o) => o < |s.objs| && s.objs[o].pc.Waiting?
    case GiveUp(o) => o < |s.objs| && s.objs[o].pc.Failing?
    case FeedData(_, _) => s.loop.Idle?
    case FeedClose(_, _) => s.loop.Idle?
    case LoopRemove => s.loop.GotClose? && s.loop.o < |s.objs|
    case LoopDeliver => s.loop.Delivering? && s.loop.o < |s.objs| && |s.objs[s.loop.o].recv.feed| < FEED_CAP
    case LoopDiscard => s.loop.Delivering? && s.loop.o < |s.objs| && s.objs[s.loop.o].recv.closed.ClosedBy?
    case FeedAck(_, _) => s.loop.Idle?
    case LoopAck => s.loop.AckDue? && s.loop.o < |s.objs| && s.objs[s.loop.o].chan == []
    case SessionClosed => true
    case Mark(o) => o in s.toMark && o < |s.objs|
    case Answer(o) => s.toMark == {} && o in s.toAck && o < |s.objs| && s.objs[o].chan == []
    case RemoveLook(t, _) => t !in s.removers
    case RemoveDelete(t) => t in s.removers && s.removers[t].Looked? && s.removers[t].o < |s.objs|
    case RemoveMark(t) => t in s.removers && s.removers[t].Deleted? && s.removers[t].o < |s.objs|
    case Read(o, _) => o < |s.objs| && s.objs[o].Handed()
    case Close(o) => o < |s.objs| && s.objs[o].Handed()
  }

  function Drop(objs: seq<Obj>, acks: map<nat, nat>, id: nat): (r: seq<Obj>)
    ensures |r| == |objs|
  {
    if id in acks && acks[id] < |objs| then objs[acks[id] := objs[acks[id]].(dropped := true)] else objs
  }

  /** The connection entered under id loses its entry, if it is not who. */
  function Lose(objs: seq<Obj>, conns: map<nat, nat>, id: nat, who: nat): (r: seq<Obj>)
    ensures |r| == |objs|
  {
    if id in conns && conns[id] < |objs| && conns[id] != who then objs[conns[id] := objs[conns[id]].(lost := true)]
    else objs
  }

  /** The locked section of remove, called for the connection who. */
  function Without(s: State, who: nat): (t: State)
    requires who < |s.objs|
    ensures |t.objs| == |s.objs| && t == s.(objs := t.objs, conns := t.conns, acks := t.acks)
  {
    var id := s.objs[who].id;
    s.(objs := Lose(Drop(s.objs, s.acks, id), s.conns, id, who), conns := s.conns - {id}, acks := s.acks - {id})
  }

  /** A connection is entered under its number, in place of whatever was there. */
  function Enter(s: State, x: Obj): (t: State)
    ensures t == s.(objs := t.objs, conns := t.conns)
  {
    s.(objs := Lose(s.objs, s.conns, x.id, |s.objs|) + [x], conns := s.conns[x.id := |s.objs|])
  }

  function Acked(x: Obj, ok: bool): Obj {
    x.(chan := x.chan + [ok], sends := x.sends + 1)
  }

  function Marked(x: Obj, reason: CloseReason): Obj {
    x.(recv := x.recv.Mark(reason), told := true)
  }

  function Fresh(id: nat, pc: Pc): Obj {
    Obj(id, FRESH_RECV, pc, [], 0, false, false, false)
  }

  function NextId(s: State): nat {
    (s.connSeq + 1) % ID_WRAP
  }

  function Apply(s: State, a: Action): State
    requires Enabled(s, a)
  {
    match a
    case NewStreamConn(id) =>
      if s.dead then s else Enter(s, Fresh(id, Accepted))
    case OpenStream =>
      var id := NextId(s);
      if s.dead then s
      else
        var t := Enter(s.(objs := Drop(s.objs, s.acks, id)), Fresh(id, Sending));
        t.(acks := s.acks[id := |s.objs|], connSeq := id)
    case SendOpen(o, ok) => s.With(o, s.objs[o].(pc := if ok then Waiting else Failing))
    case TakeAck(o) =>
      s.With(o, s.objs[o].(chan := s.objs[o].chan[1..], pc := if s.objs[o].chan[0] then Opened else Failing))
    case TimeOut(o) => s.With(o, s.objs[o].(pc := Failing))
    case GiveUp(o) => Without(s.With(o, s.objs[o].(pc := Refused)), o)
    case FeedData(id, data) => if id in s.conns then s.(loop := Delivering(s.conns[id], Data(data))) else s
    case FeedClose(id, half) => if id in s.conns then s.(loop := GotClose(s.conns[id], if half then Half else Full)) else s
    case LoopRemove => Without(s.(loop := Delivering(s.loop.o, s.loop.item)), s.loop.o)
    case LoopDeliver =>
      var x := s.objs[s.loop.o];
      s.With(s.loop.o, x.(recv := x.recv.(feed := x.recv.feed + [s.loop.item]), told := x.told || s.loop.item.IsClose()))
        .(loop := Idle)
    case LoopDiscard => s.(loop := Idle)
    case FeedAck(id, ok) =>
      if id in s.acks then s.(loop := AckDue(s.acks[id], ok), acks := s.acks - {id}) else s
    case LoopAck => s.With(s.loop.o, Acked(s.objs[s.loop.o], s.loop.ok)).(loop := Idle)
    case SessionClosed =>
      if s.dead then s
      else s.(dead := true, toMark := s.conns.Values, toAck := s.acks.Values, conns := map[], acks := map[])
    case Mark(o) => s.With(o, Marked(s.objs[o], SessionEOF)).(toMark := s.toMark - {o})
    case Answer(o) => s.With(o, Acked(s.objs[o], false)).(toAck := s.toAck - {o})
    case RemoveLook(t, id) => if id in s.conns then s.(removers := s.removers[t := Looked(s.conns[id])]) else s
    case RemoveDelete(t) =>
      var o := s.removers[t].o;
      Without(s.(removers := s.removers[t := Deleted(o)]), o)
    case RemoveMark(t) =>
      var o := s.removers[t].o;
      s.With(o, Marked(s.objs[o], NetErrClosed)).(removers := s.removers - {t})
    case Read(o, n) => s.With(o, s.objs[o].(recv := ReadCall(s.objs[o].recv, n).0))
    case Close(o) => s.With(o, Marked(s.objs[o], NetErrClosed))
  }

  function Step(s: State, a: Action): State {
    if Enabled(s, a) then Apply(s, a) else s
  }

  function Run(actions: seq<Action>): State {
    if actions == [] then INIT
    else Step(Run(actions[..|actions| - 1]), actions[|actions| - 1])
  }

  // ---------- what a connection can still expect ----------

  predicate HasClose(feed: seq<Item>) {
    exists i :: 0 <= i < |feed| && feed[i].IsClose()
  }

  /** Closed, a close item queued, or EOF already read. */
  predicate Finishing(r: RecvState) {
    r.closed.ClosedBy? || HasClose(r.feed) || r.readEOF
  }

  predicate InConns(s: State, o: nat)
    requires o < |s.objs|
  {
    s.objs[o].id in s.conns && s.conns[s.objs[o].id] == o
  }

  predicate InAcks(s: State, o: nat)
    requires o < |s.objs|
  {
    s.objs[o].id in s.acks && s.acks[s.objs[o].id] == o
  }

  /** Some thread is about to close o or to queue its close item. */
  ghost predicate CloseDue(s: State, o: nat) {
    || o in s.toMark
    || (s.loop.GotClose? && s.loop.o == o)
    || (s.loop.Delivering? && s.loop.o == o && s.loop.item.IsClose())
    || Removing(s, o)
  }

  /** A call of Remove has found o and not yet closed it. */
  ghost predicate Removing(s: State, o: nat) {
    exists t <- s.removers :: s.removers[t].o == o
  }

  predicate AnswerDue(s: State, o: nat) {
    o in s.toAck || (s.loop.AckDue? && s.loop.o == o)
  }

  function One(b: bool): nat { if b then 1 else 0 }

  /** The ack of an OpenStream is in exactly one place: still expected, due, sent, or given up. */
  function AckCount(s: State, o: nat): nat
    requires o < |s.objs|
  {
    One(InAcks(s, o)) + One(o in s.toAck) + One(s.loop.AckDue? && s.loop.o == o) + s.objs[o].sends + One(s.objs[o].dropped)
  }

  ghost predicate Shape(s: State) {
    && (forall id <- s.conns :: s.conns[id] < |s.objs| && s.objs[s.conns[id]].id == id)
    && (forall id <- s.acks :: s.acks[id] < |s.objs| && s.objs[s.acks[id]].id == id)
    && (forall o <- s.toMark :: o < |s.objs|) && (forall o <- s.toAck :: o < |s.objs|)
    && (!s.loop.Idle? ==> s.loop.o < |s.objs|)
    && (s.loop.GotClose? ==> s.loop.item.IsClose())
    && (forall t <- s.removers :: s.removers[t].o < |s.objs|)
    && (if s.dead then s.conns == map[] && s.acks == map[] else s.toMark == {} && s.toAck == {})
  }

  ghost predicate AckOk(s: State, o: nat)
    requires o < |s.objs|
  {
    var x := s.objs[o];
    && AckCount(s, o) <= 1
    && |x.chan| <= x.sends
    && (x.Asking() ==> |x.chan| == x.sends && AckCount(s, o) == 1)
  }

  ghost predicate ConnOk(s: State, o: nat)
    requires o < |s.objs|
  {
    var x := s.objs[o];
    && ((x.Handed() || x.Asking()) && !x.lost ==> InConns(s, o) || Finishing(x.recv) || CloseDue(s, o))
    && (Finishing(x.recv) <==> x.told)
  }

  ghost predicate Inv(s: State) {
    Shape(s) && forall o :: 0 <= o < |s.objs| ==> AckOk(s, o) && ConnOk(s, o)
  }

  // ---------- the steps keep it ----------

  lemma HeadOrTail(feed: seq<Item>)
    requires feed != []
    ensures HasClose(feed) <==> feed[0].IsClose() || HasClose(feed[1..])
  {
    if HasClose(feed) && !feed[0].IsClose() {
      var i :| 0 <= i < |feed| && feed[i].IsClose();
      assert feed[1..][i - 1].IsClose();
    }
    if HasClose(feed[1..]) {
      var i :| 0 <= i < |feed[1..]| && feed[1..][i].IsClose();
      assert feed[i + 1].IsClose();
    }
  }

  /** Reading neither brings a connection nearer to its end nor takes it back. */
  lemma {:induction false} ReadKeepsFinishing(r: RecvState, n: nat)
    ensures Finishing(ReadCall(r, n).0) <==> Finishing(r)
    decreases |r.feed|
  {
    hide HasClose;
    var (r', out) := ReadTurn(r, n);
    if r.feed != [] { HeadOrTail(r.feed); }
    if out.Again? { ReadKeepsFinishing(r', n); }
  }

  /** A reader of such a connection is never left blocked. */
  lemma {:induction false} FinishingNeverBlocks(r: RecvState, n: nat)
    requires Finishing(r)
    ensures !ReadCall(r, n).1.Blocked?
    decreases |r.feed|
  {
    hide HasClose;
    var (r', out) := ReadTurn(r, n);
    if r.feed != [] { HeadOrTail(r.feed); } else { assert !HasClose(r.feed) by { NothingQueued(); } }
    if out.Again? { FinishingNeverBlocks(r', n); }
  }

  lemma NothingQueued()
    ensures !HasClose([])
  {
  }

  /** After reads with the buffers ns. */
  function AfterReads(r: RecvState, ns: seq<nat>): RecvState
    decreases |ns|
  {
    if ns == [] then r else AfterReads(ReadCall(r, ns[0]).0, ns[1..])
  }

  /** A reader of any other connection that goes on reading ends up blocked. */
  lemma {:induction false} UnfinishedBlocks(r: RecvState) returns (ns: seq<nat>)
    requires !Finishing(r)
    ensures ReadCall(AfterReads(r, ns), 1).1.Blocked?
    decreases |r.feed|, |r.pending|
  {
    hide HasClose;
    if ReadCall(r, 1).1.Blocked? {
      ns := [];
    } else {
      var (r', out) := ReadCall(r, 1);
      ReadKeepsFinishing(r, 1);
      ReadMoves(r);
      var more := UnfinishedBlocks(r');
      ns := [1] + more;
      assert ns[1..] == more;
    }
  }

  lemma {:induction false} ReadMoves(r: RecvState)
    requires !Finishing(r) && !ReadCall(r, 1).1.Blocked?
    ensures var r' := ReadCall(r, 1).0;
            |r'.feed| < |r.feed| || (|r'.feed| == |r.feed| && |r'.pending| < |r.pending|)
    decreases |r.feed|
  {
    hide HasClose;
    var (r', out) := ReadTurn(r, 1);
    if r.feed != [] { HeadOrTail(r.feed); }
    if out.Again? { ReadMoves(r'); }
  }

  lemma QueuedClose(feed: seq<Item>, item: Item)
    ensures HasClose(feed + [item]) <==> HasClose(feed) || item.IsClose()
  {
    var longer := feed + [item];
    if HasClose(feed) {
      var i :| 0 <= i < |feed| && feed[i].IsClose();
      assert longer[i].IsClose();
    }
    if item.IsClose() { assert longer[|feed|].IsClose(); }
  }

  /** The actions that use the locked section of remove. */
  predicate Removes(a: Action) {
    a.GiveUp? || a.LoopRemove? || a.RemoveDelete?
  }

  predicate Creates(a: Action) {
    a.NewStreamConn? || a.OpenStream?
  }

  /** The actions of the read loop, of SessionClosed and of Remove's first look. */
  predicate Looks(a: Action) {
    a.FeedData? || a.FeedClose? || a.FeedAck? || a.LoopDiscard? || a.SessionClosed? || a.RemoveLook?
  }

  predicate Touches(a: Action) {
    !Removes(a) && !Creates(a) && !Looks(a)
  }

  /** The connection a Touches action changes. */
  function Touched(s: State, a: Action): nat
    requires Enabled(s, a) && Touches(a)
  {
    match a
    case SendOpen(o, _) => o
    case TakeAck(o) => o
    case TimeOut(o) => o
    case Mark(o) => o
    case Answer(o) => o
    case Read(o, _) => o
    case Close(o) => o
    case LoopDeliver => s.loop.o
    case LoopAck => s.loop.o
    case RemoveMark(t) => s.removers[t].o
  }

  lemma TouchesOne(s: State, a: Action)
    requires Enabled(s, a) && Touches(a)
    ensures var s', o := Step(s, a), Touched(s, a);
            && o < |s.objs| == |s'.objs| && s'.objs == s.objs[o := s'.objs[o]] && s'.objs[o].id == s.objs[o].id
            && s'.objs[o].dropped == s.objs[o].dropped
            && s'.conns == s.conns && s'.acks == s.acks && s'.dead == s.dead
            && s'.toMark == (if a.Mark? then s.toMark - {o} else s.toMark)
            && s'.toAck == (if a.Answer? then s.toAck - {o} else s.toAck)
            && s'.loop == (if a.LoopDeliver? || a.LoopAck? then Idle else s.loop)
            && s'.removers == (if a.RemoveMark? then s.removers - {a.t} else s.removers)
  {
    hide ReadCall;
  }

  lemma ShapeTouched(s: State, a: Action)
    requires Shape(s) && Enabled(s, a) && Touches(a)
    ensures Shape(Step(s, a))
  {
    hide Step, Touches;
    TouchesOne(s, a);
  }

  lemma ShapeWithout(s: State, who: nat)
    requires Shape(s) && who < |s.objs|
    ensures Shape(Without(s, who))
  {
  }

  lemma ShapeRemoved(s: State, a: Action)
    requires Shape(s) && Removes(a) && Enabled(s, a)
    ensures Shape(Step(s, a))
  {
    hide Without;
    match a
    case GiveUp(o) =>
      ShapeWithout(s.With(o, s.objs[o].(pc := Refused)), o);
    case LoopRemove =>
      ShapeWithout(s.(loop := Delivering(s.loop.o, s.loop.item)), s.loop.o);
    case RemoveDelete(t) =>
      ShapeWithout(s.(removers := s.removers[t := Deleted(s.removers[t].o)]), s.removers[t].o);
    case _ =>
  }

  lemma ShapeEntered(s: State, x: Obj)
    requires Shape(s) && !s.dead
    ensures Shape(Enter(s, x))
  {
  }

  lemma ShapeDropped(s: State, id: nat)
    requires Shape(s)
    ensures Shape(s.(objs := Drop(s.objs, s.acks, id)))
  {
  }

  lemma ShapeCreated(s: State, a: Action)
    requires Shape(s) && Creates(a)
    ensures Shape(Step(s, a))
  {
    hide Drop;
    if !s.dead {
      if a.NewStreamConn? {
        ShapeEntered(s, Fresh(a.id, Accepted));
      } else {
        var mid, x := s.(objs := Drop(s.objs, s.acks, NextId(s))), Fresh(NextId(s), Sending);
        ShapeDropped(s, NextId(s));
        ShapeEntered(mid, x);
        assert Enter(mid, x).objs[|s.objs|] == x;
        hide Enter;
      }
    }
  }

  lemma ShapeLooked(s: State, a: Action)
    requires Shape(s) && Looks(a) && Enabled(s, a)
    ensures Shape(Step(s, a))
  {
  }

  lemma StepKeepsShape(s: State, a: Action)
    requires Shape(s)
    ensures Shape(Step(s, a))
  {
    hide Shape, Apply;
    if Enabled(s, a) {
      if Removes(a) { ShapeRemoved(s, a); }
      else if Creates(a) { ShapeCreated(s, a); }
      else if Looks(a) { ShapeLooked(s, a); }
      else { ShapeTouched(s, a); }
    }
  }

  /** Connections never go away and keep their numbers. */
  lemma StepGrows(s: State, a: Action)
    ensures |s.objs| <= |Step(s, a).objs|
    ensures forall o :: 0 <= o < |s.objs| ==> Step(s, a).objs[o].id == s.objs[o].id
  {
    hide ReadCall;
  }

  // the acks

  lemma AckTouched(s: State, a: Action, o: nat)
    requires Shape(s) && Enabled(s, a) && Touches(a) && o < |s.objs| && AckOk(s, o)
    ensures o < |Step(s, a).objs| && AckOk(Step(s, a), o)
  {
    hide ReadCall;
  }

  lemma AckWithout(s: State, who: nat, o: nat)
    requires Shape(s) && who < |s.objs| && o < |s.objs| && AckOk(s, o)
    ensures AckOk(Without(s, who), o)
  {
  }

  lemma AckRemoved(s: State, a: Action, o: nat)
    requires Shape(s) && Enabled(s, a) && Removes(a) && o < |s.objs| && AckOk(s, o)
    ensures o < |Step(s, a).objs| && AckOk(Step(s, a), o)
  {
    hide Without;
    match a
    case GiveUp(g) =>
      var mid := s.With(g, s.objs[g].(pc := Refused));
      assert AckOk(mid, o);
      ShapeRefused(s, g);
      AckWithout(mid, g, o);
    case LoopRemove =>
      AckWithout(s.(loop := Delivering(s.loop.o, s.loop.item)), s.loop.o, o);
    case RemoveDelete(t) =>
      AckWithout(s.(removers := s.removers[t := Deleted(s.removers[t].o)]), s.removers[t].o, o);
    case _ =>
  }

  lemma ShapeRefused(s: State, g: nat)
    requires Shape(s) && g < |s.objs|
    ensures Shape(s.With(g, s.objs[g].(pc := Refused)))
  {
  }

  lemma AckCreated(s: State, a: Action, o: nat)
    requires Shape(s) && Creates(a) && o < |s.objs| && AckOk(s, o)
    ensures o < |Step(s, a).objs| && AckOk(Step(s, a), o)
  {
  }

  lemma AckLooked(s: State, a: Action, o: nat)
    requires Shape(s) && Enabled(s, a) && Looks(a) && o < |s.objs| && AckOk(s, o)
    ensures o < |Step(s, a).objs| && AckOk(Step(s, a), o)
  {
    if a.SessionClosed? { assert o in s.acks.Values <==> InAcks(s, o); }
  }

  lemma StepKeepsAck(s: State, a: Action, o: nat)
    requires Shape(s) && o < |s.objs| && AckOk(s, o)
    ensures o < |Step(s, a).objs| && AckOk(Step(s, a), o)
  {
    hide Shape, Apply, AckOk;
    if Enabled(s, a) {
      if Removes(a) { AckRemoved(s, a, o); }
      else if Creates(a) { AckCreated(s, a, o); }
      else if Looks(a) { AckLooked(s, a, o); }
      else { AckTouched(s, a, o); }
    }
  }

  // the closes

  lemma StillRemoving(s: State, a: Action, o: nat)
    requires Shape(s) && Enabled(s, a) && Removing(s, o) && o < |s.objs|
    ensures Removing(Step(s, a), o) || (o < |Step(s, a).objs| && Finishing(Step(s, a).objs[o].recv))
  {
    hide ReadCall, Without;
    var s' := Step(s, a);
    var t :| t in s.removers && s.removers[t].o == o;
    if a.RemoveMark? && a.t == t {
      assert s'.objs[o].recv.closed.ClosedBy?;
    } else {
      assert t in s'.removers && s'.removers[t].o == o by { RemoversOf(s, a, t); }
    }
  }

  lemma RemoversOf(s: State, a: Action, t: nat)
    requires Enabled(s, a) && t in s.removers && !(a.RemoveMark? && a.t == t)
    ensures t in Step(s, a).removers && Step(s, a).removers[t].o == s.removers[t].o
  {
    hide ReadCall;
  }

  lemma ConnTouched(s: State, a: Action, o: nat)
    requires Shape(s) && Enabled(s, a) && Touches(a) && o < |s.objs| && ConnOk(s, o)
    ensures o < |Step(s, a).objs| && ConnOk(Step(s, a), o)
  {
    hide ReadCall, HasClose, Removing, Finishing;
    TouchesOne(s, a);
    if Removing(s, o) { StillRemoving(s, a, o); }
    if Touched(s, a) == o { ConnChanged(s, a); }
  }

  /** What happens to the connection an action touches. */
  lemma ConnChanged(s: State, a: Action)
    requires Shape(s) && Enabled(s, a) && Touches(a)
    ensures Touched(s, a) < |s.objs| == |Step(s, a).objs|
    ensures var x, x' := s.objs[Touched(s, a)], Step(s, a).objs[Touched(s, a)];
            && x'.lost == x.lost && (x.Handed() ==> x'.Handed()) && (x'.Handed() || x'.Asking() ==> x.Handed() || x.Asking())
            && (Finishing(x'.recv) <==> Finishing(x.recv) || a.Mark? || a.RemoveMark? || a.Close?
                                        || (a.LoopDeliver? && s.loop.item.IsClose()))
            && (x'.told <==> x.told || a.Mark? || a.RemoveMark? || a.Close? || (a.LoopDeliver? && s.loop.item.IsClose()))
  {
    hide ReadCall, HasClose;
    if a.Read? { ReadKeepsFinishing(s.objs[a.o].recv, a.n); }
    if a.LoopDeliver? { QueuedClose(s.objs[s.loop.o].recv.feed, s.loop.item); }
  }

  lemma ConnWithout(s: State, who: nat, o: nat)
    requires Shape(s) && who < |s.objs| && o < |s.objs| && ConnOk(s, o)
    requires CloseDue(s, who) || s.objs[who].pc.Refused?
    ensures ConnOk(Without(s, who), o)
  {
    hide HasClose;
    var t := Without(s, who);
    assert t.removers == s.removers && t.objs[o].recv == s.objs[o].recv && t.objs[o].pc == s.objs[o].pc;
    assert Removing(t, o) <==> Removing(s, o);
    hide Removing;
  }

  lemma ConnRemoved(s: State, a: Action, o: nat)
    requires Shape(s) && Enabled(s, a) && Removes(a) && o < |s.objs| && ConnOk(s, o)
    ensures o < |Step(s, a).objs| && ConnOk(Step(s, a), o)
  {
    hide HasClose, Without;
    match a
    case GiveUp(g) =>
      var mid := s.With(g, s.objs[g].(pc := Refused));
      ShapeRefused(s, g);
      assert Removing(mid, o) <==> Removing(s, o);
      ConnWithout(mid, g, o);
    case LoopRemove =>
      var mid := s.(loop := Delivering(s.loop.o, s.loop.item));
      assert Removing(mid, o) <==> Removing(s, o);
      ConnWithout(mid, s.loop.o, o);
    case RemoveDelete(t) =>
      var mid := s.(removers := s.removers[t := Deleted(s.removers[t].o)]);
      assert mid.removers[t].o == s.removers[t].o;
      assert Removing(s, o) ==> Removing(mid, o) by { SameRemovers(s, mid, o); }
      ConnWithout(mid, s.removers[t].o, o);
    case _ =>
  }

  lemma SameRemovers(s: State, t: State, o: nat)
    requires s.removers.Keys == t.removers.Keys && forall k <- s.removers :: s.removers[k].o == t.removers[k].o
    ensures Removing(s, o) ==> Removing(t, o)
  {
    if Removing(s, o) {
      var k :| k in s.removers && s.removers[k].o == o;
      assert k in t.removers && t.removers[k].o == o;
    }
  }

  lemma ConnCreated(s: State, a: Action, o: nat)
    requires Shape(s) && Creates(a) && o < |s.objs| && ConnOk(s, o)
    ensures o < |Step(s, a).objs| && ConnOk(Step(s, a), o)
  {
    hide HasClose;
    var t := Step(s, a);
    assert t.removers == s.removers;
    assert Removing(t, o) <==> Removing(s, o);
    hide Removing;
    assert o < |t.objs| && t.objs[o] == s.objs[o].(dropped := t.objs[o].dropped, lost := t.objs[o].lost);
    hide Finishing;
  }

  lemma ConnLooked(s: State, a: Action, o: nat)
    requires Shape(s) && Enabled(s, a) && Looks(a) && o < |s.objs| && ConnOk(s, o)
    ensures o < |Step(s, a).objs| && ConnOk(Step(s, a), o)
  {
    hide HasClose, Removing;
    if Removing(s, o) { StillRemoving(s, a, o); }
    if a.SessionClosed? { assert o in s.conns.Values <==> InConns(s, o); }
  }

  lemma StepKeepsConn(s: State, a: Action, o: nat)
    requires Shape(s) && o < |s.objs| && ConnOk(s, o)
    ensures o < |Step(s, a).objs| && ConnOk(Step(s, a), o)
  {
    hide Shape, Apply, ConnOk;
    if Enabled(s, a) {
      if Removes(a) { ConnRemoved(s, a, o); }
      else if Creates(a) { ConnCreated(s, a, o); }
      else if Looks(a) { ConnLooked(s, a, o); }
      else { ConnTouched(s, a, o); }
    }
  }

  // ---------- every run ----------

  lemma NewcomerOk(s: State, a: Action)
    requires Shape(s) && Creates(a) && !s.dead
    ensures var s' := Step(s, a); |s'.objs| == |s.objs| + 1 && AckOk(s', |s.objs|) && ConnOk(s', |s.objs|)
  {
  }

  lemma StepCount(s: State, a: Action)
    ensures |Step(s, a).objs| == |s.objs| + if Creates(a) && !s.dead then 1 else 0
  {
    hide ReadCall;
  }

  lemma {:induction false} RunKeepsInv(actions: seq<Action>)
    ensures Inv(Run(actions))
  {
    hide Step, Shape, AckOk, ConnOk;
    if actions == [] {
      assert Shape(INIT) by { InitShape(); }
    } else {
      var s, a := Run(actions[..|actions| - 1]), actions[|actions| - 1];
      RunKeepsInv(actions[..|actions| - 1]);
      StepKeepsShape(s, a);
      StepCount(s, a);
      var s' := Step(s, a);
      forall o | 0 <= o < |s'.objs| ensures AckOk(s', o) && ConnOk(s', o) {
        if o < |s.objs| {
          StepKeepsAck(s, a, o);
          StepKeepsConn(s, a, o);
        } else {
          NewcomerOk(s, a);
        }
      }
    }
  }

  lemma InitShape()
    ensures Shape(INIT)
  {
  }

  lemma {:induction false} RunFrom(actions: seq<Action>, more: seq<Action>)
    requires Run(actions).dead
    ensures Run(actions + more).dead
  {
    hide Apply;
    if more == [] {
      assert actions + more == actions;
    } else {
      var all := actions + more;
      assert all[..|all| - 1] == actions + more[..|more| - 1];
      RunFrom(actions, more[..|more| - 1]);
      StaysDead(Run(all[..|all| - 1]), all[|all| - 1]);
    }
  }

  lemma StaysDead(s: State, a: Action)
    requires s.dead
    ensures Step(s, a).dead
  {
    hide ReadCall;
  }

  /** After SessionClosed the maps stay empty, whatever anyone does afterwards. */
  lemma MapsStayEmpty(actions: seq<Action>, more: seq<Action>)
    requires Run(actions).dead
    ensures Run(actions + more).conns == map[] && Run(actions + more).acks == map[]
  {
    hide Run, Step;
    RunFrom(actions, more);
    RunKeepsInv(actions + more);
  }

  /** And once nothing is due to it any more, no connection handed out can leave a reader blocked,
      unless its entry was overwritten or deleted on another connection's account. */
  lemma {:induction false} NoReaderLeft(actions: seq<Action>, o: nat, n: nat)
    requires var s := Run(actions);
             s.dead && o < |s.objs| && s.objs[o].Handed() && !s.objs[o].lost && !CloseDue(s, o)
    ensures Finishing(Run(actions).objs[o].recv) && !ReadCall(Run(actions).objs[o].recv, n).1.Blocked?
  {
    hide Run, ReadCall, Finishing, CloseDue;
    RunKeepsInv(actions);
    var s := Run(actions);
    assert ConnOk(s, o);
    FinishingNeverBlocks(s.objs[o].recv, n);
  }

  /** Exactly: its reader ends up blocked just when it was so lost and, besides, nobody closed it and
      no close item was ever queued. */
  lemma ReaderLeftExactly(actions: seq<Action>, o: nat)
    requires var s := Run(actions);
             s.dead && o < |s.objs| && s.objs[o].Handed() && !CloseDue(s, o)
    ensures var x := Run(actions).objs[o];
            (exists ns :: ReadCall(AfterReads(x.recv, ns), 1).1.Blocked?) <==> x.lost && !x.told
  {
    hide Run, ReadCall, Finishing, CloseDue, AfterReads;
    RunKeepsInv(actions);
    var s := Run(actions);
    var r := s.objs[o].recv;
    assert ConnOk(s, o);
    if Finishing(r) {
      forall ns ensures !ReadCall(AfterReads(r, ns), 1).1.Blocked? {
        ReadsKeepFinishing(r, ns);
        FinishingNeverBlocks(AfterReads(r, ns), 1);
      }
    } else {
      var ns := UnfinishedBlocks(r);
    }
  }

  lemma {:induction false} ReadsKeepFinishing(r: RecvState, ns: seq<nat>)
    requires Finishing(r)
    ensures Finishing(AfterReads(r, ns))
    decreases |ns|
  {
    hide ReadCall, Finishing;
    if ns != [] {
      ReadKeepsFinishing(r, ns[0]);
      ReadsKeepFinishing(ReadCall(r, ns[0]).0, ns[1..]);
    }
  }

  // ---------- whom OpenStream hands out ----------

  /** The read loop takes an answer for o out of the acks. */
  predicate AnswerHits(s: State, a: Action, o: nat, ok: bool) {
    a.FeedAck? && a.ok == ok && Enabled(s, a) && a.id in s.acks && s.acks[a.id] == o
  }

  predicate SweepHits(s: State, a: Action, o: nat) {
    a.SessionClosed? && !s.dead && o in s.acks.Values
  }

  /** An answer with this ok was fed for o. */
  predicate Answered(actions: seq<Action>, o: nat, ok: bool) {
    actions != [] &&
    var before, a := actions[..|actions| - 1], actions[|actions| - 1];
    Answered(before, o, ok) || AnswerHits(Run(before), a, o, ok)
  }

  /** The session ended while o's answer was still expected. */
  predicate Swept(actions: seq<Action>, o: nat) {
    actions != [] &&
    var before, a := actions[..|actions| - 1], actions[|actions| - 1];
    Swept(before, o) || SweepHits(Run(before), a, o)
  }

  /** The caller took its answer. */
  predicate Took(actions: seq<Action>, o: nat) {
    actions != [] &&
    var before, a := actions[..|actions| - 1], actions[|actions| - 1];
    Took(before, o) || (a == TakeAck(o) && Enabled(Run(before), a))
  }

  /** granted, refused, swept, took: what happened to o so far. */
  ghost predicate OpenerOk(s: State, o: nat, granted: bool, refused: bool, swept: bool, took: bool)
    requires o < |s.objs|
  {
    var x := s.objs[o];
    && One(granted) + One(refused) + One(swept) + One(InAcks(s, o)) <= 1
    && (s.loop.AckDue? && s.loop.o == o ==> if s.loop.ok then granted else refused)
    && (o in s.toAck ==> swept)
    && (x.chan != [] ==> x.chan == [granted])
    && (x.pc.Accepted? ==> AckCount(s, o) == 0 && !granted && !refused && !swept)
    && (took ==> !x.Asking() && !x.pc.Accepted? && x.sends == 1)
    && (x.pc.Opened? <==> took && granted)
  }

  lemma OpenerTouched(s: State, a: Action, o: nat, g: bool, r: bool, w: bool, t: bool)
    requires Shape(s) && Enabled(s, a) && Touches(a) && o < |s.objs| && AckOk(s, o) && OpenerOk(s, o, g, r, w, t)
    ensures o < |Step(s, a).objs| && OpenerOk(Step(s, a), o, g, r, w, t || a == TakeAck(o))
  {
    hide ReadCall, Shape;
    TouchesOne(s, a);
    if Touched(s, a) == o {
      OpenerChanged(s, a, g, r, w, t);
    } else {
      hide Apply, Touched;
    }
  }

  lemma OpenerChanged(s: State, a: Action, g: bool, r: bool, w: bool, t: bool)
    requires Enabled(s, a) && Touches(a) && Touched(s, a) < |s.objs| == |Step(s, a).objs|
    requires var o := Touched(s, a); AckOk(s, o) && OpenerOk(s, o, g, r, w, t)
    ensures OpenerOk(Step(s, a), Touched(s, a), g, r, w, t || a == TakeAck(Touched(s, a)))
  {
    hide ReadCall;
  }

  lemma OpenerWithout(s: State, who: nat, o: nat, g: bool, r: bool, w: bool, t: bool)
    requires Shape(s) && who < |s.objs| && o < |s.objs| && AckOk(s, o) && OpenerOk(s, o, g, r, w, t)
    ensures OpenerOk(Without(s, who), o, g, r, w, t)
  {
  }

  /** Where the loop holds a close and what removers do is nothing to an opener. */
  lemma OpenerElsewhere(s: State, mid: State, o: nat, g: bool, r: bool, w: bool, t: bool)
    requires o < |s.objs| && AckOk(s, o) && OpenerOk(s, o, g, r, w, t)
    requires mid == s.(loop := mid.loop, removers := mid.removers)
    requires mid.loop == s.loop || (!mid.loop.AckDue? && !s.loop.AckDue?)
    ensures AckOk(mid, o) && OpenerOk(mid, o, g, r, w, t)
  {
  }

  lemma OpenerGivesUp(s: State, who: nat, o: nat, g: bool, r: bool, w: bool, t: bool)
    requires who < |s.objs| && s.objs[who].pc.Failing? && o < |s.objs| && AckOk(s, o) && OpenerOk(s, o, g, r, w, t)
    ensures var mid := s.With(who, s.objs[who].(pc := Refused)); AckOk(mid, o) && OpenerOk(mid, o, g, r, w, t)
  {
  }

  lemma OpenerRemoved(s: State, a: Action, o: nat, g: bool, r: bool, w: bool, t: bool)
    requires Shape(s) && Enabled(s, a) && Removes(a) && o < |s.objs| && AckOk(s, o) && OpenerOk(s, o, g, r, w, t)
    ensures o < |Step(s, a).objs| && OpenerOk(Step(s, a), o, g, r, w, t)
  {
    hide Without, AckOk, OpenerOk;
    match a
    case GiveUp(who) =>
      ShapeRefused(s, who);
      OpenerGivesUp(s, who, o, g, r, w, t);
      OpenerWithout(s.With(who, s.objs[who].(pc := Refused)), who, o, g, r, w, t);
    case LoopRemove =>
      var mid := s.(loop := Delivering(s.loop.o, s.loop.item));
      OpenerElsewhere(s, mid, o, g, r, w, t);
      OpenerWithout(mid, s.loop.o, o, g, r, w, t);
    case RemoveDelete(k) =>
      var mid := s.(removers := s.removers[k := Deleted(s.removers[k].o)]);
      OpenerElsewhere(s, mid, o, g, r, w, t);
      OpenerWithout(mid, s.removers[k].o, o, g, r, w, t);
    case _ =>
  }

  lemma OpenerCreated(s: State, a: Action, o: nat, g: bool, r: bool, w: bool, t: bool)
    requires Shape(s) && Creates(a) && o < |s.objs| && AckOk(s, o) && OpenerOk(s, o, g, r, w, t)
    ensures o < |Step(s, a).objs| && OpenerOk(Step(s, a), o, g, r, w, t)
  {
  }

  lemma OpenerSwept(s: State, o: nat, g: bool, r: bool, w: bool, t: bool)
    requires Shape(s) && o < |s.objs| && AckOk(s, o) && OpenerOk(s, o, g, r, w, t)
    ensures OpenerOk(Step(s, SessionClosed), o, g, r, w || SweepHits(s, SessionClosed, o), t)
  {
    assert o in s.acks.Values <==> InAcks(s, o);
  }

  lemma OpenerFed(s: State, a: Action, o: nat, g: bool, r: bool, w: bool, t: bool)
    requires Shape(s) && Enabled(s, a) && a.FeedAck? && o < |s.objs| && AckOk(s, o) && OpenerOk(s, o, g, r, w, t)
    ensures o < |Step(s, a).objs|
    ensures OpenerOk(Step(s, a), o, g || AnswerHits(s, a, o, true), r || AnswerHits(s, a, o, false), w, t)
  {
    if a.id in s.acks && s.acks[a.id] == o { assert a.id == s.objs[o].id; }
  }

  lemma OpenerLooked(s: State, a: Action, o: nat, g: bool, r: bool, w: bool, t: bool)
    requires Shape(s) && Enabled(s, a) && Looks(a) && o < |s.objs| && AckOk(s, o) && OpenerOk(s, o, g, r, w, t)
    ensures o < |Step(s, a).objs|
    ensures OpenerOk(Step(s, a), o, g || AnswerHits(s, a, o, true), r || AnswerHits(s, a, o, false), w || SweepHits(s, a, o), t)
  {
    if a.SessionClosed? { OpenerSwept(s, o, g, r, w, t); }
    else if a.FeedAck? { OpenerFed(s, a, o, g, r, w, t); }
    else {
      hide AckOk, OpenerOk, Shape;
      OpenerElsewhere(s, Step(s, a), o, g, r, w, t);
    }
  }

  lemma OpenerNew(s: State, a: Action)
    requires Shape(s) && Creates(a) && !s.dead
    ensures |Step(s, a).objs| == |s.objs| + 1 && OpenerOk(Step(s, a), |s.objs|, false, false, false, false)
  {
  }

  lemma OpenerStep(s: State, a: Action, o: nat, g: bool, r: bool, w: bool, t: bool)
    requires Shape(s) && o < |s.objs| && AckOk(s, o) && OpenerOk(s, o, g, r, w, t)
    ensures o < |Step(s, a).objs|
    ensures OpenerOk(Step(s, a), o, g || AnswerHits(s, a, o, true), r || AnswerHits(s, a, o, false),
                     w || SweepHits(s, a, o), t || (a == TakeAck(o) && Enabled(s, a)))
  {
    hide Shape, Apply, AckOk, OpenerOk;
    if Enabled(s, a) {
      if Removes(a) { OpenerRemoved(s, a, o, g, r, w, t); }
      else if Creates(a) { OpenerCreated(s, a, o, g, r, w, t); }
      else if Looks(a) { OpenerLooked(s, a, o, g, r, w, t); }
      else { OpenerTouched(s, a, o, g, r, w, t); }
    }
  }

  /** Nothing happens to a connection that does not exist yet. */
  lemma NothingToHit(s: State, a: Action, o: nat)
    requires Shape(s) && |s.objs| <= o
    ensures !AnswerHits(s, a, o, true) && !AnswerHits(s, a, o, false) && !SweepHits(s, a, o)
    ensures !(a == TakeAck(o) && Enabled(s, a))
  {
  }

  lemma {:induction false} OpenersOk(actions: seq<Action>, o: nat)
    ensures var g, r, w, t := Answered(actions, o, true), Answered(actions, o, false), Swept(actions, o), Took(actions, o);
            if o < |Run(actions).objs| then OpenerOk(Run(actions), o, g, r, w, t) else !g && !r && !w && !t
  {
    hide Step, Shape, AckOk, ConnOk, OpenerOk, AnswerHits, SweepHits;
    if actions != [] {
      var before, a := actions[..|actions| - 1], actions[|actions| - 1];
      var s := Run(before);
      OpenersOk(before, o);
      RunKeepsInv(before);
      StepCount(s, a);
      if o < |s.objs| {
        OpenerStep(s, a, o, Answered(before, o, true), Answered(before, o, false), Swept(before, o), Took(before, o));
      } else {
        NothingToHit(s, a, o);
        if o < |Step(s, a).objs| { OpenerNew(s, a); }
      }
    }
  }

  /** OpenStream hands its connection out exactly when it took an answer and the answer fed for its
      number was a grant. */
  lemma {:induction false} OpenedExactly(actions: seq<Action>, o: nat)
    requires o < |Run(actions).objs|
    ensures Run(actions).objs[o].pc.Opened? <==> Took(actions, o) && Answered(actions, o, true)
  {
    hide Run, Answered, Swept, Took;
    OpenersOk(actions, o);
  }

  lemma {:induction false} StaysAnswered(actions: seq<Action>, more: seq<Action>, o: nat)
    ensures Answered(actions, o, false) ==> Answered(actions + more, o, false)
    ensures Swept(actions, o) ==> Swept(actions + more, o)
    ensures |Run(actions).objs| <= |Run(actions + more).objs|
  {
    hide Step, AnswerHits, SweepHits;
    if more == [] {
      assert actions + more == actions;
    } else {
      var all := actions + more;
      assert all[..|all| - 1] == actions + more[..|more| - 1];
      StaysAnswered(actions, more[..|more| - 1], o);
      StepGrows(Run(all[..|all| - 1]), all[|all| - 1]);
    }
  }

  /** One that was refused, or that was still waiting when the session ended, is never handed out. */
  lemma {:induction false} RefusedNeverHandedOut(actions: seq<Action>, more: seq<Action>, o: nat)
    requires o < |Run(actions).objs| && (Answered(actions, o, false) || Swept(actions, o))
    ensures o < |Run(actions + more).objs| && !Run(actions + more).objs[o].Handed()
  {
    hide Run, Answered, Swept, Took;
    StaysAnswered(actions, more, o);
    OpenersOk(actions + more, o);
  }

  /** The two runs of one call: granted it ends with its connection, refused it ends with none and
      with nothing left in the hub. */
  lemma {:induction false} AnswerDecides(ok: bool) returns (actions: seq<Action>)
    ensures var s := Run(actions);
            && |s.objs| == 1 && s.objs[0].pc == (if ok then Opened else Refused)
            && s.conns == (if ok then map[1 := 0] else map[]) && s.acks == map[]
  {
    var plan := [OpenStream, SendOpen(0, true), FeedAck(1, ok), LoopAck, TakeAck(0), GiveUp(0)];
    actions := plan;
    var x := Fresh(1, Sending);
    var s1 := Step(INIT, plan[0]);
    assert s1 == INIT.(objs := [x], conns := map[1 := 0], acks := map[1 := 0], connSeq := 1);
    var s2 := Step(s1, plan[1]);
    assert s2 == s1.(objs := [x.(pc := Waiting)]);
    var s3, s4 := Step(s2, plan[2]), Step(Step(s2, plan[2]), plan[3]);
    var s5, s6 := Step(s4, plan[4]), Step(Step(s4, plan[4]), plan[5]);
    AnswerTaken(s2, x.(pc := Waiting), ok);
    RunIs(plan, [INIT, s1, s2, s3, s4, s5, s6]);
  }

  lemma AnswerTaken(s: State, x: Obj, ok: bool)
    requires s.objs == [x] && x.pc.Waiting? && x.id == 1 && x.chan == [] && s.loop.Idle?
    requires s.conns == map[1 := 0] && s.acks == map[1 := 0]
    ensures var t := Step(Step(Step(Step(s, FeedAck(1, ok)), LoopAck), TakeAck(0)), GiveUp(0));
            && |t.objs| == 1 && t.objs[0].pc == (if ok then Opened else Refused)
            && t.conns == (if ok then map[1 := 0] else map[]) && t.acks == map[]
  {
    var s1 := Step(s, FeedAck(1, ok));
    assert s1 == s.(loop := AckDue(0, ok), acks := map[]);
    var s2 := Step(s1, LoopAck);
    var x2 := x.(chan := x.chan + [ok], sends := x.sends + 1);
    assert s2 == s1.(objs := [x2], loop := Idle);
    AnswerUsed(s2, x2, ok);
  }

  lemma AnswerUsed(s: State, x: Obj, ok: bool)
    requires s.objs == [x] && x.pc.Waiting? && x.id == 1 && x.chan == [ok]
    requires s.conns == map[1 := 0] && s.acks == map[]
    ensures var t := Step(Step(s, TakeAck(0)), GiveUp(0));
            && |t.objs| == 1 && t.objs[0].pc == (if ok then Opened else Refused)
            && t.conns == (if ok then map[1 := 0] else map[]) && t.acks == map[]
  {
    var s1 := Step(s, TakeAck(0));
    assert s1.objs == [x.(chan := x.chan[1..], pc := if ok then Opened else Failing)];
  }

  predicate GaveUp(x: Obj) {
    x.pc.Failing? || x.pc.Refused?
  }

  lemma GaveUpStays(s: State, a: Action, o: nat)
    requires Shape(s) && o < |s.objs| && GaveUp(s.objs[o])
    ensures o < |Step(s, a).objs| && GaveUp(Step(s, a).objs[o])
  {
    if Enabled(s, a) {
      if Touches(a) {
        TouchesOne(s, a);
        if Touched(s, a) == o { GaveUpTouched(s, a); }
        hide Apply, Shape;
      } else {
        GaveUpUntouched(s, a, o);
        hide Apply, Shape;
      }
    }
  }

  lemma GaveUpTouched(s: State, a: Action)
    requires Enabled(s, a) && Touches(a) && Touched(s, a) < |s.objs| == |Step(s, a).objs| && GaveUp(s.objs[Touched(s, a)])
    ensures GaveUp(Step(s, a).objs[Touched(s, a)])
  {
    hide ReadCall;
  }

  lemma GaveUpUntouched(s: State, a: Action, o: nat)
    requires Enabled(s, a) && !Touches(a) && o < |s.objs| && GaveUp(s.objs[o])
    ensures o < |Step(s, a).objs| && GaveUp(Step(s, a).objs[o])
  {
    if Removes(a) { GaveUpRemoved(s, a, o); }
    hide Drop, ReadCall;
  }

  lemma GaveUpRemoved(s: State, a: Action, o: nat)
    requires Enabled(s, a) && Removes(a) && o < |s.objs| && GaveUp(s.objs[o])
    ensures o < |Step(s, a).objs| && GaveUp(Step(s, a).objs[o])
  {
    hide ReadCall;
  }

  lemma {:induction false} GaveUpForGood(actions: seq<Action>, more: seq<Action>, o: nat)
    requires o < |Run(actions).objs| && GaveUp(Run(actions).objs[o])
    ensures o < |Run(actions + more).objs| && GaveUp(Run(actions + more).objs[o])
  {
    hide Step, GaveUp, Shape, AckOk, ConnOk;
    if more == [] {
      assert actions + more == actions;
    } else {
      var all := actions + more;
      assert all[..|all| - 1] == actions + more[..|more| - 1];
      GaveUpForGood(actions, more[..|more| - 1], o);
      RunKeepsInv(all[..|all| - 1]);
      GaveUpStays(Run(all[..|all| - 1]), all[|all| - 1], o);
    }
  }

  /** A call whose request could not be sent, or that timed out, is never handed out either. */
  lemma {:induction false} FailedNeverHandedOut(actions: seq<Action>, a: Action, more: seq<Action>, o: nat)
    requires (a == SendOpen(o, false) || a == TimeOut(o)) && Enabled(Run(actions), a)
    ensures o < |Run(actions + [a] + more).objs| && !Run(actions + [a] + more).objs[o].Handed()
  {
    RunOne(actions, a);
    assert GaveUp(Run(actions + [a]).objs[o]);
    hide Run;
    GaveUpForGood(actions + [a], more, o);
  }

  lemma RunOne(actions: seq<Action>, a: Action)
    ensures Run(actions + [a]) == Step(Run(actions), a)
  {
    assert (actions + [a])[..|actions|] == actions;
  }

  // ---------- closing and its reason ----------

  /** Why o was closed first: by SessionClosed, or by a local Close or Remove. */
  function FirstMark(actions: seq<Action>, o: nat): Closed {
    if actions == [] then Open
    else
      var before, a := actions[..|actions| - 1], actions[|actions| - 1];
      var s := Run(before);
      if FirstMark(before, o).ClosedBy? then FirstMark(before, o)
      else if a == Mark(o) && Enabled(s, a) then ClosedBy(SessionEOF)
      else if a == Close(o) && Enabled(s, a) then ClosedBy(NetErrClosed)
      else if a.RemoveMark? && Enabled(s, a) && s.removers[a.t].o == o then ClosedBy(NetErrClosed)
      else Open
  }

  lemma MarkStep(s: State, a: Action, o: nat)
    requires o < |s.objs| && Shape(s)
    ensures o < |Step(s, a).objs|
    ensures Step(s, a).objs[o].recv.closed ==
            if s.objs[o].recv.closed.ClosedBy? then s.objs[o].recv.closed
            else if a == Mark(o) && Enabled(s, a) then ClosedBy(SessionEOF)
            else if a == Close(o) && Enabled(s, a) then ClosedBy(NetErrClosed)
            else if a.RemoveMark? && Enabled(s, a) && s.removers[a.t].o == o then ClosedBy(NetErrClosed)
            else Open
  {
    if Enabled(s, a) {
      if Touches(a) {
        TouchesOne(s, a);
        if Touched(s, a) == o { MarkTouched(s, a); }
        hide Apply;
      } else {
        MarksNothing(s, a, o);
        hide Apply;
      }
    }
  }

  lemma MarkTouched(s: State, a: Action)
    requires Enabled(s, a) && Touches(a) && Touched(s, a) < |s.objs| == |Step(s, a).objs|
    ensures var x, y := s.objs[Touched(s, a)].recv.closed, Step(s, a).objs[Touched(s, a)].recv.closed;
            y == if x.ClosedBy? then x
                 else if a.Mark? then ClosedBy(SessionEOF)
                 else if a.Close? || a.RemoveMark? then ClosedBy(NetErrClosed)
                 else Open
  {
    if a.Read? { ReadKeepsClosed(s.objs[a.o].recv, a.n); }
    hide ReadCall;
  }

  lemma MarksNothing(s: State, a: Action, o: nat)
    requires Enabled(s, a) && !Touches(a) && o < |s.objs|
    ensures o < |Step(s, a).objs| && Step(s, a).objs[o].recv == s.objs[o].recv
  {
  }

  lemma {:induction false} ReadKeepsClosed(r: RecvState, n: nat)
    ensures ReadCall(r, n).0.closed == r.closed
    decreases |r.feed|
  {
    var (r', out) := ReadTurn(r, n);
    if out.Again? { ReadKeepsClosed(r', n); }
  }

  /** A connection is closed for the reason it was first closed for: end of file when the session ended
      first, an error when this end closed or removed it first. */
  lemma {:induction false} ClosedForFirstReason(actions: seq<Action>, o: nat)
    ensures if o < |Run(actions).objs| then Run(actions).objs[o].recv.closed == FirstMark(actions, o) else FirstMark(actions, o).Open?
  {
    hide Step, Shape, AckOk, ConnOk;
    if actions != [] {
      var before, a := actions[..|actions| - 1], actions[|actions| - 1];
      var s := Run(before);
      ClosedForFirstReason(before, o);
      RunKeepsInv(before);
      StepCount(s, a);
      if o < |s.objs| {
        MarkStep(s, a, o);
      } else {
        NothingToMark(s, a, o);
      }
    }
  }

  lemma NothingToMark(s: State, a: Action, o: nat)
    requires Shape(s) && |s.objs| <= o
    ensures !(a == Mark(o) && Enabled(s, a)) && !(a == Close(o) && Enabled(s, a))
    ensures !(a.RemoveMark? && Enabled(s, a) && s.removers[a.t].o == o)
    ensures o < |Step(s, a).objs| ==> Step(s, a).objs[o].recv.closed.Open?
  {
    StepCount(s, a);
    if o < |Step(s, a).objs| { NewcomerOpen(s, a); }
    hide Apply;
  }

  lemma NewcomerOpen(s: State, a: Action)
    requires Creates(a) && !s.dead
    ensures |Step(s, a).objs| == |s.objs| + 1 && Step(s, a).objs[|s.objs|].recv.closed.Open?
  {
  }

  /** A data frame for a connection in the hub, once delivered, is the last thing in its queue. */
  lemma {:induction false} DataIsQueued(actions: seq<Action>, o: nat, data: seq<byte>)
    requires var s := Run(actions);
             s.loop.Idle? && o < |s.objs| && InConns(s, o) && |s.objs[o].recv.feed| < FEED_CAP
    ensures var s, t := Run(actions), Run(actions + [FeedData(Run(actions).objs[o].id, data)] + [LoopDeliver]);
            t.loop.Idle? && |t.objs| == |s.objs| && t.objs[o].recv.feed == s.objs[o].recv.feed + [Data(data)]
  {
    var id := Run(actions).objs[o].id;
    RunOne(actions, FeedData(id, data));
    RunOne(actions + [FeedData(id, data)], LoopDeliver);
    hide Run;
  }

  lemma FeedStep(s: State, a: Action, o: nat)
    requires Shape(s) && o < |Step(s, a).objs|
    requires o < |s.objs| ==> |s.objs[o].recv.feed| <= 32
    ensures |Step(s, a).objs[o].recv.feed| <= 32
  {
    if Enabled(s, a) {
      if Touches(a) {
        TouchesOne(s, a);
        if Touched(s, a) == o { FeedTouched(s, a); }
        hide Apply;
      } else if o < |s.objs| {
        MarksNothing(s, a, o);
        hide Apply;
      } else {
        hide ReadCall;
      }
    }
  }

  lemma FeedTouched(s: State, a: Action)
    requires Enabled(s, a) && Touches(a) && Touched(s, a) < |s.objs| == |Step(s, a).objs|
    requires |s.objs[Touched(s, a)].recv.feed| <= 32
    ensures |Step(s, a).objs[Touched(s, a)].recv.feed| <= 32
  {
    if a.Read? { ReadShortens(s.objs[a.o].recv, a.n); }
    hide ReadCall;
  }

  lemma {:induction false} ReadShortens(r: RecvState, n: nat)
    ensures |ReadCall(r, n).0.feed| <= |r.feed|
    decreases |r.feed|
  {
    var (r', out) := ReadTurn(r, n);
    if out.Again? { ReadShortens(r', n); }
  }

  /** No connection ever has more than 32 items queued. */
  lemma {:induction false} QueueBounded(actions: seq<Action>, o: nat)
    requires o < |Run(actions).objs|
    ensures |Run(actions).objs[o].recv.feed| <= 32
  {
    hide Step, Shape, AckOk, ConnOk;
    if actions != [] {
      var before := actions[..|actions| - 1];
      if o < |Run(before).objs| { QueueBounded(before, o); }
      RunKeepsInv(before);
      FeedStep(Run(before), actions[|actions| - 1], o);
    }
  }

  /** A Read in the hub does what a Read may do: it keeps to its buffer and takes the bytes in order. */
  lemma ReadActs(actions: seq<Action>, o: nat, n: nat)
    requires Enabled(Run(actions), Read(o, n))
    ensures o < |Run(actions + [Read(o, n)]).objs|
    ensures exists out :: ReadRight(Run(actions).objs[o].recv, n, Run(actions + [Read(o, n)]).objs[o].recv, out)
  {
    RunOne(actions, Read(o, n));
    var r := Run(actions).objs[o].recv;
    ReadKeepsToBuffer(r, n);
    assert Run(actions + [Read(o, n)]).objs[o].recv == ReadCall(r, n).0;
  }

  // ---------- removing, and the numbers ----------

  predicate SeenThrough(s: State, t: nat, o: nat) {
    o < |s.objs| && ((t in s.removers && s.removers[t].o == o) || s.objs[o].recv.closed.ClosedBy?)
  }

  lemma SeenThroughStep(s: State, a: Action, t: nat, o: nat)
    requires Shape(s) && SeenThrough(s, t, o)
    ensures SeenThrough(Step(s, a), t, o)
  {
    StepCount(s, a);
    MarkStep(s, a, o);
    if t in s.removers { RemoverStep(s, a, t); }
    hide Apply, Shape;
  }

  /** A Remove under way goes on with the same connection until it marks it. */
  lemma RemoverStep(s: State, a: Action, t: nat)
    requires t in s.removers
    ensures (a == RemoveMark(t) && Enabled(s, a)) || (t in Step(s, a).removers && Step(s, a).removers[t].o == s.removers[t].o)
  {
    hide ReadCall;
  }

  lemma {:induction false} StaysSeenThrough(actions: seq<Action>, more: seq<Action>, t: nat, o: nat)
    requires SeenThrough(Run(actions), t, o)
    ensures SeenThrough(Run(actions + more), t, o)
  {
    hide Step, SeenThrough, Shape, AckOk, ConnOk;
    if more == [] {
      assert actions + more == actions;
    } else {
      var all := actions + more;
      assert all[..|all| - 1] == actions + more[..|more| - 1];
      StaysSeenThrough(actions, more[..|more| - 1], t, o);
      RunKeepsInv(all[..|all| - 1]);
      SeenThroughStep(Run(all[..|all| - 1]), all[|all| - 1], t, o);
    }
  }

  /** A Remove that finds its number goes for the connection found then, whatever happens in between:
      once it is over that connection is closed. */
  lemma {:induction false} RemoveCloses(actions: seq<Action>, more: seq<Action>, t: nat, id: nat)
    requires t !in Run(actions).removers && id in Run(actions).conns
    ensures var o, s := Run(actions).conns[id], Run(actions + [RemoveLook(t, id)] + more);
            && o < |s.objs|
            && (t !in s.removers ==> s.objs[o].recv.closed.ClosedBy?)
  {
    var o := Run(actions).conns[id];
    RunKeepsInv(actions);
    RunOne(actions, RemoveLook(t, id));
    assert SeenThrough(Run(actions + [RemoveLook(t, id)]), t, o);
    hide Run;
    StaysSeenThrough(actions + [RemoveLook(t, id)], more, t, o);
  }

  /** How often OpenStream was called before the session was closed. */
  function Opens(actions: seq<Action>): nat {
    if actions == [] then 0
    else
      var before, a := actions[..|actions| - 1], actions[|actions| - 1];
      Opens(before) + if a.OpenStream? && !Run(before).dead then 1 else 0
  }

  lemma {:induction false} NumbersCount(actions: seq<Action>)
    ensures Run(actions).connSeq == Opens(actions) % 0x1_0000_0000
  {
    hide Step;
    if actions != [] {
      var before, a := actions[..|actions| - 1], actions[|actions| - 1];
      NumbersCount(before);
      SeqStep(Run(before), a);
      NextNumber(Opens(before));
    }
  }

  /** The calls of OpenStream use the numbers 1, 2, 3 and so on modulo 2^32, each entered in both maps. */
  lemma {:induction false} NumbersInTurn(actions: seq<Action>)
    requires !Run(actions).dead
    ensures var s, t := Run(actions), Run(actions + [OpenStream]);
            var id := (Opens(actions) + 1) % 0x1_0000_0000;
            && |t.objs| == |s.objs| + 1 && t.objs[|s.objs|].id == id && t.objs[|s.objs|].pc.Sending?
            && t.conns == s.conns[id := |s.objs|] && t.acks == s.acks[id := |s.objs|]
  {
    NumbersCount(actions);
    NextNumber(Opens(actions));
    RunOne(actions, OpenStream);
    hide Run, Opens;
  }

  lemma SeqStep(s: State, a: Action)
    ensures Step(s, a).connSeq == if a.OpenStream? && !s.dead then NextId(s) else s.connSeq
  {
    hide ReadCall;
  }

  lemma NextNumber(n: nat)
    ensures (n % 0x1_0000_0000 + 1) % 0x1_0000_0000 == (n + 1) % 0x1_0000_0000
  {
  }

  // ---------- when a connection is lost ----------

  /** The number a Creates action enters a connection under. */
  function NumberOf(s: State, a: Action): nat
    requires Creates(a)
  {
    if a.NewStreamConn? then a.id else NextId(s)
  }

  /** The connection a Removes action is meant for. */
  function MeantFor(s: State, a: Action): nat
    requires Enabled(s, a) && Removes(a)
  {
    match a
    case GiveUp(o) => o
    case LoopRemove => s.loop.o
    case RemoveDelete(t) => s.removers[t].o
  }

  /** One step loses a connection exactly when it enters another under the number that is still its
      own in the hub, or deletes its entry on another's account. */
  lemma {:induction false} LostExactly(s: State, a: Action, o: nat)
    requires Shape(s) && Enabled(s, a) && o < |s.objs| && !s.objs[o].lost
    ensures |s.objs| <= |Step(s, a).objs|
    ensures Step(s, a).objs[o].lost
            <==> InConns(s, o) && ((Creates(a) && !s.dead && NumberOf(s, a) == s.objs[o].id)
                                   || (Removes(a) && MeantFor(s, a) != o && s.objs[MeantFor(s, a)].id == s.objs[o].id))
  {
    hide Apply, ReadCall;
    StepGrows(s, a);
    if Removes(a) { LostToRemoval(s, a, o); }
    else if Creates(a) { LostToNewcomer(s, a, o); }
    else { NotLost(s, a, o); }
  }

  lemma LostToRemoval(s: State, a: Action, o: nat)
    requires Shape(s) && Enabled(s, a) && Removes(a) && o < |s.objs| && !s.objs[o].lost && MeantFor(s, a) < |s.objs|
    ensures |Step(s, a).objs| == |s.objs|
    ensures Step(s, a).objs[o].lost
            <==> InConns(s, o) && MeantFor(s, a) != o && s.objs[MeantFor(s, a)].id == s.objs[o].id
  {
  }

  lemma LostToNewcomer(s: State, a: Action, o: nat)
    requires Shape(s) && Creates(a) && o < |s.objs| && !s.objs[o].lost
    ensures |s.objs| <= |Step(s, a).objs|
    ensures Step(s, a).objs[o].lost <==> InConns(s, o) && !s.dead && NumberOf(s, a) == s.objs[o].id
  {
  }

  lemma NotLost(s: State, a: Action, o: nat)
    requires Shape(s) && Enabled(s, a) && !Removes(a) && !Creates(a) && o < |s.objs| && !s.objs[o].lost
    ensures |Step(s, a).objs| == |s.objs| && !Step(s, a).objs[o].lost
  {
    hide ReadCall;
  }

  ghost predicate LookedUp(s: State, o: nat) {
    exists t <- s.removers :: s.removers[t] == Looked(o)
  }

  /** A removal meant for o may still come. */
  ghost predicate Pending(s: State, o: nat)
    requires o < |s.objs|
  {
    s.objs[o].Asking() || s.objs[o].pc.Failing? || (s.loop.GotClose? && s.loop.o == o) || LookedUp(s, o)
  }

  /** The number belongs to a connection in the hub, or to one that somebody may still remove. */
  ghost predicate Busy(s: State, id: nat) {
    id in s.conns || exists o :: 0 <= o < |s.objs| && s.objs[o].id == id && Pending(s, o)
  }

  /** No connection was ever given a number that was busy at the time. */
  ghost predicate Careful(actions: seq<Action>) {
    actions == [] ||
    (var before, a := actions[..|actions| - 1], actions[|actions| - 1];
     Careful(before) && (Creates(a) && !Run(before).dead ==> !Busy(Run(before), NumberOf(Run(before), a))))
  }

  ghost predicate Tidy(s: State, o: nat)
    requires o < |s.objs|
  {
    !s.objs[o].lost && (Pending(s, o) && s.objs[o].id in s.conns ==> s.conns[s.objs[o].id] == o)
  }

  lemma LookedUpBefore(s: State, a: Action, o: nat)
    requires Enabled(s, a) && LookedUp(Step(s, a), o)
    ensures LookedUp(s, o) || (a.RemoveLook? && a.id in s.conns && s.conns[a.id] == o)
  {
    hide ReadCall, Without, Enter, Drop;
    var s' := Step(s, a);
    var t :| t in s'.removers && s'.removers[t] == Looked(o);
    if !(a.RemoveLook? && a.t == t) {
      assert t in s.removers && s.removers[t] == Looked(o);
    }
  }

  lemma TidyTouched(s: State, a: Action, o: nat)
    requires Shape(s) && Enabled(s, a) && Touches(a) && o < |s.objs| && Tidy(s, o)
    ensures o < |Step(s, a).objs| && Tidy(Step(s, a), o)
  {
    hide ReadCall, LookedUp;
    if LookedUp(Step(s, a), o) { LookedUpBefore(s, a, o); }
  }

  lemma TidyLooked(s: State, a: Action, o: nat)
    requires Shape(s) && Enabled(s, a) && Looks(a) && o < |s.objs| && Tidy(s, o)
    ensures o < |Step(s, a).objs| && Tidy(Step(s, a), o)
  {
    hide LookedUp;
    if LookedUp(Step(s, a), o) { LookedUpBefore(s, a, o); }
  }

  lemma TidyRemoved(s: State, a: Action, o: nat)
    requires Shape(s) && Enabled(s, a) && Removes(a) && o < |s.objs| && Tidy(s, o)
    requires Tidy(s, MeantFor(s, a))
    ensures o < |Step(s, a).objs| && Tidy(Step(s, a), o)
  {
    hide LookedUp;
    if LookedUp(Step(s, a), o) { LookedUpBefore(s, a, o); }
    assert Pending(s, MeantFor(s, a)) by {
      if a.RemoveDelete? { assert s.removers[a.t] == Looked(MeantFor(s, a)); LookedAt(s, a.t); }
    }
  }

  lemma LookedAt(s: State, t: nat)
    requires t in s.removers && s.removers[t].Looked?
    ensures LookedUp(s, s.removers[t].o)
  {
  }

  lemma TidyCreated(s: State, a: Action, o: nat)
    requires Shape(s) && Creates(a) && !s.dead && !Busy(s, NumberOf(s, a)) && o < |s.objs| && Tidy(s, o)
    ensures o < |Step(s, a).objs| && Tidy(Step(s, a), o)
  {
    hide LookedUp;
    if LookedUp(Step(s, a), o) { LookedUpBefore(s, a, o); }
    assert Pending(s, o) ==> s.objs[o].id != NumberOf(s, a);
  }

  lemma TidyNewcomer(s: State, a: Action)
    requires Shape(s) && Creates(a) && !s.dead
    ensures |Step(s, a).objs| == |s.objs| + 1 && Tidy(Step(s, a), |s.objs|)
  {
  }

  lemma {:induction false} CarefulIsTidy(actions: seq<Action>)
    requires Careful(actions)
    ensures forall o :: 0 <= o < |Run(actions).objs| ==> Tidy(Run(actions), o)
  {
    hide Tidy, Apply, Shape, AckOk, ConnOk, Busy;
    if actions != [] {
      var before, a := actions[..|actions| - 1], actions[|actions| - 1];
      CarefulIsTidy(before);
      RunKeepsInv(before);
      var s := Run(before);
      StepCount(s, a);
      forall o | 0 <= o < |Step(s, a).objs| ensures Tidy(Step(s, a), o) {
        if Enabled(s, a) {
          if o == |s.objs| { TidyNewcomer(s, a); }
          else if Creates(a) {
            if !s.dead { TidyCreated(s, a, o); } else { DeadCreatesNothing(s, a); }
          }
          else if Removes(a) { MeantForSomebody(s, a); TidyRemoved(s, a, o); }
          else if Looks(a) { TidyLooked(s, a, o); }
          else { TidyTouched(s, a, o); }
        }
      }
    }
  }

  lemma DeadCreatesNothing(s: State, a: Action)
    requires s.dead && Creates(a)
    ensures Step(s, a) == s
  {
  }

  lemma MeantForSomebody(s: State, a: Action)
    requires Shape(s) && Enabled(s, a) && Removes(a)
    ensures MeantFor(s, a) < |s.objs|
  {
  }

  /** A caller who never gives out a busy number, though free ones as often as he likes, loses nobody:
      then no reader of any connection handed out is left blocked. */
  lemma {:induction false} CarefulLeavesNobody(actions: seq<Action>, o: nat, n: nat)
    requires Careful(actions)
    requires var s := Run(actions);
             s.dead && o < |s.objs| && s.objs[o].Handed() && !CloseDue(s, o)
    ensures !Run(actions).objs[o].lost && !ReadCall(Run(actions).objs[o].recv, n).1.Blocked?
  {
    hide Run, ReadCall, CloseDue;
    CarefulIsTidy(actions);
    assert Tidy(Run(actions), o);
    NoReaderLeft(actions, o, n);
  }

  /** A call of OpenStream still waiting then has its answer in the channel just when nobody, by a
      close frame, a Remove or a second use of its number, took its ack entry before the answer. */
  lemma OpenersAnswered(actions: seq<Action>, o: nat)
    requires var s := Run(actions);
             s.dead && o < |s.objs| && s.objs[o].Asking() && !AnswerDue(s, o)
    ensures Run(actions).objs[o].chan != [] <==> !Run(actions).objs[o].dropped
  {
    hide Run;
    RunKeepsInv(actions);
    assert AckOk(Run(actions), o);
  }

  /** No ack send ever blocks: each channel holds one, and gets at most one in its life. */
  lemma {:induction false} AckSendsNeverBlock(actions: seq<Action>, o: nat)
    requires o < |Run(actions).objs|
    ensures var s := Run(actions); s.objs[o].sends <= 1 && (AnswerDue(s, o) ==> s.objs[o].chan == [])
  {
    hide Run;
    RunKeepsInv(actions);
    assert AckOk(Run(actions), o);
  }

  /** A close frame that comes before the ack takes the ack entry with it: the caller of OpenStream
      then waits out its own timeout, even across the end of the session. */
  lemma {:induction false} CloseBeforeAck() returns (actions: seq<Action>)
    ensures var s := Run(actions);
            && s.dead && |s.objs| == 1 && s.objs[0].pc.Waiting? && s.objs[0].chan == []
            && s.loop.Idle? && s.toMark == {} && s.toAck == {} && s.removers == map[]
  {
    var plan := [OpenStream, SendOpen(0, true), FeedClose(1, false), LoopRemove, LoopDeliver, SessionClosed];
    actions := plan;
    var x := Fresh(1, Sending);
    var s1 := Step(INIT, plan[0]);
    assert s1 == INIT.(objs := [x], conns := map[1 := 0], acks := map[1 := 0], connSeq := 1);
    var s2 := Step(s1, plan[1]);
    assert s2 == s1.(objs := [x.(pc := Waiting)]);
    var s3, s4 := Step(s2, plan[2]), Step(Step(s2, plan[2]), plan[3]);
    var s5 := Step(s4, plan[4]);
    var s6 := Step(s5, plan[5]);
    ClosedEarly(s2, x.(pc := Waiting));
    RunIs(plan, [INIT, s1, s2, s3, s4, s5, s6]);
  }

  lemma ClosedEarly(s: State, x: Obj)
    requires s.objs == [x] && x.id == 1 && x.pc.Waiting? && x.chan == [] && x.recv == FRESH_RECV
    requires s.conns == map[1 := 0] && s.acks == map[1 := 0] && s.loop.Idle? && s.removers == map[]
    requires !s.dead && s.toMark == {} && s.toAck == {}
    ensures var u := Step(Step(Step(s, FeedClose(1, false)), LoopRemove), LoopDeliver);
            && u == s.(objs := u.objs, conns := map[], acks := map[])
            && |u.objs| == 1 && u.objs[0].pc.Waiting? && u.objs[0].chan == [] && u.objs[0].id == 1
    ensures var t := Step(Step(Step(Step(s, FeedClose(1, false)), LoopRemove), LoopDeliver), SessionClosed);
            && t.dead && |t.objs| == 1 && t.objs[0].pc.Waiting? && t.objs[0].chan == []
            && t.loop.Idle? && t.toMark == {} && t.toAck == {} && t.removers == map[]
  {
    var s1 := Step(s, FeedClose(1, false));
    assert s1 == s.(loop := GotClose(0, Full));
    var s2 := Step(s1, LoopRemove);
    assert s2 == s.(objs := [x.(dropped := true)], conns := map[], acks := map[], loop := Delivering(0, Full));
    var s3 := Step(s2, LoopDeliver);
    assert s3.conns == map[] && s3.acks == map[] && s3.loop.Idle? && |s3.objs| == 1;
  }

  /** A number that is free but whose last user has not yet given up loses the next one: the late
      timeout of the first deletes the entry of the second. */
  lemma {:induction false} LateTimeoutEvicts() returns (actions: seq<Action>)
    ensures var s := Run(actions);
            && s.dead && |s.objs| == 2 && s.objs[1].Handed() && s.toMark == {} && s.loop.Idle? && s.removers == map[]
            && s.objs[1].lost && !s.objs[1].told
  {
    var plan := [OpenStream, SendOpen(0, true), FeedClose(1, false), LoopRemove, LoopDeliver,
                 NewStreamConn(1), TimeOut(0), GiveUp(0), SessionClosed];
    actions := plan;
    var x := Fresh(1, Sending);
    var s1 := Step(INIT, plan[0]);
    assert s1 == INIT.(objs := [x], conns := map[1 := 0], acks := map[1 := 0], connSeq := 1);
    var s2 := Step(s1, plan[1]);
    assert s2 == s1.(objs := [x.(pc := Waiting)]);
    var s3, s4 := Step(s2, plan[2]), Step(Step(s2, plan[2]), plan[3]);
    var s5 := Step(s4, plan[4]);
    ClosedEarly(s2, x.(pc := Waiting));
    var s6, s7 := Step(s5, plan[5]), Step(Step(s5, plan[5]), plan[6]);
    var s8, s9 := Step(s7, plan[7]), Step(Step(s7, plan[7]), plan[8]);
    Evicts(s5);
    RunIs(plan, [INIT, s1, s2, s3, s4, s5, s6, s7, s8, s9]);
  }

  lemma Evicts(s: State)
    requires |s.objs| == 1 && s.objs[0].pc.Waiting? && s.objs[0].id == 1
    requires s.conns == map[] && s.acks == map[] && s.loop.Idle? && s.removers == map[] && !s.dead && s.toMark == {}
    ensures var t := Step(Step(Step(Step(s, NewStreamConn(1)), TimeOut(0)), GiveUp(0)), SessionClosed);
            && t.dead && |t.objs| == 2 && t.objs[1] == Fresh(1, Accepted).(lost := true)
            && t.toMark == {} && t.loop.Idle? && t.removers == map[]
  {
    var x, y := s.objs[0], Fresh(1, Accepted);
    var s1 := Step(s, NewStreamConn(1));
    assert s1 == s.(objs := [x, y], conns := map[1 := 1]);
    var s2 := Step(s1, TimeOut(0));
    assert s2 == s1.(objs := [x.(pc := Failing), y]);
    var s3 := Step(s2, GiveUp(0));
    assert s3.objs == [x.(pc := Refused), y.(lost := true)] && s3.conns == map[] && s3.acks == map[];
  }

  lemma ForgottenBySessionClosed(s: State, x: Obj)
    requires s.objs == [x.(lost := true), x] && s.conns.Values == {1} && s.acks == map[] && !s.dead && x.pc.Accepted? && x.recv == FRESH_RECV
    ensures var s' := Step(Step(s, SessionClosed), Mark(1));
            && s'.dead && |s'.objs| == 2 && s'.objs[0] == x.(lost := true) && s'.toMark == {}
            && !Finishing(x.recv) && ReadCall(x.recv, 1).1.Blocked?
  {
    var s1 := Step(s, SessionClosed);
    assert s1 == s.(dead := true, toMark := {1}, toAck := s.acks.Values, conns := map[], acks := map[]);
  }

  /** A number given to a second connection leaves the first with nobody to close it. */
  lemma {:induction false} ReusedNumberForgotten(id: nat) returns (actions: seq<Action>)
    ensures var s := Run(actions);
            && s.dead && |s.objs| == 2 && s.objs[0].Handed() && s.toMark == {}
            && !Finishing(s.objs[0].recv) && ReadCall(s.objs[0].recv, 1).1.Blocked?
  {
    var plan := [NewStreamConn(id), NewStreamConn(id), SessionClosed, Mark(1)];
    actions := plan;
    var x := Fresh(id, Accepted);
    var s1 := Step(INIT, plan[0]);
    assert s1 == INIT.(objs := [x], conns := map[id := 0]);
    var s2 := Step(s1, plan[1]);
    assert s2 == INIT.(objs := [x.(lost := true), x], conns := map[id := 1]);
    assert s2.conns[id] == 1 && s2.conns.Values == {1};
    var s3, s4 := Step(s2, plan[2]), Step(Step(s2, plan[2]), plan[3]);
    ForgottenBySessionClosed(s2, x);
    RunIs(plan, [INIT, s1, s2, s3, s4]);
  }

  lemma {:induction false} RunIs(plan: seq<Action>, states: seq<State>)
    requires |states| == |plan| + 1 && states[0] == INIT
    requires forall i :: 0 <= i < |plan| ==> states[i + 1] == Step(states[i], plan[i])
    ensures Run(plan) == states[|plan|]
  {
    hide Step;
    if plan != [] {
      RunIs(plan[..|plan| - 1], states[..|plan|]);
    }
  }
}
