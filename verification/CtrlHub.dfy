/** The server's hub of external connections (internal/handler/star/ctrl_hub.go): from OpenConn to
    the one operation that takes a connection out, with the locked sections, the ack sends and the
    closing of channels as separate steps. */
module CtrlHub {
  import StreamTable

  const WRAP := 0x1_0000_0000

  /** Failing: an OpenConn about to take its connection out again. */
  datatype Pc = Sending | Waiting | Failing | Opened | Refused

  /** What took a connection out of the map: the client's close frame, or a close on this side. */
  datatype Cause = ByPeer | ByClose

  /** chan is the ack channel, of capacity one; done and remoteClosed: those channels are closed.
      sends and removals are histories. */
  datatype Entry = Entry(
    id: nat, stream: nat, client: nat, pc: Pc,
    chan: seq<bool>, done: bool, remoteClosed: bool,
    sends: nat, removals: seq<Cause>)

  /** The fields under the mutex; an entry is known by its place in the history of all entries. */
  datatype Hub = Hub(conns: map<nat, nat>, acks: map<nat, nat>, connSeq: nat)

  // ---------- the locked sections ----------

  function NextId(h: Hub): nat {
    (h.connSeq + 1) % WRAP
  }

  function OpenSection(h: Hub, e: nat): Hub {
    var id := NextId(h);
    Hub(h.conns[id := e], h.acks[id := e], id)
  }

  function TakeConn(h: Hub, id: nat): Hub {
    h.(conns := h.conns - {id})
  }

  function TakeAckEntry(h: Hub, id: nat): Hub {
    h.(acks := h.acks - {id})
  }

  /** The stream of entry e is registered to the session now. */
  predicate Belongs(entries: seq<Entry>, streams: StreamTable.Table, client: nat, e: nat) {
    e < |entries| && entries[e].stream in streams.byId && streams.byId[entries[e].stream].client == client
  }

  /** The numbers CloseConnsByClient picks. */
  function OfClient(h: Hub, entries: seq<Entry>, streams: StreamTable.Table, client: nat): (ids: set<nat>)
    ensures ids <= h.conns.Keys
  {
    set id | id in h.conns && Belongs(entries, streams, client, h.conns[id])
  }

  function Entries(conns: map<nat, nat>, ids: set<nat>): set<nat>
    requires ids <= conns.Keys
  {
    set id | id in ids :: conns[id]
  }

  lemma EntriesAdd(conns: map<nat, nat>, ids: set<nat>, id: nat)
    requires ids <= conns.Keys && id in conns
    ensures Entries(conns, ids + {id}) == Entries(conns, ids) + {conns[id]}
    ensures conns - (ids + {id}) == conns - ids - {id}
  {
  }

  lemma NoEntries(conns: map<nat, nat>)
    ensures Entries(conns, {}) == {} && conns - {} == conns
  {
  }

  function TakeConns(h: Hub, ids: set<nat>): Hub {
    h.(conns := h.conns - ids)
  }

  class CtrlHub {
    var conns: map<nat, nat>
    var acks: map<nat, nat>
    var connSeq: nat

    function View(): Hub
      reads this
    {
      Hub(conns, acks, connSeq)
    }

    constructor ()
      ensures View() == Hub(map[], map[], 0)
    {
      conns, acks, connSeq := map[], map[], 0;
    }

    method Open(e: nat) returns (id: nat)
      modifies this
      ensures View() == OpenSection(old(View()), e) && id == NextId(old(View()))
    {
      connSeq := (connSeq + 1) % WRAP;
      id := connSeq;
      acks := acks[id := e];
      conns := conns[id := e];
    }

    /** The section ClientClosed, CloseConn and removeConn share; the result is what to signal. */
    method Take(id: nat) returns (found: set<nat>)
      modifies this
      ensures View() == TakeConn(old(View()), id)
      ensures found == if id in old(conns) then {old(conns)[id]} else {}
    {
      found := if id in conns then {conns[id]} else {};
      conns := conns - {id};
    }

    method TakeAck(id: nat) returns (found: set<nat>)
      modifies this
      ensures View() == TakeAckEntry(old(View()), id)
      ensures found == if id in old(acks) then {old(acks)[id]} else {}
    {
      found := if id in acks then {acks[id]} else {};
      acks := acks - {id};
    }

    /** CloseConnsByClient up to the unlock, walking the map in any order. */
    method TakeByClient(entries: seq<Entry>, streams: StreamTable.Table, client: nat) returns (closing: set<nat>)
      requires forall id <- conns :: conns[id] < |entries|
      modifies this
      ensures View() == TakeConns(old(View()), OfClient(old(View()), entries, streams, client))
      ensures closing == Entries(old(conns), OfClient(old(View()), entries, streams, client))
    {
      hide Belongs, Entries;
      closing := {};
      ghost var was, ids := conns, OfClient(View(), entries, streams, client);
      assert forall id :: id in ids <==> id in was && Belongs(entries, streams, client, was[id]);
      hide OfClient;
      ghost var gone: set<nat> := {};
      NoEntries(was);
      var todo := conns.Keys;
      while todo != {}
        invariant todo <= was.Keys && gone <= was.Keys && acks == old(acks) && connSeq == old(connSeq)
        invariant forall id :: id in gone <==> id in ids && id !in todo
        invariant conns == was - gone && closing == Entries(was, gone)
        decreases |todo|
      {
        var id :| id in todo;
        todo := todo - {id};
        var belongs := Carries(entries, streams, client, conns[id]);
        if belongs {
          EntriesAdd(was, gone, id);
          closing := closing + {conns[id]};
          conns := conns - {id};
          gone := gone + {id};
        }
      }
      assert gone == ids;
    }

    static method Carries(entries: seq<Entry>, streams: StreamTable.Table, client: nat, e: nat) returns (yes: bool)
      requires e < |entries|
      ensures yes == Belongs(entries, streams, client, e)
    {
      var stream := entries[e].stream;
      return stream in streams.byId && streams.byId[stream].client == client;
    }
  }

  // ---------- all threads ----------

  /** owners: the session each stream number was assigned to, number k + 1 at place k.  due: ack
      sends between DeliverConnAck's section and the send; closing, marking: entries taken out whose
      channels are about to be closed.  chained: the connections that clients opened themselves, by
      session and number, in the StreamHub of their session. */
  datatype State = State(
    hub: Hub, entries: seq<Entry>,
    streams: StreamTable.Table, owners: seq<nat>,
    due: map<nat, bool>, closing: set<nat>, marking: set<nat>,
    chained: set<(nat, nat)>)

  const INIT := State(Hub(map[], map[], 0), [], StreamTable.EMPTY, [], map[], {}, {}, {})

  datatype Action =
    | Register(client: nat, proxy: string, name: string)
    | Unregister(client: nat, stream: nat)
    | UnregisterClient(client: nat)
    | OpenConn(stream: nat)
    | SendOpen(e: nat, ok: bool)
    | TakeAck(e: nat)
    | TimeOut(e: nat)
    | GiveUp(e: nat)
    | AckArrives(id: nat, ok: bool)
    | AckSend(e: nat)
    | ClientClosed(id: nat)
    | CloseConn(id: nat)
    | CloseByClient(client: nat)
    | DoClose(e: nat)
    | DoMark(e: nat)
    | ChainOpen(client: nat, proxy: string, name: string, id: nat)  // a ClientConnReq is granted
    | ChainFrame(client: nat, id: nat)     // a close frame for a chained connection
    | ChainRemove(client: nat, id: nat)    // its bridge has ended
    | ChainsEnd(client: nat)               // SessionClosed of the session's StreamHub

  /** OpenConn gets a stream entry somebody looked up before, registered still or not.  A stream is
      unregistered only by a close frame with whose number neither a chained connection of its session
      nor any other connection is found.  A client chooses the number of a chained connection. */
  predicate Enabled(s: State, a: Action) {
    match a
    case Unregister(client, stream) => (client, stream) !in s.chained && stream !in s.hub.conns
    case OpenConn(stream) => 1 <= stream <= |s.owners|
    case SendOpen(e, _) => e < |s.entries| && s.entries[e].pc.Sending?
    case TakeAck(e) => e < |s.entries| && s.entries[e].pc.Waiting? && s.entries[e].chan != []
    case TimeOut(e) => e < |s.entries| && s.entries[e].pc.Waiting?
    case GiveUp(e) => e < |s.entries| && s.entries[e].pc.Failing?
    case AckSend(e) => e < |s.entries| && e in s.due && s.entries[e].chan == []
    case DoClose(e) => e < |s.entries| && e in s.closing
    case DoMark(e) => e < |s.entries| && e in s.marking
    case ChainOpen(_, proxy, name, _) => StreamTable.ByName(s.streams, proxy, name).Some?
    case ChainFrame(client, id) => (client, id) in s.chained
    case _ => true
  }

  function Found(m: map<nat, nat>, id: nat): set<nat> {
    if id in m then {m[id]} else {}
  }

  /** The entries es have been taken out, for this cause. */
  function Out(entries: seq<Entry>, es: set<nat>, cause: Cause): (r: seq<Entry>)
    ensures |r| == |entries|
    ensures forall e :: 0 <= e < |entries| ==>
              r[e] == if e in es then entries[e].(removals := entries[e].removals + [cause]) else entries[e]
  {
    seq(|entries|, e requires 0 <= e < |entries| =>
      if e in es then entries[e].(removals := entries[e].removals + [cause]) else entries[e])
  }

  function Apply(s: State, a: Action): State
    requires Enabled(s, a)
  {
    match a
    case Register(client, proxy, name) =>
      var (t, r) := StreamTable.Assigned(s.streams, client, proxy, name);
      s.(streams := t, owners := if r.Some? then s.owners + [client] else s.owners)
    case Unregister(_, stream) => s.(streams := StreamTable.Removed(s.streams, stream))
    case UnregisterClient(client) => s.(streams := StreamTable.RemovedByClient(s.streams, client))
    case OpenConn(stream) =>
      var e := Entry(NextId(s.hub), stream, s.owners[stream - 1], Sending, [], false, false, 0, []);
      s.(hub := OpenSection(s.hub, |s.entries|), entries := s.entries + [e])
    case SendOpen(e, ok) => s.(entries := s.entries[e := s.entries[e].(pc := if ok then Waiting else Failing)])
    case TakeAck(e) =>
      var x := s.entries[e];
      s.(entries := s.entries[e := x.(chan := x.chan[1..], pc := if x.chan[0] then Opened else Failing)])
    case TimeOut(e) => s.(entries := s.entries[e := s.entries[e].(pc := Failing)])
    case GiveUp(e) =>
      var id := s.entries[e].id;
      var found := Found(s.hub.conns, id);
      s.(hub := TakeConn(s.hub, id),
         entries := Out(s.entries[e := s.entries[e].(pc := Refused)], found, ByClose),
         closing := s.closing + found + {e})
    case AckArrives(id, ok) =>
      if id !in s.hub.acks then s
      else s.(hub := TakeAckEntry(s.hub, id), due := s.due[s.hub.acks[id] := ok])
    case AckSend(e) =>
      var x := s.entries[e];
      s.(entries := s.entries[e := x.(chan := x.chan + [s.due[e]], sends := x.sends + 1)], due := s.due - {e})
    case ClientClosed(id) =>
      var found := Found(s.hub.conns, id);
      s.(hub := TakeConn(s.hub, id), entries := Out(s.entries, found, ByPeer), marking := s.marking + found)
    case CloseConn(id) =>
      var found := Found(s.hub.conns, id);
      s.(hub := TakeConn(s.hub, id), entries := Out(s.entries, found, ByClose), closing := s.closing + found)
    case CloseByClient(client) =>
      var ids := OfClient(s.hub, s.entries, s.streams, client);
      var found := Entries(s.hub.conns, ids);
      s.(hub := TakeConns(s.hub, ids), entries := Out(s.entries, found, ByClose), closing := s.closing + found)
    case DoClose(e) => s.(entries := s.entries[e := s.entries[e].(done := true)], closing := s.closing - {e})
    case DoMark(e) => s.(entries := s.entries[e := s.entries[e].(remoteClosed := true)], marking := s.marking - {e})
    case ChainOpen(client, _, _, id) => s.(chained := s.chained + {(client, id)})
    case ChainFrame(client, id) => s.(chained := s.chained - {(client, id)})
    case ChainRemove(client, id) => s.(chained := s.chained - {(client, id)})
    case ChainsEnd(client) => s.(chained := set c | c in s.chained && c.0 != client)
  }

  function Step(s: State, a: Action): State {
    if Enabled(s, a) then Apply(s, a) else s
  }

  function Run(actions: seq<Action>): State {
    if actions == [] then INIT
    else Step(Run(actions[..|actions| - 1]), actions[|actions| - 1])
  }

  /** Fewer than 2^32 connections opened and streams assigned. */
  predicate BelowWrap(s: State) {
    |s.entries| < 0x1_0000_0000 && |s.owners| < 0x1_0000_0000
  }

  // ---------- the invariant ----------

  function One(b: bool): nat { if b then 1 else 0 }

  /** Entry e is the one with number e + 1. */
  predicate InConns(s: State, e: nat) { e + 1 in s.hub.conns }

  predicate InAcks(s: State, e: nat) { e + 1 in s.hub.acks }

  ghost predicate NumbersOk(s: State) {
    && s.hub.connSeq == |s.entries|
    && (forall e :: 0 <= e < |s.entries| ==> s.entries[e].id == e + 1)
    && (forall id <- s.hub.conns :: 1 <= id <= |s.entries| && s.hub.conns[id] == id - 1)
    && (forall id <- s.hub.acks :: 1 <= id <= |s.entries| && s.hub.acks[id] == id - 1)
    && (forall e <- s.closing :: e < |s.entries|) && (forall e <- s.marking :: e < |s.entries|)
    && (forall e <- s.due :: e < |s.entries|)
  }

  ghost predicate StreamsOk(s: State) {
    && s.streams.counter == |s.owners|
    && (forall id <- s.streams.byId :: 1 <= id <= |s.owners| && s.streams.byId[id].client == s.owners[id - 1])
    && (forall e :: 0 <= e < |s.entries| ==>
          1 <= s.entries[e].stream <= |s.owners| && s.entries[e].client == s.owners[s.entries[e].stream - 1])
  }

  ghost predicate AckOk(s: State, e: nat)
    requires e < |s.entries|
  {
    && One(InAcks(s, e)) + One(e in s.due) + s.entries[e].sends <= 1
    && |s.entries[e].chan| <= s.entries[e].sends
  }

  /** inMap: in conns; closing, marking: about to be closed, about to be marked. */
  ghost predicate Life(x: Entry, inMap: bool, closing: bool, marking: bool) {
    && One(inMap) + |x.removals| == 1
    && (inMap ==> !x.done && !x.remoteClosed && !closing && !marking)
    && (x.removals == [ByPeer] <==> x.remoteClosed || marking)
    && (x.removals == [ByClose] ==> x.done || closing)
    && (x.done || closing ==> x.removals == [ByClose] || x.pc.Refused?)
  }

  ghost predicate LifeOk(s: State, e: nat)
    requires e < |s.entries|
  {
    Life(s.entries[e], InConns(s, e), e in s.closing, e in s.marking)
  }

  ghost predicate Inv(s: State) {
    BelowWrap(s) ==>
      NumbersOk(s) && StreamsOk(s) && forall e :: 0 <= e < |s.entries| ==> AckOk(s, e) && LifeOk(s, e)
  }

  predicate SameFacts(x: Entry, y: Entry) {
    x.id == y.id && x.stream == y.stream && x.client == y.client
  }

  lemma StepGrows(s: State, a: Action)
    ensures var s' := Step(s, a);
            && |s.entries| <= |s'.entries| <= |s.entries| + One(a.OpenConn?)
            && (forall e :: 0 <= e < |s.entries| ==> SameFacts(s'.entries[e], s.entries[e]))
            && (s'.owners == s.owners || (a.Register? && s'.owners == s.owners + [a.client]))
  {
    hide StreamTable.Assigned, StreamTable.Removed, StreamTable.RemovedByClient, OfClient, Entries, Found;
    if TakesOut(a) { OutKeepsFacts(s, a); }
  }

  lemma OutKeepsFacts(s: State, a: Action)
    requires TakesOut(a)
    ensures var s' := Step(s, a);
            && |s'.entries| == |s.entries| && s'.owners == s.owners
            && forall e :: 0 <= e < |s.entries| ==> SameFacts(s'.entries[e], s.entries[e])
  {
    hide OfClient, Entries, Found, Out;
    if Enabled(s, a) {
      match a
      case GiveUp(g) =>
        var refused := s.entries[g := s.entries[g].(pc := Refused)];
        OutFacts(refused, Found(s.hub.conns, s.entries[g].id), ByClose);
      case ClientClosed(id) => OutFacts(s.entries, Found(s.hub.conns, id), ByPeer);
      case CloseConn(id) => OutFacts(s.entries, Found(s.hub.conns, id), ByClose);
      case CloseByClient(client) =>
        OutFacts(s.entries, Entries(s.hub.conns, OfClient(s.hub, s.entries, s.streams, client)), ByClose);
      case _ =>
    }
  }

  lemma OutFacts(entries: seq<Entry>, es: set<nat>, cause: Cause)
    ensures |Out(entries, es, cause)| == |entries|
    ensures forall e :: 0 <= e < |entries| ==> SameFacts(Out(entries, es, cause)[e], entries[e])
  {
  }

  lemma StepKeepsNumbers(s: State, a: Action)
    requires NumbersOk(s) && BelowWrap(Step(s, a))
    ensures NumbersOk(Step(s, a))
  {
    hide StreamTable.Assigned, StreamTable.Removed, StreamTable.RemovedByClient, Belongs;
    StepGrows(s, a);
  }

  lemma StepKeepsStreams(s: State, a: Action)
    requires StreamsOk(s) && BelowWrap(Step(s, a))
    ensures StreamsOk(Step(s, a))
  {
    StepGrows(s, a);
  }

  lemma StepKeepsAck(s: State, a: Action, e: nat)
    requires NumbersOk(s) && BelowWrap(Step(s, a)) && e < |s.entries| && AckOk(s, e)
    ensures e < |Step(s, a).entries| && AckOk(Step(s, a), e)
  {
    StepGrows(s, a);
  }

  predicate TakesOut(a: Action) {
    a.GiveUp? || a.ClientClosed? || a.CloseConn? || a.CloseByClient?
  }

  /** Taking out the connections numbered ids for one cause, with the signals that go with it. */
  lemma TakenOut(s: State, s': State, ids: set<nat>, cause: Cause, e: nat)
    requires NumbersOk(s) && e < |s.entries| && LifeOk(s, e) && ids <= s.hub.conns.Keys
    requires s'.hub.conns == s.hub.conns - ids
    requires var found := Entries(s.hub.conns, ids);
             && s'.entries == Out(s.entries, found, cause)
             && s'.closing == (if cause.ByClose? then s.closing + found else s.closing)
             && s'.marking == (if cause.ByPeer? then s.marking + found else s.marking)
    ensures LifeOk(s', e)
  {
    hide Entries, Life, Out, NumbersOk;
    EntryIn(s, ids, e);
    LifeEnds(s.entries[e], InConns(s, e), e in s.closing, e in s.marking, e + 1 in ids, cause);
    assert InConns(s', e) == (InConns(s, e) && e + 1 !in ids);
  }

  lemma LifeEnds(x: Entry, inMap: bool, closing: bool, marking: bool, out: bool, cause: Cause)
    requires Life(x, inMap, closing, marking) && (out ==> inMap)
    ensures Life(if out then x.(removals := x.removals + [cause]) else x,
                 inMap && !out, closing || (out && cause.ByClose?), marking || (out && cause.ByPeer?))
  {
    if out {
      var after := x.removals + [cause];
      assert after == [cause] && after[0] == cause;
      assert after == [ByPeer] <==> cause.ByPeer?;
    }
  }

  lemma EntryIn(s: State, ids: set<nat>, e: nat)
    requires NumbersOk(s) && ids <= s.hub.conns.Keys
    ensures e in Entries(s.hub.conns, ids) <==> e + 1 in ids
  {
    if e + 1 in ids { assert s.hub.conns[e + 1] == e; }
  }

  lemma FoundOne(s: State, id: nat)
    ensures var ids := {id} * s.hub.conns.Keys;
            && Found(s.hub.conns, id) == Entries(s.hub.conns, ids)
            && s.hub.conns - ids == s.hub.conns - {id}
  {
  }

  lemma {:induction false} LifeTakenOut(s: State, a: Action, e: nat)
    requires NumbersOk(s) && TakesOut(a) && Enabled(s, a) && e < |s.entries| && LifeOk(s, e)
    ensures e < |Step(s, a).entries| && LifeOk(Step(s, a), e)
  {
    hide OfClient, Found, LifeOk, Entries;
    match a
    case ClientClosed(id) =>
      FoundOne(s, id);
      TakenOut(s, Step(s, a), {id} * s.hub.conns.Keys, ByPeer, e);
    case CloseConn(id) =>
      FoundOne(s, id);
      TakenOut(s, Step(s, a), {id} * s.hub.conns.Keys, ByClose, e);
    case CloseByClient(client) =>
      var ids := OfClient(s.hub, s.entries, s.streams, client);
      TakenOut(s, Step(s, a), ids, ByClose, e);
    case GiveUp(g) =>
      LifeGivenUp(s, g, e);
    case _ =>
  }

  lemma {:induction false} LifeGivenUp(s: State, g: nat, e: nat)
    requires NumbersOk(s) && Enabled(s, GiveUp(g)) && e < |s.entries| && LifeOk(s, e)
    ensures e < |Step(s, GiveUp(g)).entries| && LifeOk(Step(s, GiveUp(g)), e)
  {
    hide Found, LifeOk, Entries;
    var id := s.entries[g].id;
    FoundOne(s, id);
    var refused := s.(entries := s.entries[g := s.entries[g].(pc := Refused)]);
    var given := Step(s, GiveUp(g));
    var taken := given.(closing := s.closing + Found(s.hub.conns, id));
    GivesUp(s, refused, g, e);
    TakenOut(refused, taken, {id} * s.hub.conns.Keys, ByClose, e);
    assert !InConns(taken, g);
    ClosesRefused(taken, g, e);
    assert given == taken.(closing := taken.closing + {g});
  }

  lemma GivesUp(s: State, s': State, g: nat, e: nat)
    requires NumbersOk(s) && e < |s.entries| && g < |s.entries| && LifeOk(s, e)
    requires s' == s.(entries := s.entries[g := s.entries[g].(pc := Refused)])
    ensures NumbersOk(s') && LifeOk(s', e)
  {
  }

  lemma ClosesRefused(s: State, g: nat, e: nat)
    requires e < |s.entries| && g < |s.entries| && LifeOk(s, e) && s.entries[g].pc.Refused? && !InConns(s, g)
    ensures LifeOk(s.(closing := s.closing + {g}), e)
  {
  }

  lemma LifeOther(s: State, a: Action, e: nat)
    requires NumbersOk(s) && !TakesOut(a) && Enabled(s, a) && e < |s.entries| && BelowWrap(Step(s, a)) && LifeOk(s, e)
    ensures e < |Step(s, a).entries| && LifeOk(Step(s, a), e)
  {
    hide StreamTable.Assigned, StreamTable.RemovedByClient, StreamTable.Removed;
  }

  lemma {:induction false} StepKeepsLife(s: State, a: Action, e: nat)
    requires NumbersOk(s) && BelowWrap(Step(s, a)) && e < |s.entries| && LifeOk(s, e)
    ensures e < |Step(s, a).entries| && LifeOk(Step(s, a), e)
  {
    hide Apply, LifeOk, NumbersOk;
    if Enabled(s, a) {
      if TakesOut(a) { LifeTakenOut(s, a, e); } else { LifeOther(s, a, e); }
    }
  }

  lemma NewEntryOk(s: State, a: Action)
    requires NumbersOk(s) && a.OpenConn? && Enabled(s, a) && BelowWrap(Step(s, a))
    ensures var s' := Step(s, a); |s'.entries| == |s.entries| + 1 && AckOk(s', |s.entries|) && LifeOk(s', |s.entries|)
  {
  }

  lemma {:induction false} RunKeepsInv(actions: seq<Action>)
    ensures Inv(Run(actions))
  {
    hide Apply, NumbersOk, StreamsOk, AckOk, LifeOk;
    if actions == [] {
      InitOk();
    } else {
      var s, a := Run(actions[..|actions| - 1]), actions[|actions| - 1];
      RunKeepsInv(actions[..|actions| - 1]);
      var s' := Step(s, a);
      StepGrows(s, a);
      if BelowWrap(s') && Enabled(s, a) {
        StepKeepsNumbers(s, a);
        StepKeepsStreams(s, a);
        forall e | 0 <= e < |s'.entries| ensures AckOk(s', e) && LifeOk(s', e) {
          if e < |s.entries| {
            StepKeepsAck(s, a, e);
            StepKeepsLife(s, a, e);
          } else {
            NewEntryOk(s, a);
          }
        }
      }
    }
  }

  lemma InitOk()
    ensures NumbersOk(INIT) && StreamsOk(INIT)
  {
  }

  // ---------- every run ----------

  /** No number is given twice. */
  lemma NumbersNeverReused(actions: seq<Action>, d: nat, e: nat)
    requires BelowWrap(Run(actions)) && d < e < |Run(actions).entries|
    ensures Run(actions).entries[d].id < Run(actions).entries[e].id
  {
    hide Run, AckOk, LifeOk, StreamsOk;
    RunKeepsInv(actions);
  }

  /** A connection still in the map has both its channels open; one taken out was taken out by
      exactly one operation, and is told so by the channel that goes with it: RemoteClosed after the
      client's close frame and only then, Done after a close on this side. */
  lemma {:induction false} LifeOfAConnection(actions: seq<Action>, e: nat)
    requires BelowWrap(Run(actions)) && e < |Run(actions).entries|
    ensures var s := Run(actions);
            var x := s.entries[e];
            && (x.id in s.hub.conns ==> s.hub.conns[x.id] == e && x.removals == [] && !x.done && !x.remoteClosed)
            && (x.id !in s.hub.conns ==> |x.removals| == 1)
            && (x.removals == [ByPeer] <==> x.remoteClosed || e in s.marking)
            && (x.removals == [ByClose] ==> x.done || e in s.closing)
            && (x.done ==> x.removals == [ByClose] || x.pc.Refused?)
            && (x.pc.Refused? ==> x.done || e in s.closing)
  {
    RefusedIsClosed(actions, e);
    hide Run, AckOk, StreamsOk;
    RunKeepsInv(actions);
    assert LifeOk(Run(actions), e);
  }

  predicate RefusedOk(s: State, e: nat)
    requires e < |s.entries|
  {
    s.entries[e].pc.Refused? ==> s.entries[e].done || e in s.closing
  }

  lemma RefusedStep(s: State, a: Action, e: nat)
    requires e < |s.entries| && RefusedOk(s, e)
    ensures e < |Step(s, a).entries| && RefusedOk(Step(s, a), e)
  {
    hide StreamTable.Assigned, StreamTable.Removed, StreamTable.RemovedByClient, OfClient, Entries, Found;
  }

  lemma {:induction false} RefusedIsClosed(actions: seq<Action>, e: nat)
    requires e < |Run(actions).entries|
    ensures RefusedOk(Run(actions), e)
  {
    hide RefusedOk, Apply;
    if actions != [] {
      var before, a := actions[..|actions| - 1], actions[|actions| - 1];
      var s := Run(before);
      StepGrows(s, a);
      if e < |s.entries| {
        RefusedIsClosed(before, e);
        RefusedStep(s, a, e);
      } else {
        NewNotRefused(s, a);
      }
    }
  }

  lemma NewNotRefused(s: State, a: Action)
    requires |Step(s, a).entries| == |s.entries| + 1
    ensures RefusedOk(Step(s, a), |s.entries|)
  {
    StepGrows(s, a);
    hide StreamTable.Assigned, StreamTable.Removed, StreamTable.RemovedByClient, OfClient, Entries, Found;
  }

  /** Each ack channel gets at most one send, so delivering an ack never blocks the control session,
      not even when the caller has long given up. */
  lemma DeliveringNeverBlocks(actions: seq<Action>, e: nat)
    requires BelowWrap(Run(actions)) && e < |Run(actions).entries|
    ensures var s := Run(actions); s.entries[e].sends <= 1 && (e in s.due ==> s.entries[e].chan == [])
  {
    hide Run, LifeOk, StreamsOk;
    RunKeepsInv(actions);
    assert AckOk(Run(actions), e);
  }

  /** When a session ends, exactly those of its connections are taken out whose stream is still
      registered, and nobody else's. */
  lemma {:induction false} SessionEndCloses(actions: seq<Action>, client: nat, e: nat)
    requires BelowWrap(Run(actions)) && e < |Run(actions).entries| && Run(actions).entries[e].id in Run(actions).hub.conns
    ensures var s := Run(actions);
            Run(actions + [CloseByClient(client)]).entries[e].removals == []
            <==> s.entries[e].client != client || s.entries[e].stream !in s.streams.byId
  {
    hide Run, Step, AckOk;
    RunKeepsInv(actions);
    RunOne(actions, CloseByClient(client));
    var s := Run(actions);
    assert LifeOk(s, e);
    EndCloses(s, client, e);
  }

  lemma {:induction false} EndCloses(s: State, client: nat, e: nat)
    requires NumbersOk(s) && StreamsOk(s) && e < |s.entries| && s.entries[e].id in s.hub.conns && s.entries[e].removals == []
    ensures |Step(s, CloseByClient(client)).entries| == |s.entries|
    ensures Step(s, CloseByClient(client)).entries[e].removals == []
            <==> s.entries[e].client != client || s.entries[e].stream !in s.streams.byId
  {
    hide Entries, Step, Apply, Out;
    CloseStep(s, client);
    EntryIn(s, OfClient(s.hub, s.entries, s.streams, client), e);
  }

  lemma CloseStep(s: State, client: nat)
    ensures var found := Entries(s.hub.conns, OfClient(s.hub, s.entries, s.streams, client));
            Step(s, CloseByClient(client)).entries == Out(s.entries, found, ByClose)
  {
    hide Entries, Out, OfClient;
  }

  lemma RunOne(actions: seq<Action>, a: Action)
    ensures Run(actions + [a]) == Step(Run(actions), a)
  {
    assert (actions + [a])[..|actions|] == actions;
  }

  // ---------- who ended a connection, and how it is told ----------

  /** A half-close frame of the client finds e in the map. */
  predicate PeerHits(s: State, a: Action, e: nat) {
    a.ClientClosed? && a.id in s.hub.conns && s.hub.conns[a.id] == e
  }

  /** CloseConn, the cleanup of a failed OpenConn, or the end of the session finds it. */
  predicate CloseHits(s: State, a: Action, e: nat) {
    Enabled(s, a) &&
    match a
    case CloseConn(id) => id in s.hub.conns && s.hub.conns[id] == e
    case GiveUp(g) => s.entries[g].id in s.hub.conns && s.hub.conns[s.entries[g].id] == e
    case CloseByClient(client) =>
      && e < |s.entries| && s.entries[e].id in s.hub.conns && s.hub.conns[s.entries[e].id] == e
      && Belongs(s.entries, s.streams, client, e)
    case _ => false
  }

  predicate PeerTook(actions: seq<Action>, e: nat) {
    actions != [] &&
    var before, a := actions[..|actions| - 1], actions[|actions| - 1];
    PeerTook(before, e) || PeerHits(Run(before), a, e)
  }

  predicate CloseTook(actions: seq<Action>, e: nat) {
    actions != [] &&
    var before, a := actions[..|actions| - 1], actions[|actions| - 1];
    CloseTook(before, e) || CloseHits(Run(before), a, e)
  }

  function Only(b: bool, c: Cause): seq<Cause> { if b then [c] else [] }

  lemma HitsStep(s: State, a: Action, e: nat)
    requires NumbersOk(s) && e < |s.entries| && Enabled(s, a) && TakesOut(a)
    ensures e < |Step(s, a).entries|
    ensures Step(s, a).entries[e].removals ==
            s.entries[e].removals + Only(PeerHits(s, a, e), ByPeer) + Only(CloseHits(s, a, e), ByClose)
  {
    if a.CloseByClient? {
      CloseStep(s, a.client);
      EntryIn(s, OfClient(s.hub, s.entries, s.streams, a.client), e);
      hide Apply, Entries;
    } else {
      hide OfClient, Entries;
    }
  }

  lemma NoHits(s: State, a: Action, e: nat)
    requires e < |s.entries| && !(Enabled(s, a) && TakesOut(a))
    ensures e < |Step(s, a).entries| && Step(s, a).entries[e].removals == s.entries[e].removals
    ensures !PeerHits(s, a, e) && !CloseHits(s, a, e)
  {
    hide StreamTable.Assigned, StreamTable.Removed, StreamTable.RemovedByClient;
  }

  lemma HitsNobody(s: State, a: Action, e: nat)
    requires NumbersOk(s) && |s.entries| <= e
    ensures !PeerHits(s, a, e) && !CloseHits(s, a, e)
  {
  }

  lemma NewcomerIn(s: State, a: Action)
    requires |Step(s, a).entries| == |s.entries| + 1
    ensures Step(s, a).entries[|s.entries|].removals == []
  {
    StepGrows(s, a);
    hide StreamTable.Assigned, StreamTable.Removed, StreamTable.RemovedByClient, OfClient, Entries, Found, Out;
  }

  lemma {:induction false} RemovalsRecorded(actions: seq<Action>, e: nat)
    requires BelowWrap(Run(actions))
    ensures var s, peer, close := Run(actions), PeerTook(actions, e), CloseTook(actions, e);
            if e < |s.entries| then
              && !(peer && close)
              && s.entries[e].removals == Only(peer, ByPeer) + Only(close, ByClose)
            else !peer && !close
  {
    hide Step, NumbersOk, StreamsOk, AckOk, LifeOk, PeerHits, CloseHits;
    if actions != [] {
      var before, a := actions[..|actions| - 1], actions[|actions| - 1];
      var s := Run(before);
      StepGrows(s, a);
      RemovalsRecorded(before, e);
      RunKeepsInv(before);
      RunKeepsInv(actions);
      if e < |s.entries| {
        if Enabled(s, a) && TakesOut(a) { HitsStep(s, a, e); } else { NoHits(s, a, e); }
        assert LifeOk(Run(actions), e);
        OneRemoval(Run(actions), e);
        Recorded(s.entries[e].removals, Step(s, a).entries[e].removals, PeerTook(before, e), CloseTook(before, e),
                 PeerHits(s, a, e), CloseHits(s, a, e));
      } else {
        HitsNobody(s, a, e);
        if e < |Step(s, a).entries| {
          NewcomerIn(s, a);
          Recorded([], [], false, false, false, false);
        }
      }
    } else {
      assert |Run(actions).entries| == 0;
    }
  }

  lemma OneRemoval(s: State, e: nat)
    requires e < |s.entries| && LifeOk(s, e)
    ensures |s.entries[e].removals| <= 1
  {
  }

  lemma Recorded(was: seq<Cause>, now: seq<Cause>, peer: bool, close: bool, peerHit: bool, closeHit: bool)
    requires was == Only(peer, ByPeer) + Only(close, ByClose)
    requires now == was + Only(peerHit, ByPeer) + Only(closeHit, ByClose) && |now| <= 1
    ensures !((peer || peerHit) && (close || closeHit))
    ensures now == Only(peer || peerHit, ByPeer) + Only(close || closeHit, ByClose)
  {
  }

  /** A connection is told RemoteClosed exactly when a half-close frame of the client found it in the map, and
      Done exactly when a close on this side did or its OpenConn failed; it is in the map exactly until
      the first of these. */
  lemma {:induction false} EndedExactly(actions: seq<Action>, e: nat)
    requires BelowWrap(Run(actions)) && e < |Run(actions).entries|
    ensures var s := Run(actions);
            var x := s.entries[e];
            && (x.remoteClosed || e in s.marking <==> PeerTook(actions, e))
            && (x.done || e in s.closing <==> CloseTook(actions, e) || x.pc.Refused?)
            && (x.id in s.hub.conns <==> !PeerTook(actions, e) && !CloseTook(actions, e))
  {
    hide Run, PeerTook, CloseTook, AckOk, StreamsOk;
    LifeOfAConnection(actions, e);
    RemovalsRecorded(actions, e);
    RunKeepsInv(actions);
    assert LifeOk(Run(actions), e);
    ByWhom(Run(actions).entries[e].removals, PeerTook(actions, e), CloseTook(actions, e));
  }

  lemma ByWhom(removals: seq<Cause>, peer: bool, close: bool)
    requires !(peer && close) && removals == Only(peer, ByPeer) + Only(close, ByClose)
    ensures (removals == [ByPeer] <==> peer) && (removals == [ByClose] <==> close) && (removals == [] <==> !peer && !close)
  {
    assert [ByPeer][0] != [ByClose][0];
  }

  /** What is due to be told is told by the next step of it, once. */
  lemma Told(actions: seq<Action>, e: nat)
    requires e < |Run(actions).entries|
    ensures e in Run(actions).marking ==>
              var t := Run(actions + [DoMark(e)]); |t.entries| == |Run(actions).entries| && t.entries[e].remoteClosed && e !in t.marking
    ensures e in Run(actions).closing ==>
              var t := Run(actions + [DoClose(e)]); |t.entries| == |Run(actions).entries| && t.entries[e].done && e !in t.closing
  {
    RunOne(actions, DoMark(e));
    RunOne(actions, DoClose(e));
    hide Run;
  }

  // ---------- whom OpenConn hands out ----------

  predicate AnswerHits(s: State, a: Action, e: nat, ok: bool) {
    a.AckArrives? && a.ok == ok && a.id in s.hub.acks && s.hub.acks[a.id] == e
  }

  /** An answer with this ok arrived for e. */
  predicate Answered(actions: seq<Action>, e: nat, ok: bool) {
    actions != [] &&
    var before, a := actions[..|actions| - 1], actions[|actions| - 1];
    Answered(before, e, ok) || AnswerHits(Run(before), a, e, ok)
  }

  /** The caller took its answer. */
  predicate Took(actions: seq<Action>, e: nat) {
    actions != [] &&
    var before, a := actions[..|actions| - 1], actions[|actions| - 1];
    Took(before, e) || (a == TakeAck(e) && Enabled(Run(before), a))
  }

  /** granted, refused, took: what happened to e so far. */
  ghost predicate OpenerOk(s: State, e: nat, granted: bool, refused: bool, took: bool)
    requires e < |s.entries|
  {
    var x := s.entries[e];
    && One(granted) + One(refused) + One(InAcks(s, e)) <= 1
    && (e in s.due ==> if s.due[e] then granted else refused)
    && (x.chan != [] ==> x.chan == [granted])
    && (took ==> !x.pc.Sending? && !x.pc.Waiting? && x.sends == 1)
    && (x.pc.Opened? <==> took && granted)
  }

  lemma OpenerTakenOut(s: State, a: Action, e: nat, g: bool, r: bool, t: bool)
    requires TakesOut(a) && Enabled(s, a) && e < |s.entries| && OpenerOk(s, e, g, r, t)
    ensures e < |Step(s, a).entries| && OpenerOk(Step(s, a), e, g, r, t)
  {
    hide OfClient, Entries, Found, OpenerOk, Out;
    var x, s' := s.entries[e], Step(s, a);
    assert s'.hub.acks == s.hub.acks && s'.due == s.due;
    OutKeepsAnswer(s, a, e);
    SameOpener(s, s', e, g, r, t);
  }

  lemma OutKeepsAnswer(s: State, a: Action, e: nat)
    requires TakesOut(a) && Enabled(s, a) && e < |s.entries|
    ensures e < |Step(s, a).entries|
    ensures var x, y := s.entries[e], Step(s, a).entries[e];
            y.chan == x.chan && y.sends == x.sends && (y.pc == x.pc || (x.pc.Failing? && y.pc.Refused?))
  {
    hide OfClient, Entries, Found;
    if a.GiveUp? {
      GiveUpKeepsAnswer(s, a.e, e);
      hide Out;
    }
  }

  lemma GiveUpKeepsAnswer(s: State, g: nat, e: nat)
    requires Enabled(s, GiveUp(g)) && e < |s.entries|
    ensures |Step(s, GiveUp(g)).entries| == |s.entries|
    ensures var x, y := s.entries[e], Step(s, GiveUp(g)).entries[e];
            y.chan == x.chan && y.sends == x.sends && (y.pc == x.pc || (x.pc.Failing? && y.pc.Refused?))
  {
    hide OfClient, Entries, Found;
  }

  lemma SameOpener(s: State, s': State, e: nat, g: bool, r: bool, t: bool)
    requires e < |s.entries| && e < |s'.entries| && OpenerOk(s, e, g, r, t)
    requires s'.hub.acks == s.hub.acks && s'.due == s.due
    requires var x, y := s.entries[e], s'.entries[e];
             y.chan == x.chan && y.sends == x.sends && (y.pc == x.pc || (x.pc.Failing? && y.pc.Refused?))
    ensures OpenerOk(s', e, g, r, t)
  {
  }

  lemma OpenerOther(s: State, a: Action, e: nat, g: bool, r: bool, t: bool)
    requires NumbersOk(s) && !TakesOut(a) && e < |s.entries| && AckOk(s, e) && OpenerOk(s, e, g, r, t)
    requires Enabled(s, a) && BelowWrap(Step(s, a))
    ensures e < |Step(s, a).entries|
    ensures OpenerOk(Step(s, a), e, g || AnswerHits(s, a, e, true), r || AnswerHits(s, a, e, false), t || a == TakeAck(e))
  {
    hide StreamTable.Assigned, StreamTable.Removed, StreamTable.RemovedByClient;
  }

  lemma OpenerStep(s: State, a: Action, e: nat, g: bool, r: bool, t: bool)
    requires NumbersOk(s) && e < |s.entries| && AckOk(s, e) && OpenerOk(s, e, g, r, t) && BelowWrap(Step(s, a))
    ensures e < |Step(s, a).entries|
    ensures OpenerOk(Step(s, a), e, g || AnswerHits(s, a, e, true), r || AnswerHits(s, a, e, false),
                     t || (a == TakeAck(e) && Enabled(s, a)))
  {
    hide Apply, AckOk, OpenerOk, NumbersOk;
    if Enabled(s, a) {
      if TakesOut(a) { OpenerTakenOut(s, a, e, g, r, t); } else { OpenerOther(s, a, e, g, r, t); }
    }
  }

  lemma OpenerNew(s: State, a: Action)
    requires NumbersOk(s) && a.OpenConn? && Enabled(s, a) && BelowWrap(Step(s, a))
    ensures |Step(s, a).entries| == |s.entries| + 1 && OpenerOk(Step(s, a), |s.entries|, false, false, false)
  {
  }

  lemma NothingToHit(s: State, a: Action, e: nat)
    requires NumbersOk(s) && |s.entries| <= e
    ensures !AnswerHits(s, a, e, true) && !AnswerHits(s, a, e, false) && !(a == TakeAck(e) && Enabled(s, a))
  {
  }

  lemma {:induction false} OpenersOk(actions: seq<Action>, e: nat)
    requires BelowWrap(Run(actions))
    ensures var g, r, t := Answered(actions, e, true), Answered(actions, e, false), Took(actions, e);
            if e < |Run(actions).entries| then OpenerOk(Run(actions), e, g, r, t) else !g && !r && !t
  {
    hide Apply, NumbersOk, StreamsOk, AckOk, LifeOk, OpenerOk, AnswerHits;
    if actions != [] {
      var before, a := actions[..|actions| - 1], actions[|actions| - 1];
      var s := Run(before);
      StepGrows(s, a);
      OpenersOk(before, e);
      RunKeepsInv(before);
      if e < |s.entries| {
        OpenerStep(s, a, e, Answered(before, e, true), Answered(before, e, false), Took(before, e));
      } else {
        NothingToHit(s, a, e);
        if e < |Step(s, a).entries| { OpenerNew(s, a); }
      }
    }
  }

  /** OpenConn hands its connection out exactly when it took an answer and the answer that arrived for
      its number was a grant. */
  lemma {:induction false} OpenedExactly(actions: seq<Action>, e: nat)
    requires BelowWrap(Run(actions)) && e < |Run(actions).entries|
    ensures Run(actions).entries[e].pc.Opened? <==> Took(actions, e) && Answered(actions, e, true)
  {
    hide Run, Answered, Took;
    OpenersOk(actions, e);
  }

  lemma {:induction false} StaysRefused(actions: seq<Action>, more: seq<Action>, e: nat)
    requires Answered(actions, e, false)
    ensures Answered(actions + more, e, false) && |Run(actions).entries| <= |Run(actions + more).entries|
  {
    hide Step, AnswerHits;
    if more == [] {
      assert actions + more == actions;
    } else {
      var all := actions + more;
      assert all[..|all| - 1] == actions + more[..|more| - 1];
      StaysRefused(actions, more[..|more| - 1], e);
      StepGrows(Run(all[..|all| - 1]), all[|all| - 1]);
    }
  }

  /** A refused OpenConn is never handed out, whatever happens later. */
  lemma {:induction false} RefusedNeverOpened(actions: seq<Action>, more: seq<Action>, e: nat)
    requires e < |Run(actions).entries| && Answered(actions, e, false) && BelowWrap(Run(actions + more))
    ensures e < |Run(actions + more).entries| && !Run(actions + more).entries[e].pc.Opened?
  {
    hide Run, Answered, Took;
    StaysRefused(actions, more, e);
    OpenersOk(actions + more, e);
  }

  predicate GaveUp(x: Entry) {
    x.pc.Failing? || x.pc.Refused?
  }

  lemma GaveUpStays(s: State, a: Action, e: nat)
    requires e < |s.entries| && GaveUp(s.entries[e])
    ensures e < |Step(s, a).entries| && GaveUp(Step(s, a).entries[e])
  {
    if Enabled(s, a) && TakesOut(a) {
      OutKeepsAnswer(s, a, e);
    }
    hide StreamTable.Assigned, StreamTable.Removed, StreamTable.RemovedByClient, OfClient, Entries, Found, Out;
  }

  lemma {:induction false} GaveUpForGood(actions: seq<Action>, more: seq<Action>, e: nat)
    requires e < |Run(actions).entries| && GaveUp(Run(actions).entries[e])
    ensures e < |Run(actions + more).entries| && GaveUp(Run(actions + more).entries[e])
  {
    hide Step, GaveUp;
    if more == [] {
      assert actions + more == actions;
    } else {
      var all := actions + more;
      assert all[..|all| - 1] == actions + more[..|more| - 1];
      GaveUpForGood(actions, more[..|more| - 1], e);
      GaveUpStays(Run(all[..|all| - 1]), all[|all| - 1], e);
    }
  }

  /** Nor is one whose request could not be sent, or that timed out. */
  lemma {:induction false} FailedNeverOpened(actions: seq<Action>, a: Action, more: seq<Action>, e: nat)
    requires (a == SendOpen(e, false) || a == TimeOut(e)) && Enabled(Run(actions), a)
    ensures e < |Run(actions + [a] + more).entries| && !Run(actions + [a] + more).entries[e].pc.Opened?
  {
    RunOne(actions, a);
    assert GaveUp(Run(actions + [a]).entries[e]);
    hide Run;
    GaveUpForGood(actions + [a], more, e);
  }

  // ---------- one number space for three kinds of things ----------

  /** What the control session does with a full close frame: a chained connection of this session with
      that number gets it; failing that, a connection with that number is closed; and only without
      one is a stream with that number unregistered. */
  function OnCloseFrame(s: State, client: nat, id: nat): Action {
    if (client, id) in s.chained then ChainFrame(client, id)
    else if id in s.hub.conns then CloseConn(id)
    else Unregister(client, id)
  }

  /** A request to unregister a stream works exactly when neither a chained connection of the same
      session nor any other connection, of whatever stream or session, happens to have the stream's
      number; otherwise the one that has it is closed. */
  lemma {:induction false} UnregisterExact(actions: seq<Action>, client: nat, stream: nat)
    requires BelowWrap(Run(actions)) && stream in Run(actions).streams.byId
    ensures var s, s' := Run(actions), Run(actions + [OnCloseFrame(Run(actions), client, stream)]);
            && (stream !in s'.streams.byId <==> stream !in s.hub.conns && (client, stream) !in s.chained)
            && ((client, stream) in s.chained ==> s' == s.(chained := s.chained - {(client, stream)}))
            && ((client, stream) !in s.chained && stream in s.hub.conns ==>
                  s.hub.conns[stream] < |s'.entries| && s'.entries[s.hub.conns[stream]].removals == [ByClose])
  {
    hide Run, Step, AckOk, StreamsOk;
    RunKeepsInv(actions);
    var s := Run(actions);
    RunOne(actions, OnCloseFrame(s, client, stream));
    CloseFrameStep(s, client, stream);
    if stream in s.hub.conns {
      var e := s.hub.conns[stream];
      assert LifeOk(s, e) && s.entries[e].removals == [];
    }
  }

  lemma CloseFrameStep(s: State, client: nat, stream: nat)
    requires stream in s.streams.byId
    ensures var s' := Step(s, OnCloseFrame(s, client, stream));
            && |s'.entries| == |s.entries|
            && (stream !in s'.streams.byId <==> stream !in s.hub.conns && (client, stream) !in s.chained)
            && ((client, stream) in s.chained ==> s' == s.(chained := s.chained - {(client, stream)}))
            && ((client, stream) !in s.chained && stream in s.hub.conns && s.hub.conns[stream] < |s.entries|
                && s.entries[s.hub.conns[stream]].removals == [] ==>
                  s'.entries[s.hub.conns[stream]].removals == [ByClose])
  {
  }

  /** Both numberings start at one, so the first connection gets in the way of unregistering the
      first stream. */
  lemma {:induction false} FirstStreamStays(client: nat, proxy: string, name: string) returns (actions: seq<Action>)
    ensures var s := Run(actions); var t := Run(actions + [OnCloseFrame(s, client, 1)]);
            && 1 in s.streams.byId && s.streams.byId[1] == StreamTable.Entry(1, proxy, name, client)
            && t.streams == s.streams && s.hub.conns == map[1 := 0] && t.hub.conns == map[]
  {
    actions := [Register(client, proxy, name), OpenConn(1)];
    var s1 := Step(INIT, actions[0]);
    var s2 := Step(s1, actions[1]);
    assert s2.hub == Hub(map[1 := 0], map[1 := 0], 1);
    RunIs(actions, [INIT, s1, s2]);
    RunOne(actions, OnCloseFrame(s2, client, 1));
    assert Step(s2, CloseConn(1)).hub.conns == map[];
  }

  /** And so does a chained connection to which the client gave that number, with no other connection
      anywhere. */
  lemma {:induction false} ChainedTakesFrame(client: nat, proxy: string, name: string) returns (actions: seq<Action>)
    ensures var s := Run(actions); var t := Run(actions + [OnCloseFrame(s, client, 1)]);
            && 1 in s.streams.byId && s.streams.byId[1] == StreamTable.Entry(1, proxy, name, client)
            && s.hub.conns == map[] && s.chained == {(client, 1)}
            && t.streams == s.streams && t.chained == {}
  {
    actions := [Register(client, proxy, name), ChainOpen(client, proxy, name, 1)];
    var s1 := Step(INIT, actions[0]);
    var s2 := Step(s1, actions[1]);
    assert s2 == s1.(chained := {(client, 1)});
    RunIs(actions, [INIT, s1, s2]);
    RunOne(actions, OnCloseFrame(s2, client, 1));
  }

  /** A chained connection of this session and number was granted, and has not been closed by a frame,
      removed, or ended with its session since. */
  predicate ChainLives(actions: seq<Action>, client: nat, id: nat) {
    actions != [] &&
    var before, a := actions[..|actions| - 1], actions[|actions| - 1];
    if a.ChainOpen? && a.client == client && a.id == id && Enabled(Run(before), a) then true
    else
      && ChainLives(before, client, id)
      && a != ChainFrame(client, id) && a != ChainRemove(client, id) && a != ChainsEnd(client)
  }

  lemma {:induction false} ChainedExactly(actions: seq<Action>, client: nat, id: nat)
    ensures (client, id) in Run(actions).chained <==> ChainLives(actions, client, id)
  {
    if actions != [] {
      var before, a := actions[..|actions| - 1], actions[|actions| - 1];
      ChainedExactly(before, client, id);
      ChainStep(Run(before), a, client, id);
      hide Step;
    }
  }

  lemma ChainStep(s: State, a: Action, client: nat, id: nat)
    ensures (client, id) in Step(s, a).chained
            <==> (a.ChainOpen? && a.client == client && a.id == id && Enabled(s, a))
                 || ((client, id) in s.chained && a != ChainFrame(client, id) && a != ChainRemove(client, id) && a != ChainsEnd(client))
  {
    hide StreamTable.Assigned, StreamTable.Removed, StreamTable.RemovedByClient, OfClient, Entries, Found, Out;
  }

  /** The end of a session leaves none of its streams registered, and everybody else's. */
  lemma {:induction false} SessionEndUnregisters(actions: seq<Action>, client: nat, id: nat)
    ensures var s, t := Run(actions), Run(actions + [UnregisterClient(client)]);
            id in t.streams.byId <==> id in s.streams.byId && s.streams.byId[id].client != client
  {
    RunOne(actions, UnregisterClient(client));
    hide Run;
  }

  /** Two streams are registered, and a connection is opened and acknowledged on the second. */
  function OpenedOnSecond(client: nat, proxy: string, first: string, second: string): seq<Action> {
    [Register(client, proxy, first), Register(client, proxy, second), OpenConn(2),
     SendOpen(0, true), AckArrives(1, true), AckSend(0), TakeAck(0)]
  }

  /** So a connection whose stream the client has unregistered outlives the client's session: here
      the close frame of the second stream, then the end of the session. */
  lemma {:induction false} UnregisteredOutlives(client: nat, proxy: string, first: string, second: string)
    requires first != second
    ensures var open := OpenedOnSecond(client, proxy, first, second);
            var frame := OnCloseFrame(Run(open), client, 2);
            var s := Run(open + [frame] + [CloseByClient(client)]);
            && 2 in Run(open).streams.byId && frame == Unregister(client, 2)
            && |s.entries| == 1 && s.entries[0].client == client && s.entries[0].pc.Opened?
            && s.entries[0].id in s.hub.conns && !s.entries[0].done && s.closing == {}
  {
    hide Run, Step;
    var open := OpenedOnSecond(client, proxy, first, second);
    OpensOne(client, proxy, first, second, open);
    RunOne(open, Unregister(client, 2));
    RunOne(open + [Unregister(client, 2)], CloseByClient(client));
    OutlivesEnd(Run(open), client);
  }

  lemma OutlivesEnd(s: State, client: nat)
    requires s.hub.conns == map[1 := 0] && |s.entries| == 1 && s.entries[0].stream == 2 && s.closing == {} && s.chained == {}
    ensures var s' := Step(Step(s, Unregister(client, 2)), CloseByClient(client));
            s'.hub.conns == map[1 := 0] && s'.entries == s.entries && s'.closing == {}
  {
    var s1 := Step(s, Unregister(client, 2));
    assert OfClient(s1.hub, s1.entries, s1.streams, client) == {};
    assert Step(s1, CloseByClient(client)).hub.conns == s1.hub.conns;
    assert Step(s1, CloseByClient(client)).entries == s1.entries;
  }

  lemma RegistersTwo(client: nat, proxy: string, first: string, second: string)
    requires first != second
    ensures var s := Step(Step(INIT, Register(client, proxy, first)), Register(client, proxy, second));
            && 2 in s.streams.byId && s == INIT.(streams := s.streams, owners := s.owners)
            && |s.owners| == 2 && s.owners[1] == client
  {
    var k1, k2 := StreamTable.Key(proxy, first), StreamTable.Key(proxy, second);
    assert k1[|proxy| + 1..] == first && k2[|proxy| + 1..] == second;
  }

  lemma OpensOne(client: nat, proxy: string, first: string, second: string, open: seq<Action>)
    requires first != second && open == OpenedOnSecond(client, proxy, first, second)
    ensures var s := Run(open);
            && 2 in s.streams.byId && s.hub.conns == map[1 := 0] && s.closing == {} && s.chained == {}
            && exists x :: s.entries == [x] && x.id == 1 && x.stream == 2 && x.client == client && x.pc.Opened? && !x.done
  {
    hide StreamTable.Assigned;
    RegistersTwo(client, proxy, first, second);
    var s1, s2 := Step(INIT, open[0]), Step(Step(INIT, open[0]), open[1]);
    var x := Entry(1, 2, client, Sending, [], false, false, 0, []);
    var s3, s7 := Step(s2, open[2]), Acknowledged(Step(s2, open[2]));
    assert s3.hub == Hub(map[1 := 0], map[1 := 0], 1) && s3.entries == [x];
    OneAcknowledged(s3, x);
    var s4 := Step(s3, open[3]);
    var s5 := Step(s4, open[4]);
    var s6 := Step(s5, open[5]);
    RunIs(open, [INIT, s1, s2, s3, s4, s5, s6, s7]);
  }

  function Acknowledged(s: State): State {
    Step(Step(Step(Step(s, SendOpen(0, true)), AckArrives(1, true)), AckSend(0)), TakeAck(0))
  }

  lemma OneAcknowledged(s: State, x: Entry)
    requires s.entries == [x] && x.pc.Sending? && x.chan == [] && s.hub.acks == map[1 := 0]
    ensures var t := Acknowledged(s);
            && t.hub.conns == s.hub.conns && t.streams == s.streams && t.closing == s.closing && t.chained == s.chained
            && |t.entries| == 1 && t.entries[0].pc.Opened?
            && t.entries[0] == x.(pc := Opened, chan := t.entries[0].chan, sends := t.entries[0].sends)
  {
    var s1 := Step(s, SendOpen(0, true));
    assert s1 == s.(entries := [x.(pc := Waiting)]);
    var s2 := Step(s1, AckArrives(1, true));
    assert s2.entries == s1.entries && 0 in s2.due && s2.due[0];
    var s3 := Step(s2, AckSend(0));
    assert s3.entries == [x.(pc := Waiting, chan := x.chan + [true], sends := x.sends + 1)];
  }

  lemma {:induction false} RunIs(plan: seq<Action>, states: seq<State>)
    requires |states| == |plan| + 1 && states[0] == INIT
    requires forall i :: 0 <= i < |plan| ==> states[i + 1] == Step(states[i], plan[i])
    ensures Run(plan) == states[|plan|]
  {
    hide Step;
    if plan != [] {
      RunIs(plan[..|plan| - 1], states[..|plan|]);
    }
  }
}
