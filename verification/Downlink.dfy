/** The intranet-to-external direction of one proxied connection: the client's read loop and its
    window, the server's queue and downlink pump, and the credit that is meant to come back
    (protocol/star/ctrlclient.go, internal/handler/star/ctrl_hub.go,
    internal/star/starserver/proxy_server.go). */
module Downlink {
  import opened Wrappers
  import opened Bytes
  import opened Window

  const LIMIT := DEFAULT_STREAM_WINDOW
  const UPLINK_CHUNK := 0x8000
  const SINK_CAP := 256
  const RELEASE_BATCH := 0x1_0000

  /** pumpUplink. */
  datatype Pump = Reading | Acquiring(payload: seq<byte>, left: int) | Holding(payload: seq<byte>) | Ended

  /** A WindowUpdate frame; None: it has no payload. */
  datatype Update = Update(delta: Option<nat>)

  /** wire: data frames on their way to the server.  back: WindowUpdate frames on their way to the
      client.  pending: recvPending.  The rest are histories: the chunks read from the intranet
      connection, those sent, the bytes written outside, and what was taken from the window and given
      back to it. */
  datatype State = State(
    win: Win, pump: Pump, wire: seq<seq<byte>>, mapped: bool, sink: seq<seq<byte>>, pending: nat, back: seq<Update>,
    read: seq<seq<byte>>, sent: seq<seq<byte>>, out: seq<byte>, acquired: int, released: int)

  const INIT := State(Win(0, LIMIT, false, []), Reading, [], true, [], 0, [], [], [], [], 0, 0)

  datatype Action =
    | Read(p: seq<byte>)
    | ReadEnd                 // end of file or an error
    | AcquireStep             // one locked section
    | Send
    | Arrive                  // Downlink: the frame enters the queue, or finds no connection
    | Consume                 // written outside, then ReleaseRecv
    | CreditArrives           // the client's read loop takes a WindowUpdate
    | Unmap                   // the server drops the connection
    | CloseWindow             // closeConn at the client

  predicate Enabled(s: State, a: Action) {
    match a
    case Read(p) => s.pump.Reading? && 0 < |p| <= UPLINK_CHUNK
    case ReadEnd => s.pump.Reading?
    case AcquireStep => s.pump.Acquiring?
    case Send => s.pump.Holding?
    case Arrive => s.wire != [] && (s.mapped ==> |s.sink| < SINK_CAP)
    case Consume => s.sink != []
    case CreditArrives => s.back != []
    case Unmap => true
    case CloseWindow => true
  }

  function AcquireOn(s: State): State
    requires s.pump.Acquiring?
  {
    var (win, turn) := AcquireTurn(s.win, s.pump.left, 0);
    match turn
    case WasClosed => s.(pump := Ended)
    case MustWait => s
    case Took(take) =>
      var left := s.pump.left - take;
      s.(win := win, acquired := s.acquired + take,
         pump := if left <= 0 then Holding(s.pump.payload) else Acquiring(s.pump.payload, left))
  }

  /** ReleaseRecv: a full batch goes back as a WindowUpdate, without a payload. */
  function ReleaseRecv(s: State, n: nat): State {
    var pending := s.pending + n;
    if pending < RELEASE_BATCH then s.(pending := pending)
    else s.(pending := pending - RELEASE_BATCH, back := s.back + [Update(None)])
  }

  /** The client's reaction; DecodeControl fails on an empty payload. */
  function OnUpdate(s: State, u: Update): State {
    match u.delta
    case None => s
    case Some(n) => s.(win := ReleaseSection(s.win, n), released := s.released + n)
  }

  function Apply(s: State, a: Action): State
    requires Enabled(s, a)
  {
    match a
    case Read(p) => s.(pump := Acquiring(p, |p|), read := s.read + [p])
    case ReadEnd => s.(pump := Ended)
    case AcquireStep => AcquireOn(s)
    case Send => s.(pump := Reading, wire := s.wire + [s.pump.payload], sent := s.sent + [s.pump.payload])
    case Arrive =>
      if s.mapped then s.(wire := s.wire[1..], sink := s.sink + [s.wire[0]]) else s.(wire := s.wire[1..])
    case Consume => ReleaseRecv(s.(sink := s.sink[1..], out := s.out + s.sink[0]), |s.sink[0]|)
    case CreditArrives => OnUpdate(s.(back := s.back[1..]), s.back[0])
    case Unmap => s.(mapped := false)
    case CloseWindow => s.(win := CloseSection(s.win))
  }

  function Step(s: State, a: Action): State {
    if Enabled(s, a) then Apply(s, a) else s
  }

  function After(s: State, actions: seq<Action>): State {
    if actions == [] then s else Step(After(s, actions[..|actions| - 1]), actions[|actions| - 1])
  }

  function Run(actions: seq<Action>): State {
    After(INIT, actions)
  }

  // ---------- the invariant ----------

  /** Bytes taken from the window for the chunk in hand. */
  function Held(s: State): int {
    match s.pump
    case Acquiring(p, left) => |p| - left
    case Holding(p) => |p|
    case _ => 0
  }

  /** No credit ever comes back: what was sent or is held was all taken from the one window. */
  ghost predicate CreditInv(s: State) {
    && s.win.limit == LIMIT && s.released == 0 && s.win.outstanding == s.acquired <= LIMIT
    && (forall u <- s.back :: u.delta.None?)
    && |Concat(s.sent)| + Held(s) <= s.acquired
    && (!s.pump.Ended? ==> |Concat(s.sent)| + Held(s) == s.acquired)
    && (match s.pump
        case Acquiring(p, left) => left == |p| && 0 < |p| <= UPLINK_CHUNK
        case Holding(p) => 0 < |p| <= UPLINK_CHUNK
        case _ => true)
  }

  ghost predicate OrderInv(s: State) {
    && s.out + Concat(s.sink) <= Concat(s.sent)
    && (s.mapped ==> s.out + Concat(s.sink) + Concat(s.wire) == Concat(s.sent))
    && (match s.pump
        case Acquiring(p, _) => s.sent + [p] == s.read
        case Holding(p) => s.sent + [p] == s.read
        case Reading => s.sent == s.read
        case Ended => s.sent <= s.read)
  }

  lemma StepKeepsCredit(s: State, a: Action)
    requires CreditInv(s)
    ensures CreditInv(Step(s, a))
  {
    if a.Send? && Enabled(s, a) { ConcatSnoc(s.sent, s.pump.payload); }
    if a.CreditArrives? && Enabled(s, a) { assert s.back[0] in s.back; }
    hide Concat;
  }

  lemma StepKeepsOrder(s: State, a: Action)
    requires OrderInv(s)
    ensures OrderInv(Step(s, a))
  {
    if Enabled(s, a) {
      if a.Send? {
        ConcatSnoc(s.sent, s.pump.payload);
        ConcatSnoc(s.wire, s.pump.payload);
      } else if a.Arrive? {
        ConcatSnoc(s.sink, s.wire[0]);
        ConcatFirst(s.wire);
      } else if a.Consume? {
        ConcatFirst(s.sink);
      }
      hide Concat;
      Regroup(s, a);
    }
  }

  lemma ConcatFirst(parts: seq<seq<byte>>)
    requires parts != []
    ensures Concat(parts) == parts[0] + Concat(parts[1..])
  {
  }

  lemma Regroup(s: State, a: Action)
    requires Enabled(s, a)
    ensures a.Send? ==> var p := s.pump.payload;
              s.out + Concat(s.sink) + (Concat(s.wire) + p) == s.out + Concat(s.sink) + Concat(s.wire) + p
    ensures a.Arrive? ==> var p := s.wire[0];
              s.out + Concat(s.sink) + (p + Concat(s.wire[1..])) == s.out + (Concat(s.sink) + p) + Concat(s.wire[1..])
    ensures a.Consume? ==> var p := s.sink[0]; s.out + (p + Concat(s.sink[1..])) == s.out + p + Concat(s.sink[1..])
  {
  }

  lemma {:induction false} RunKeepsInv(actions: seq<Action>)
    ensures CreditInv(Run(actions)) && OrderInv(Run(actions))
  {
    AfterKeepsInv(INIT, actions);
  }

  lemma {:induction false} AfterKeepsInv(s: State, actions: seq<Action>)
    requires CreditInv(s) && OrderInv(s)
    ensures CreditInv(After(s, actions)) && OrderInv(After(s, actions))
  {
    hide Step, CreditInv, OrderInv;
    if actions != [] {
      AfterKeepsInv(s, actions[..|actions| - 1]);
      StepKeepsCredit(After(s, actions[..|actions| - 1]), actions[|actions| - 1]);
      StepKeepsOrder(After(s, actions[..|actions| - 1]), actions[|actions| - 1]);
    }
  }

  // ---------- results, for every schedule ----------

  /** What is written outside is, in order, a prefix of what was read from the intranet. */
  lemma OutsideGetsPrefix(actions: seq<Action>)
    ensures Run(actions).out <= Concat(Run(actions).read)
  {
    RunKeepsInv(actions);
    var s := Run(actions);
    assert s.sent <= s.read;
    assert s.read == s.sent + s.read[|s.sent|..];
    ConcatAppend(s.sent, s.read[|s.sent|..]);
    assert s.out <= s.out + Concat(s.sink);
    hide Concat;
  }

  /** In its whole life a connection carries at most one window in this direction: nothing ever comes
      back to it. */
  lemma LifetimeBound(actions: seq<Action>)
    ensures var s := Run(actions);
            s.released == 0 && |s.out| <= |Concat(s.sent)| <= s.win.outstanding <= DEFAULT_STREAM_WINDOW
  {
    RunKeepsInv(actions);
    var s := Run(actions);
    assert |s.out| <= |s.out + Concat(s.sink)| <= |Concat(s.sent)|;
    assert 0 <= Held(s);
  }

  ghost predicate CanHold(s: State, p: seq<byte>) {
    exists later :: After(s, later).pump == Holding(p)
  }

  predicate Stalled(s: State, p: seq<byte>) {
    s.pump == Acquiring(p, |p|) && (s.win.closed || !s.win.Fits(|p|))
  }

  /** A waiting chunk for which there is no room is never sent, whatever is consumed and credited. */
  lemma {:induction false} StalledForEver(s: State, later: seq<Action>, p: seq<byte>)
    requires CreditInv(s) && (Stalled(s, p) || (s.pump.Ended? && s.win.closed))
    ensures var t := After(s, later);
            && (Stalled(t, p) || (t.pump.Ended? && t.win.closed)) && CreditInv(t)
            && t.sent == s.sent && t.acquired == s.acquired
  {
    hide Step, CreditInv, Stalled;
    if later != [] {
      StalledForEver(s, later[..|later| - 1], p);
      StepKeepsCredit(After(s, later[..|later| - 1]), later[|later| - 1]);
      StallStays(After(s, later[..|later| - 1]), later[|later| - 1], p);
    }
  }

  lemma StallStays(s: State, a: Action, p: seq<byte>)
    requires CreditInv(s) && (Stalled(s, p) || (s.pump.Ended? && s.win.closed))
    ensures var t := Step(s, a);
            && (Stalled(t, p) || (t.pump.Ended? && t.win.closed))
            && t.sent == s.sent && t.acquired == s.acquired
  {
    if a.CreditArrives? && Enabled(s, a) { assert s.back[0] in s.back; }
  }

  /** Exactly: a chunk just read can still be sent if and only if it fits, with all that was sent
      before it, into the one window, and the window is open. */
  lemma {:induction false} SentIffFits(before: seq<Action>, p: seq<byte>)
    requires Run(before).pump == Acquiring(p, |p|)
    ensures CanHold(Run(before), p)
            <==> !Run(before).win.closed && |Concat(Run(before).sent)| + |p| <= DEFAULT_STREAM_WINDOW
  {
    var s := Run(before);
    RunKeepsInv(before);
    assert s.win.outstanding == |Concat(s.sent)|;
    if Stalled(s, p) {
      forall later ensures After(s, later).pump != Holding(p) { StalledForEver(s, later, p); }
    } else {
      assert After(s, [AcquireStep]) == Step(s, AcquireStep) by {
        assert [AcquireStep][..0] == [] && After(s, []) == s;
      }
    }
  }

  /** A closed window ends the client's loop at its next section, with nothing more sent. */
  lemma {:induction false} CloseEndsPump(before: seq<Action>)
    requires Run(before).pump.Acquiring?
    ensures var t := Run(before + [CloseWindow] + [AcquireStep]);
            t.pump.Ended? && t.sent == Run(before).sent && t.acquired == Run(before).acquired
  {
    RunOne(before, CloseWindow);
    RunOne(before + [CloseWindow], AcquireStep);
    hide After;
  }

  lemma RunOne(actions: seq<Action>, a: Action)
    ensures Run(actions + [a]) == Step(Run(actions), a)
  {
    assert (actions + [a])[..|actions|] == actions;
  }

  lemma UnmappedStep(s: State, a: Action)
    requires !s.mapped
    ensures var t := Step(s, a); !t.mapped && |t.out| + |Concat(t.sink)| == |s.out| + |Concat(s.sink)|
  {
    if a.Consume? && Enabled(s, a) { ConcatFirst(s.sink); }
    hide Concat;
  }

  /** Once the server has dropped the connection, only what is already queued there is still written. */
  lemma {:induction false} UnmappedGetsNothing(s: State, later: seq<Action>)
    requires !s.mapped
    ensures var t := After(s, later); !t.mapped && |t.out| + |Concat(t.sink)| == |s.out| + |Concat(s.sink)|
  {
    hide Step, Concat;
    if later != [] {
      UnmappedGetsNothing(s, later[..|later| - 1]);
      UnmappedStep(After(s, later[..|later| - 1]), later[|later| - 1]);
    }
  }

  lemma UnmapIsFinal(before: seq<Action>, later: seq<Action>)
    ensures var s, t := Run(before), After(Run(before + [Unmap]), later);
            !t.mapped && |t.out| <= |s.out| + |Concat(s.sink)|
  {
    assert (before + [Unmap])[..|before|] == before;
    hide Concat;
    UnmappedGetsNothing(Run(before + [Unmap]), later);
  }

  /** The server never has more than 256 payloads queued for one connection. */
  lemma {:induction false} QueueBounded(actions: seq<Action>)
    ensures |Run(actions).sink| <= 256
  {
    if actions != [] {
      QueueBounded(actions[..|actions| - 1]);
      SinkStep(Run(actions[..|actions| - 1]), actions[|actions| - 1]);
      hide Step;
    }
  }

  lemma SinkStep(s: State, a: Action)
    requires |s.sink| <= 256
    ensures |Step(s, a).sink| <= 256
  {
  }

  /** After the unmapping an arriving frame is taken off the wire and goes nowhere. */
  lemma UnmappedDropped(before: seq<Action>)
    requires !Run(before).mapped && Run(before).wire != []
    ensures var s := Run(before); Run(before + [Arrive]) == s.(wire := s.wire[1..])
  {
    RunOne(before, Arrive);
  }

  lemma EndedStep(s: State, a: Action)
    requires s.pump.Ended?
    ensures Step(s, a).pump.Ended? && Step(s, a).read == s.read && Step(s, a).sent == s.sent && Step(s, a).acquired == s.acquired
  {
  }

  lemma {:induction false} EndedForGood(s: State, later: seq<Action>)
    requires s.pump.Ended?
    ensures var t := After(s, later); t.pump.Ended? && t.read == s.read && t.sent == s.sent && t.acquired == s.acquired
  {
    hide Step;
    if later != [] {
      EndedForGood(s, later[..|later| - 1]);
      EndedStep(After(s, later[..|later| - 1]), later[|later| - 1]);
    }
  }

  /** After the end of the intranet connection nothing more is read, sent or taken. */
  lemma {:induction false} ReadEndIsFinal(before: seq<Action>, later: seq<Action>)
    requires Run(before).pump.Reading?
    ensures var s, t := Run(before), After(Run(before + [ReadEnd]), later);
            t.pump.Ended? && t.read == s.read && t.sent == s.sent && t.acquired == s.acquired
  {
    RunOne(before, ReadEnd);
    hide After;
    EndedForGood(Run(before + [ReadEnd]), later);
  }

  // ---------- the credit that should come back ----------

  /** WindowUpdate frames the client has taken. */
  function Updates(actions: seq<Action>): nat {
    if actions == [] then 0
    else
      var before, a := actions[..|actions| - 1], actions[|actions| - 1];
      Updates(before) + if a.CreditArrives? && Enabled(Run(before), a) then 1 else 0
  }

  predicate Batched(s: State, updates: nat) {
    && s.pending < RELEASE_BATCH
    && |s.out| == RELEASE_BATCH * (updates + |s.back|) + s.pending
    && (forall p <- s.sink :: |p| <= UPLINK_CHUNK) && (forall p <- s.wire :: |p| <= UPLINK_CHUNK)
    && (s.pump.Acquiring? || s.pump.Holding? ==> |s.pump.payload| <= UPLINK_CHUNK)
  }

  lemma BatchedStep(s: State, a: Action, updates: nat)
    requires Batched(s, updates)
    ensures Batched(Step(s, a), updates + if a.CreditArrives? && Enabled(s, a) then 1 else 0)
  {
    if a.Consume? && Enabled(s, a) { assert s.sink[0] in s.sink; }
    if a.Arrive? && Enabled(s, a) { assert s.wire[0] in s.wire; }
  }

  lemma {:induction false} RunKeepsBatched(actions: seq<Action>)
    ensures Batched(Run(actions), Updates(actions))
  {
    if actions != [] {
      var before, a := actions[..|actions| - 1], actions[|actions| - 1];
      RunKeepsBatched(before);
      hide Step, Batched;
      BatchedStep(Run(before), a, Updates(before));
    }
  }

  /** The server sends one WindowUpdate for every 64 KiB written outside and keeps count of the rest, so
      it is only their missing payload that keeps the credit away. */
  lemma {:induction false} OneUpdatePerBatch(actions: seq<Action>)
    ensures var s := Run(actions);
            && Updates(actions) + |s.back| == |s.out| / 0x1_0000
            && s.pending == |s.out| % 0x1_0000
  {
    hide Run, Updates;
    RunKeepsBatched(actions);
  }

  /** A WindowUpdate without payload changes nothing; one with a payload would give back its amount. */
  lemma UpdateGivesBack(s: State, u: Update)
    ensures u.delta.None? ==> OnUpdate(s, u) == s
    ensures u.delta.Some? ==>
              var t := OnUpdate(s, u);
              t.win.outstanding == s.win.outstanding - u.delta.value && t.released == s.released + u.delta.value && t.win.closed == s.win.closed
  {
  }

  // ---------- a run that stalls ----------

  /** At rest after n chunks of full size, all of them written outside. */
  ghost predicate Rest(s: State, n: nat) {
    && s.win == Win(n * UPLINK_CHUNK, LIMIT, false, []) && s.pump.Reading?
    && s.wire == [] && s.mapped && s.sink == [] && s.back == []
    && s.pending == n % 2 * UPLINK_CHUNK
    && |s.out| == n * UPLINK_CHUNK
  }

  lemma Cycle(s: State, n: nat, p: seq<byte>)
    requires Rest(s, n) && n < 8 && |p| == UPLINK_CHUNK
    ensures Rest(Step(Step(Step(Step(Step(Step(s, Read(p)), AcquireStep), Send), Arrive), Consume), CreditArrives), n + 1)
  {
    var s2 := Step(Step(s, Read(p)), AcquireStep);
    assert s2.pump == Holding(p) && s2.win.outstanding == (n + 1) * UPLINK_CHUNK;
    var s4 := Step(Step(s2, Send), Arrive);
    assert s4.sink == [p] && s4.wire == [];
    var s5 := Step(s4, Consume);
    assert s5.sink == [] && |s5.out| == |s.out| + |p|;
    assert s5.back == if n % 2 == 0 then [] else [Update(None)];
  }

  lemma {:induction false} AfterIs(s: State, plan: seq<Action>, states: seq<State>)
    requires |states| == |plan| + 1 && states[0] == s
    requires forall i :: 0 <= i < |plan| ==> states[i + 1] == Step(states[i], plan[i])
    ensures After(s, plan) == states[|plan|]
  {
    hide Step;
    if plan != [] {
      AfterIs(s, plan[..|plan| - 1], states[..|plan|]);
    }
  }

  lemma {:induction false} AfterBoth(s: State, a: seq<Action>, b: seq<Action>)
    ensures After(s, a + b) == After(After(s, a), b)
    decreases |b|
  {
    hide Step;
    if b == [] {
      assert a + b == a;
    } else {
      assert (a + b)[..|a + b| - 1] == a + b[..|b| - 1];
      AfterBoth(s, a, b[..|b| - 1]);
    }
  }

  lemma {:induction false} Cycles(n: nat, p: seq<byte>) returns (actions: seq<Action>)
    requires n <= 8 && |p| == UPLINK_CHUNK
    ensures Rest(Run(actions), n)
  {
    hide Step, Rest;
    if n == 0 {
      actions := [];
      assert Rest(INIT, 0) by { InitRests(); }
    } else {
      var before := Cycles(n - 1, p);
      var s := Run(before);
      var plan := [Read(p), AcquireStep, Send, Arrive, Consume, CreditArrives];
      Cycle(s, n - 1, p);
      var s1 := Step(s, plan[0]);
      var s2 := Step(s1, plan[1]);
      var s3 := Step(s2, plan[2]);
      var s4 := Step(s3, plan[3]);
      var s5 := Step(s4, plan[4]);
      AfterIs(s, plan, [s, s1, s2, s3, s4, s5, Step(s5, plan[5])]);
      AfterBoth(INIT, before, plan);
      actions := before + plan;
    }
  }

  lemma InitRests()
    ensures Rest(INIT, 0)
  {
  }

  /** Eight full chunks are sent, written outside and acknowledged; all queues are empty, and the next
      chunk waits for ever, unless the window is closed. */
  lemma {:induction false} DownlinkStalls(p: seq<byte>, q: seq<byte>) returns (actions: seq<Action>)
    requires |p| == UPLINK_CHUNK && 0 < |q| <= UPLINK_CHUNK
    ensures var s := Run(actions);
            && |s.out| == DEFAULT_STREAM_WINDOW && s.wire == [] && s.sink == [] && s.back == []
            && s.mapped && !s.win.closed && s.pump == Acquiring(q, |q|)
    ensures forall later :: After(Run(actions), later).pump != Holding(q) && After(Run(actions), later).sent == Run(actions).sent
  {
    var full := Cycles(8, p);
    var s := Run(full);
    var plan := [Read(q), AcquireStep];
    var s1 := Step(s, plan[0]);
    var s2 := Step(s1, plan[1]);
    AfterIs(s, plan, [s, s1, s2]);
    AfterBoth(INIT, full, plan);
    actions := full + plan;
    RunKeepsInv(actions);
    hide After, Step, CreditInv;
    forall later ensures After(s2, later).pump != Holding(q) && After(s2, later).sent == s2.sent {
      StalledForEver(s2, later, q);
    }
  }
}
