/** The bridge between two connections: two pumps, the drain timer, the cancel watcher and the
    caller, in every interleaving (internal/bridge/bridge.go). */
module Bridge {
  import opened Wrappers
  import opened Bytes

  datatype Side = Src | Dst
  {
    function Other(): Side { if Src? then Dst else Src }
  }

  /** How a Read ended, besides the bytes it returned. */
  datatype ReadEnd = More | AtEOF | ReadError

  /** Net: an error that is not io.EOF. */
  datatype CopyResult = CopyNil | CopyErr(isEOF: bool)
  datatype Res = Ok | NetErr

  datatype Pump =
    | Reading                              // io.CopyBuffer, about to read
    | Writing(buf: seq<byte>, end: ReadEnd) // about to write what the read returned
    | Copied(err: CopyResult)
    | Decided(res: Res)                    // CloseWrite done or skipped
    | Armed(res: Res)
    | Reported(res: Res)

  /** One direction, named after the side it reads from.  taken and received are histories: the
      bytes read from that side and the bytes written to the other; eof: the side's end of file was
      read; lost: a Write failed with io.EOF before its last byte was through or before that end of
      file was read; halfCloses: CloseWrite calls on the other side. */
  datatype Lane = Lane(pump: Pump, taken: seq<byte>, received: seq<byte>, eof: bool, lost: bool, halfCloses: nat)

  datatype Timer = Unarmed | Waiting | Fired | Off
  datatype Watcher = Watching | Closing | Left
  datatype Ret = Nil | PumpError | Timeout | Cancelled
  datatype Main = AwaitFirst | AwaitSecond | Finishing(ret: Ret) | Returned(ret: Ret)

  datatype Report = Report(from: Side, res: Res)

  datatype State = State(
    src: Lane, dst: Lane,       // src: from Src to Dst; dst: from Dst to Src
    closed: set<Side>,
    results: seq<Report>,       // the channel of capacity two
    got: seq<Report>,           // what the caller has taken from it
    timer: Timer, timedOut: bool, drainDone: bool,
    watcher: Watcher, cancelled: bool, stop: bool,
    main: Main)
  {
    function At(x: Side): Lane { if x.Src? then src else dst }

    predicate BothClosed() { Src in closed && Dst in closed }
  }

  const FRESH := Lane(Reading, [], [], false, false, 0)
  const INIT := State(FRESH, FRESH, {}, [], [], Unarmed, false, false, Watching, false, false, AwaitFirst)

  datatype CloseWriteResult = Done | NotSupported | CloseWriteError

  // ---------- one pump ----------

  datatype PumpStep =
    | Read(chunk: seq<byte>, end: ReadEnd)
    | ReadClosed                           // the connection was closed under the pump
    | Write
    | WriteFail(k: nat, isEOF: bool)       // a failed or short write
    | HalfClose(r: CloseWriteResult)

  /** fromClosed, toClosed: whether this end has closed the two connections. */
  predicate CanStep(l: Lane, p: PumpStep, fromClosed: bool, toClosed: bool) {
    match p
    case Read(chunk, end) => l.pump.Reading? && !fromClosed && (chunk != [] || !end.More?)
    case ReadClosed => l.pump.Reading? && fromClosed
    case Write => l.pump.Writing? && (l.pump.buf == [] || !toClosed)
    case WriteFail(k, _) => l.pump.Writing? && l.pump.buf != [] && k <= |l.pump.buf|
    case HalfClose(_) => l.pump.Copied?
  }

  /** io.CopyBuffer, then the tail of a pump: an error that is not io.EOF is reported, anything
      else half-closes the other side. */
  function StepLane(l: Lane, p: PumpStep): Lane
    requires CanStep(l, p, p.ReadClosed?, false)
  {
    match p
    case Read(chunk, end) => l.(taken := l.taken + chunk, eof := end.AtEOF?, pump := Writing(chunk, end))
    case ReadClosed => l.(pump := Copied(CopyErr(false)))
    case Write =>
      l.(received := l.received + l.pump.buf,
         pump := match l.pump.end
                 case More => Reading
                 case AtEOF => Copied(CopyNil)
                 case ReadError => Copied(CopyErr(false)))
    case WriteFail(k, isEOF) =>
      l.(received := l.received + l.pump.buf[..k],
         lost := isEOF && (k < |l.pump.buf| || !l.pump.end.AtEOF?),
         pump := Copied(CopyErr(isEOF)))
    case HalfClose(r) =>
      if l.pump.err == CopyErr(false) then l.(pump := Decided(NetErr))
      else l.(halfCloses := l.halfCloses + 1, pump := Decided(if r.CloseWriteError? then NetErr else Ok))
  }

  // ---------- the whole ----------

  datatype Action =
    | Pump(from: Side, step: PumpStep)
    | Arm(from: Side, limited: bool)       // armDrain; limited: DrainTimeout is positive
    | Send(from: Side)                     // results <- done
    | Fire                                 // the timer runs out
    | TimerClose(side: Side)
    | TimerStop                            // drainDone is closed
    | Cancel                               // ctx is cancelled
    | Watch                                // the watcher sees it
    | WatchClose(side: Side)
    | WatchStop
    | First                                // the caller takes the first result
    | Second
    | Finish                               // the deferred closes

  predicate Enabled(s: State, a: Action) {
    match a
    case Pump(x, p) => CanStep(s.At(x), p, x in s.closed, x.Other() in s.closed)
    case Arm(x, _) => s.At(x).pump.Decided?
    case Send(x) => CanReport(s, x)
    case Fire => s.timer.Waiting?
    case TimerClose(_) => s.timer.Fired?
    case TimerStop => s.timer.Waiting? && s.drainDone
    case Cancel => true
    case Watch => s.watcher.Watching? && s.cancelled
    case WatchClose(_) => s.watcher.Closing?
    case WatchStop => s.watcher.Watching? && s.stop
    case First => s.main.AwaitFirst? && s.results != []
    case Second => s.main.AwaitSecond? && s.results != []
    case Finish => s.main.Finishing?
  }

  predicate WantsReport(s: State, x: Side) {
    s.At(x).pump.Armed?
  }

  predicate CanReport(s: State, x: Side) {
    WantsReport(s, x) && |s.results| < 2
  }

  function SetLane(s: State, x: Side, l: Lane): (t: State)
    ensures t.At(x) == l && t.At(x.Other()) == s.At(x.Other())
    ensures t == s.(src := t.src, dst := t.dst)
  {
    if x.Src? then s.(src := l) else s.(dst := l)
  }

  function TakeFirst(s: State): State
    requires s.results != []
  {
    var r := s.results[0];
    var t := s.(results := s.results[1..], got := s.got + [r]);
    if s.cancelled then t.(drainDone := true, main := Finishing(Cancelled))
    else if r.res.NetErr? then t.(drainDone := true, main := Finishing(PumpError))
    else t.(main := AwaitSecond)
  }

  function TakeSecond(s: State): State
    requires s.results != []
  {
    var r := s.results[0];
    s.(results := s.results[1..], got := s.got + [r], drainDone := true,
       main := Finishing(if s.timedOut then Timeout else if r.res.NetErr? then PumpError else Nil))
  }

  function Apply(s: State, a: Action): State
    requires Enabled(s, a)
  {
    match a
    case Pump(x, p) => SetLane(s, x, StepLane(s.At(x), p))
    case Arm(x, limited) =>
      SetLane(s, x, s.At(x).(pump := Armed(s.At(x).pump.res)))
        .(timer := if !s.timer.Unarmed? then s.timer else if limited then Waiting else Off)
    case Send(x) =>
      SetLane(s, x, s.At(x).(pump := Reported(s.At(x).pump.res)))
        .(results := s.results + [Report(x, s.At(x).pump.res)])
    case Fire => s.(timer := Fired, timedOut := true)
    case TimerClose(x) => s.(closed := s.closed + {x})
    case TimerStop => s.(timer := Off)
    case Cancel => s.(cancelled := true)
    case Watch => s.(watcher := Closing)
    case WatchClose(x) => s.(closed := s.closed + {x})
    case WatchStop => s.(watcher := Left)
    case First => TakeFirst(s)
    case Second => TakeSecond(s)
    case Finish => s.(stop := true, closed := {Src, Dst}, main := Returned(s.main.ret))
  }

  function Step(s: State, a: Action): State {
    if Enabled(s, a) then Apply(s, a) else s
  }

  function Run(actions: seq<Action>): State {
    if actions == [] then INIT else Step(Run(actions[..|actions| - 1]), actions[|actions| - 1])
  }

  // ---------- the invariant ----------

  /** Everything the side sent up to its end of file has been passed on. */
  predicate Complete(l: Lane) {
    l.eof && l.received == l.taken
  }

  predicate LaneOk(l: Lane) {
    && l.received <= l.taken
    && (match l.pump
        case Reading => !l.eof && !l.lost && l.halfCloses == 0 && l.received == l.taken
        case Writing(buf, end) =>
          !l.lost && l.halfCloses == 0 && l.received + buf == l.taken && l.eof == end.AtEOF?
        case Copied(err) =>
          && l.halfCloses == 0
          && (err == CopyErr(false) ==> !l.lost)
          && (err != CopyErr(false) ==> (Complete(l) <==> !l.lost))
        case Decided(res) => Settled(l, res)
        case Armed(res) => Settled(l, res)
        case Reported(res) => Settled(l, res))
  }

  predicate Settled(l: Lane, res: Res) {
    && l.halfCloses <= 1
    && (0 < l.halfCloses ==> (Complete(l) <==> !l.lost))
    && (res.Ok? ==> l.halfCloses == 1)
  }

  function Reports(l: Lane): nat {
    if l.pump.Reported? then 1 else 0
  }

  /** Every report was made by the pump it names, and no pump reports twice. */
  ghost predicate ReportsOk(s: State) {
    var all := s.got + s.results;
    && |all| == Reports(s.At(Src)) + Reports(s.At(Dst))
    && (forall i :: 0 <= i < |all| ==> s.At(all[i].from).pump == Reported(all[i].res))
    && (|all| == 2 ==> all[0].from != all[1].from)
  }

  predicate MainOk(s: State) {
    match s.main
    case AwaitFirst => s.got == []
    case AwaitSecond => |s.got| == 1 && s.got[0].res.Ok?
    case Finishing(ret) => NilOk(s, ret)
    case Returned(ret) => NilOk(s, ret) && Src in s.closed && Dst in s.closed
  }

  predicate NilOk(s: State, ret: Ret) {
    ret.Nil? ==> |s.got| == 2 && s.got[0].res.Ok? && s.got[1].res.Ok?
  }

  ghost predicate Inv(s: State) {
    LaneOk(s.At(Src)) && LaneOk(s.At(Dst)) && ReportsOk(s) && MainOk(s) && TimerOk(s)
  }

  /** The drain timer is armed by a finished pump. */
  predicate TimerOk(s: State) {
    !s.timer.Unarmed? || s.timedOut ==> Finished(s.At(Src)) || Finished(s.At(Dst))
  }

  predicate Finished(l: Lane) {
    l.pump.Armed? || l.pump.Reported?
  }

  lemma LaneStep(l: Lane, p: PumpStep)
    requires CanStep(l, p, p.ReadClosed?, false) && LaneOk(l)
    ensures LaneOk(StepLane(l, p)) && !StepLane(l, p).pump.Reported?
  {
    match p
    case Read(chunk, _) => assert l.received + chunk == l.taken + chunk;
    case WriteFail(k, _) =>
      var buf := l.pump.buf;
      assert l.received + buf[..k] == (l.received + buf)[..|l.received| + k];
    case _ =>
  }

  lemma PumpKeepsInv(s: State, x: Side, p: PumpStep)
    requires Inv(s) && Enabled(s, Pump(x, p))
    ensures Inv(Apply(s, Pump(x, p)))
  {
    LaneStep(s.At(x), p);
    hide LaneOk, StepLane;
    var t := Apply(s, Pump(x, p));
    assert !Finished(s.At(x));
    assert x.Other() == Src || x.Other() == Dst;
  }

  lemma ArmKeepsInv(s: State, x: Side, limited: bool)
    requires Inv(s) && Enabled(s, Arm(x, limited))
    ensures Inv(Apply(s, Arm(x, limited)))
  {
    var t := Apply(s, Arm(x, limited));
    assert LaneOk(t.At(x));
    hide LaneOk;
  }

  lemma SendKeepsReports(s: State, x: Side)
    requires ReportsOk(s) && Enabled(s, Send(x))
    ensures ReportsOk(Apply(s, Send(x)))
  {
    var t := Apply(s, Send(x));
    var all := s.got + s.results;
    assert t.got + t.results == all + [Report(x, s.At(x).pump.res)];
    assert forall i :: 0 <= i < |all| ==> all[i].from != x;
  }

  lemma SendKeepsInv(s: State, x: Side)
    requires Inv(s) && Enabled(s, Send(x))
    ensures Inv(Apply(s, Send(x)))
  {
    var t := Apply(s, Send(x));
    SendKeepsReports(s, x);
    assert LaneOk(t.At(x));
    hide LaneOk, ReportsOk;
  }

  lemma MovedReports(s: State, t: State)
    requires ReportsOk(s) && s.results != []
    requires t.At(Src) == s.At(Src) && t.At(Dst) == s.At(Dst)
    requires t.results == s.results[1..] && t.got == s.got + [s.results[0]]
    ensures ReportsOk(t)
  {
    assert t.got + t.results == s.got + s.results;
  }

  lemma TakeKeepsInv(s: State, a: Action)
    requires Inv(s) && Enabled(s, a) && (a.First? || a.Second?)
    ensures Inv(Apply(s, a))
  {
    MovedReports(s, Apply(s, a));
    hide LaneOk, ReportsOk;
  }

  lemma CallerKeepsInv(s: State, a: Action)
    requires Inv(s) && Enabled(s, a) && !a.Send? && !a.Pump? && !a.Arm? && !a.First? && !a.Second?
    ensures Inv(Apply(s, a))
  {
    hide LaneOk;
    var t := Apply(s, a);
    assert t.At(Src) == s.At(Src) && t.At(Dst) == s.At(Dst);
    assert t.got == s.got && t.results == s.results;
    assert ReportsOk(t);
    hide ReportsOk;
  }

  lemma {:induction false} RunKeepsInv(actions: seq<Action>)
    ensures Inv(Run(actions))
  {
    if actions != [] {
      var s, a := Run(actions[..|actions| - 1]), actions[|actions| - 1];
      RunKeepsInv(actions[..|actions| - 1]);
      hide Inv, Apply;
      if Enabled(s, a) {
        match a
        case Pump(x, p) => PumpKeepsInv(s, x, p);
        case Arm(x, limited) => ArmKeepsInv(s, x, limited);
        case Send(x) => SendKeepsInv(s, x);
        case First => TakeKeepsInv(s, a);
        case Second => TakeKeepsInv(s, a);
        case _ => CallerKeepsInv(s, a);
      }
    }
  }

  // ---------- results, for every schedule ----------

  /** Each side receives, in order, a prefix of what the other sent. */
  lemma ForwardsPrefix(actions: seq<Action>, x: Side)
    ensures var l := Run(actions).At(x); l.received <= l.taken
  {
    RunKeepsInv(actions);
  }

  /** A side is half-closed at most once; everything the other side sent up to its end of file was
      written to it before, exactly when no Write failed early with io.EOF. */
  lemma {:induction false} HalfCloseAfterAll(actions: seq<Action>, x: Side)
    ensures var l := Run(actions).At(x);
            l.halfCloses <= 1 && (0 < l.halfCloses ==> (Complete(l) <==> !l.lost))
  {
    RunKeepsInv(actions);
  }

  /** nil means that both sides were half-closed, and that a side reached end of file with everything
      forwarded exactly when no Write failed early with io.EOF. */
  lemma NilMeansAllForwarded(actions: seq<Action>, x: Side)
    requires Run(actions).main == Returned(Nil)
    ensures var l := Run(actions).At(x); l.halfCloses == 1 && (Complete(l) <==> !l.lost)
  {
    RunKeepsInv(actions);
    var s := Run(actions);
    var all := s.got + s.results;
    assert all[0] == s.got[0] && all[1] == s.got[1];
    assert x == all[0].from || x == all[1].from;
    assert s.At(x).pump == Reported(Ok) && LaneOk(s.At(x));
  }

  predicate Answered(s: State) {
    s.main.Finishing? || s.main.Returned?
  }

  /** Once the drain timer has fired the answer is not nil, and once ctx was cancelled before the
      first result the answer is its error: neither is forgotten by anything that happens later. */
  lemma {:induction false} TimeoutAndCancelStick(before: seq<Action>, later: seq<Action>)
    ensures var s, t := Run(before), Run(before + later);
            && (s.timedOut && !Answered(s) ==> t.timedOut && (Answered(t) ==> !t.main.ret.Nil?))
            && (s.cancelled && s.main.AwaitFirst? ==>
                  t.cancelled && (t.main.AwaitFirst? || (Answered(t) && t.main.ret.Cancelled?)))
    decreases |later|
  {
    hide Step;
    if later == [] {
      assert before + later == before;
    } else {
      var n := |later| - 1;
      TimeoutAndCancelStick(before, later[..n]);
      assert (before + later)[..|before| + n] == before + later[..n];
      MainStep(Run(before + later[..n]), later[n]);
    }
  }

  lemma MainStep(s: State, a: Action)
    ensures var t := Step(s, a);
            && (s.timedOut ==> t.timedOut) && (s.cancelled ==> t.cancelled)
            && (Answered(s) ==> Answered(t) && t.main.ret == s.main.ret)
            && (s.timedOut && !Answered(s) && Answered(t) ==> !t.main.ret.Nil?)
            && (s.cancelled && s.main.AwaitFirst? ==>
                  t.main.AwaitFirst? || (Answered(t) && t.main.ret.Cancelled?))
  {
    hide StepLane;
    if !a.First? && !a.Second? {
      OtherMain(s, a);
      FlagsStay(s, a);
      hide Apply;
    }
  }

  lemma FlagsStay(s: State, a: Action)
    ensures (s.timedOut ==> Step(s, a).timedOut) && (s.cancelled ==> Step(s, a).cancelled)
  {
    hide StepLane;
  }

  lemma RunOne(actions: seq<Action>, a: Action)
    ensures Run(actions + [a]) == Step(Run(actions), a)
  {
    assert (actions + [a])[..|actions|] == actions;
  }

  /** A Write that fails with io.EOF passes for a clean end: here one byte is lost, the target is
      half-closed and the bridge returns nil. */
  lemma EofWriteErrorLooksClean() returns (actions: seq<Action>)
    ensures var s := Run(actions);
            && s.main == Returned(Nil) && s.src.taken == [7] && s.src.received == []
            && s.src.halfCloses == 1
  {
    hide Step;
    actions := OneLaneLost();
    OtherLaneEmpty(Run(actions));
    RunOne(actions, Pump(Dst, Read([], AtEOF))); actions := actions + [Pump(Dst, Read([], AtEOF))];
    RunOne(actions, Pump(Dst, Write)); actions := actions + [Pump(Dst, Write)];
    RunOne(actions, Pump(Dst, HalfClose(Done))); actions := actions + [Pump(Dst, HalfClose(Done))];
    RunOne(actions, Arm(Dst, true)); actions := actions + [Arm(Dst, true)];
    RunOne(actions, Send(Dst)); actions := actions + [Send(Dst)];
    CallerTakesSecond(Run(actions));
    RunOne(actions, Second); actions := actions + [Second];
    RunOne(actions, Finish); actions := actions + [Finish];
  }

  lemma OneLaneLost() returns (actions: seq<Action>)
    ensures var s := Run(actions);
            && s.src == Lane(Reported(Ok), [7], [], false, true, 1) && s.dst == FRESH
            && s.main.AwaitSecond? && s.results == [] && !s.timedOut && s.closed == {}
  {
    hide Step;
    actions := [];
    ByteLost(INIT);
    RunOne(actions, Pump(Src, Read([7], More))); actions := actions + [Pump(Src, Read([7], More))];
    RunOne(actions, Pump(Src, WriteFail(0, true))); actions := actions + [Pump(Src, WriteFail(0, true))];
    RunOne(actions, Pump(Src, HalfClose(Done))); actions := actions + [Pump(Src, HalfClose(Done))];
    FirstReported(Run(actions));
    RunOne(actions, Arm(Src, true)); actions := actions + [Arm(Src, true)];
    RunOne(actions, Send(Src)); actions := actions + [Send(Src)];
    RunOne(actions, First); actions := actions + [First];
  }

  lemma ByteLost(s: State)
    requires s.src == Lane(Reading, [], [], false, false, 0) && s.closed == {}
    ensures Step(Step(Step(s, Pump(Src, Read([7], More))), Pump(Src, WriteFail(0, true))), Pump(Src, HalfClose(Done))) ==
            SetLane(s, Src, Lane(Decided(Ok), [7], [], false, true, 1))
  {
    var t1 := Step(s, Pump(Src, Read([7], More)));
    assert t1 == SetLane(s, Src, Lane(Writing([7], More), [7], [], false, false, 0));
    var t2 := Step(t1, Pump(Src, WriteFail(0, true)));
    assert [7][..0] == [];
    assert t2 == SetLane(s, Src, Lane(Copied(CopyErr(true)), [7], [], false, true, 0));
  }

  lemma FirstReported(s: State)
    requires s.src.pump == Decided(Ok) && s.results == [] && s.main.AwaitFirst? && !s.cancelled
    ensures var t := Step(Step(Step(s, Arm(Src, true)), Send(Src)), First);
            && t.src == s.src.(pump := Reported(Ok)) && t.dst == s.dst
            && t.main.AwaitSecond? && t.results == [] && t.timedOut == s.timedOut && t.closed == s.closed
            && t.got == s.got + [Report(Src, Ok)]
  {
    var t2 := Step(Step(s, Arm(Src, true)), Send(Src));
    assert t2.results == [Report(Src, Ok)];
  }

  lemma OtherLaneEmpty(s: State)
    requires s.dst == FRESH && s.closed == {} && s.results == []
    ensures var t := Step(Step(Step(Step(Step(s, Pump(Dst, Read([], AtEOF))), Pump(Dst, Write)), Pump(Dst, HalfClose(Done))), Arm(Dst, true)), Send(Dst));
            t.src == s.src && t.results == [Report(Dst, Ok)] && t.main == s.main && t.timedOut == s.timedOut
  {
    var t1 := Step(s, Pump(Dst, Read([], AtEOF)));
    assert t1 == SetLane(s, Dst, Lane(Writing([], AtEOF), [], [], true, false, 0));
    var t2 := Step(t1, Pump(Dst, Write));
    assert t2 == SetLane(s, Dst, Lane(Copied(CopyNil), [], [], true, false, 0));
    var t3 := Step(t2, Pump(Dst, HalfClose(Done)));
    assert t3 == SetLane(s, Dst, Lane(Decided(Ok), [], [], true, false, 1));
  }

  lemma CallerTakesSecond(s: State)
    requires s.main.AwaitSecond? && s.results == [Report(Dst, Ok)] && !s.timedOut
    ensures var t := Step(Step(s, Second), Finish); t.main == Returned(Nil) && t.src == s.src
  {
  }

  /** On return both connections are closed. */
  lemma {:induction false} ClosedOnReturn(actions: seq<Action>)
    requires Run(actions).main.Returned?
    ensures Src in Run(actions).closed && Dst in Run(actions).closed
  {
    RunKeepsInv(actions);
  }

  /** No pump ever blocks on reporting its result, even after the caller has returned. */
  lemma ReportNeverBlocks(actions: seq<Action>, x: Side)
    requires Run(actions).At(x).pump.Armed?
    ensures Enabled(Run(actions), Send(x))
    ensures var s, t := Run(actions), Run(actions + [Send(x)]);
            && t.results == s.results + [Report(x, s.At(x).pump.res)] && |t.results| <= 2
            && t.At(x).pump == Reported(s.At(x).pump.res)
  {
    RunKeepsInv(actions);
    RunOne(actions, Send(x));
    hide Run;
  }

  /** The drain timer runs only once a pump has finished. */
  lemma TimeoutOnlyAfterAPump(actions: seq<Action>)
    requires Run(actions).timedOut
    ensures Finished(Run(actions).src) || Finished(Run(actions).dst)
  {
    RunKeepsInv(actions);
  }

  // ---------- which answer, by what happened ----------

  /** A read of x ended with an error other than end of file. */
  predicate ReadErrored(actions: seq<Action>, x: Side) {
    actions != [] &&
    var before, a := actions[..|actions| - 1], actions[|actions| - 1];
    ReadErrored(before, x)
    || (a.Pump? && a.from == x && Enabled(Run(before), a) && a.step.Read? && a.step.end.ReadError?)
  }

  /** The copy from x failed: it read a side closed under it, passed on the last bytes before a read
      error, could not write for another reason than io.EOF, or could not half-close. */
  predicate PumpFailed(actions: seq<Action>, x: Side) {
    actions != [] &&
    var before, a := actions[..|actions| - 1], actions[|actions| - 1];
    PumpFailed(before, x)
    || (a.Pump? && a.from == x && Enabled(Run(before), a)
        && match a.step
           case Read(_, _) => false
           case ReadClosed => true
           case Write => ReadErrored(before, x)
           case WriteFail(_, isEOF) => !isEOF
           case HalfClose(r) => r.CloseWriteError?)
  }

  predicate CancelledIn(actions: seq<Action>) {
    exists a <- actions :: a.Cancel?
  }

  predicate FiredIn(actions: seq<Action>) {
    actions != [] &&
    var before, a := actions[..|actions| - 1], actions[|actions| - 1];
    FiredIn(before) || (a.Fire? && Enabled(Run(before), a))
  }

  /** The side whose pump reported first. */
  function FirstSender(actions: seq<Action>): Option<Side> {
    if actions == [] then None
    else
      var before, a := actions[..|actions| - 1], actions[|actions| - 1];
      if FirstSender(before).Some? then FirstSender(before)
      else if a.Send? && Enabled(Run(before), a) then Some(a.from)
      else None
  }

  /** What had happened when the caller took its first, or its second, result. */
  function BeforeTaking(actions: seq<Action>, taking: Action): Option<seq<Action>> {
    if actions == [] then None
    else
      var before, a := actions[..|actions| - 1], actions[|actions| - 1];
      if BeforeTaking(before, taking).Some? then BeforeTaking(before, taking)
      else if a == taking && Enabled(Run(before), a) then Some(before)
      else None
  }

  predicate LaneHistory(l: Lane, readErrored: bool, failed: bool) {
    match l.pump
    case Reading => !failed && !readErrored
    case Writing(_, end) => !failed && (readErrored <==> end.ReadError?)
    case Copied(err) => failed <==> err == CopyErr(false)
    case Decided(res) => failed <==> res.NetErr?
    case Armed(res) => failed <==> res.NetErr?
    case Reported(res) => failed <==> res.NetErr?
  }

  lemma LaneHistoryStep(l: Lane, p: PumpStep, readErrored: bool, failed: bool)
    requires CanStep(l, p, p.ReadClosed?, false) && LaneHistory(l, readErrored, failed)
    ensures LaneHistory(StepLane(l, p), readErrored || (p.Read? && p.end.ReadError?),
                        failed || match p
                                  case Read(_, _) => false
                                  case ReadClosed => true
                                  case Write => readErrored
                                  case WriteFail(_, isEOF) => !isEOF
                                  case HalfClose(r) => r.CloseWriteError?)
  {
  }

  lemma {:induction false} LanesHistory(actions: seq<Action>, x: Side)
    ensures LaneHistory(Run(actions).At(x), ReadErrored(actions, x), PumpFailed(actions, x))
  {
    hide StepLane, LaneHistory, CanStep;
    if actions == [] {
      assert LaneHistory(FRESH, false, false) by { FreshHistory(); }
    } else {
      var before, a := actions[..|actions| - 1], actions[|actions| - 1];
      var s := Run(before);
      LanesHistory(before, x);
      if a.Pump? && a.from == x && Enabled(s, a) {
        CanStepAnyway(s.At(x), a.step, x in s.closed, x.Other() in s.closed);
        LaneHistoryStep(s.At(x), a.step, ReadErrored(before, x), PumpFailed(before, x));
      } else {
        OtherKeepsLane(s, a, x, ReadErrored(before, x), PumpFailed(before, x));
      }
    }
  }

  lemma FreshHistory()
    ensures LaneHistory(FRESH, false, false)
  {
  }

  lemma CanStepAnyway(l: Lane, p: PumpStep, fromClosed: bool, toClosed: bool)
    requires CanStep(l, p, fromClosed, toClosed)
    ensures CanStep(l, p, p.ReadClosed?, false)
  {
  }

  lemma OtherKeepsLane(s: State, a: Action, x: Side, readErrored: bool, failed: bool)
    requires LaneHistory(s.At(x), readErrored, failed)
    requires !(a.Pump? && a.from == x && Enabled(s, a))
    ensures LaneHistory(Step(s, a).At(x), readErrored, failed)
  {
    hide StepLane;
    assert x.Other().Other() == x;
    if a.Pump? && Enabled(s, a) { assert a.from == x.Other(); }
  }

  /** The reports in the channel and taken from it are in the order in which they were sent, and the
      flags say what happened. */
  ghost predicate FlagsOk(s: State, actions: seq<Action>) {
    var all := s.got + s.results;
    && (FirstSender(actions) == if all == [] then None else Some(all[0].from))
    && (s.timedOut <==> FiredIn(actions))
    && (s.cancelled <==> CancelledIn(actions))
  }

  lemma CancelledMore(before: seq<Action>, a: Action)
    ensures CancelledIn(before + [a]) <==> CancelledIn(before) || a.Cancel?
  {
  }

  lemma {:induction false} RunKeepsFlags(actions: seq<Action>)
    ensures FlagsOk(Run(actions), actions)
  {
    if actions != [] {
      var before, a := actions[..|actions| - 1], actions[|actions| - 1];
      RunKeepsFlags(before);
      CancelledMore(before, a);
      assert actions == before + [a];
      FlagsStep(Run(before), a);
      hide Step, CancelledIn;
    }
  }

  lemma FlagsStep(s: State, a: Action)
    ensures var t := Step(s, a);
            var all, all' := s.got + s.results, t.got + t.results;
            && (if Enabled(s, a) && a.Send? then exists r :: all' == all + [r] && r.from == a.from else all' == all)
            && (t.timedOut <==> s.timedOut || (a.Fire? && Enabled(s, a)))
            && (t.cancelled <==> s.cancelled || a.Cancel?)
  {
    hide StepLane, LaneHistory;
    if Enabled(s, a) && a.Send? {
      var r := Report(a.from, s.At(a.from).pump.res);
      assert s.got + (s.results + [r]) == s.got + s.results + [r];
    }
    if Enabled(s, a) && (a.First? || a.Second?) {
      assert s.got + [s.results[0]] + s.results[1..] == s.got + s.results;
    }
  }

  /** What the caller stands for, by what happened before it took its results. */
  ghost predicate StandsFor(main: Main, first: Option<seq<Action>>, second: Option<seq<Action>>) {
    match main
    case AwaitFirst => first.None? && second.None?
    case AwaitSecond => second.None? && FirstFine(first)
    case Finishing(ret) => Answers(ret, first, second)
    case Returned(ret) => Answers(ret, first, second)
  }

  /** The first result was taken, without a cancellation before it, from a pump that did not fail. */
  ghost predicate FirstFine(first: Option<seq<Action>>) {
    first.Some? && !CancelledIn(first.value)
    && FirstSender(first.value).Some? && !PumpFailed(first.value, FirstSender(first.value).value)
  }

  ghost predicate Answers(ret: Ret, first: Option<seq<Action>>, second: Option<seq<Action>>) {
    && first.Some? && FirstSender(first.value).Some?
    && var x := FirstSender(first.value).value;
       if CancelledIn(first.value) then ret.Cancelled? && second.None?
       else if PumpFailed(first.value, x) then ret.PumpError? && second.None?
       else
         && second.Some?
         && if FiredIn(second.value) then ret.Timeout?
            else if PumpFailed(second.value, x.Other()) then ret.PumpError?
            else ret.Nil?
  }

  /** Who reported first was known when the results were taken. */
  lemma {:induction false} SenderKept(actions: seq<Action>, taking: Action)
    requires BeforeTaking(actions, taking).Some? && FirstSender(BeforeTaking(actions, taking).value).Some?
    ensures FirstSender(actions) == FirstSender(BeforeTaking(actions, taking).value)
  {
    var before := actions[..|actions| - 1];
    if BeforeTaking(before, taking).Some? { SenderKept(before, taking); }
  }

  /** A report says whether its pump failed. */
  lemma ReportTells(actions: seq<Action>, k: nat)
    requires var s := Run(actions); k < |s.got + s.results|
    ensures var r := (Run(actions).got + Run(actions).results)[k]; r.res.NetErr? <==> PumpFailed(actions, r.from)
  {
    RunKeepsInv(actions);
    LanesHistory(actions, (Run(actions).got + Run(actions).results)[k].from);
  }

  lemma TakesFirst(before: seq<Action>)
    requires Enabled(Run(before), First)
    ensures var t := Step(Run(before), First);
            if t.main.AwaitSecond? then FirstFine(Some(before)) else t.main.Finishing? && Answers(t.main.ret, Some(before), None)
  {
    hide Run, PumpFailed;
    var s := Run(before);
    RunKeepsInv(before);
    RunKeepsFlags(before);
    assert s.got + s.results == s.results;
    ReportTells(before, 0);
    hide Inv;
  }

  lemma TakesSecond(before: seq<Action>, first: Option<seq<Action>>)
    requires Enabled(Run(before), Second) && FirstFine(first) && FirstSender(before) == FirstSender(first.value)
    ensures var t := Step(Run(before), Second); t.main.Finishing? && Answers(t.main.ret, first, Some(before))
  {
    hide Run, PumpFailed, CancelledIn;
    var s := Run(before);
    RunKeepsInv(before);
    RunKeepsFlags(before);
    ReportTells(before, 1);
    var all := s.got + s.results;
    assert all[1] == s.results[0] && all[0] == s.got[0];
    assert |all| == 2 by { AtMostTwo(before); }
    hide Inv;
  }

  lemma AtMostTwo(actions: seq<Action>)
    ensures |Run(actions).got + Run(actions).results| <= 2
  {
    RunKeepsInv(actions);
  }

  lemma OtherMain(s: State, a: Action)
    requires !(a.First? && Enabled(s, a)) && !(a.Second? && Enabled(s, a))
    ensures Step(s, a).main == s.main || (s.main.Finishing? && Step(s, a).main == Returned(s.main.ret))
  {
    hide StepLane;
  }

  lemma {:induction false} MainHistory(actions: seq<Action>)
    ensures StandsFor(Run(actions).main, BeforeTaking(actions, First), BeforeTaking(actions, Second))
  {
    hide Step, FirstFine, Answers, Apply;
    if actions != [] {
      var before, a := actions[..|actions| - 1], actions[|actions| - 1];
      MainHistory(before);
      if a.First? && Enabled(Run(before), a) {
        TakesFirst(before);
      } else if a.Second? && Enabled(Run(before), a) {
        SecondAfterFirst(before);
        TakesSecond(before, BeforeTaking(before, First));
      } else {
        OtherMain(Run(before), a);
      }
    }
  }

  lemma SecondAfterFirst(before: seq<Action>)
    requires FirstFine(BeforeTaking(before, First))
    ensures FirstSender(before) == FirstSender(BeforeTaking(before, First).value)
  {
    hide PumpFailed, CancelledIn;
    SenderKept(before, First);
  }

  /** Exactly when each answer is given: Cancelled, when ctx was cancelled before the first result was
      taken; PumpError, when it was not and the pump that reported first had failed, or the other one
      by the time its result was taken and the drain timer had not fired; Timeout, when the first
      pump was fine and the timer had fired by then; and Nil, when none of these happened. */
  lemma {:induction false} AnswerExact(actions: seq<Action>)
    requires Answered(Run(actions))
    ensures BeforeTaking(actions, First).Some? && FirstSender(BeforeTaking(actions, First).value).Some?
    ensures var ret, first := Run(actions).main.ret, BeforeTaking(actions, First).value;
            var x, second := FirstSender(first).value, BeforeTaking(actions, Second);
            var firstFine := !CancelledIn(first) && !PumpFailed(first, x);
            var secondFailed := second.Some? && !FiredIn(second.value) && PumpFailed(second.value, x.Other());
            && (ret.Cancelled? <==> CancelledIn(first))
            && (ret.PumpError? <==> !CancelledIn(first) && (PumpFailed(first, x) || secondFailed))
            && (ret.Timeout? <==> firstFine && second.Some? && FiredIn(second.value))
            && (ret.Nil? <==> firstFine && second.Some? && !FiredIn(second.value) && !PumpFailed(second.value, x.Other()))
  {
    hide Run, PumpFailed, CancelledIn, FiredIn;
    MainHistory(actions);
  }

  /** Nothing goes wrong in this action. */
  predicate Fine(a: Action) {
    && !a.Fire? && !a.Cancel?
    && (a.Pump? ==> !a.step.ReadClosed? && !a.step.WriteFail?
                    && (a.step.Read? ==> !a.step.end.ReadError?) && (a.step.HalfClose? ==> !a.step.r.CloseWriteError?))
  }

  lemma {:induction false} NothingFailed(actions: seq<Action>, x: Side)
    requires forall a <- actions :: Fine(a)
    ensures !PumpFailed(actions, x) && !ReadErrored(actions, x) && !FiredIn(actions)
  {
    if actions != [] {
      assert actions[|actions| - 1] in actions;
      NothingFailed(actions[..|actions| - 1], x);
    }
  }

  lemma {:induction false} TakenWithin(actions: seq<Action>, taking: Action)
    requires BeforeTaking(actions, taking).Some?
    ensures forall a <- BeforeTaking(actions, taking).value :: a in actions
  {
    var before := actions[..|actions| - 1];
    if BeforeTaking(before, taking).Some? { TakenWithin(before, taking); }
  }

  /** The converse of NilMeansAllForwarded: where nothing goes wrong, no pump reports an error, also
      when a side has no half-close of its own, and the only answer is nil. */
  lemma {:induction false} FineRunIsNil(actions: seq<Action>, x: Side)
    requires forall a <- actions :: Fine(a)
    ensures Run(actions).At(x).pump.Reported? ==> Run(actions).At(x).pump.res.Ok?
    ensures Answered(Run(actions)) ==> Run(actions).main.ret.Nil?
  {
    hide Run, PumpFailed, ReadErrored, FiredIn;
    LanesHistory(actions, x);
    NothingFailed(actions, x);
    if Answered(Run(actions)) {
      MainHistory(actions);
      AnswerExact(actions);
      TakenWithin(actions, First);
      var first := BeforeTaking(actions, First).value;
      NothingFailed(first, FirstSender(first).value);
      assert !CancelledIn(first);
      if BeforeTaking(actions, Second).Some? {
        TakenWithin(actions, Second);
        NothingFailed(BeforeTaking(actions, Second).value, FirstSender(first).value.Other());
      }
    }
  }

  // ---------- the timer, the watcher and what they close ----------

  /** Whether the drain was limited, by the first pump to finish. */
  function FirstArm(actions: seq<Action>): Option<bool> {
    if actions == [] then None
    else
      var before, a := actions[..|actions| - 1], actions[|actions| - 1];
      if FirstArm(before).Some? then FirstArm(before)
      else if a.Arm? && Enabled(Run(before), a) then Some(a.limited)
      else None
  }

  /** Something closed x: the timer, the watcher or the caller on its way out. */
  predicate ClosedIn(actions: seq<Action>, x: Side) {
    actions != [] &&
    var before, a := actions[..|actions| - 1], actions[|actions| - 1];
    ClosedIn(before, x) || ((a == TimerClose(x) || a == WatchClose(x) || a.Finish?) && Enabled(Run(before), a))
  }

  ghost predicate GuardsOk(s: State, armed: Option<bool>) {
    && (armed.None? <==> s.timer.Unarmed?)
    && (armed.None? ==> !s.timedOut)
    && (armed.Some? && !armed.value ==> s.timer.Off? && !s.timedOut)
    && (armed.Some? && armed.value ==> if s.timedOut then s.timer.Fired? else s.timer.Waiting? || (s.timer.Off? && s.drainDone))
    && (Answered(s) ==> s.drainDone)
    && (s.stop <==> s.main.Returned?)
    && (s.watcher.Left? ==> s.stop) && (s.watcher.Closing? ==> s.cancelled)
  }

  lemma GuardsStep(s: State, a: Action, armed: Option<bool>)
    requires GuardsOk(s, armed)
    ensures GuardsOk(Step(s, a), if armed.None? && a.Arm? && Enabled(s, a) then Some(a.limited) else armed)
  {
    hide StepLane, LaneHistory, SetLane;
  }

  lemma {:induction false} RunKeepsGuards(actions: seq<Action>)
    ensures GuardsOk(Run(actions), FirstArm(actions))
  {
    hide Step, GuardsOk, Enabled;
    if actions == [] {
      assert GuardsOk(INIT, None) by { InitGuards(); }
    } else {
      RunKeepsGuards(actions[..|actions| - 1]);
      GuardsStep(Run(actions[..|actions| - 1]), actions[|actions| - 1], FirstArm(actions[..|actions| - 1]));
    }
  }

  lemma InitGuards()
    ensures GuardsOk(INIT, None)
  {
  }

  /** The drain timer runs exactly when the first pump to finish armed it with a limit, until it fires or
      the drain is done; without a limit it never fires. */
  lemma {:induction false} TimerExact(actions: seq<Action>)
    ensures var s := Run(actions);
            && (FirstArm(actions).Some? && FirstArm(actions).value && !s.timedOut && !s.drainDone ==> s.timer.Waiting? && Enabled(s, Fire))
            && (FirstArm(actions).None? || !FirstArm(actions).value ==> !s.timedOut && !Enabled(s, Fire))
  {
    hide Run, FirstArm;
    RunKeepsGuards(actions);
  }

  lemma ClosedStep(s: State, a: Action, x: Side)
    ensures x in Step(s, a).closed
            <==> x in s.closed || ((a == TimerClose(x) || a == WatchClose(x) || a.Finish?) && Enabled(s, a))
  {
    hide StepLane, SetLane;
  }

  /** A side is closed exactly when the timer, the watcher or the returning caller closed it: nothing else
      does, also not the end of one pump. */
  lemma {:induction false} ClosedExactly(actions: seq<Action>, x: Side)
    ensures x in Run(actions).closed <==> ClosedIn(actions, x)
  {
    if actions != [] {
      var before, a := actions[..|actions| - 1], actions[|actions| - 1];
      ClosedExactly(before, x);
      ClosedStep(Run(before), a, x);
      hide Step;
    }
  }

  /** Once the timer has fired or ctx is cancelled, both sides can be closed at once, whatever the pumps
      are doing; and after the caller has returned neither timer nor watcher need stay. */
  lemma {:induction false} GuardsCanAct(actions: seq<Action>)
    ensures var s := Run(actions);
            && (s.timedOut ==> Step(Step(s, TimerClose(Src)), TimerClose(Dst)).BothClosed())
            && (s.cancelled && !s.stop ==> Step(Step(Step(s, Watch), WatchClose(Src)), WatchClose(Dst)).BothClosed())
            && (s.main.Returned? ==> !Step(s, TimerStop).timer.Waiting? && !Step(s, WatchStop).watcher.Watching?)
  {
    hide Run, FirstArm;
    RunKeepsGuards(actions);
    GuardsAct(Run(actions), FirstArm(actions));
  }

  lemma GuardsAct(s: State, armed: Option<bool>)
    requires GuardsOk(s, armed)
    ensures s.timedOut ==> Step(Step(s, TimerClose(Src)), TimerClose(Dst)).BothClosed()
    ensures s.cancelled && !s.stop ==> Step(Step(Step(s, Watch), WatchClose(Src)), WatchClose(Dst)).BothClosed()
    ensures s.main.Returned? ==> !Step(s, TimerStop).timer.Waiting? && !Step(s, WatchStop).watcher.Watching?
  {
    hide StepLane, SetLane;
  }

  lemma ClosedSideStep(s: State, a: Action, x: Side)
    requires x in s.closed
    ensures x in Step(s, a).closed && Step(s, a).At(x).taken == s.At(x).taken
  {
    LaneMoves(s, a, x);
    ClosedSidesStay(s, a, x);
    hide Step, StepLane;
  }

  /** What one step does to the lane from x: a step of its pump, or nothing but the pump's report. */
  lemma LaneMoves(s: State, a: Action, x: Side)
    ensures var l, m := s.At(x), Step(s, a).At(x);
            if a.Pump? && a.from == x && CanStep(l, a.step, x in s.closed, x.Other() in s.closed) then m == StepLane(l, a.step)
            else m == l || (l.pump.Decided? && m == l.(pump := Armed(l.pump.res))) || (l.pump.Armed? && m == l.(pump := Reported(l.pump.res)))
  {
    hide StepLane, CanStep;
    assert x.Other().Other() == x;
  }

  lemma ClosedSidesStay(s: State, a: Action, x: Side)
    requires x in s.closed
    ensures x in Step(s, a).closed
  {
    hide StepLane, CanStep;
  }

  /** Once a side is closed nothing more is read from it. */
  lemma {:induction false} NothingReadOnceClosed(before: seq<Action>, later: seq<Action>, x: Side)
    requires x in Run(before).closed
    ensures x in Run(before + later).closed && Run(before + later).At(x).taken == Run(before).At(x).taken
  {
    hide Step;
    if later == [] {
      assert before + later == before;
    } else {
      var all := before + later;
      assert all[..|all| - 1] == before + later[..|later| - 1];
      NothingReadOnceClosed(before, later[..|later| - 1], x);
      ClosedSideStep(Run(all[..|all| - 1]), all[|all| - 1], x);
    }
  }

  /** The pump has failed to write, or got past it. */
  predicate WriteFailed(p: Pump) {
    p.Decided? || p.Armed? || p.Reported? || (p.Copied? && p.err.CopyErr?)
  }

  lemma CaughtStep(s: State, a: Action, x: Side, p: Pump)
    requires x.Other() in s.closed && p.Writing? && p.buf != []
    requires s.At(x).pump == p || WriteFailed(s.At(x).pump)
    ensures x.Other() in Step(s, a).closed
    ensures Step(s, a).At(x).pump == p || WriteFailed(Step(s, a).At(x).pump)
  {
    LaneMoves(s, a, x);
    ClosedSidesStay(s, a, x.Other());
    hide Step;
  }

  /** A pump that holds bytes for a closed side can only fail: it never gets to read again, nor to a
      clean end of file. */
  lemma {:induction false} ClosedWhileWriting(before: seq<Action>, later: seq<Action>, x: Side)
    requires x.Other() in Run(before).closed && Run(before).At(x).pump.Writing? && Run(before).At(x).pump.buf != []
    ensures var p := Run(before + later).At(x).pump; x.Other() in Run(before + later).closed && (p == Run(before).At(x).pump || WriteFailed(p))
  {
    hide Step, WriteFailed;
    if later == [] {
      assert before + later == before;
    } else {
      var all := before + later;
      assert all[..|all| - 1] == before + later[..|later| - 1];
      ClosedWhileWriting(before, later[..|later| - 1], x);
      CaughtStep(Run(all[..|all| - 1]), all[|all| - 1], x, Run(before).At(x).pump);
    }
  }

  /** A side without a half-close of its own: its pump still reports success, and the caller goes on
      to wait for the other one. */
  lemma {:induction false} NoHalfCloseGoesOn() returns (actions: seq<Action>)
    ensures var s := Run(actions);
            s.main.AwaitSecond? && s.got == [Report(Src, Ok)] && s.closed == {} && s.dst == FRESH
  {
    actions := [Pump(Src, Read([], AtEOF)), Pump(Src, Write), Pump(Src, HalfClose(NotSupported)), Arm(Src, true), Send(Src), First];
    var s2 := Step(Step(INIT, actions[0]), actions[1]);
    EmptySideEnds(INIT);
    var s4 := Step(Step(s2, actions[2]), actions[3]);
    ReportsAnyway(s2);
    RunIs(actions, [INIT, Step(INIT, actions[0]), s2, Step(s2, actions[2]), s4, Step(s4, actions[4]), Step(Step(s4, actions[4]), actions[5])]);
  }

  lemma EmptySideEnds(s: State)
    requires s.src == FRESH && s.closed == {}
    ensures var t := Step(Step(s, Pump(Src, Read([], AtEOF))), Pump(Src, Write));
            t.src.pump == Copied(CopyNil) && t == s.(src := t.src)
  {
  }

  lemma ReportsAnyway(s: State)
    requires s.src.pump == Copied(CopyNil) && s.results == [] && s.got == [] && s.main.AwaitFirst? && !s.cancelled
    ensures var t := Step(Step(Step(Step(s, Pump(Src, HalfClose(NotSupported))), Arm(Src, true)), Send(Src)), First);
            t.main.AwaitSecond? && t.got == [Report(Src, Ok)] && t.closed == s.closed && t.dst == s.dst
  {
    NoneIsFine(s);
    hide Step;
    FirstReported(Step(s, Pump(Src, HalfClose(NotSupported))));
  }

  lemma NoneIsFine(s: State)
    requires s.src.pump == Copied(CopyNil)
    ensures var t := Step(s, Pump(Src, HalfClose(NotSupported))); t.src.pump == Decided(Ok) && t == s.(src := t.src)
  {
  }

  lemma {:induction false} RunIs(plan: seq<Action>, states: seq<State>)
    requires |states| == |plan| + 1 && states[0] == INIT
    requires forall i :: 0 <= i < |plan| ==> states[i + 1] == Step(states[i], plan[i])
    ensures Run(plan) == states[|plan|]
  {
    hide Step;
    if plan != [] {
      RunIs(plan[..|plan| - 1], states[..|plan|]);
    }
  }
}
