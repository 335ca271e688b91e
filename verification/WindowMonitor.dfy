/** Every interleaving of Acquire, Release, Close and cancellation on one window
    (protocol/star/window.go).  The unlock and each later channel send are separate steps. */
module WindowMonitor {
  import opened Window

  datatype Thread =
    | Acquiring(want: int, left: int)           // about to take the lock
    | Parked(want: int, left: int, ch: Chan)    // in select
    | Returned(want: int, left: int, res: Res)
    | Signalling(waiters: seq<Chan>)            // Release or Close after its unlock

  datatype Res = Granted | ErrClosed | ErrCancelled

  /** tokens: the channels (capacity one) that hold a signal.  acquired and released are
      histories. */
  datatype State = State(
    win: Win, threads: map<nat, Thread>, tokens: set<Chan>, nextChan: Chan, acquired: int, released: int)

  function Init(limit: int): State {
    State(Win(0, limit, false, []), map[], {}, 0, 0, 0)
  }

  datatype Action =
    | Call(t: nat, n: int)         // Acquire is entered
    | Section(t: nat)              // one locked section of Acquire
    | Wake(t: nat)                 // select takes the signal
    | Cancel(t: nat)               // select takes ctx.Done
    | Release(t: nat, n: int)      // Release up to its unlock
    | Close(t: nat)                // Close up to its unlock
    | Send(t: nat)                 // the next send on a waiter's channel

  predicate Enabled(s: State, a: Action) {
    match a
    case Call(t, n) => t !in s.threads && 0 <= n
    case Section(t) => t in s.threads && s.threads[t].Acquiring?
    case Wake(t) => t in s.threads && s.threads[t].Parked? && s.threads[t].ch in s.tokens
    case Cancel(t) => t in s.threads && s.threads[t].Parked?
    case Release(t, n) => t !in s.threads && 0 <= n
    case Close(t) => t !in s.threads
    case Send(t) => CanSend(s, t)
  }

  /** A send on a channel of capacity one goes through when the channel is empty. */
  predicate CanSend(s: State, t: nat) {
    HasSend(s, t) && s.threads[t].waiters[0] !in s.tokens
  }

  predicate HasSend(s: State, t: nat) {
    t in s.threads && s.threads[t].Signalling? && s.threads[t].waiters != []
  }

  function Apply(s: State, a: Action): State
    requires Enabled(s, a)
  {
    match a
    case Call(t, n) => s.(threads := s.threads[t := Acquiring(n, n)])
    case Section(t) =>
      var th := s.threads[t];
      var (win, turn) := AcquireTurn(s.win, th.left, s.nextChan);
      (match turn
       case WasClosed => s.(threads := s.threads[t := Returned(th.want, th.left, ErrClosed)])
       case Took(take) =>
         var left := th.left - take;
         s.(win := win, acquired := s.acquired + take,
            threads := s.threads[t := if left <= 0 then Returned(th.want, left, Granted) else Acquiring(th.want, left)])
       case MustWait =>
         s.(win := win, nextChan := s.nextChan + 1,
            threads := s.threads[t := Parked(th.want, th.left, s.nextChan)]))
    case Wake(t) =>
      var th := s.threads[t];
      s.(tokens := s.tokens - {th.ch}, threads := s.threads[t := Acquiring(th.want, th.left)])
    case Cancel(t) =>
      var th := s.threads[t];
      s.(threads := s.threads[t := Returned(th.want, th.left, ErrCancelled)])
    case Release(t, n) =>
      s.(win := ReleaseSection(s.win, n), released := s.released + n,
         threads := s.threads[t := Signalling(s.win.notify)])
    case Close(t) => s.(win := CloseSection(s.win), threads := s.threads[t := Signalling(s.win.notify)])
    case Send(t) =>
      var ws := s.threads[t].waiters;
      s.(tokens := s.tokens + {ws[0]}, threads := s.threads[t := Signalling(ws[1..])])
  }

  function Step(s: State, a: Action): State {
    if Enabled(s, a) then Apply(s, a) else s
  }

  function Run(limit: int, actions: seq<Action>): State {
    if actions == [] then Init(limit)
    else Step(Run(limit, actions[..|actions| - 1]), actions[|actions| - 1])
  }

  // ---------- the invariant ----------

  /** The signals thread t still owes. */
  function Owes(s: State, t: nat): seq<Chan> {
    if t in s.threads && s.threads[t].Signalling? then s.threads[t].waiters else []
  }

  predicate Distinct(cs: seq<Chan>) {
    forall i, j :: 0 <= i < j < |cs| ==> cs[i] != cs[j]
  }

  /** A signal for ch is in the channel or still owed by a releaser. */
  ghost predicate Signalled(s: State, ch: Chan) {
    ch in s.tokens || exists t :: ch in Owes(s, t)
  }

  predicate OwedInv(s: State, owed: seq<Chan>) {
    Distinct(owed) && forall c <- owed :: c < s.nextChan && c !in s.win.notify && c !in s.tokens
  }

  /** Every channel is in at most one place: listed once, owed once, or full. */
  ghost predicate ChannelsInv(s: State) {
    && Distinct(s.win.notify)
    && (forall t :: OwedInv(s, Owes(s, t)))
    && (forall t, u, c :: c in Owes(s, t) && c in Owes(s, u) ==> t == u)
    && (forall c <- s.win.notify :: c < s.nextChan && c !in s.tokens)
    && (forall c <- s.tokens :: c < s.nextChan)
  }

  predicate IsParked(s: State, t: nat) {
    t in s.threads && s.threads[t].Parked?
  }

  ghost predicate ParkedInv(s: State) {
    && (forall t, u :: IsParked(s, t) && IsParked(s, u) && s.threads[t].ch == s.threads[u].ch ==> t == u)
    && (forall t :: IsParked(s, t) ==>
          var th := s.threads[t];
          && th.ch < s.nextChan
          && (th.ch in s.win.notify || Signalled(s, th.ch))
          && (th.ch in s.win.notify ==> !s.win.closed && !s.win.Fits(th.left)))
  }

  ghost predicate Inv(s: State) {
    && s.win.Valid()
    && s.win.outstanding == s.acquired - s.released
    && (forall t <- s.threads :: ThreadInv(s.threads[t]))
    && ChannelsInv(s)
    && ParkedInv(s)
  }

  predicate ThreadInv(th: Thread) {
    match th
    case Acquiring(want, left) => 0 <= left <= want
    case Parked(want, left, _) => 0 <= left <= want
    case Returned(want, left, res) => 0 <= left <= want && (res.Granted? ==> left == 0)
    case Signalling(_) => true
  }

  lemma SameSignals(s: State, s': State)
    requires forall t :: Owes(s', t) == Owes(s, t)
    ensures forall c :: Signalled(s, c) && (c in s.tokens ==> c in s'.tokens) ==> Signalled(s', c)
  {
    forall c | Signalled(s, c) && (c in s.tokens ==> c in s'.tokens)
      ensures Signalled(s', c)
    {
      if c !in s.tokens {
        var t :| c in Owes(s, t);
        assert c in Owes(s', t);
      }
    }
  }

  lemma SameChannels(s: State, s': State)
    requires ChannelsInv(s) && (forall t :: Owes(s', t) == Owes(s, t))
    requires s'.tokens <= s.tokens && s.nextChan <= s'.nextChan
    requires s'.win.notify == s.win.notify ||
             (s'.win.notify == s.win.notify + [s.nextChan] && s.nextChan < s'.nextChan)
    ensures ChannelsInv(s')
  {
    forall t
      ensures OwedInv(s', Owes(s', t))
    {
      assert OwedInv(s, Owes(s, t));
    }
    if s'.win.notify != s.win.notify {
      var cs := s'.win.notify;
      assert forall i :: 0 <= i < |s.win.notify| ==> cs[i] == s.win.notify[i] && cs[i] in s.win.notify;
    }
  }

  lemma CallKeepsInv(s: State, a: Action)
    requires Inv(s) && Enabled(s, a) && a.Call?
    ensures Inv(Apply(s, a))
  {
    var s' := Apply(s, a);
    assert forall t :: Owes(s', t) == Owes(s, t);
    SameSignals(s, s');
    SameChannels(s, s');
    hide ChannelsInv, Owes, Signalled;
    assert forall t :: IsParked(s', t) ==> IsParked(s, t);
  }

  lemma SectionKeepsInv(s: State, a: Action)
    requires Inv(s) && Enabled(s, a) && a.Section?
    ensures Inv(Apply(s, a))
  {
    var s' := Apply(s, a);
    assert forall t :: Owes(s', t) == Owes(s, t);
    SameSignals(s, s');
    SameChannels(s, s');
    hide ChannelsInv, Owes, Signalled;
    assert forall t :: t != a.t ==> IsParked(s', t) == IsParked(s, t);
    assert ThreadInv(s.threads[a.t]);
  }

  lemma WakeKeepsInv(s: State, a: Action)
    requires Inv(s) && Enabled(s, a) && (a.Wake? || a.Cancel?)
    ensures Inv(Apply(s, a))
  {
    var s' := Apply(s, a);
    assert forall t :: Owes(s', t) == Owes(s, t);
    SameSignals(s, s');
    SameChannels(s, s');
    hide ChannelsInv, Owes, Signalled;
    assert forall t :: IsParked(s', t) <==> t != a.t && IsParked(s, t);
    assert IsParked(s, a.t);
    assert ThreadInv(s.threads[a.t]);
  }

  lemma ReleaseKeepsChannels(s: State, a: Action)
    requires ChannelsInv(s) && Enabled(s, a) && (a.Release? || a.Close?)
    ensures ChannelsInv(Apply(s, a))
    ensures forall c :: Signalled(s, c) || c in s.win.notify ==> Signalled(Apply(s, a), c)
  {
    var s' := Apply(s, a);
    assert Owes(s', a.t) == s.win.notify;
    assert forall t :: t != a.t ==> Owes(s', t) == Owes(s, t);
    assert Owes(s, a.t) == [];
    forall t
      ensures OwedInv(s', Owes(s', t))
    {
      assert OwedInv(s, Owes(s, t));
    }
    forall c | Signalled(s, c) || c in s.win.notify
      ensures Signalled(s', c)
    {
      if c in s.win.notify {
        assert c in Owes(s', a.t);
      } else if c !in s.tokens {
        var t :| c in Owes(s, t);
        assert c in Owes(s', t);
      }
    }
  }

  lemma ReleaseKeepsInv(s: State, a: Action)
    requires Inv(s) && Enabled(s, a) && (a.Release? || a.Close?)
    ensures Inv(Apply(s, a))
  {
    ReleaseKeepsChannels(s, a);
    hide ChannelsInv, Owes, Signalled;
    var s' := Apply(s, a);
    assert forall t :: IsParked(s', t) == IsParked(s, t);
  }

  lemma SendKeepsChannels(s: State, a: Action)
    requires ChannelsInv(s) && Enabled(s, a) && a.Send?
    ensures ChannelsInv(Apply(s, a))
    ensures forall c :: Signalled(s, c) ==> Signalled(Apply(s, a), c)
  {
    var s' := Apply(s, a);
    var ws := Owes(s, a.t);
    assert ws[0] in ws;
    assert Owes(s', a.t) == ws[1..];
    assert forall t :: t != a.t ==> Owes(s', t) == Owes(s, t);
    assert forall c :: c in ws[1..] ==> c in ws && c != ws[0];
    forall t
      ensures OwedInv(s', Owes(s', t))
    {
      assert OwedInv(s, Owes(s, t));
    }
    forall c | Signalled(s, c)
      ensures Signalled(s', c)
    {
      if c !in s'.tokens {
        var t :| c in Owes(s, t);
        assert c in Owes(s', t);
      }
    }
  }

  lemma SendKeepsInv(s: State, a: Action)
    requires Inv(s) && Enabled(s, a) && a.Send?
    ensures Inv(Apply(s, a))
  {
    SendKeepsChannels(s, a);
    hide ChannelsInv, Owes, Signalled;
    var s' := Apply(s, a);
    assert forall t :: IsParked(s', t) == IsParked(s, t);
  }

  lemma {:induction false} RunKeepsInv(limit: int, actions: seq<Action>)
    requires 0 < limit
    ensures Inv(Run(limit, actions))
  {
    if actions != [] {
      var s, a := Run(limit, actions[..|actions| - 1]), actions[|actions| - 1];
      RunKeepsInv(limit, actions[..|actions| - 1]);
      hide Inv, Apply;
      if Enabled(s, a) {
        match a
        case Call(_, _) => CallKeepsInv(s, a);
        case Section(_) => SectionKeepsInv(s, a);
        case Wake(_) => WakeKeepsInv(s, a);
        case Cancel(_) => WakeKeepsInv(s, a);
        case Release(_, _) => ReleaseKeepsInv(s, a);
        case Close(_) => ReleaseKeepsInv(s, a);
        case Send(_) => SendKeepsInv(s, a);
      }
    }
  }

  // ---------- results, for every schedule ----------

  /** No lost wake-up: whoever is parked and not cancelled has a signal in its channel, or one that
      a releaser still owes, or the window is open and lacks room for its next chunk. */
  lemma NoLostWakeUp(limit: int, actions: seq<Action>, t: nat)
    requires 0 < limit && IsParked(Run(limit, actions), t)
    ensures var s := Run(limit, actions);
            Signalled(s, s.threads[t].ch) || (!s.win.closed && !s.win.Fits(s.threads[t].left))
  {
    RunKeepsInv(limit, actions);
  }

  /** Release and Close never block: the channel they send on next is empty. */
  lemma SendsNeverBlock(limit: int, actions: seq<Action>, t: nat)
    requires 0 < limit && HasSend(Run(limit, actions), t)
    ensures CanSend(Run(limit, actions), t)
  {
    RunKeepsInv(limit, actions);
    var s := Run(limit, actions);
    assert OwedInv(s, Owes(s, t)) && s.threads[t].waiters[0] in Owes(s, t);
  }

  /** The window accounts for every byte, never exceeds its limit, and a granted Acquire took
      exactly what it asked for. */
  lemma WindowAccounts(limit: int, actions: seq<Action>)
    requires 0 < limit
    ensures var s := Run(limit, actions);
            && s.win.outstanding == s.acquired - s.released <= limit
            && (forall t <- s.threads :: s.threads[t].Returned? && s.threads[t].res.Granted? ==> s.threads[t].left == 0)
  {
    RunKeepsInv(limit, actions);
    SameLimit(limit, actions);
    var s := Run(limit, actions);
    assert forall t <- s.threads :: ThreadInv(s.threads[t]);
  }

  lemma {:induction false} SameLimit(limit: int, actions: seq<Action>)
    ensures Run(limit, actions).win.limit == limit
  {
    if actions != [] {
      SameLimit(limit, actions[..|actions| - 1]);
    }
  }

  /** Nothing can move but calls, releases and cancellations. */
  predicate Quiet(s: State) {
    && s.tokens == {}
    && (forall t <- s.threads :: !s.threads[t].Acquiring? && !HasSend(s, t))
  }

  /** Once every step already due has been taken, whoever is still parked truly lacks room, and
      nobody is parked on a closed window. */
  lemma QuietMeansNoRoom(limit: int, actions: seq<Action>, t: nat)
    requires 0 < limit && Quiet(Run(limit, actions)) && IsParked(Run(limit, actions), t)
    ensures var s := Run(limit, actions); !s.win.closed && !s.win.Fits(s.threads[t].left)
  {
    RunKeepsInv(limit, actions);
    var s := Run(limit, actions);
    forall u
      ensures Owes(s, u) == []
    {
      assert u in s.threads ==> !HasSend(s, u);
    }
  }

  // ---------- what Acquire returns ----------

  /** The select of t took ctx.Done. */
  predicate CancelledBy(limit: int, actions: seq<Action>, t: nat) {
    actions != [] &&
    var before, a := actions[..|actions| - 1], actions[|actions| - 1];
    CancelledBy(limit, before, t) || (a == Cancel(t) && Enabled(Run(limit, before), a))
  }

  predicate ResultOk(s: State, t: nat, cancelled: bool) {
    if t !in s.threads then !cancelled
    else
      match s.threads[t]
      case Acquiring(want, left) => !cancelled && (0 < want ==> 0 < left)
      case Parked(want, left, _) => !cancelled && (0 < want ==> 0 < left)
      case Returned(want, left, res) =>
        && (cancelled <==> res.ErrCancelled?)
        && (res.ErrClosed? ==> s.win.closed)
        && (0 < want ==> (res.Granted? <==> left <= 0))
      case Signalling(_) => !cancelled
  }

  lemma ResultStep(s: State, a: Action, t: nat, cancelled: bool)
    requires ResultOk(s, t, cancelled)
    ensures ResultOk(Step(s, a), t, cancelled || (a == Cancel(t) && Enabled(s, a)))
  {
  }

  lemma {:induction false} ResultsOk(limit: int, actions: seq<Action>, t: nat)
    ensures ResultOk(Run(limit, actions), t, CancelledBy(limit, actions, t))
  {
    hide Step, ResultOk, Enabled;
    if actions == [] {
      assert ResultOk(Init(limit), t, false) by { NobodyYet(limit, t); }
    } else {
      var before, a := actions[..|actions| - 1], actions[|actions| - 1];
      ResultsOk(limit, before, t);
      ResultStep(Run(limit, before), a, t, CancelledBy(limit, before, t));
    }
  }

  lemma NobodyYet(limit: int, t: nat)
    ensures ResultOk(Init(limit), t, false)
  {
  }

  /** An Acquire that has returned was granted exactly when it took all it wanted, failed as cancelled
      exactly when its context was, and failed as closed only on a closed window. */
  lemma {:induction false} ResultsExact(limit: int, actions: seq<Action>, t: nat)
    requires t in Run(limit, actions).threads && Run(limit, actions).threads[t].Returned?
    ensures var s := Run(limit, actions);
            var th := s.threads[t];
            && (0 < th.want ==> (th.res.Granted? <==> th.left <= 0))
            && (th.res.ErrCancelled? <==> CancelledBy(limit, actions, t))
            && (th.res.ErrClosed? ==> s.win.closed)
  {
    hide Run, CancelledBy;
    ResultsOk(limit, actions, t);
  }

  /** What Call asked for in the name of t, and what the locked sections of t took. */
  function AskedBy(limit: int, actions: seq<Action>, t: nat): int {
    if actions == [] then 0
    else
      var before, a := actions[..|actions| - 1], actions[|actions| - 1];
      AskedBy(limit, before, t) + if a.Call? && a.t == t && Enabled(Run(limit, before), a) then a.n else 0
  }

  function TakenBy(limit: int, actions: seq<Action>, t: nat): int {
    if actions == [] then 0
    else
      var before, a := actions[..|actions| - 1], actions[|actions| - 1];
      TakenBy(limit, before, t) + if a == Section(t) then Run(limit, actions).acquired - Run(limit, before).acquired else 0
  }

  predicate ShareOk(s: State, t: nat, asked: int, taken: int) {
    if t !in s.threads then asked == 0 && taken == 0
    else
      match s.threads[t]
      case Acquiring(want, left) => asked == want && taken == want - left
      case Parked(want, left, _) => asked == want && taken == want - left
      case Returned(want, left, _) => asked == want && taken == want - left
      case Signalling(_) => asked == 0 && taken == 0
  }

  lemma ShareStep(s: State, a: Action, t: nat, asked: int, taken: int)
    requires ShareOk(s, t, asked, taken)
    ensures ShareOk(Step(s, a), t, asked + if a.Call? && a.t == t && Enabled(s, a) then a.n else 0,
                    taken + if a == Section(t) then Step(s, a).acquired - s.acquired else 0)
  {
  }

  lemma {:induction false} SharesOk(limit: int, actions: seq<Action>, t: nat)
    ensures ShareOk(Run(limit, actions), t, AskedBy(limit, actions, t), TakenBy(limit, actions, t))
  {
    hide Step, Enabled;
    if actions != [] {
      var before, a := actions[..|actions| - 1], actions[|actions| - 1];
      SharesOk(limit, before, t);
      hide ShareOk;
      ShareStep(Run(limit, before), a, t, AskedBy(limit, before, t), TakenBy(limit, before, t));
    }
  }

  /** In every interleaving each Acquire accounts for what its own sections took: a granted one exactly
      what it asked for, any other no more than that. */
  lemma {:induction false} TakesWhatItAsked(limit: int, actions: seq<Action>, t: nat)
    requires 0 < limit && t in Run(limit, actions).threads && !Run(limit, actions).threads[t].Signalling?
    ensures var th := Run(limit, actions).threads[t];
            && th.want == AskedBy(limit, actions, t)
            && 0 <= TakenBy(limit, actions, t) == th.want - th.left <= th.want
            && (th.Returned? && th.res.Granted? ==> TakenBy(limit, actions, t) == AskedBy(limit, actions, t))
  {
    hide Run, AskedBy, TakenBy;
    SharesOk(limit, actions, t);
    RunKeepsInv(limit, actions);
    assert ThreadInv(Run(limit, actions).threads[t]);
  }

  /** A signal wakes one waiter once, and that one goes on for what it still lacks. */
  lemma WakesOnce(limit: int, actions: seq<Action>, t: nat)
    requires Enabled(Run(limit, actions), Wake(t))
    ensures var s, u := Run(limit, actions), Run(limit, actions + [Wake(t)]);
            && u.threads == s.threads[t := Acquiring(s.threads[t].want, s.threads[t].left)]
            && s.threads[t].ch !in u.tokens && u.tokens + {s.threads[t].ch} == s.tokens
  {
    assert (actions + [Wake(t)])[..|actions|] == actions;
  }

  lemma ClosedStays(s: State, a: Action)
    requires s.win.closed
    ensures Step(s, a).win.closed && Step(s, a).acquired == s.acquired
  {
  }

  lemma {:induction false} ClosedForGood(limit: int, before: seq<Action>, later: seq<Action>)
    requires Run(limit, before).win.closed
    ensures Run(limit, before + later).win.closed && Run(limit, before + later).acquired == Run(limit, before).acquired
  {
    hide Step;
    if later == [] {
      assert before + later == before;
    } else {
      var all := before + later;
      assert all[..|all| - 1] == before + later[..|later| - 1];
      ClosedForGood(limit, before, later[..|later| - 1]);
      ClosedStays(Run(limit, all[..|all| - 1]), all[|all| - 1]);
    }
  }

  /** Close ends every Acquire: from then on nothing is taken, and whoever comes to the lock fails as
      closed. */
  lemma {:induction false} CloseIsFinal(limit: int, before: seq<Action>, c: nat, later: seq<Action>, t: nat)
    requires c !in Run(limit, before).threads
    ensures var s, u := Run(limit, before), Run(limit, before + [Close(c)] + later);
            && u.win.closed && u.acquired == s.acquired
            && (t in u.threads && u.threads[t].Acquiring? ==>
                  Step(u, Section(t)).threads[t] == Returned(u.threads[t].want, u.threads[t].left, ErrClosed))
  {
    assert (before + [Close(c)])[..|before|] == before;
    assert Run(limit, before + [Close(c)]) == Step(Run(limit, before), Close(c));
    hide Run;
    ClosedForGood(limit, before + [Close(c)], later);
  }
}
