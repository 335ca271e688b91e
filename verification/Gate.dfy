/** The admission gate (internal/decorator/admission.go): any number of attempts racing on the
    counter and on the per-identity buckets, one atomic access or locked section at a time. */
module Gate {
  import opened Limiter

  /** maxConns and qps of zero or less mean no limit. */
  datatype Config = Config(maxConns: int, qps: real)

  datatype Phase =
    | Loading                  // about to read the counter
    | Loaded(seen: int)        // about to compare and swap
    | NeedBucket               // counted; about to look the bucket up
    | AtBucket                 // about to draw from it
    | Undoing                  // refused by the bucket, about to give the slot back
    | Admitted
    | Full | TooFast           // refused
    | Released
  {
    /** The attempt has a slot in the counter. */
    predicate Holds() { NeedBucket? || AtBucket? || Undoing? || Admitted? }
  }

  datatype Attempt = Attempt(identity: string, phase: Phase)

  /** One draw from an identity's bucket. */
  datatype Try = Try(identity: string, now: real, ok: bool)

  /** tries is a history. */
  datatype State = State(cur: int, attempts: map<nat, Attempt>, buckets: map<string, Level>, clock: real, tries: seq<Try>)

  const INIT := State(0, map[], map[], 0.0, [])

  datatype Action =
    | Begin(t: nat, identity: string)
    | Load(t: nat)
    | CompareAndSwap(t: nat)
    | LookUp(t: nat)
    | TakeToken(t: nat, now: real)
    | Undo(t: nat)
    | Release(t: nat)

  predicate Enabled(s: State, a: Action) {
    if a.Begin? then a.t !in s.attempts
    else
      a.t in s.attempts &&
      var p := s.attempts[a.t].phase;
      match a
      case Begin(_, _) => false
      case Load(_) => p.Loading?
      case CompareAndSwap(_) => p.Loaded?
      case LookUp(_) => p.NeedBucket?
      case TakeToken(_, now) => p.AtBucket? && s.clock <= now
      case Undo(_) => p.Undoing?
      case Release(_) => p.Admitted?
  }

  /** A bucket as newBucket leaves it. */
  function NewBucket(c: Config): Level {
    Level(c.qps, 0.0)
  }

  function At(s: State, c: Config, identity: string): Level {
    if identity in s.buckets then s.buckets[identity] else NewBucket(c)
  }

  function Lets(c: Config, b: Level, now: real): bool {
    Granted(c.qps, b, Draw(now, 1.0, true)) == 1.0
  }

  function To(s: State, t: nat, p: Phase): map<nat, Attempt>
    requires t in s.attempts
  {
    s.attempts[t := s.attempts[t].(phase := p)]
  }

  function Apply(c: Config, s: State, a: Action): State
    requires Enabled(s, a)
  {
    match a
    case Begin(t, identity) => s.(attempts := s.attempts[t := Attempt(identity, Loading)])
    case Load(t) =>
      s.(attempts := To(s, t, if c.maxConns > 0 && s.cur >= c.maxConns then Full else Loaded(s.cur)))
    case CompareAndSwap(t) =>
      if s.cur != s.attempts[t].phase.seen then s.(attempts := To(s, t, Loading))
      else
        var checked := c.qps > 0.0 && s.attempts[t].identity != "";
        s.(cur := s.cur + 1, attempts := To(s, t, if checked then NeedBucket else Admitted))
    case LookUp(t) =>
      var id := s.attempts[t].identity;
      s.(buckets := s.buckets[id := At(s, c, id)], attempts := To(s, t, AtBucket))
    case TakeToken(t, now) =>
      var id := s.attempts[t].identity;
      var b := At(s, c, id);
      var ok := Lets(c, b, now);
      s.(buckets := s.buckets[id := Limiter.Step(c.qps, b, Draw(now, 1.0, true))],
         attempts := To(s, t, if ok then Admitted else Undoing),
         clock := now,
         tries := s.tries + [Try(id, now, ok)])
    case Undo(t) => s.(cur := s.cur - 1, attempts := To(s, t, TooFast))
    case Release(t) => s.(cur := s.cur - 1, attempts := To(s, t, Released))
  }

  function Step(c: Config, s: State, a: Action): State {
    if Enabled(s, a) then Apply(c, s, a) else s
  }

  function Run(c: Config, actions: seq<Action>): State {
    if actions == [] then INIT
    else Step(c, Run(c, actions[..|actions| - 1]), actions[|actions| - 1])
  }

  // ---------- the counter ----------

  /** Two ways to count attempts: those with a slot in the counter, and those of one identity that
      got through. */
  datatype Kind = Slot | Through(identity: string)
  {
    predicate Has(a: Attempt) {
      match this
      case Slot => a.phase.Holds()
      case Through(id) => a.identity == id && (a.phase.Admitted? || a.phase.Released?)
    }
  }

  function Members(s: State, k: Kind): set<nat> {
    set t | t in s.attempts && k.Has(s.attempts[t])
  }

  function Others(s: State, k: Kind, t: nat): set<nat> {
    set u | u in s.attempts && u != t && k.Has(s.attempts[u])
  }

  predicate Counted(s: State, k: Kind, t: nat) {
    t in s.attempts && k.Has(s.attempts[t])
  }

  lemma OneAndOthers(s: State, k: Kind, t: nat)
    ensures |Members(s, k)| == |Others(s, k, t)| + if Counted(s, k, t) then 1 else 0
  {
    if Counted(s, k, t) {
      assert Members(s, k) == Others(s, k, t) + {t};
    } else {
      assert Members(s, k) == Others(s, k, t);
    }
  }

  /** One attempt moving changes a count by that attempt at most. */
  lemma OneMoves(s: State, s': State, k: Kind, t: nat)
    requires t in s'.attempts && s'.attempts.Keys == s.attempts.Keys + {t}
    requires forall u <- s.attempts :: u != t ==> s'.attempts[u] == s.attempts[u]
    ensures |Members(s', k)| - |Members(s, k)| == (if Counted(s', k, t) then 1 else 0) - (if Counted(s, k, t) then 1 else 0)
  {
    OneAndOthers(s, k, t);
    OneAndOthers(s', k, t);
    assert Others(s, k, t) == Others(s', k, t);
  }

  ghost predicate CounterInv(c: Config, s: State) {
    && s.cur == |Members(s, Slot)|
    && (0 < c.maxConns ==> s.cur <= c.maxConns)
    && (0 < c.maxConns ==> forall t <- s.attempts :: s.attempts[t].phase.Loaded? ==> s.attempts[t].phase.seen < c.maxConns)
  }

  lemma StepKeepsCounter(c: Config, s: State, a: Action)
    requires CounterInv(c, s)
    ensures CounterInv(c, Step(c, s, a))
  {
    hide Lets, At, Members;
    if Enabled(s, a) {
      OneMoves(s, Step(c, s, a), Slot, a.t);
    }
  }

  lemma {:induction false} RunKeepsCounter(c: Config, actions: seq<Action>)
    ensures CounterInv(c, Run(c, actions))
  {
    if actions == [] {
      assert Members(INIT, Slot) == {};
    } else {
      RunKeepsCounter(c, actions[..|actions| - 1]);
      StepKeepsCounter(c, Run(c, actions[..|actions| - 1]), actions[|actions| - 1]);
    }
  }

  function InPhase(s: State, p: Phase): set<nat> {
    set t | t in s.attempts && s.attempts[t].phase == p
  }

  /** In every interleaving of compare-and-swap attempts the counter is the connections admitted and
      not yet released, plus the attempts inside the rate check (a refusal being undone included);
      it never passes a positive limit. */
  lemma {:induction false} CounterExact(c: Config, actions: seq<Action>)
    ensures var s := Run(c, actions);
            && s.cur == |InPhase(s, Admitted)| + |InPhase(s, NeedBucket) + InPhase(s, AtBucket) + InPhase(s, Undoing)|
            && (0 < c.maxConns ==> |InPhase(s, Admitted)| <= s.cur <= c.maxConns)
  {
    hide Run;
    RunKeepsCounter(c, actions);
    SlotsSplit(Run(c, actions));
  }

  lemma SlotsSplit(s: State)
    ensures |Members(s, Slot)| == |InPhase(s, Admitted)| + |InPhase(s, NeedBucket) + InPhase(s, AtBucket) + InPhase(s, Undoing)|
  {
    var checking := InPhase(s, NeedBucket) + InPhase(s, AtBucket) + InPhase(s, Undoing);
    assert Members(s, Slot) == InPhase(s, Admitted) + checking;
    assert InPhase(s, Admitted) !! checking;
  }

  /** So a refused attempt leaves nothing behind: with nobody in the rate check, the counter is the
      admitted connections alone, whatever was refused before. */
  lemma RefusalsLeaveNothing(c: Config, actions: seq<Action>)
    requires var s := Run(c, actions);
             forall t <- s.attempts :: var p := s.attempts[t].phase; p.Admitted? || p.Full? || p.TooFast? || p.Released?
    ensures Run(c, actions).cur == |InPhase(Run(c, actions), Admitted)|
  {
    CounterExact(c, actions);
    var s := Run(c, actions);
    assert InPhase(s, NeedBucket) + InPhase(s, AtBucket) + InPhase(s, Undoing) == {};
  }

  lemma RunOne(c: Config, actions: seq<Action>, a: Action)
    ensures Run(c, actions + [a]) == Step(c, Run(c, actions), a)
  {
    assert (actions + [a])[..|actions|] == actions;
  }

  /** An attempt is refused as full exactly when the admitted connections and the attempts in the
      rate check together, at the moment it reads the counter, use the limit up. */
  lemma FullExactly(c: Config, actions: seq<Action>, t: nat)
    requires Enabled(Run(c, actions), Load(t))
    ensures var s := Run(c, actions);
            Run(c, actions + [Load(t)]).attempts[t].phase.Full?
            <==> 0 < c.maxConns
                 <= |InPhase(s, Admitted)| + |InPhase(s, NeedBucket) + InPhase(s, AtBucket) + InPhase(s, Undoing)|
  {
    hide Run, InPhase;
    CounterExact(c, actions);
    RunOne(c, actions, Load(t));
  }

  /** Attempts still in the rate check take room: a gate for one connection can refuse a caller as
      full while nothing is admitted. */
  lemma FullWithNobodyAdmitted(c: Config, id: string) returns (actions: seq<Action>)
    requires c.maxConns == 1 && 0.0 < c.qps && id != ""
    ensures var s := Run(c, actions);
            1 in s.attempts && s.attempts[1].phase.Full? && InPhase(s, Admitted) == {}
  {
    actions := [];
    var s := INIT;
    var plan := [Begin(0, id), Load(0), CompareAndSwap(0), Begin(1, id), Load(1)];
    for i := 0 to |plan|
      invariant s == Run(c, actions)
      invariant i == 0 ==> s == INIT
      invariant i == 1 ==> s == State(0, map[0 := Attempt(id, Loading)], map[], 0.0, [])
      invariant i == 2 ==> s == State(0, map[0 := Attempt(id, Loaded(0))], map[], 0.0, [])
      invariant i == 3 ==> s == State(1, map[0 := Attempt(id, NeedBucket)], map[], 0.0, [])
      invariant i == 4 ==> s == State(1, map[0 := Attempt(id, NeedBucket), 1 := Attempt(id, Loading)], map[], 0.0, [])
      invariant i == 5 ==> s == State(1, map[0 := Attempt(id, NeedBucket), 1 := Attempt(id, Full)], map[], 0.0, [])
    {
      RunOne(c, actions, plan[i]);
      s := Step(c, s, plan[i]);
      actions := actions + [plan[i]];
    }
  }

  // ---------- one identity ----------

  function Draws(tries: seq<Try>, id: string): (ds: seq<Limiter.Draw>)
  {
    if tries == [] then []
    else
      var ds, last := Draws(tries[..|tries| - 1], id), tries[|tries| - 1];
      if last.identity == id then ds + [Draw(last.now, 1.0, true)] else ds
  }

  /** How often id was let through at readings from a to b. */
  function Passes(tries: seq<Try>, id: string, a: real, b: real): nat {
    if tries == [] then 0
    else
      var t := tries[|tries| - 1];
      Passes(tries[..|tries| - 1], id, a, b) + if t.identity == id && t.ok && a <= t.now <= b then 1 else 0
  }

  function AllPasses(tries: seq<Try>, id: string): nat {
    if tries == [] then 0
    else
      var t := tries[|tries| - 1];
      AllPasses(tries[..|tries| - 1], id) + if t.identity == id && t.ok then 1 else 0
  }

  ghost predicate TriesOrdered(s: State) {
    && 0.0 <= s.clock
    && forall id :: Ordered(0.0, Draws(s.tries, id)) && forall d <- Draws(s.tries, id) :: d.now <= s.clock
  }

  /** An identity's bucket and its passes are those of its own tries alone. */
  ghost predicate OwnHistory(c: Config, s: State, id: string) {
    && At(s, c, id) == Limiter.Run(c.qps, NewBucket(c), Draws(s.tries, id))
    && forall a, b :: Passes(s.tries, id, a, b) as real == SpentBetween(Log(c.qps, NewBucket(c), Draws(s.tries, id)), a, b)
  }

  ghost predicate TriesInv(c: Config, s: State) {
    TriesOrdered(s) && forall id :: OwnHistory(c, s, id)
  }

  lemma DrawsSnoc(tries: seq<Try>, t: Try, id: string)
    ensures Draws(tries + [t], id) == if t.identity == id then Draws(tries, id) + [Draw(t.now, 1.0, true)] else Draws(tries, id)
    ensures forall a, b :: Passes(tries + [t], id, a, b)
                           == Passes(tries, id, a, b) + if t.identity == id && t.ok && a <= t.now <= b then 1 else 0
  {
    assert (tries + [t])[..|tries|] == tries;
  }

  lemma DrawKeepsOrder(s: State, t: Try)
    requires TriesOrdered(s) && s.clock <= t.now
    ensures TriesOrdered(s.(clock := t.now, tries := s.tries + [t]))
  {
    forall id ensures Ordered(0.0, Draws(s.tries + [t], id)) && forall d <- Draws(s.tries + [t], id) :: d.now <= t.now {
      DrawsSnoc(s.tries, t, id);
      var ds := Draws(s.tries, id);
      assert forall k :: 0 <= k < |ds| ==> ds[k] in ds;
    }
  }

  lemma DrawKeepsHistory(c: Config, s: State, a: Action, id: string)
    requires a.TakeToken? && Enabled(s, a) && OwnHistory(c, s, id)
    ensures OwnHistory(c, Apply(c, s, a), id)
  {
    hide Granted, Limiter.Step, Limiter.Run, Log, Spent, Draws, Passes, SpentBetween;
    var s' := Apply(c, s, a);
    var own := s.attempts[a.t].identity;
    var t := s'.tries[|s.tries|];
    var d := Draw(a.now, 1.0, true);
    DrawsSnoc(s.tries, t, id);
    if own == id {
      RunSnoc(c.qps, NewBucket(c), Draws(s.tries, id), d);
      LogSnoc(c.qps, NewBucket(c), Draws(s.tries, id), d);
      var g := Granted(c.qps, At(s, c, id), d);
      assert g == if t.ok then 1.0 else 0.0 by { AllOrNothing(c.qps, At(s, c, id), a.now); }
      forall x, y
        ensures Passes(s'.tries, id, x, y) as real == SpentBetween(Log(c.qps, NewBucket(c), Draws(s'.tries, id)), x, y)
      {
        BetweenSnoc(Log(c.qps, NewBucket(c), Draws(s.tries, id)), Pass(a.now, g), x, y);
      }
    }
  }

  lemma AllOrNothing(qps: real, b: Level, now: real)
    ensures Granted(qps, b, Draw(now, 1.0, true)) in {0.0, 1.0}
  {
  }

  lemma StepKeepsTries(c: Config, s: State, a: Action)
    requires TriesInv(c, s)
    ensures TriesInv(c, Step(c, s, a))
  {
    hide Granted, Limiter.Step, Lets;
    if Enabled(s, a) {
      var s' := Step(c, s, a);
      if a.TakeToken? {
        DrawKeepsOrder(s, s'.tries[|s.tries|]);
        assert TriesOrdered(s');
        forall id ensures OwnHistory(c, s', id) { DrawKeepsHistory(c, s, a, id); }
      } else {
        assert TriesOrdered(s');
        forall id ensures OwnHistory(c, s', id) {
          assert OwnHistory(c, s, id);
          assert At(s', c, id) == At(s, c, id);
        }
      }
    }
  }

  lemma {:induction false} RunKeepsTries(c: Config, actions: seq<Action>)
    ensures TriesInv(c, Run(c, actions))
  {
    if actions != [] {
      RunKeepsTries(c, actions[..|actions| - 1]);
      StepKeepsTries(c, Run(c, actions[..|actions| - 1]), actions[|actions| - 1]);
    }
  }

  lemma PassesSnoc(tries: seq<Try>, t: Try, id: string)
    ensures AllPasses(tries + [t], id) == AllPasses(tries, id) + if t.identity == id && t.ok then 1 else 0
  {
    assert (tries + [t])[..|tries|] == tries;
  }

  ghost predicate ThroughInv(s: State, id: string) {
    && |Members(s, Through(id))| == AllPasses(s.tries, id)
    && forall t <- s.attempts :: s.attempts[t].phase.NeedBucket? || s.attempts[t].phase.AtBucket? ==> s.attempts[t].identity != ""
  }

  lemma StepKeepsThrough(c: Config, s: State, a: Action, id: string)
    requires 0.0 < c.qps && id != "" && ThroughInv(s, id)
    ensures ThroughInv(Step(c, s, a), id)
  {
    hide Lets, At, Members, Limiter.Step, AllPasses;
    if Enabled(s, a) {
      OneMoves(s, Step(c, s, a), Through(id), a.t);
      if a.TakeToken? { PassesSnoc(s.tries, Step(c, s, a).tries[|s.tries|], id); }
    }
  }

  lemma {:induction false} RunKeepsThrough(c: Config, actions: seq<Action>, id: string)
    requires 0.0 < c.qps && id != ""
    ensures ThroughInv(Run(c, actions), id)
  {
    if actions == [] {
      NoMembers(Through(id));
    } else {
      RunKeepsThrough(c, actions[..|actions| - 1], id);
      StepKeepsThrough(c, Run(c, actions[..|actions| - 1]), actions[|actions| - 1], id);
    }
  }

  lemma NoMembers(k: Kind)
    ensures Members(INIT, k) == {}
  {
  }

  lemma {:induction false} AllWithin(tries: seq<Try>, id: string, a: real, b: real)
    requires forall d <- Draws(tries, id) :: a <= d.now <= b
    ensures AllPasses(tries, id) == Passes(tries, id, a, b)
  {
    if tries != [] {
      var init, t := tries[..|tries| - 1], tries[|tries| - 1];
      assert forall d <- Draws(init, id) :: d in Draws(tries, id);
      if t.identity == id { assert Draw(t.now, 1.0, true) in Draws(tries, id); }
      AllWithin(init, id, a, b);
    }
  }

  /** The connections of one identity ever admitted, in any interleaving with any others. */
  lemma AdmittedWithinRate(c: Config, actions: seq<Action>, id: string)
    requires 0.0 < c.qps && id != ""
    ensures var s := Run(c, actions);
            |Members(s, Through(id))| as real <= c.qps + Accrued(c.qps, s.clock)
  {
    hide Run, Passes, Draws, Accrued, Members;
    var s := Run(c, actions);
    RunKeepsTries(c, actions);
    RunKeepsThrough(c, actions, id);
    var ds := Draws(s.tries, id);
    assert Ordered(0.0, ds) && forall d <- ds :: d.now <= s.clock;
    AllWithin(s.tries, id, 0.0, s.clock);
    IdentityRate(c, actions, id, 0.0, s.clock);
  }

  /** Whatever other identities do, one identity gets through at most qps * (1 + T) times in any
      T seconds. */
  lemma IdentityRate(c: Config, actions: seq<Action>, id: string, a: real, b: real)
    requires 0.0 < c.qps && a <= b
    ensures Passes(Run(c, actions).tries, id, a, b) as real <= c.qps + Accrued(c.qps, b - a)
  {
    hide Accrued, Run, Limiter.Run, Log, SpentBetween, Passes, Draws;
    RunKeepsTries(c, actions);
    var s := Run(c, actions);
    assert OwnHistory(c, s, id);
    RateBound(c.qps, 0.0, Draws(s.tries, id), a, b);
  }

  /** One more pass now keeps id, on its own passes, within the rate in every window ending now. */
  ghost predicate RoomInEveryWindow(c: Config, tries: seq<Try>, id: string, now: real) {
    forall a :: a <= now ==> Passes(tries, id, a, now) as real + 1.0 <= c.qps + Accrued(c.qps, now - a)
  }

  lemma RoomIsFit(c: Config, s: State, id: string, now: real)
    requires OwnHistory(c, s, id)
    ensures RoomInEveryWindow(c, s.tries, id, now)
            <==> FitsEveryWindow(c.qps, Log(c.qps, NewBucket(c), Draws(s.tries, id)), now, 1.0)
  {
    hide Accrued, Log, Draws;
    var log := Log(c.qps, NewBucket(c), Draws(s.tries, id));
    assert forall a :: Passes(s.tries, id, a, now) as real == SpentBetween(log, a, now);
    if RoomInEveryWindow(c, s.tries, id, now) {
      forall a | a <= now ensures SpentBetween(log, a, now) + 1.0 <= c.qps + Accrued(c.qps, now - a) {
        assert Passes(s.tries, id, a, now) as real + 1.0 <= c.qps + Accrued(c.qps, now - a);
      }
    }
  }

  /** And it is refused only on its own account: an attempt passes the rate check just when none of
      the identity's own windows ending now would get more than that. */
  lemma RefusedOnOwnAccount(c: Config, actions: seq<Action>, t: nat, now: real)
    requires 0.0 < c.qps && Enabled(Run(c, actions), TakeToken(t, now))
    ensures var s := Run(c, actions);
            Run(c, actions + [TakeToken(t, now)]).attempts[t].phase.Admitted?
            <==> RoomInEveryWindow(c, s.tries, s.attempts[t].identity, now)
  {
    hide Accrued, Granted, Run, Limiter.Run, Draws, Limiter.Step, Log, FitsEveryWindow, RoomInEveryWindow;
    RunKeepsTries(c, actions);
    RunOne(c, actions, TakeToken(t, now));
    var s := Run(c, actions);
    var id := s.attempts[t].identity;
    assert OwnHistory(c, s, id);
    var ds, d := Draws(s.tries, id), Draw(now, 1.0, true);
    assert Ordered(0.0, ds + [d]) by {
      assert forall k :: 0 <= k < |ds| ==> ds[k] in ds;
    }
    GrantedExactly(c.qps, 0.0, ds, now, 1.0);
    RoomIsFit(c, s, id, now);
  }

  // ---------- no limit ----------

  /** Without a rate, or without an identity, an attempt never comes to the rate check, let alone is
      refused by it; without a limit on connections nobody is refused as full. */
  lemma {:induction false} UnlimitedNeverRefused(c: Config, actions: seq<Action>, t: nat)
    requires t in Run(c, actions).attempts
    ensures var a := Run(c, actions).attempts[t];
            && (c.qps <= 0.0 || a.identity == "" ==>
                  !a.phase.NeedBucket? && !a.phase.AtBucket? && !a.phase.Undoing? && !a.phase.TooFast?)
            && (c.maxConns <= 0 ==> !a.phase.Full?)
  {
    if actions != [] {
      var before, a := actions[..|actions| - 1], actions[|actions| - 1];
      if t in Run(c, before).attempts { UnlimitedNeverRefused(c, before, t); }
      UnlimitedStep(c, Run(c, before), a, t);
      hide Step;
    }
  }

  predicate Unlimited(c: Config, a: Attempt) {
    && (c.qps <= 0.0 || a.identity == "" ==> !a.phase.NeedBucket? && !a.phase.AtBucket? && !a.phase.Undoing? && !a.phase.TooFast?)
    && (c.maxConns <= 0 ==> !a.phase.Full?)
  }

  lemma UnlimitedStep(c: Config, s: State, a: Action, t: nat)
    requires t in s.attempts ==> Unlimited(c, s.attempts[t])
    ensures t in Step(c, s, a).attempts ==> Unlimited(c, Step(c, s, a).attempts[t])
  {
    hide Lets, At, Limiter.Step;
  }
}
