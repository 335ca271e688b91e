/** The token bucket (internal/decorator/limiter.go): its two critical sections, what any history
    of them grants, and the waiting loop of take. */
module Limiter {

  function Min(a: real, b: real): real {
    if a < b then a else b
  }

  /** What dt seconds are worth. */
  function Accrued(rate: real, dt: real): real {
    rate * dt
  }

  lemma AccruedAdds(rate: real, dt: real, dt': real)
    ensures Accrued(rate, dt + dt') == Accrued(rate, dt) + Accrued(rate, dt')
  {
  }

  lemma AccruedGrows(rate: real, dt: real, dt': real)
    requires 0.0 < rate && dt <= dt'
    ensures Accrued(rate, dt) <= Accrued(rate, dt') && (dt < dt' ==> Accrued(rate, dt) < Accrued(rate, dt'))
  {
    assert rate * (dt' - dt) >= 0.0;
  }

  lemma AccruedNothing(rate: real)
    ensures Accrued(rate, 0.0) == 0.0
  {
  }

  /** tokens as of the reading last. */
  datatype Level = Level(tokens: real, last: real)

  /** One locked section at reading now; whole: tryTake, all or nothing, otherwise a round of take. */
  datatype Draw = Draw(now: real, want: real, whole: bool)

  function Refill(rate: real, s: Level, now: real): real {
    Min(rate, s.tokens + Accrued(rate, now - s.last))
  }

  function Granted(rate: real, s: Level, d: Draw): real {
    var level := Refill(rate, s, d.now);
    if d.whole then if level >= d.want then d.want else 0.0
    else if Min(level, d.want) > 0.0 then Min(level, d.want) else 0.0
  }

  function Step(rate: real, s: Level, d: Draw): Level {
    Level(Refill(rate, s, d.now) - Granted(rate, s, d), d.now)
  }

  function Run(rate: real, s: Level, ds: seq<Draw>): Level {
    if ds == [] then s
    else Step(rate, Run(rate, s, ds[..|ds| - 1]), ds[|ds| - 1])
  }

  /** What one section let through, and when. */
  datatype Pass = Pass(now: real, amount: real)

  function Log(rate: real, s: Level, ds: seq<Draw>): (log: seq<Pass>)
    ensures |log| == |ds|
    ensures forall k :: 0 <= k < |ds| ==> log[k].now == ds[k].now
  {
    if ds == [] then []
    else
      var init, last := ds[..|ds| - 1], ds[|ds| - 1];
      Log(rate, s, init) + [Pass(last.now, Granted(rate, Run(rate, s, init), last))]
  }

  function Spent(log: seq<Pass>): real {
    if log == [] then 0.0 else Spent(log[..|log| - 1]) + log[|log| - 1].amount
  }

  /** What passed at readings from a to b. */
  function SpentBetween(log: seq<Pass>, a: real, b: real): real {
    if log == [] then 0.0
    else
      var p := log[|log| - 1];
      SpentBetween(log[..|log| - 1], a, b) + if a <= p.now <= b then p.amount else 0.0
  }

  /** The clock never goes back, and nobody asks tryTake for a negative amount. */
  predicate Ordered(start: real, ds: seq<Draw>) {
    && (forall k :: 0 <= k < |ds| ==> start <= ds[k].now && (ds[k].whole ==> 0.0 <= ds[k].want))
    && (forall j, k :: 0 <= j < k < |ds| ==> ds[j].now <= ds[k].now)
  }

  // ---------- every run ----------

  lemma {:induction false} TokensInRange(rate: real, start: real, ds: seq<Draw>)
    requires 0.0 < rate && Ordered(start, ds)
    ensures 0.0 <= Run(rate, Level(rate, start), ds).tokens <= rate
    ensures Run(rate, Level(rate, start), ds).last == if ds == [] then start else ds[|ds| - 1].now
    ensures forall p <- Log(rate, Level(rate, start), ds) :: 0.0 <= p.amount
  {
    hide Accrued;
    AccruedNothing(rate);
    if ds != [] {
      TokensInRange(rate, start, ds[..|ds| - 1]);
      var s := Run(rate, Level(rate, start), ds[..|ds| - 1]);
      var now := ds[|ds| - 1].now;
      AccruedGrows(rate, 0.0, now - s.last);
    }
  }

  /** What the history from section k on leaves of one second's quota plus what has accrued since. */
  function Slack(rate: real, log: seq<Pass>, k: nat, t: real): real
    requires k <= |log|
  {
    rate + Accrued(rate, t - if k < |log| then log[k].now else t) - Spent(log[k..])
  }

  lemma SlackSnoc(rate: real, log: seq<Pass>, p: Pass, k: nat, t: real)
    requires k <= |log|
    ensures Slack(rate, log + [p], k, t) == Slack(rate, log, k, p.now) - p.amount + Accrued(rate, t - p.now)
  {
    hide Accrued;
    var all := log + [p];
    assert all[k..] == log[k..] + [p];
    assert all[k..][..|all[k..]| - 1] == log[k..];
    var since := all[k].now;
    assert k < |log| ==> since == log[k].now;
    AccruedAdds(rate, p.now - since, t - p.now);
    assert p.now - since + (t - p.now) == t - since;
    if k == |log| { AccruedNothing(rate); }
  }

  lemma SlackAtEnd(rate: real, log: seq<Pass>, t: real)
    ensures Slack(rate, log, |log|, t) == rate
  {
    AccruedNothing(rate);
    assert log[|log|..] == [];
  }

  /** The level of the bucket is the smallest slack over all starting points: it remembers exactly
      the tightest window of its history. */
  lemma {:induction false} LevelIsLeastSlack(rate: real, start: real, ds: seq<Draw>, t: real)
    requires 0.0 < rate && Ordered(start, ds) && start <= t
    requires ds != [] ==> ds[|ds| - 1].now <= t
    ensures var log, level := Log(rate, Level(rate, start), ds), Refill(rate, Run(rate, Level(rate, start), ds), t);
            && (forall k :: 0 <= k <= |log| ==> level <= Slack(rate, log, k, t))
            && (exists k :: 0 <= k <= |log| && level == Slack(rate, log, k, t))
  {
    hide Accrued, Granted, Slack;
    var full := Level(rate, start);
    var log, level := Log(rate, full, ds), Refill(rate, Run(rate, full, ds), t);
    SlackAtEnd(rate, log, t);
    if ds == [] {
      AccruedNothing(rate);
      AccruedGrows(rate, 0.0, t - start);
    } else {
      var init, d := ds[..|ds| - 1], ds[|ds| - 1];
      LevelIsLeastSlack(rate, start, init, d.now);
      var log', level' := Log(rate, full, init), Refill(rate, Run(rate, full, init), d.now);
      var g := Granted(rate, Run(rate, full, init), d);
      forall k | 0 <= k <= |log'|
        ensures Slack(rate, log, k, t) == Slack(rate, log', k, d.now) - g + Accrued(rate, t - d.now)
      {
        SlackSnoc(rate, log', Pass(d.now, g), k, t);
      }
      assert level == Min(rate, level' - g + Accrued(rate, t - d.now));
      var k :| 0 <= k <= |log'| && level' == Slack(rate, log', k, d.now);
      assert level == Slack(rate, log, if level == rate then |log| else k, t);
    }
  }

  lemma {:induction false} WindowIsSuffix(rate: real, log: seq<Pass>, a: real, b: real) returns (k: nat)
    requires forall i, j :: 0 <= i < j < |log| ==> log[i].now <= log[j].now
    requires log != [] ==> log[|log| - 1].now <= b
    ensures k <= |log| && SpentBetween(log, a, b) == Spent(log[k..])
    ensures k < |log| ==> a <= log[k].now
    ensures forall i :: 0 <= i < |log| && a <= log[i].now ==> k <= i
  {
    if log == [] {
      k := 0;
    } else {
      var init := log[..|log| - 1];
      k := WindowIsSuffix(rate, init, a, b);
      if log[|log| - 1].now < a {
        k := |log|;
        assert init != [] ==> init[|init| - 1].now < a;
        NothingBefore(init, a, b);
      } else {
        assert log[k..][..|log[k..]| - 1] == init[k..];
      }
    }
  }

  lemma {:induction false} NothingBefore(log: seq<Pass>, a: real, b: real)
    requires forall i :: 0 <= i < |log| ==> log[i].now < a
    ensures SpentBetween(log, a, b) == 0.0
  {
    if log != [] { NothingBefore(log[..|log| - 1], a, b); }
  }

  lemma {:induction false} SuffixInWindow(log: seq<Pass>, k: nat, a: real, b: real)
    requires k <= |log| && forall p <- log :: 0.0 <= p.amount
    requires forall i :: k <= i < |log| ==> a <= log[i].now <= b
    ensures Spent(log[k..]) <= SpentBetween(log, a, b)
  {
    if log != [] {
      var init := log[..|log| - 1];
      if k < |log| {
        SuffixInWindow(init, k, a, b);
        assert log[k..][..|log[k..]| - 1] == init[k..];
      } else {
        assert log[k..] == [];
        SuffixInWindow(init, |init|, a, b);
        assert init[|init|..] == [];
      }
    }
  }

  /** A section lets through no more than any window ending with it has left. */
  lemma GrantWithinSlack(rate: real, start: real, ds: seq<Draw>, d: Draw, k: nat)
    requires 0.0 < rate && Ordered(start, ds + [d]) && k <= |ds|
    ensures Granted(rate, Run(rate, Level(rate, start), ds), d) <= Slack(rate, Log(rate, Level(rate, start), ds), k, d.now)
  {
    hide Accrued, Run, Log, Slack;
    var all := ds + [d];
    assert all[|ds|] == d && forall k :: 0 <= k < |ds| ==> all[k] == ds[k];
    assert start <= d.now && (d.whole ==> 0.0 <= d.want);
    assert Ordered(start, ds);
    LevelIsLeastSlack(rate, start, ds, d.now);
    LevelNonNegative(rate, start, ds, d.now);
  }

  lemma LevelNonNegative(rate: real, start: real, ds: seq<Draw>, t: real)
    requires 0.0 < rate && Ordered(start, ds) && start <= t
    requires ds != [] ==> ds[|ds| - 1].now <= t
    ensures 0.0 <= Refill(rate, Run(rate, Level(rate, start), ds), t)
  {
    hide Accrued;
    TokensInRange(rate, start, ds);
    AccruedGrows(rate, 0.0, t - Run(rate, Level(rate, start), ds).last);
    AccruedNothing(rate);
  }

  lemma LogSnoc(rate: real, s: Level, ds: seq<Draw>, d: Draw)
    ensures Log(rate, s, ds + [d]) == Log(rate, s, ds) + [Pass(d.now, Granted(rate, Run(rate, s, ds), d))]
  {
    assert (ds + [d])[..|ds|] == ds;
  }

  lemma BetweenSnoc(log: seq<Pass>, p: Pass, a: real, b: real)
    ensures SpentBetween(log + [p], a, b) == SpentBetween(log, a, b) + if a <= p.now <= b then p.amount else 0.0
  {
    assert (log + [p])[..|log|] == log;
  }

  /** Between any two readings a and b, however the sections fall, at most one second's quota more
      than the rate allows gets through. */
  lemma {:induction false} RateBound(rate: real, start: real, ds: seq<Draw>, a: real, b: real)
    requires 0.0 < rate && Ordered(start, ds) && a <= b
    ensures SpentBetween(Log(rate, Level(rate, start), ds), a, b) <= rate + Accrued(rate, b - a)
  {
    hide Accrued, Granted;
    if ds == [] {
      AccruedNothing(rate);
      AccruedGrows(rate, 0.0, b - a);
    } else {
      var full := Level(rate, start);
      var init, d := ds[..|ds| - 1], ds[|ds| - 1];
      var log, g := Log(rate, full, init), Granted(rate, Run(rate, full, init), d);
      assert ds == init + [d];
      LogSnoc(rate, full, init, d);
      BetweenSnoc(log, Pass(d.now, g), a, b);
      RateBound(rate, start, init, a, b);
      if a <= d.now <= b {
        LastInWindow(rate, start, init, d, a, b);
      }
    }
  }

  lemma LastInWindow(rate: real, start: real, ds: seq<Draw>, d: Draw, a: real, b: real)
    requires 0.0 < rate && Ordered(start, ds + [d]) && a <= d.now <= b
    ensures var log := Log(rate, Level(rate, start), ds);
            SpentBetween(log, a, b) + Granted(rate, Run(rate, Level(rate, start), ds), d) <= rate + Accrued(rate, b - a)
  {
    hide Accrued, Granted, Run;
    var log := Log(rate, Level(rate, start), ds);
    var all := ds + [d];
    assert forall k :: 0 <= k < |log| ==> log[k].now == ds[k].now == all[k].now;
    assert all[|ds|] == d;
    var k := WindowIsSuffix(rate, log, a, b);
    GrantWithinSlack(rate, start, ds, d, k);
    AccruedGrows(rate, d.now - if k < |log| then log[k].now else d.now, b - a);
  }

  /** No window ending at t would get more than one second's quota over the rate if n more passed. */
  ghost predicate FitsEveryWindow(rate: real, log: seq<Pass>, t: real, n: real) {
    forall a :: a <= t ==> SpentBetween(log, a, t) + n <= rate + Accrued(rate, t - a)
  }

  /** tryTake is an exact limiter: it lets n through just when no window ending now, n included,
      would exceed the rate by more than one second's quota. */
  lemma GrantedExactly(rate: real, start: real, ds: seq<Draw>, t: real, n: real)
    requires 0.0 < rate && 0.0 < n && Ordered(start, ds + [Draw(t, n, true)])
    ensures var log := Log(rate, Level(rate, start), ds);
            Granted(rate, Run(rate, Level(rate, start), ds), Draw(t, n, true)) == n
            <==> FitsEveryWindow(rate, log, t, n)
  {
    hide Accrued, Run, Log, Slack;
    var full, d := Level(rate, start), Draw(t, n, true);
    var all := ds + [d];
    assert all[|ds|] == d && forall k :: 0 <= k < |ds| ==> all[k] == ds[k];
    assert Ordered(start, ds);
    var log, level := Log(rate, full, ds), Refill(rate, Run(rate, full, ds), t);
    LogSnoc(rate, full, ds, d);
    if level >= n {
      forall a | a <= t ensures SpentBetween(log, a, t) + n <= rate + Accrued(rate, t - a) {
        RateBound(rate, start, all, a, t);
        BetweenSnoc(log, Pass(t, n), a, t);
      }
    } else {
      LevelIsLeastSlack(rate, start, ds, t);
      var k :| 0 <= k <= |log| && level == Slack(rate, log, k, t);
      var a := if k < |log| then log[k].now else t;
      SlackCoversWindow(rate, start, ds, k, t);
      assert !(SpentBetween(log, a, t) + n <= rate + Accrued(rate, t - a));
    }
  }

  lemma SlackCoversWindow(rate: real, start: real, ds: seq<Draw>, k: nat, t: real)
    requires 0.0 < rate && Ordered(start, ds) && k <= |ds|
    requires ds != [] ==> ds[|ds| - 1].now <= t
    ensures var log := Log(rate, Level(rate, start), ds);
            var a := if k < |log| then log[k].now else t;
            rate + Accrued(rate, t - a) <= Slack(rate, log, k, t) + SpentBetween(log, a, t)
  {
    hide Accrued, Run, Log;
    var log := Log(rate, Level(rate, start), ds);
    TokensInRange(rate, start, ds);
    SuffixInWindow(log, k, if k < |log| then log[k].now else t, t);
  }

  // ---------- the bucket ----------

  const EPSILON := 0.000000001

  /** How long a round of take sleeps, in seconds: 1/rate cut to whole nanoseconds, but at least
      1 ms and at most 100 ms. */
  function Wait(rate: real): real
    requires 0.0 < rate
  {
    var ns := (1000000000.0 / rate).Floor;
    var capped := if ns > 100000000 then 100000000 else ns;
    (if capped < 1000000 then 1000000 else capped) as real / 1000000000.0
  }

  /** Between ten and a thousand tokens a second a round sleeps for one token, to the nanosecond. */
  lemma WaitIsOneToken(rate: real)
    requires 10.0 <= rate <= 1000.0
    ensures 1.0 / rate - 0.000000001 < Wait(rate) <= 1.0 / rate
    ensures Wait(10.0) == 0.1 && Wait(1000.0) == 0.001
    ensures forall slow :: 0.0 < slow < 10.0 ==> Wait(slow) == 0.1
    ensures forall fast :: 1000.0 < fast ==> Wait(fast) == 0.001
  {
    var per := 1000000000.0 / rate;
    assert per * rate == 1000000000.0;
    NanosBetween(rate);
    assert 1.0 / rate == per / 1000000000.0;
    forall slow | 0.0 < slow < 10.0 ensures Wait(slow) == 0.1 { NanosSlow(slow); }
    forall fast | 1000.0 < fast ensures Wait(fast) == 0.001 { NanosFast(fast); }
  }

  lemma NanosBetween(rate: real)
    requires 10.0 <= rate <= 1000.0
    ensures 1000000.0 <= 1000000000.0 / rate <= 100000000.0
  {
  }

  lemma NanosSlow(rate: real)
    requires 0.0 < rate < 10.0
    ensures 100000000.0 < 1000000000.0 / rate
  {
  }

  lemma NanosFast(rate: real)
    requires 1000.0 < rate
    ensures 0.0 < 1000000000.0 / rate < 1000000.0
  {
  }

  function Ceil(x: real): int {
    -((-x).Floor)
  }

  lemma WaitQuota(rate: real)
    requires 0.0 < rate
    ensures 0.001 <= Wait(rate) <= 0.1
    ensures 0.0 < 0.001 * rate <= Accrued(rate, Wait(rate)) <= rate
  {
    AccruedGrows(rate, 0.001, Wait(rate));
    AccruedGrows(rate, Wait(rate), 1.0);
  }

  lemma OneRound(q: real)
    ensures Accrued(q, 1.0) == q && Accrued(q, 0.0) == 0.0
  {
  }

  lemma RoundsLeft(rounds: nat, q: real, drawn: real, n: real)
    requires 0.0 < q && Accrued(q, rounds as real - 1.0) <= drawn < n
    ensures rounds <= Ceil(n / q)
  {
    assert rounds as real - 1.0 < n / q by {
      assert (n / q) * q == n;
      if rounds as real - 1.0 >= n / q {
        AccruedGrows(q, n / q, rounds as real - 1.0);
      }
    }
  }

  lemma NoRounds(n: real, q: real)
    requires 0.0 < q && 0.0 <= n
    ensures 0 <= Ceil(n / q)
  {
    AccruedGrows(q, n / q, n / q);
    assert n / q >= 0.0;
  }

  /** A smaller quota a round only makes the bound longer. */
  lemma CeilCoarser(n: real, q: real, small: real)
    requires 0.0 < small <= q && 0.0 <= n
    ensures Ceil(n / q) <= Ceil(n / small)
  {
    var m, m' := n / q, n / small;
    assert m * q == n && m' * small == n;
    assert small * m <= n by {
      assert 0.0 <= m * (q - small);
    }
    if m' < m {
      AccruedGrows(small, m', m);
    }
  }

  lemma EmptyRun(rate: real, s: Level)
    ensures Run(rate, s, []) == s && Spent(Log(rate, s, [])) == 0.0
  {
  }

  lemma RunSnoc(rate: real, s: Level, ds: seq<Draw>, d: Draw)
    ensures Run(rate, s, ds + [d]) == Step(rate, Run(rate, s, ds), d)
    ensures Spent(Log(rate, s, ds + [d])) == Spent(Log(rate, s, ds)) + Granted(rate, Run(rate, s, ds), d)
  {
    assert (ds + [d])[..|ds|] == ds;
    var log := Log(rate, s, ds + [d]);
    assert log[..|log| - 1] == Log(rate, s, ds);
  }

  class Bucket {
    const rate: real
    var tokens: real
    var last: real

    function View(): Level
      reads this
    {
      Level(tokens, last)
    }

    ghost predicate Valid()
      reads this
    {
      0.0 < rate && 0.0 <= tokens <= rate
    }

    constructor (rate: real, epoch: real)
      requires 0.0 < rate
      ensures Valid() && this.rate == rate && View() == Level(rate, epoch)
    {
      this.rate := rate;
      tokens, last := rate, epoch;
    }

    method TryTake(n: real, now: real) returns (ok: bool)
      requires Valid() && 0.0 < n && last <= now
      modifies this
      ensures Valid()
      ensures View() == Step(rate, old(View()), Draw(now, n, true))
      ensures Granted(rate, old(View()), Draw(now, n, true)) == if ok then n else 0.0
    {
      AccruedGrows(rate, 0.0, now - last);
      tokens := tokens + Accrued(rate, now - last);
      if tokens > rate {
        tokens := rate;
      }
      last := now;
      if tokens >= n {
        tokens := tokens - n;
        return true;
      }
      return false;
    }

    /** One locked section of Take; returns what is still wanted. */
    method Round(remaining: real, now: real) returns (left: real)
      requires Valid() && last <= now
      modifies this
      ensures Valid()
      ensures View() == Step(rate, old(View()), Draw(now, remaining, false))
      ensures left == remaining - Granted(rate, old(View()), Draw(now, remaining, false))
      ensures last == now && (0.0 < left ==> tokens == 0.0 && left <= remaining)
      ensures 0.0 < left ==> remaining - left >= Min(rate, Accrued(rate, now - old(last)))
      ensures remaining <= 0.0 ==> left == remaining
      ensures 0.0 < remaining ==> 0.0 <= left <= remaining
    {
      AccruedGrows(rate, 0.0, now - last);
      tokens := tokens + Accrued(rate, now - last);
      if tokens > rate {
        tokens := rate;
      }
      last := now;
      left := remaining;
      var took := Min(tokens, remaining);
      if took > 0.0 {
        tokens := tokens - took;
        left := remaining - took;
      }
    }

    /** clock gives the reading of each round, cancelled whether the wait after it was cut short.
        Every cut-free call gets its n tokens, even n above the capacity, in a bounded number of
        rounds; ds are the sections it ran. */
    method Take(n: real, clock: nat -> real, cancelled: nat -> bool)
        returns (done: bool, rounds: nat, drawn: real, ghost ds: seq<Draw>)
      requires Valid() && last <= clock(0)
      requires forall k: nat :: 0 < k ==> clock(k - 1) + Wait(rate) <= clock(k)
      modifies this
      ensures Valid()
      ensures |ds| == rounds && View() == Run(rate, old(View()), ds)
      ensures forall k :: 0 <= k < rounds ==> ds[k].now == clock(k) && !ds[k].whole
      ensures drawn == Spent(Log(rate, old(View()), ds))
      ensures 0.0 <= drawn && (0.0 <= n ==> drawn <= n)
      ensures done <==> n - 0.000000001 <= drawn
      ensures !done ==> 0 < rounds && cancelled(rounds - 1)
      ensures 0.0 <= n ==> rounds <= 1 + Ceil(n / Accrued(rate, Wait(rate)))
      ensures 0.0 <= n ==> rounds <= 1 + Ceil(n / (0.001 * rate))
    {
      hide Accrued, Run, Log, Spent, Step, Granted, Wait, Ceil;
      var remaining := n;
      ds, drawn, rounds := [], 0.0, 0;
      done := false;
      ghost var q := Accrued(rate, Wait(rate));
      ghost var was := View();
      WaitQuota(rate);
      OneRound(q);
      assert Run(rate, was, []) == was && Spent(Log(rate, was, [])) == 0.0 by { EmptyRun(rate, was); }
      if 0.0 <= n {
        NoRounds(n, q);
        CeilCoarser(n, q, 0.001 * rate);
      }
      while true
        invariant Valid() && |ds| == rounds && View() == Run(rate, was, ds)
        invariant forall k :: 0 <= k < rounds ==> ds[k].now == clock(k) && !ds[k].whole
        invariant drawn == n - remaining == Spent(Log(rate, was, ds))
        invariant 0.0 <= drawn && (0.0 < n ==> drawn <= n)
        invariant if rounds == 0 then last <= clock(0) else last == clock(rounds - 1)
        invariant 0 < rounds ==> EPSILON < remaining && tokens == 0.0 && Accrued(q, rounds as real - 1.0) <= drawn
        invariant rounds == 0 ==> remaining == n
        decreases Ceil(n / q) - rounds + if rounds == 0 then 1 else 0
      {
        if 0 < rounds {
          RoundsLeft(rounds, q, drawn, n);
          assert clock(rounds - 1) + Wait(rate) <= clock(rounds);
          AccruedGrows(rate, Wait(rate), clock(rounds) - last);
          AccruedAdds(q, rounds as real - 1.0, 1.0);
        }
        ghost var d := Draw(clock(rounds), remaining, false);
        var left := Round(remaining, clock(rounds));
        RunSnoc(rate, was, ds, d);
        ds := ds + [d];
        remaining := left;
        drawn := n - remaining;
        rounds := rounds + 1;
        if remaining <= EPSILON {
          done := true;
          break;
        }
        if cancelled(rounds - 1) {
          break;
        }
      }
    }
  }
}
