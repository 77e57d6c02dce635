/** The request limiter of `xproto/proxyManager.cpp`: three requests per
    one-second window, the rest wait in a list that a timer drains. */
module RateLimiter {
  import opened Common

  const WINDOW_MS: int := 1000
  const WINDOW_LIMIT: nat := 3
  const LIST_PING_TIME: int := 1000

  /** One request handed to the link, with the time it went out and the start
      of the window it was charged to. */
  datatype Sent<R> = Sent(req: R, at: int, window: int)

  datatype Limiter<R> = Limiter(lasttime: int, count: nat, queue: seq<R>, due: Option<int>, sent: seq<Sent<R>>)
  {
    predicate WindowOver(now: int) {
      lasttime > now || now - lasttime > WINDOW_MS
    }

    /** Charges one request attempt at `now` to the current or a new window. */
    function Charge(now: int): Limiter<R> {
      if WindowOver(now) then this.(lasttime := now, count := 1) else this.(count := count + 1)
    }

    /** Requests that a tick at `now` is still allowed to send. */
    function Allowance(now: int): nat {
      if WindowOver(now) then WINDOW_LIMIT else if count < WINDOW_LIMIT then WINDOW_LIMIT - count else 0
    }
  }

  function Write<R>(s: Limiter<R>, req: R, now: int): Limiter<R> {
    var c := s.Charge(now);
    if c.count > WINDOW_LIMIT || |c.queue| > 0 then
      c.(queue := c.queue + [req], due := Some(now + LIST_PING_TIME))
    else
      c.(sent := c.sent + [Sent(req, now, c.lasttime)])
  }

  function Drain<R>(s: Limiter<R>, now: int): Limiter<R>
    decreases |s.queue|
  {
    if |s.queue| == 0 then s
    else
      var c := s.Charge(now);
      if c.count > WINDOW_LIMIT then c
      else Drain(c.(sent := c.sent + [Sent(c.queue[0], now, c.lasttime)], queue := c.queue[1..]), now)
  }

  datatype Event<R> = Arrive(req: R, at: int) | Tick(at: int)

  function Step<R>(s: Limiter<R>, e: Event<R>): Limiter<R> {
    match e
    case Arrive(req, at) => Write(s, req, at)
    case Tick(at) => Drain(s, at).(due := Some(at + LIST_PING_TIME))
  }

  function Run<R>(s: Limiter<R>, es: seq<Event<R>>): Limiter<R> {
    if |es| == 0 then s else Step(Run(s, es[..|es| - 1]), es[|es| - 1])
  }

  function Requests<R>(sent: seq<Sent<R>>): (r: seq<R>)
    ensures |r| == |sent|
  {
    if |sent| == 0 then [] else Requests(sent[..|sent| - 1]) + [sent[|sent| - 1].req]
  }

  function Arrivals<R>(es: seq<Event<R>>): seq<R> {
    if |es| == 0 then []
    else
      var before := Arrivals(es[..|es| - 1]);
      match es[|es| - 1]
      case Arrive(req, _) => before + [req]
      case Tick(_) => before
  }

  // ---------------------------------------------------------------- FIFO

  lemma {:induction false} DrainKeepsOrder<R>(s: Limiter<R>, now: int)
    ensures Requests(Drain(s, now).sent) + Drain(s, now).queue == Requests(s.sent) + s.queue
    decreases |s.queue|
  {
    if |s.queue| > 0 && s.Charge(now).count <= WINDOW_LIMIT {
      var c := s.Charge(now);
      var sent := c.sent + [Sent(c.queue[0], now, c.lasttime)];
      assert sent[..|sent| - 1] == s.sent;
      assert Requests(sent) == Requests(s.sent) + [s.queue[0]];
      DrainKeepsOrder(c.(sent := sent, queue := c.queue[1..]), now);
      assert s.queue == [s.queue[0]] + s.queue[1..];
    }
  }

  lemma WriteKeepsOrder<R>(s: Limiter<R>, req: R, now: int)
    ensures Requests(Write(s, req, now).sent) + Write(s, req, now).queue == Requests(s.sent) + s.queue + [req]
  {
    var c := s.Charge(now);
    if c.count > WINDOW_LIMIT || |c.queue| > 0 {
      assert Requests(s.sent) + (s.queue + [req]) == Requests(s.sent) + s.queue + [req];
    } else {
      var sent := c.sent + [Sent(req, now, c.lasttime)];
      assert sent[..|sent| - 1] == s.sent;
      assert s.queue == [];
    }
  }

  /** Nothing is lost, duplicated or reordered, whatever the clock does: what
      was sent followed by what waits is what arrived. */
  lemma {:induction false} SentThenQueuedIsArrivals<R>(s: Limiter<R>, es: seq<Event<R>>)
    ensures Requests(Run(s, es).sent) + Run(s, es).queue == Requests(s.sent) + s.queue + Arrivals(es)
  {
    if |es| == 0 {
      return;
    }
    var t := Run(s, es[..|es| - 1]);
    SentThenQueuedIsArrivals(s, es[..|es| - 1]);
    match es[|es| - 1]
    case Tick(at) =>
      DrainKeepsOrder(t, at);
    case Arrive(req, at) =>
      WriteKeepsOrder(t, req, at);
      var before := Arrivals(es[..|es| - 1]);
      assert Requests(s.sent) + s.queue + before + [req] == Requests(s.sent) + s.queue + (before + [req]);
  }

  // ------------------------------------------------------------ the bound

  /** `a` was sent before `b`: same window, or `b`'s window opened after `a`
      went out and more than a window length after `a`'s window. */
  predicate Follows<R>(a: Sent<R>, b: Sent<R>) {
    && a.at <= b.at
    && (a.window == b.window || (a.at <= b.window && a.window + WINDOW_MS < b.window))
  }

  ghost predicate Ordered<R>(sent: seq<Sent<R>>) {
    && (forall i :: 0 <= i < |sent| ==> sent[i].window <= sent[i].at)
    && (forall i, j :: 0 <= i < j < |sent| ==> Follows(sent[i], sent[j]))
  }

  /** The send at `i` and the one three places later are in different windows. */
  ghost predicate Spaced<R>(sent: seq<Sent<R>>) {
    forall i, j :: 0 <= i && i + 3 <= j < |sent| ==> sent[i].window != sent[j].window
  }

  function Charged(count: nat): nat {
    if count < WINDOW_LIMIT then count else WINDOW_LIMIT
  }

  /** What every step keeps, for time that has reached `clock`. */
  ghost predicate Inv<R>(s: Limiter<R>, clock: int) {
    && Ordered(s.sent)
    && Spaced(s.sent)
    && (|s.sent| > 0 ==> s.lasttime <= clock)
    && (forall i :: 0 <= i < |s.sent| ==>
          && s.sent[i].at <= clock
          && (s.sent[i].window == s.lasttime
              || (s.sent[i].at <= s.lasttime && s.sent[i].window + WINDOW_MS < s.lasttime)))
    && (forall i :: 0 <= i < |s.sent| - Charged(s.count) ==> s.sent[i].window != s.lasttime)
  }

  lemma SendKeepsInv<R>(s: Limiter<R>, req: R, now: int)
    requires Inv(s, now)
    requires s.lasttime <= now && 1 <= s.count <= WINDOW_LIMIT
    requires forall i :: 0 <= i < |s.sent| - (s.count - 1) ==> s.sent[i].window != s.lasttime
    ensures Inv(s.(sent := s.sent + [Sent(req, now, s.lasttime)]), now)
  {
  }

  lemma ChargeKeepsInv<R>(s: Limiter<R>, clock: int, now: int)
    requires Inv(s, clock) && clock <= now
    ensures Inv(s.Charge(now), now) && s.Charge(now).lasttime <= now && s.Charge(now).count >= 1
    ensures var c := s.Charge(now);
            forall i :: 0 <= i < |c.sent| - Charged(c.count - 1) ==> c.sent[i].window != c.lasttime
  {
  }

  lemma {:induction false} DrainKeepsInv<R>(s: Limiter<R>, clock: int, now: int)
    requires Inv(s, clock) && clock <= now
    ensures Inv(Drain(s, now), now)
    decreases |s.queue|
  {
    ChargeKeepsInv(s, clock, now);
    if |s.queue| == 0 {
      assert Inv(s, now);
      return;
    }
    var c := s.Charge(now);
    if c.count <= WINDOW_LIMIT {
      SendKeepsInv(c, c.queue[0], now);
      var d := c.(sent := c.sent + [Sent(c.queue[0], now, c.lasttime)], queue := c.queue[1..]);
      assert Inv(d, now);
      DrainKeepsInv(d, now, now);
    }
  }

  lemma WriteKeepsInv<R>(s: Limiter<R>, req: R, clock: int, now: int)
    requires Inv(s, clock) && clock <= now
    ensures Inv(Write(s, req, now), now)
  {
    ChargeKeepsInv(s, clock, now);
    var c := s.Charge(now);
    if !(c.count > WINDOW_LIMIT || |c.queue| > 0) {
      SendKeepsInv(c, req, now);
    }
  }

  ghost predicate Monotone<R>(es: seq<Event<R>>) {
    forall i, j :: 0 <= i < j < |es| ==> es[i].at <= es[j].at
  }

  function EndTime<R>(es: seq<Event<R>>, start: int): int {
    if |es| == 0 then start else es[|es| - 1].at
  }

  lemma {:induction false} RunKeepsInv<R>(s: Limiter<R>, es: seq<Event<R>>, start: int)
    requires Inv(s, start) && Monotone(es) && (|es| > 0 ==> start <= es[0].at)
    ensures Inv(Run(s, es), EndTime(es, start))
  {
    if |es| == 0 {
      return;
    }
    var front := es[..|es| - 1];
    RunKeepsInv(s, front, start);
    var t := Run(s, front);
    match es[|es| - 1]
    case Arrive(req, at) => WriteKeepsInv(t, req, EndTime(front, start), at);
    case Tick(at) =>
      DrainKeepsInv(t, EndTime(front, start), at);
      assert Inv(Drain(t, at).(due := Some(at + LIST_PING_TIME)), at);
  }

  /** Over every run with nondecreasing time, from any initial (even
      uninitialised) window: no window carries more than three sends, and any
      seven successive sends take more than a second, so at most six go out in
      any 1000 ms span. */
  lemma AtMostSixPerSecond<R>(s: Limiter<R>, es: seq<Event<R>>)
    requires |s.sent| == 0 && Monotone(es)
    ensures var sent := Run(s, es).sent;
            && (forall w :: SendsIn(sent, w) <= WINDOW_LIMIT)
            && (forall i :: 0 <= i && i + 6 < |sent| ==> sent[i + 6].at - sent[i].at > WINDOW_MS)
  {
    var start := if |es| == 0 then 0 else es[0].at;
    RunKeepsInv(s, es, start);
    var sent := Run(s, es).sent;
    forall w ensures SendsIn(sent, w) <= WINDOW_LIMIT {
      WindowHoldsThree(sent, w);
    }
    forall i | 0 <= i && i + 6 < |sent| ensures sent[i + 6].at - sent[i].at > WINDOW_MS {
      assert Follows(sent[i], sent[i + 3]) && Follows(sent[i + 3], sent[i + 6]);
    }
  }

  /** The number of sends charged to the window that opened at `w`. */
  function SendsIn<R>(sent: seq<Sent<R>>, w: int): nat {
    if |sent| == 0 then 0
    else SendsIn(sent[..|sent| - 1], w) + if sent[|sent| - 1].window == w then 1 else 0
  }

  lemma {:induction false} WindowHoldsThree<R>(sent: seq<Sent<R>>, w: int)
    requires Ordered(sent) && Spaced(sent)
    ensures SendsIn(sent, w) <= WINDOW_LIMIT
    ensures |sent| <= 3 ==> SendsIn(sent, w) <= |sent|
  {
    if |sent| == 0 {
      return;
    }
    var n := |sent|;
    WindowHoldsThree(sent[..n - 1], w);
    if n > 3 && sent[n - 1].window == w {
      forall i | 0 <= i < n - 3 ensures sent[i].window != w {
        assert sent[i].window != sent[n - 1].window;
      }
      NoneCounted(sent[..n - 3], w);
      assert sent[..n - 1][..n - 2] == sent[..n - 2] && sent[..n - 2][..n - 3] == sent[..n - 3];
    }
  }

  lemma {:induction false} NoneCounted<R>(sent: seq<Sent<R>>, w: int)
    requires forall i :: 0 <= i < |sent| ==> sent[i].window != w
    ensures SendsIn(sent, w) == 0
  {
    if |sent| == 0 {
    } else {
      NoneCounted(sent[..|sent| - 1], w);
    }
  }

  // -------------------------------------------------------- what a tick sends

  function Min(a: nat, b: nat): nat { if a < b then a else b }

  /** A tick sends exactly as many requests as the window still allows, three
      when it comes more than a second after the window opened. */
  lemma {:induction false} TickSends<R>(s: Limiter<R>, now: int)
    ensures |Drain(s, now).sent| == |s.sent| + Min(s.Allowance(now), |s.queue|)
    ensures now - s.lasttime > WINDOW_MS ==> |Drain(s, now).sent| == |s.sent| + Min(3, |s.queue|)
    decreases |s.queue|
  {
    if |s.queue| > 0 && s.Charge(now).count <= WINDOW_LIMIT {
      var c := s.Charge(now);
      TickSends(c.(sent := c.sent + [Sent(c.queue[0], now, c.lasttime)], queue := c.queue[1..]), now);
    }
  }

  /** Every event is an arrival, less than a second after the one before. */
  ghost predicate Busy<R>(es: seq<Event<R>>) {
    && (forall i :: 0 <= i < |es| ==> es[i].Arrive?)
    && (forall i :: 0 < i < |es| ==> es[i].at < es[i - 1].at + LIST_PING_TIME)
  }

  /** A request that arrives while others wait is not sent by its own arrival,
      and it puts the drain timer off. */
  lemma {:induction false} BusyArrivalsOnlyQueue<R>(s: Limiter<R>, es: seq<Event<R>>)
    requires |s.queue| > 0 && Busy(es)
    ensures Run(s, es).sent == s.sent
    ensures Run(s, es).queue == s.queue + Arrivals(es)
    ensures |es| > 0 ==> Run(s, es).due == Some(es[|es| - 1].at + LIST_PING_TIME)
  {
    if |es| == 0 {
    } else {
      BusyArrivalsOnlyQueue(s, es[..|es| - 1]);
    }
  }

  /** On every run, whatever the clock does: an arrival that leaves requests
      waiting sets the drain timer to a second later. So the timer comes due
      before the next arrival exactly when that is at least a second away. */
  lemma DrainComesDueIff<R>(s: Limiter<R>, es: seq<Event<R>>, next: int)
    requires |es| > 0 && es[|es| - 1].Arrive? && |Run(s, es).queue| > 0
    ensures var t := Run(s, es);
            t.due.Some? && (t.due.value <= next <==> next - es[|es| - 1].at >= LIST_PING_TIME)
  {
  }

  /** As long as requests keep arriving less than a second apart, the drain
      timer is never due by the next arrival, so nothing is sent at all. */
  lemma BusyArrivalsStarve<R>(s: Limiter<R>, es: seq<Event<R>>, i: nat)
    requires |s.queue| > 0 && Busy(es) && 0 < i < |es|
    ensures var t := Run(s, es[..i]);
            t.sent == s.sent && t.due.Some? && es[i].at < t.due.value
  {
    BusyArrivalsOnlyQueue(s, es[..i]);
  }

  lemma RunOneMore<R>(s: Limiter<R>, es: seq<Event<R>>, n: nat)
    requires n < |es|
    ensures Run(s, es[..n + 1]) == Step(Run(s, es[..n]), es[n])
  {
    assert es[..n + 1][..n] == es[..n];
  }

  lemma {:induction false} RunAppend<R>(s: Limiter<R>, es: seq<Event<R>>, fs: seq<Event<R>>)
    ensures Run(s, es + fs) == Run(Run(s, es), fs)
  {
    var all := es + fs;
    if |fs| == 0 {
      assert all == es;
    } else {
      assert all[..|all| - 1] == es + fs[..|fs| - 1];
      RunAppend(s, es, fs[..|fs| - 1]);
    }
  }

  /** The state of a new limiter, whose window fields are uninitialised. */
  function Initial<R>(garbageTime: int, garbageCount: nat): Limiter<R> {
    Limiter(garbageTime, garbageCount, [], None, [])
  }

  /** Four arrivals at once leave one waiting, whatever was in the window. */
  lemma FourAtOnceQueue<R>(s: Limiter<R>, es: seq<Event<R>>)
    requires |s.sent| == 0 && |es| == 4
    requires forall i :: 0 <= i < 4 ==> es[i].Arrive? && es[i].at == es[0].at
    ensures |Run(s, es).queue| > 0 && |Run(s, es).sent| <= WINDOW_LIMIT
  {
    RunOneMore(s, es, 0);
    RunOneMore(s, es, 1);
    RunOneMore(s, es, 2);
  }

  /** Such a run from a new limiter, of any length: after four requests at once
      the client goes on asking less than a second apart, and none but the
      first (at most three) is ever sent. */
  lemma StarvesFromStart<R>(garbageTime: int, garbageCount: nat, es: seq<Event<R>>, i: nat)
    requires Busy(es) && 4 <= i <= |es|
    requires forall k :: 0 <= k < 4 ==> es[k].at == es[0].at
    ensures var t := Run(Initial(garbageTime, garbageCount), es[..i]);
            && t.sent == Run(Initial(garbageTime, garbageCount), es[..4]).sent && |t.sent| <= WINDOW_LIMIT
            && t.due.Some? && (i < |es| ==> es[i].at < t.due.value)
  {
    var s := Initial<R>(garbageTime, garbageCount);
    FourAtOnceQueue(s, es[..4]);
    assert es[..i] == es[..4] + es[4..i];
    RunAppend(s, es[..4], es[4..i]);
    BusyArrivalsOnlyQueue(Run(s, es[..4]), es[4..i]);
    DrainComesDueIff(s, es[..i], es[i - 1].at);
    if i < |es| {
      DrainComesDueIff(s, es[..i], es[i].at);
    }
  }

  // -------------------------------------------------- the queue drains when quiet

  /** While requests wait, the drain timer runs, and it comes due no sooner than
      a window after the current one opened. */
  predicate Waits<R>(s: Limiter<R>) {
    |s.queue| > 0 ==> s.due.Some? && s.lasttime + WINDOW_MS <= s.due.value
  }

  lemma TickKeepsWaits<R>(s: Limiter<R>, now: int)
    requires Waits(s)
    ensures Waits(Step(s, Event<R>.Tick(now)))
    ensures |Drain(s, now).queue| > 0 ==> Drain(s, now).lasttime <= now
  {
    DrainChargesWindow(s, now);
  }

  lemma {:induction false} DrainChargesWindow<R>(s: Limiter<R>, now: int)
    ensures |Drain(s, now).queue| > 0 ==> Drain(s, now).lasttime <= now
    decreases |s.queue|
  {
    if |s.queue| > 0 && s.Charge(now).count <= WINDOW_LIMIT {
      var c := s.Charge(now);
      DrainChargesWindow(c.(sent := c.sent + [Sent(c.queue[0], now, c.lasttime)], queue := c.queue[1..]), now);
    }
  }

  lemma {:induction false} RunWaits<R>(s: Limiter<R>, es: seq<Event<R>>)
    requires Waits(s)
    ensures Waits(Run(s, es))
  {
    if |es| == 0 {
    } else {
      RunWaits(s, es[..|es| - 1]);
      match es[|es| - 1]
      case Arrive(_, _) =>
      case Tick(at) => TickKeepsWaits(Run(s, es[..|es| - 1]), at);
    }
  }

  /** Nothing but ticks, each when the timer has come due. */
  ghost predicate Fired<R>(s: Limiter<R>, ticks: seq<Event<R>>) {
    forall i :: 0 <= i < |ticks| ==> ticks[i].Tick? && DueBy(Run(s, ticks[..i]), ticks[i].at)
  }

  predicate DueBy<R>(s: Limiter<R>, now: int) { s.due.Some? && s.due.value <= now }

  function Less(a: nat, b: nat): nat { if a < b then 0 else a - b }

  lemma {:induction false} DrainCounts<R>(s: Limiter<R>, now: int)
    ensures |Drain(s, now).queue| == Less(|s.queue|, s.Allowance(now))
    ensures s.WindowOver(now) || |s.queue| == 0 || Drain(s, now).lasttime == s.lasttime
    decreases |s.queue|
  {
    if |s.queue| > 0 && s.Charge(now).count <= WINDOW_LIMIT {
      var c := s.Charge(now);
      DrainCounts(c.(sent := c.sent + [Sent(c.queue[0], now, c.lasttime)], queue := c.queue[1..]), now);
    }
  }

  /** Of two ticks of the timer one finds the window over. */
  lemma TwoTicksSendThree<R>(s: Limiter<R>, first: int, second: int)
    requires Waits(s) && (|s.queue| > 0 ==> DueBy(s, first)) && first + LIST_PING_TIME <= second
    ensures |Drain(Drain(s, first), second).queue| <= Less(|s.queue|, WINDOW_LIMIT)
  {
    DrainCounts(s, first);
    DrainCounts(Drain(s, first), second);
    TickKeepsWaits(s, first);
  }

  /** Every two ticks of the timer take at least three waiting requests. */
  lemma TicksDrainThreePerPair<R>(s: Limiter<R>, ticks: seq<Event<R>>)
    requires Waits(s) && Fired(s, ticks)
    ensures |Run(s, ticks).queue| <= Less(|s.queue|, 3 * (|ticks| / 2))
  {
    var pairs := |ticks| / 2;
    if |ticks| == 2 * pairs {
      PairsDrain(s, ticks, pairs);
    } else {
      FrontFired(s, ticks, |ticks| - 1);
      PairsDrain(s, ticks[..|ticks| - 1], pairs);
      LastTickTakes(s, ticks);
    }
  }

  lemma LastTickTakes<R>(s: Limiter<R>, ticks: seq<Event<R>>)
    requires |ticks| > 0 && ticks[|ticks| - 1].Tick?
    ensures |Run(s, ticks).queue| <= |Run(s, ticks[..|ticks| - 1]).queue|
  {
    DrainCounts(Run(s, ticks[..|ticks| - 1]), ticks[|ticks| - 1].at);
  }

  lemma {:induction false} PairsDrain<R>(s: Limiter<R>, ticks: seq<Event<R>>, pairs: nat)
    requires Waits(s) && Fired(s, ticks) && |ticks| == 2 * pairs
    ensures |Run(s, ticks).queue| <= Less(|s.queue|, 3 * pairs)
  {
    if pairs == 0 {
    } else {
      var n := 2 * (pairs - 1);
      FrontFired(s, ticks, n);
      PairsDrain(s, ticks[..n], pairs - 1);
      LastPairDrains(s, ticks, n);
    }
  }

  lemma LastPairDrains<R>(s: Limiter<R>, ticks: seq<Event<R>>, n: nat)
    requires Waits(s) && Fired(s, ticks) && |ticks| == n + 2
    ensures |Run(s, ticks).queue| <= Less(|Run(s, ticks[..n]).queue|, 3)
  {
    RunWaits(s, ticks[..n]);
    RunOneMore(s, ticks, n);
    assert ticks[..|ticks| - 1] == ticks[..n + 1];
    TwoFiredTicks(Run(s, ticks[..n]), ticks[n].at, ticks[n + 1].at);
  }

  lemma FrontFired<R>(s: Limiter<R>, ticks: seq<Event<R>>, n: nat)
    requires Fired(s, ticks) && n <= |ticks|
    ensures Fired(s, ticks[..n])
  {
    var front := ticks[..n];
    forall i | 0 <= i < n ensures front[i].Tick? && DueBy(Run(s, front[..i]), front[i].at) {
      assert front[..i] == ticks[..i];
    }
  }

  lemma TwoFiredTicks<R>(t: Limiter<R>, first: int, second: int)
    requires Waits(t) && DueBy(t, first) && DueBy(Step(t, Event<R>.Tick(first)), second)
    ensures |Step(Step(t, Event<R>.Tick(first)), Event<R>.Tick(second)).queue| <= Less(|t.queue|, 3)
  {
    TwoTicksSendThree(t, first, second);
    DrainIgnoresTimer(Drain(t, first), Some(first + LIST_PING_TIME), second);
  }

  lemma {:induction false} DrainIgnoresTimer<R>(s: Limiter<R>, due: Option<int>, now: int)
    ensures Drain(s.(due := due), now) == Drain(s, now).(due := due)
    decreases |s.queue|
  {
    if |s.queue| > 0 && s.Charge(now).count <= WINDOW_LIMIT {
      var c := s.Charge(now);
      DrainIgnoresTimer(c.(sent := c.sent + [Sent(c.queue[0], now, c.lasttime)], queue := c.queue[1..]), due, now);
    }
  }

  /** After any run of a limiter that started with nothing waiting, a pause with
      two ticks of the timer for every three waiting requests sends everything
      that arrived, in order. */
  lemma PauseSendsEverything<R>(s: Limiter<R>, es: seq<Event<R>>, ticks: seq<Event<R>>)
    requires |s.queue| == 0 && Fired(Run(s, es), ticks)
    requires |Run(s, es).queue| <= 3 * (|ticks| / 2)
    ensures var t := Run(s, es + ticks);
            t.queue == [] && Requests(t.sent) == Requests(s.sent) + Arrivals(es)
  {
    RunWaits(s, es);
    TicksDrainThreePerPair(Run(s, es), ticks);
    RunAppend(s, es, ticks);
    SentThenQueuedIsArrivals(s, es + ticks);
    TicksBringNothing(es, ticks);
    var t := Run(s, es + ticks);
    assert Requests(t.sent) + t.queue == Requests(t.sent);
    assert Requests(s.sent) + s.queue == Requests(s.sent);
  }

  lemma {:induction false} TicksBringNothing<R>(es: seq<Event<R>>, ticks: seq<Event<R>>)
    requires forall i :: 0 <= i < |ticks| ==> ticks[i].Tick?
    ensures Arrivals(es + ticks) == Arrivals(es)
  {
    var all := es + ticks;
    if |ticks| == 0 {
      assert all == es;
    } else {
      TicksBringNothing(es, ticks[..|ticks| - 1]);
      assert all[..|all| - 1] == es + ticks[..|ticks| - 1];
    }
  }

  /** When a punctual timer, started at `from`, fires for the n-th time. */
  function Due(from: int, n: nat): int { from + n * LIST_PING_TIME }

  function PunctualTicks<R>(from: int, n: nat): (r: seq<Event<R>>)
    ensures |r| == n
  {
    if n == 0 then [] else PunctualTicks(from, n - 1) + [Event<R>.Tick(Due(from, n))]
  }

  /** A used-up window that opened at `at`, as long as requests wait. */
  predicate Full<R>(s: Limiter<R>, at: int) {
    |s.queue| > 0 ==> s.lasttime == at && s.count >= WINDOW_LIMIT
  }

  /** No fewer will do: because the window test is strict, a punctual timer
      finds a used-up window still open at every other tick, so n waiting
      requests take exactly two ticks for every three. */
  lemma {:induction false} PunctualTicksTakeTwoForThree<R>(s: Limiter<R>, pairs: nat)
    requires s.count >= WINDOW_LIMIT
    ensures var t := Run(s, PunctualTicks(s.lasttime, 2 * pairs));
            && |t.queue| == Less(|s.queue|, 3 * pairs)
            && Full(t, Due(s.lasttime, 2 * pairs))
            && Run(s, PunctualTicks(s.lasttime, 2 * pairs + 1)).queue == t.queue
  {
    var from := s.lasttime;
    if pairs > 0 {
      PunctualTicksTakeTwoForThree(s, pairs - 1);
      TwoMorePunctualTicks(s, from, 2 * (pairs - 1));
    }
    OneMorePunctualTick(s, from, 2 * pairs);
  }

  lemma OneMorePunctualTick<R>(s: Limiter<R>, from: int, n: nat)
    requires Full(Run(s, PunctualTicks(from, n)), Due(from, n))
    ensures Run(s, PunctualTicks(from, n + 1)).queue == Run(s, PunctualTicks(from, n)).queue
  {
    OnePunctualTick(s, from, n);
    EvenTickSendsNothing(Run(s, PunctualTicks(from, n)), Due(from, n));
  }

  lemma TwoMorePunctualTicks<R>(s: Limiter<R>, from: int, n: nat)
    requires Full(Run(s, PunctualTicks(from, n)), Due(from, n))
    ensures var p, t := Run(s, PunctualTicks(from, n)), Run(s, PunctualTicks(from, n + 2));
            |t.queue| == Less(|p.queue|, 3) && Full(t, Due(from, n + 2))
  {
    OnePunctualTick(s, from, n);
    OnePunctualTick(s, from, n + 1);
    TwoPunctualTicks(Run(s, PunctualTicks(from, n)), Due(from, n));
  }

  lemma OnePunctualTick<R>(s: Limiter<R>, from: int, n: nat)
    ensures Run(s, PunctualTicks(from, n + 1))
            == Step(Run(s, PunctualTicks(from, n)), Event<R>.Tick(Due(from, n) + LIST_PING_TIME))
    ensures Due(from, n + 1) == Due(from, n) + LIST_PING_TIME
  {
    var ticks := PunctualTicks<R>(from, n + 1);
    assert ticks[..|ticks| - 1] == PunctualTicks<R>(from, n);
  }

  lemma EvenTickSendsNothing<R>(p: Limiter<R>, at: int)
    requires Full(p, at)
    ensures Step(p, Event<R>.Tick(at + LIST_PING_TIME)).queue == p.queue
    ensures Full(Step(p, Event<R>.Tick(at + LIST_PING_TIME)), at)
  {
  }

  lemma TwoPunctualTicks<R>(p: Limiter<R>, at: int)
    requires Full(p, at)
    ensures var t := Step(Step(p, Event<R>.Tick(at + LIST_PING_TIME)), Event<R>.Tick(at + 2 * LIST_PING_TIME));
            |t.queue| == Less(|p.queue|, WINDOW_LIMIT) && Full(t, at + 2 * LIST_PING_TIME)
  {
    EvenTickSendsNothing(p, at);
    var q := Step(p, Event<R>.Tick(at + LIST_PING_TIME));
    DrainCounts(q, at + 2 * LIST_PING_TIME);
    DrainLeavesFull(q, at + 2 * LIST_PING_TIME);
  }

  /** Requests that still wait after a tick find the window used up. */
  lemma {:induction false} DrainLeavesFull<R>(s: Limiter<R>, now: int)
    ensures |Drain(s, now).queue| > 0 ==> Drain(s, now).count > WINDOW_LIMIT
    ensures |s.queue| > 0 && s.WindowOver(now) ==> Drain(s, now).lasttime == now
    decreases |s.queue|
  {
    if |s.queue| > 0 && s.Charge(now).count <= WINDOW_LIMIT {
      var c := s.Charge(now);
      DrainLeavesFull(c.(sent := c.sent + [Sent(c.queue[0], now, c.lasttime)], queue := c.queue[1..]), now);
      DrainCounts(c.(sent := c.sent + [Sent(c.queue[0], now, c.lasttime)], queue := c.queue[1..]), now);
    }
  }

  /** A new limiter asked four times at once: the first due tick sends nothing,
      the second the request that waits. */
  lemma FirstDueTickSendsNothing<R>(req: R)
    ensures var four := [Arrive(req, 0), Arrive(req, 0), Arrive(req, 0), Arrive(req, 0)];
            var s := Run(Initial(0, 0), four);
            && s.queue == [req] && |s.sent| == 3 && s.lasttime == 0 && s.due == Some(1000)
            && Step(s, Event<R>.Tick(1000)) == s.(count := 5, due := Some(2000))
            && Step(Step(s, Event<R>.Tick(1000)), Event<R>.Tick(2000)).queue == []
  {
    var es := [Arrive(req, 0), Arrive(req, 0), Arrive(req, 0), Arrive(req, 0)];
    var s0 := Initial<R>(0, 0);
    RunOneMore(s0, es, 0);
    RunOneMore(s0, es, 1);
    RunOneMore(s0, es, 2);
    var s := Run(s0, es);
    assert s == Write(Run(s0, es[..3]), req, 0);
    DrainCounts(Step(s, Event<R>.Tick(1000)), 2000);
  }

  // --------------------------------------- exactly when a waiting request is sent

  lemma {:induction false} DrainMoves<R>(s: Limiter<R>, now: int)
    ensures s.sent <= Drain(s, now).sent
    ensures |Drain(s, now).sent| + |Drain(s, now).queue| == |s.sent| + |s.queue|
    decreases |s.queue|
  {
    if |s.queue| > 0 && s.Charge(now).count <= WINDOW_LIMIT {
      var c := s.Charge(now);
      DrainMoves(c.(sent := c.sent + [Sent(c.queue[0], now, c.lasttime)], queue := c.queue[1..]), now);
    }
  }

  lemma {:induction false} TicksMove<R>(s: Limiter<R>, ticks: seq<Event<R>>)
    requires forall i :: 0 <= i < |ticks| ==> ticks[i].Tick?
    ensures |Run(s, ticks).sent| >= |s.sent|
    ensures |Run(s, ticks).sent| + |Run(s, ticks).queue| == |s.sent| + |s.queue|
  {
    if |ticks| == 0 {
    } else {
      TicksMove(s, ticks[..|ticks| - 1]);
      DrainMoves(Run(s, ticks[..|ticks| - 1]), ticks[|ticks| - 1].at);
    }
  }

  /** The firings of the timer before the next request that send nothing: none,
      or a single one exactly a second after a window opened that is used up. */
  predicate Blocked<R>(t: Limiter<R>, ticks: seq<Event<R>>) {
    |ticks| == 0 || (|ticks| == 1 && ticks[0].at == t.lasttime + WINDOW_MS && t.count >= WINDOW_LIMIT)
  }

  lemma TicksSendIff<R>(t: Limiter<R>, ticks: seq<Event<R>>)
    requires |t.queue| > 0 && Waits(t) && Fired(t, ticks)
    ensures |Run(t, ticks).sent| == |t.sent| <==> Blocked(t, ticks)
  {
    TicksMove(t, ticks);
    if |ticks| == 1 {
      assert ticks[..0] == [];
      assert Run(t, ticks[..0]) == t;
      DrainCounts(t, ticks[0].at);
    } else if |ticks| >= 2 {
      TicksDrainThreePerPair(t, ticks);
    }
  }

  /** After any run that ends with an arrival and leaves requests waiting, and
      however late the timer fires: one of them is sent before the next arrival
      if and only if the timer fires twice by then, or once more than a second
      after the window opened, or once with the window not used up. */
  lemma WaitingIsSentIff<R>(s: Limiter<R>, es: seq<Event<R>>, ticks: seq<Event<R>>)
    requires |es| > 0 && es[|es| - 1].Arrive? && |Run(s, es).queue| > 0 && Fired(Run(s, es), ticks)
    ensures var t := Run(s, es);
            |Run(s, es + ticks).sent| > |t.sent|
            <==> |ticks| >= 2 || (|ticks| == 1 && (ticks[0].at > t.lasttime + WINDOW_MS || t.count < WINDOW_LIMIT))
  {
    var t := Run(s, es);
    RunAppend(s, es, ticks);
    TicksSendIff(t, ticks);
    TicksMove(t, ticks);
    if |ticks| == 1 {
      assert Run(t, ticks[..0]) == t;
      assert DueBy(t, ticks[0].at);
    }
  }

  lemma {:induction false} PunctualTicksFire<R>(t: Limiter<R>, from: int, n: nat)
    requires t.due == Some(from + LIST_PING_TIME)
    ensures Fired(t, PunctualTicks(from, n))
    ensures Run(t, PunctualTicks(from, n)).due == Some(Due(from, n) + LIST_PING_TIME)
  {
    if n == 0 {
      NoTickFires(t, from);
    } else {
      var m: nat := n - 1;
      PunctualTicksFire(t, from, m);
      NextTickFires(t, from, m);
    }
  }

  lemma NoTickFires<R>(t: Limiter<R>, from: int)
    ensures Fired(t, PunctualTicks(from, 0)) && Run(t, PunctualTicks(from, 0)) == t && Due(from, 0) == from
  {
  }

  lemma NextTickFires<R>(t: Limiter<R>, from: int, n: nat)
    requires Fired(t, PunctualTicks(from, n))
    requires Run(t, PunctualTicks(from, n)).due == Some(Due(from, n) + LIST_PING_TIME)
    ensures Fired(t, PunctualTicks(from, n + 1))
    ensures Run(t, PunctualTicks(from, n + 1)).due == Some(Due(from, n + 1) + LIST_PING_TIME)
  {
    OnePunctualTick(t, from, n);
    FiredPush(t, PunctualTicks(from, n), Event<R>.Tick(Due(from, n + 1)));
  }

  lemma FiredPush<R>(t: Limiter<R>, ticks: seq<Event<R>>, tick: Event<R>)
    requires Fired(t, ticks) && tick.Tick? && DueBy(Run(t, ticks), tick.at)
    ensures Fired(t, ticks + [tick])
  {
    var all := ticks + [tick];
    forall i | 0 <= i < |all| ensures all[i].Tick? && DueBy(Run(t, all[..i]), all[i].at) {
      if i < |ticks| {
        assert all[..i] == ticks[..i] && all[i] == ticks[i];
      } else {
        assert all[..i] == ticks;
      }
    }
  }

  /** The firings of a punctual timer between an arrival and the next one. */
  function FiringsBetween(at: int, next: int): nat {
    if next < at then 0 else (next - at) / LIST_PING_TIME
  }

  /** With a punctual timer: a request that waits after the arrival at `at` is
      sent by the time of the next arrival if and only if that is two seconds
      later, or one second later and the window opened before `at` or is not
      used up. */
  lemma PunctuallySentIff<R>(s: Limiter<R>, es: seq<Event<R>>, next: int)
    requires |es| > 0 && es[|es| - 1].Arrive? && |Run(s, es).queue| > 0
    ensures var (t, at) := (Run(s, es), es[|es| - 1].at);
            |Run(s, es + PunctualTicks(at, FiringsBetween(at, next))).sent| > |t.sent|
            <==> next - at >= 2000 || (next - at >= 1000 && (t.lasttime < at || t.count < WINDOW_LIMIT))
  {
    var t, at := Run(s, es), es[|es| - 1].at;
    var n := FiringsBetween(at, next);
    PunctualTicksFire(t, at, n);
    WaitingIsSentIff(s, es, PunctualTicks(at, n));
    if n == 1 {
      OnlyPunctualTick<R>(at);
    }
  }

  lemma OnlyPunctualTick<R>(at: int)
    ensures PunctualTicks<R>(at, 1) == [Event<R>.Tick(at + LIST_PING_TIME)]
  {
    assert PunctualTicks<R>(at, 0) == [];
  }

  /** An arrival and the firings of the timer until the next one. */
  datatype Round<R> = Round(req: R, at: int, ticks: seq<Event<R>>)

  function Events<R>(rounds: seq<Round<R>>): seq<Event<R>> {
    if |rounds| == 0 then []
    else
      var last := rounds[|rounds| - 1];
      Events(rounds[..|rounds| - 1]) + ([Arrive(last.req, last.at)] + last.ticks)
  }

  /** The state right after the arrival of the last round. */
  function Asked<R>(s: Limiter<R>, rounds: seq<Round<R>>): Limiter<R>
    requires |rounds| > 0
  {
    var last := rounds[|rounds| - 1];
    Write(Run(s, Events(rounds[..|rounds| - 1])), last.req, last.at)
  }

  /** In every round the ticks come when the timer is due. */
  ghost predicate Served<R>(s: Limiter<R>, rounds: seq<Round<R>>) {
    |rounds| == 0
    || (Served(s, rounds[..|rounds| - 1]) && Fired(Asked(s, rounds), rounds[|rounds| - 1].ticks))
  }

  /** In every round they send nothing. */
  predicate AllBlocked<R>(s: Limiter<R>, rounds: seq<Round<R>>) {
    |rounds| == 0
    || (AllBlocked(s, rounds[..|rounds| - 1]) && Blocked(Asked(s, rounds), rounds[|rounds| - 1].ticks))
  }

  lemma LastRound<R>(s: Limiter<R>, rounds: seq<Round<R>>)
    requires |rounds| > 0
    ensures Run(s, Events(rounds)) == Run(Asked(s, rounds), rounds[|rounds| - 1].ticks)
  {
    var front, last := rounds[..|rounds| - 1], rounds[|rounds| - 1];
    var ask := [Arrive(last.req, last.at)];
    RunAppend(s, Events(front), ask + last.ticks);
    RunAppend(Run(s, Events(front)), ask, last.ticks);
    assert ask[..0] == [];
    assert Run(Run(s, Events(front)), ask) == Step(Run(s, Events(front)), ask[0]);
  }

  /** While requests wait, a round that sends nothing leaves more of them. */
  lemma RoundSendsIff<R>(s: Limiter<R>, req: R, at: int, ticks: seq<Event<R>>)
    requires Fired(Write(s, req, at), ticks)
    ensures var (t, u) := (Write(s, req, at), Run(Write(s, req, at), ticks));
            && |u.sent| >= |s.sent| && |u.sent| + |u.queue| == |s.sent| + |s.queue| + 1
            && (|s.queue| > 0 ==> (|u.sent| == |s.sent| <==> Blocked(t, ticks)))
  {
    var t := Write(s, req, at);
    TicksMove(t, ticks);
    if |s.queue| > 0 {
      TicksSendIff(t, ticks);
    }
  }

  /** Exactly when waiting requests starve, over runs of any length and however
      late the timer fires: nothing more is sent if and only if every round is
      blocked. */
  lemma {:induction false} StarvesIff<R>(s: Limiter<R>, rounds: seq<Round<R>>)
    requires |s.queue| > 0 && Served(s, rounds)
    ensures var u := Run(s, Events(rounds));
            && |u.sent| >= |s.sent| && |u.sent| + |u.queue| == |s.sent| + |s.queue| + |rounds|
            && (|u.sent| == |s.sent| <==> AllBlocked(s, rounds))
  {
    if |rounds| == 0 {
      assert Run(s, Events(rounds)) == s;
    } else {
      var front, n := rounds[..|rounds| - 1], |rounds| - 1;
      StarvesIff(s, front);
      LastRound(s, rounds);
      RoundSendsIff(Run(s, Events(front)), rounds[n].req, rounds[n].at, rounds[n].ticks);
    }
  }

  /** Three requests at once, then the timer when it is due. */
  function Burst<R>(req: R, at: int): seq<Event<R>> {
    [Arrive(req, at), Arrive(req, at), Arrive(req, at)] + [Event<R>.Tick(at + LIST_PING_TIME)]
  }

  lemma OneBurstStarves<R>(t: Limiter<R>, req: R, at: int)
    requires |t.queue| > 0 && at > t.lasttime + WINDOW_MS
    ensures var (asked, u) := (Run(t, Burst(req, at)[..3]), Run(t, Burst(req, at)));
            && asked.due == Some(at + LIST_PING_TIME)
            && u.sent == t.sent && |u.queue| == |t.queue| + 3 && u.lasttime == at
            && u.due == Some(at + 2 * LIST_PING_TIME)
  {
    RunBurst(t, req, at);
    ThreeAtOnceQueue(t, req, at);
    var third := Write(Write(Write(t, req, at), req, at), req, at);
    assert Step(third, Event<R>.Tick(at + LIST_PING_TIME)) == third.(count := 4, due := Some(at + 2 * LIST_PING_TIME));
  }

  lemma ThreeAtOnceQueue<R>(t: Limiter<R>, req: R, at: int)
    requires |t.queue| > 0 && at > t.lasttime + WINDOW_MS
    ensures Write(Write(Write(t, req, at), req, at), req, at)
            == Limiter(at, 3, t.queue + [req] + [req] + [req], Some(at + LIST_PING_TIME), t.sent)
  {
  }

  lemma RunBurst<R>(t: Limiter<R>, req: R, at: int)
    ensures Run(t, Burst(req, at)[..3]) == Write(Write(Write(t, req, at), req, at), req, at)
    ensures Run(t, Burst(req, at)) == Step(Run(t, Burst(req, at)[..3]), Event<R>.Tick(at + LIST_PING_TIME))
  {
    var es := Burst(req, at);
    RunOneMore(t, es, 0);
    RunOneMore(t, es, 1);
    RunOneMore(t, es, 2);
    assert es[..0] == [] && es[..|es| - 1] == es[..3];
  }

  /** Four requests at time 0 and the timer when it is due, then a burst every
      1001 ms. */
  function Bursts<R>(req: R, n: nat): seq<Event<R>> {
    if n == 0 then
      [Arrive(req, 0), Arrive(req, 0), Arrive(req, 0), Arrive(req, 0)] + [Event<R>.Tick(1000)]
    else
      Bursts(req, n - 1) + Burst(req, 1001 * n)
  }

  /** From a new limiter, with the timer firing between every two bursts: three
      requests are sent in the first second and none after it. Each burst comes
      before the timer's second firing and finds the window over, so that it
      opens and uses up the next one. */
  lemma {:induction false} BurstsStarve<R>(req: R, n: nat)
    ensures var u := Run(Initial<R>(0, 0), Bursts(req, n));
            && |u.sent| == 3 && |u.queue| == 3 * n + 1 && u.lasttime == 1001 * n
            && u.due == Some(1001 * n + 2000)
  {
    var s := Initial<R>(0, 0);
    if n == 0 {
      FirstDueTickSendsNothing(req);
      var es := Bursts(req, 0);
      assert es[..|es| - 1] == [Arrive(req, 0), Arrive(req, 0), Arrive(req, 0), Arrive(req, 0)];
    } else {
      BurstsStarve(req, n - 1);
      RunAppend(s, Bursts(req, n - 1), Burst(req, 1001 * n));
      OneBurstStarves(Run(s, Bursts(req, n - 1)), req, 1001 * n);
    }
  }

  // ------------------------------------------------- what is sent at its arrival

  /** After any run, a request goes out at its own arrival if and only if nothing
      waits and the window is over or not used up; otherwise it waits, last. */
  lemma SentAtOnceIff<R>(s: Limiter<R>, es: seq<Event<R>>, req: R, at: int)
    ensures var (p, t) := (Run(s, es), Run(s, es + [Arrive(req, at)]));
            if |p.queue| == 0 && (p.lasttime > at || at - p.lasttime > 1000 || p.count < 3) then
              t.queue == [] && |t.sent| == |p.sent| + 1 && t.sent[..|p.sent|] == p.sent
              && t.sent[|p.sent|].req == req && t.sent[|p.sent|].at == at
            else t.sent == p.sent && t.queue == p.queue + [req] && t.due == Some(at + 1000)
  {
    RunOneMore(s, es + [Arrive(req, at)], |es|);
    assert (es + [Arrive(req, at)])[..|es|] == es;
    assert (es + [Arrive(req, at)])[..|es| + 1] == es + [Arrive(req, at)];
  }

  /** What a tick sends goes out at the time of the tick. */
  lemma {:induction false} TickSendsNow<R>(s: Limiter<R>, now: int, i: nat)
    requires |s.sent| <= i < |Drain(s, now).sent|
    ensures Drain(s, now).sent[i].at == now
    decreases |s.queue|
  {
    if |s.queue| > 0 && s.Charge(now).count <= WINDOW_LIMIT {
      var c := s.Charge(now);
      var d := c.(sent := c.sent + [Sent(c.queue[0], now, c.lasttime)], queue := c.queue[1..]);
      if i == |s.sent| {
        DrainMoves(d, now);
      } else {
        TickSendsNow(d, now, i);
      }
    }
  }

  /** Requests in order of time, any four in a row over more than a second. */
  ghost predicate Sparse<R>(es: seq<Event<R>>) {
    && (forall i :: 0 <= i < |es| ==> es[i].Arrive?)
    && (forall i :: 0 <= i < |es| - 1 ==> es[i].at <= es[i + 1].at)
    && (forall i :: 0 <= i < |es| - 3 ==> es[i + 3].at - es[i].at > 1000)
  }

  /** Each was sent when it came, after what was sent before. */
  ghost predicate AtOnce<R>(before: seq<Sent<R>>, es: seq<Event<R>>, sent: seq<Sent<R>>) {
    if |es| == 0 then sent == before
    else
      && es[|es| - 1].Arrive? && |sent| > 0
      && sent[|sent| - 1].req == es[|es| - 1].req && sent[|sent| - 1].at == es[|es| - 1].at
      && AtOnce(before, es[..|es| - 1], sent[..|sent| - 1])
  }

  /** The window was opened by the first of the last `count` requests. */
  ghost predicate OpenedBy<R>(t: Limiter<R>, es: seq<Event<R>>) {
    |t.queue| == 0 && 1 <= t.count <= 3 && t.count <= |es| && t.lasttime == es[|es| - t.count].at
  }

  predicate Over<R>(s: Limiter<R>, at: int) { s.lasttime > at || at - s.lasttime > 1000 }

  /** Sparse requests never wait: from a limiter whose window is over at the
      first of them, every one is sent at its own arrival. */
  lemma {:induction false} SparseRequestsGoAtOnce<R>(s: Limiter<R>, es: seq<Event<R>>)
    requires Sparse(es) && |s.queue| == 0 && (|es| > 0 ==> Over(s, es[0].at))
    ensures Run(s, es).queue == [] && AtOnce(s.sent, es, Run(s, es).sent)
    ensures |es| > 0 ==> OpenedBy(Run(s, es), es)
  {
    if |es| == 0 {
    } else {
      SparseRequestsGoAtOnce(s, es[..|es| - 1]);
      NextSparse(Run(s, es[..|es| - 1]), es);
    }
  }

  lemma NextSparse<R>(p: Limiter<R>, es: seq<Event<R>>)
    requires Sparse(es) && |es| > 0 && |p.queue| == 0
    requires if |es| == 1 then Over(p, es[0].at) else OpenedBy(p, es[..|es| - 1])
    ensures var (e, q) := (es[|es| - 1], Step(p, es[|es| - 1]));
            OpenedBy(q, es) && q.sent == p.sent + [Sent(e.req, e.at, q.lasttime)]
  {
    var n := |es| - 1;
    if n > 0 {
      InOrder(es, n - p.count, n);
      assert p.lasttime == es[n - p.count].at <= es[n].at;
    }
  }

  lemma {:induction false} InOrder<R>(es: seq<Event<R>>, i: nat, j: nat)
    requires Sparse(es) && i <= j < |es|
    ensures es[i].at <= es[j].at
    decreases j
  {
    if i == j {
    } else {
      InOrder(es, i, j - 1);
    }
  }

  /** A clock that was set back opens a new window. */
  lemma EarlierTimeIsSentAtOnce<R>(s: Limiter<R>, req: R, at: int)
    requires |s.queue| == 0 && at < s.lasttime
    ensures var t := Step(s, Arrive(req, at));
            t.queue == [] && t.sent == s.sent + [Sent(req, at, at)] && t.lasttime == at && t.count == 1
  {
  }

  // ------------------------------------------------------------- the manager

  class ProxyManager<R> {
    var lasttime: int
    var count: nat
    var reqlist: seq<R>
    var listTimer: Option<int>
    ghost var sent: seq<Sent<R>>

    ghost function State(): Limiter<R>
      reads this
    {
      Limiter(lasttime, count, reqlist, listTimer, sent)
    }

    /** The constructor leaves the window fields uninitialised. */
    constructor (garbageTime: int, garbageCount: nat)
      ensures State() == Initial(garbageTime, garbageCount)
    {
      lasttime, count, reqlist, listTimer := garbageTime, garbageCount, [], None;
      sent := [];
    }

    method WriteRequest(req: R, now: int)
      modifies this
      ensures State() == Write(old(State()), req, now)
    {
      if lasttime > now || now - lasttime > WINDOW_MS {
        lasttime := now;
        count := 1;
      } else {
        count := count + 1;
      }
      if count > WINDOW_LIMIT || |reqlist| > 0 {
        listTimer := Some(now + LIST_PING_TIME);
        reqlist := reqlist + [req];
      } else {
        sent := sent + [Sent(req, now, lasttime)];
      }
    }

    method OnListTimeout(now: int)
      modifies this
      ensures State() == Step(old(State()), Event<R>.Tick(now))
    {
      while |reqlist| > 0
        invariant Drain(State(), now) == Drain(old(State()), now)
        decreases |reqlist|
      {
        if lasttime > now || now - lasttime > WINDOW_MS {
          lasttime := now;
          count := 1;
        } else {
          count := count + 1;
        }
        if count > WINDOW_LIMIT {
          // The list stays as it is; the drained state is the current one.
          listTimer := Some(now + LIST_PING_TIME);
          return;
        }
        sent := sent + [Sent(reqlist[0], now, lasttime)];
        reqlist := reqlist[1..];
      }
      listTimer := Some(now + LIST_PING_TIME);
    }
  }
}
