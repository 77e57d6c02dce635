/** The list of pending pings, `PingServerManager` in `xproto/WinPingMgr.cpp`. */
module PingTasks {
  import opened Common

  type Callback = nat

  datatype Task = Task(id: int, host: string, timeout: int, pingfrm: int, ping: int, seqno: int,
                       callback: Option<Callback>)
  {
    predicate Expired(now: int) {
      timeout > 0 && now - pingfrm >= timeout
    }
  }

  /** How, and when, a ping request ended: `Failed` could not be sent and was
      never listed, the others left the list. */
  datatype Outcome =
    | Failed(task: Task)
    | Answered(task: Task, at: int)
    | TimedOut(task: Task, at: int)
    | Ended(task: Task)

  /** `sock` tells whether the raw socket (and its window and timer) exists,
      `nseq` is the last sequence number given out. */
  datatype Pings = Pings(tasks: seq<Task>, sock: bool, nseq: int, log: seq<Outcome>)

  /** What the system answers to `BeginPing`: the socket can be opened, the
      name resolves, the echo request can be sent. */
  datatype System = System(opens: bool, resolves: bool, sends: bool)

  datatype Event =
    | Begin(host: string, callback: Option<Callback>, timeout: int, id: int, now: int, system: System)
    | End(callback: Option<Callback>, id: int)
    | Timer(now: int)
    | Reply(seqno: int, now: int)

  // ------------------------------------------------------------ specification

  function BeginPing(s: Pings, e: Event): (Pings, bool)
    requires e.Begin?
  {
    var open := s.sock || e.system.opens;
    if |e.host| < 3 then (s, false)
    else if !open then (s, false)
    else if !e.system.resolves then (s.(sock := true), false)
    else
      var task := Task(e.id, e.host, e.timeout, e.now, -1, s.nseq + 1, e.callback);
      var t := s.(sock := true, nseq := s.nseq + 1);
      if |e.host| > 120 then (t, false)
      else if !e.system.sends then (t.(log := t.log + [Failed(task)]), false)
      else (t.(tasks := t.tasks + [task]), true)
  }

  predicate Matches(t: Task, callback: Option<Callback>, id: int) {
    t.callback == callback && (t.id == id || id == -1)
  }

  function Unmatched(tasks: seq<Task>, callback: Option<Callback>, id: int): seq<Task> {
    if |tasks| == 0 then []
    else if Matches(tasks[0], callback, id) then Unmatched(tasks[1..], callback, id)
    else [tasks[0]] + Unmatched(tasks[1..], callback, id)
  }

  function EndedBy(tasks: seq<Task>, callback: Option<Callback>, id: int): seq<Outcome> {
    if |tasks| == 0 then []
    else if Matches(tasks[0], callback, id) then [Ended(tasks[0])] + EndedBy(tasks[1..], callback, id)
    else EndedBy(tasks[1..], callback, id)
  }

  function EndPing(s: Pings, callback: Option<Callback>, id: int): (Pings, bool) {
    if !s.sock then (s, false)
    else
      var left := Unmatched(s.tasks, callback, id);
      (s.(tasks := left, sock := |left| > 0, log := s.log + EndedBy(s.tasks, callback, id)), true)
  }

  /** The first-registered task that has expired, or the length of the list. */
  function FirstExpired(tasks: seq<Task>, now: int): (k: nat)
    ensures k <= |tasks|
    ensures k < |tasks| ==> tasks[k].Expired(now)
    ensures forall i :: 0 <= i < k ==> !tasks[i].Expired(now)
  {
    if |tasks| == 0 || tasks[0].Expired(now) then 0 else 1 + FirstExpired(tasks[1..], now)
  }

  function FirstWithSeq(tasks: seq<Task>, seqno: int): (k: nat)
    ensures k <= |tasks|
    ensures k < |tasks| ==> tasks[k].seqno == seqno
    ensures forall i :: 0 <= i < k ==> tasks[i].seqno != seqno
  {
    if |tasks| == 0 || tasks[0].seqno == seqno then 0 else 1 + FirstWithSeq(tasks[1..], seqno)
  }

  function OnTimer(s: Pings, now: int): Pings {
    if |s.tasks| == 0 then s.(sock := false)
    else
      var k := FirstExpired(s.tasks, now);
      if k < |s.tasks| then
        s.(tasks := Without(s.tasks, k), log := s.log + [TimedOut(s.tasks[k].(ping := -1), now)])
      else s
  }

  function OnReply(s: Pings, seqno: int, now: int): Pings {
    if seqno < 0 then s
    else
      var k := FirstWithSeq(s.tasks, seqno);
      if k < |s.tasks| then
        s.(tasks := Without(s.tasks, k), log := s.log + [Answered(s.tasks[k].(ping := now - s.tasks[k].pingfrm), now)])
      else s
  }

  function Step(s: Pings, e: Event): Pings {
    match e
    case Begin(_, _, _, _, _, _) => BeginPing(s, e).0
    case End(callback, id) => EndPing(s, callback, id).0
    case Timer(now) => OnTimer(s, now)
    case Reply(seqno, now) => OnReply(s, seqno, now)
  }

  function Run(s: Pings, es: seq<Event>): Pings {
    if |es| == 0 then s else Step(Run(s, es[..|es| - 1]), es[|es| - 1])
  }

  const INITIAL: Pings := Pings([], false, 0, [])

  // ------------------------------------------------- each task leaves once

  function Unit(b: bool): nat { if b then 1 else 0 }

  /** How many listed tasks, retired tasks and called-back tasks carry the
      sequence number `q`. */
  function Listed(tasks: seq<Task>, q: int): nat {
    if |tasks| == 0 then 0 else Unit(tasks[0].seqno == q) + Listed(tasks[1..], q)
  }

  function Retired(log: seq<Outcome>, q: int): nat {
    if |log| == 0 then 0 else Unit(log[0].task.seqno == q) + Retired(log[1..], q)
  }

  /** `e` builds a task: it is listed, or reported as unsendable. */
  predicate BuildsTask(s: Pings, e: Event) {
    e.Begin? && 3 <= |e.host| <= 120 && (s.sock || e.system.opens) && e.system.resolves
  }

  /** How many tasks with the sequence number `q` the run has built. */
  function Built(es: seq<Event>, q: int): nat {
    if |es| == 0 then 0
    else
      var t, e := Run(INITIAL, es[..|es| - 1]), es[|es| - 1];
      Built(es[..|es| - 1], q) + Unit(BuildsTask(t, e) && q == t.nseq + 1)
  }

  function Accounted(s: Pings, q: int): nat { Listed(s.tasks, q) + Retired(s.log, q) }

  lemma {:induction false} ListedAppend(a: seq<Task>, b: seq<Task>, q: int)
    ensures Listed(a + b, q) == Listed(a, q) + Listed(b, q)
  {
    if |a| == 0 {
      assert a + b == b;
    } else {
      assert (a + b)[1..] == a[1..] + b;
      ListedAppend(a[1..], b, q);
    }
  }

  lemma {:induction false} RetiredAppend(a: seq<Outcome>, b: seq<Outcome>, q: int)
    ensures Retired(a + b, q) == Retired(a, q) + Retired(b, q)
  {
    if |a| == 0 {
      assert a + b == b;
    } else {
      assert (a + b)[1..] == a[1..] + b;
      RetiredAppend(a[1..], b, q);
    }
  }

  lemma ListedWithout(tasks: seq<Task>, k: nat, q: int)
    requires k < |tasks|
    ensures Listed(tasks, q) == Listed(Without(tasks, k), q) + Unit(tasks[k].seqno == q)
  {
    ListedAppend(tasks[..k], tasks[k..], q);
    ListedAppend(tasks[..k], tasks[k + 1..], q);
    assert tasks == tasks[..k] + tasks[k..];
  }

  lemma {:induction false} EndingSplits(tasks: seq<Task>, callback: Option<Callback>, id: int, q: int)
    ensures Listed(Unmatched(tasks, callback, id), q) + Retired(EndedBy(tasks, callback, id), q) == Listed(tasks, q)
  {
    if |tasks| == 0 {
    } else {
      EndingSplits(tasks[1..], callback, id, q);
    }
  }

  lemma RetireAccounts(s: Pings, k: nat, o: Outcome, q: int)
    requires k < |s.tasks| && o.task.seqno == s.tasks[k].seqno
    ensures Accounted(s.(tasks := Without(s.tasks, k), log := s.log + [o]), q) == Accounted(s, q)
  {
    ListedWithout(s.tasks, k, q);
    RetiredAppend(s.log, [o], q);
  }

  lemma StepAccounts(s: Pings, e: Event, q: int)
    ensures Accounted(Step(s, e), q) == Accounted(s, q) + Unit(BuildsTask(s, e) && q == s.nseq + 1)
    ensures Step(s, e).nseq >= s.nseq
    ensures BuildsTask(s, e) ==> Step(s, e).nseq == s.nseq + 1
  {
    match e
    case Begin(host, callback, timeout, id, now, _) =>
      var task := Task(id, host, timeout, now, -1, s.nseq + 1, callback);
      ListedAppend(s.tasks, [task], q);
      RetiredAppend(s.log, [Failed(task)], q);
    case End(callback, id) =>
      EndingSplits(s.tasks, callback, id, q);
      RetiredAppend(s.log, EndedBy(s.tasks, callback, id), q);
    case Timer(now) =>
      var k := FirstExpired(s.tasks, now);
      if k < |s.tasks| {
        RetireAccounts(s, k, TimedOut(s.tasks[k].(ping := -1), now), q);
      }
    case Reply(seqno, now) =>
      var k := FirstWithSeq(s.tasks, seqno);
      if seqno >= 0 && k < |s.tasks| {
        RetireAccounts(s, k, Answered(s.tasks[k].(ping := now - s.tasks[k].pingfrm), now), q);
      }
  }

  lemma {:induction false} RunAccounts(es: seq<Event>, q: int)
    ensures Accounted(Run(INITIAL, es), q) == Built(es, q) <= 1
    ensures Built(es, q) == 1 ==> q <= Run(INITIAL, es).nseq
  {
    if |es| == 0 {
    } else {
      RunAccounts(es[..|es| - 1], q);
      StepAccounts(Run(INITIAL, es[..|es| - 1]), es[|es| - 1], q);
    }
  }

  /** Over every run, a ping that was started is in exactly one place: still
      listed, or retired by exactly one outcome. */
  lemma EveryPingLeavesOnce(es: seq<Event>, q: int)
    requires Built(es, q) > 0
    ensures Listed(Run(INITIAL, es).tasks, q) + Retired(Run(INITIAL, es).log, q) == 1
  {
    RunAccounts(es, q);
  }

  // ---------------------------------------------------------- callbacks

  /** The tasks handed to their callback, in order: `EndPing` calls nobody. */
  function Calls(log: seq<Outcome>): seq<Task> {
    if |log| == 0 then []
    else if log[0].Ended? || log[0].task.callback.None? then Calls(log[1..])
    else [log[0].task] + Calls(log[1..])
  }

  lemma {:induction false} CallsAreRetired(log: seq<Outcome>, q: int)
    ensures Listed(Calls(log), q) <= Retired(log, q)
  {
    if |log| == 0 {
    } else {
      CallsAreRetired(log[1..], q);
    }
  }

  /** Listed tasks have no result yet; a task retired without an answer is
      reported with ping -1, an answered one with the time since it began; only
      an expired one times out. */
  ghost predicate ResultsSet(s: Pings) {
    && (forall t :: t in s.tasks ==> t.ping == -1)
    && (forall o :: o in s.log ==> o.task.ping == if o.Answered? then o.at - o.task.pingfrm else -1)
    && (forall o :: o in s.log && o.TimedOut? ==> o.task.Expired(o.at))
  }

  lemma {:induction false} EndedKeepsTask(tasks: seq<Task>, callback: Option<Callback>, id: int)
    ensures forall t :: t in Unmatched(tasks, callback, id) ==> t in tasks && !Matches(t, callback, id)
    ensures forall o :: o in EndedBy(tasks, callback, id) ==>
              o.Ended? && o.task in tasks && Matches(o.task, callback, id)
  {
    if |tasks| == 0 {
    } else {
      EndedKeepsTask(tasks[1..], callback, id);
    }
  }

  /** On every run a call back carries -1 without an answer, and otherwise the
      time from the start of the ping to the answer. */
  lemma {:induction false} ResultsAreRight(es: seq<Event>)
    ensures ResultsSet(Run(INITIAL, es))
  {
    if |es| == 0 {
    } else {
      ResultsAreRight(es[..|es| - 1]);
      var s, e := Run(INITIAL, es[..|es| - 1]), es[|es| - 1];
      if e.End? {
        EndedKeepsTask(s.tasks, e.callback, e.id);
      }
    }
  }

  /** No ping is ever called back twice, and none that is still listed has
      been called back. */
  lemma NoSecondCallback(es: seq<Event>, q: int)
    ensures var s := Run(INITIAL, es);
            && Listed(Calls(s.log), q) <= 1
            && (Listed(s.tasks, q) > 0 ==> Listed(Calls(s.log), q) == 0)
  {
    RunAccounts(es, q);
    CallsAreRetired(Run(INITIAL, es).log, q);
  }

  // ----------------------------------------------------- one event at a time

  /** Exactly when a ping starts: the name has 3 to 120 characters and resolves,
      the socket is there or opens, and the request can be sent. It is listed
      last, with the data it was asked for, the time it began and a new number;
      one that cannot be sent is recorded with the same data. */
  lemma BeginStartsIff(s: Pings, e: Event)
    requires e.Begin?
    ensures var (t, ok) := BeginPing(s, e);
            var able := 3 <= |e.host| <= 120 && (s.sock || e.system.opens) && e.system.resolves;
            && (ok <==> able && e.system.sends)
            && (if ok then |t.tasks| == |s.tasks| + 1 && t.tasks[..|s.tasks|] == s.tasks
                           && AsBegun(t.tasks[|s.tasks|], e) && t.tasks[|s.tasks|].seqno == s.nseq + 1
                else t.tasks == s.tasks)
            && (if able && !ok then |t.log| == |s.log| + 1 && t.log[..|s.log|] == s.log
                                    && t.log[|s.log|].Failed? && AsBegun(t.log[|s.log|].task, e)
                else t.log == s.log)
            && t.sock == (s.sock || (|e.host| >= 3 && e.system.opens))
            && t.nseq == s.nseq + (if |e.host| >= 3 && t.sock && e.system.resolves then 1 else 0)
  {
  }

  /** The task has the data of the request, and began then. */
  predicate AsBegun(t: Task, e: Event)
    requires e.Begin?
  {
    t.id == e.id && t.host == e.host && t.timeout == e.timeout && t.pingfrm == e.now && t.callback == e.callback
  }

  ghost predicate Begun(es: seq<Event>, t: Task) {
    exists i :: 0 <= i < |es| && es[i].Begin? && AsBegun(t, es[i])
  }

  lemma BegunLater(es: seq<Event>, e: Event, t: Task)
    requires Begun(es, t)
    ensures Begun(es + [e], t)
  {
    var i :| 0 <= i < |es| && es[i].Begin? && AsBegun(t, es[i]);
    assert (es + [e])[i] == es[i];
  }

  /** On every run each task, listed or retired, is as some request began it. */
  lemma {:induction false} TasksAreAsBegun(es: seq<Event>)
    ensures forall t :: t in Run(INITIAL, es).tasks ==> Begun(es, t)
    ensures forall o :: o in Run(INITIAL, es).log ==> Begun(es, o.task)
  {
    if |es| == 0 {
    } else {
      var front, e := es[..|es| - 1], es[|es| - 1];
      var s := Run(INITIAL, front);
      TasksAreAsBegun(front);
      assert front + [e] == es;
      forall t | Begun(front, t) ensures Begun(es, t) {
        BegunLater(front, e, t);
      }
      StepTakesFrom(s, e);
      if e.Begin? {
        assert es[|es| - 1] == e;
      }
    }
  }

  /** The same request, whatever the result. */
  predicate SameRequest(t: Task, u: Task) { t.(ping := u.ping) == u }

  lemma StepTakesFrom(s: Pings, e: Event)
    ensures forall t :: t in Step(s, e).tasks ==> t in s.tasks || (e.Begin? && AsBegun(t, e))
    ensures forall o :: o in Step(s, e).log ==>
              o in s.log || (e.Begin? && AsBegun(o.task, e)) || exists t :: t in s.tasks && SameRequest(t, o.task)
  {
    match e
    case Begin(_, _, _, _, _, _) => BeginStartsIff(s, e);
    case End(callback, id) => EndedKeepsTask(s.tasks, callback, id);
    case Timer(now) =>
      var k := FirstExpired(s.tasks, now);
      if k < |s.tasks| {
        assert SameRequest(s.tasks[k], s.tasks[k].(ping := -1));
      }
    case Reply(seqno, now) =>
      var k := FirstWithSeq(s.tasks, seqno);
      if k < |s.tasks| {
        assert SameRequest(s.tasks[k], s.tasks[k].(ping := now - s.tasks[k].pingfrm));
      }
  }

  /** Ending takes out exactly the tasks of that callback with that id, or all
      of them for the id -1, and closes the socket when none is left. */
  lemma EndTakesExactly(s: Pings, callback: Option<Callback>, id: int, t: Task)
    ensures var (r, ok) := EndPing(s, callback, id);
            && ok == s.sock
            && (t in r.tasks <==> t in s.tasks && !(s.sock && t.callback == callback && (id == -1 || t.id == id)))
            && r.sock == (s.sock && |r.tasks| > 0)
            && (Ended(t) in r.log <==> Ended(t) in s.log || (t in s.tasks && t !in r.tasks))
  {
    EndingDivides(s.tasks, callback, id, t);
  }

  lemma {:induction false} EndingDivides(tasks: seq<Task>, callback: Option<Callback>, id: int, t: Task)
    ensures t in Unmatched(tasks, callback, id) <==> t in tasks && !Matches(t, callback, id)
    ensures Ended(t) in EndedBy(tasks, callback, id) <==> t in tasks && Matches(t, callback, id)
  {
    if |tasks| == 0 {
    } else {
      EndingDivides(tasks[1..], callback, id, t);
    }
  }

  /** What stays, stays in order. */
  lemma {:induction false} UnmatchedAppend(a: seq<Task>, b: seq<Task>, callback: Option<Callback>, id: int)
    ensures Unmatched(a + b, callback, id) == Unmatched(a, callback, id) + Unmatched(b, callback, id)
  {
    if |a| == 0 {
      assert a + b == b;
    } else {
      assert (a + b)[1..] == a[1..] + b;
      UnmatchedAppend(a[1..], b, callback, id);
    }
  }

  /** A reply retires the task with its number, if one is listed, and calls it
      back with the time that has passed; it touches no other. */
  lemma ReplyAnswersItsTask(s: Pings, seqno: int, now: int, k: nat)
    requires k < |s.tasks| && s.tasks[k].seqno == seqno >= 0
    requires forall i :: 0 <= i < k ==> s.tasks[i].seqno != seqno
    ensures var t := Step(s, Reply(seqno, now));
            && t.tasks == s.tasks[..k] + s.tasks[k + 1..] && t.sock == s.sock
            && t.log == s.log + [Answered(s.tasks[k].(ping := now - s.tasks[k].pingfrm), now)]
  {
  }

  lemma StrayReplyIsIgnored(s: Pings, seqno: int, now: int)
    requires seqno < 0 || forall t :: t in s.tasks ==> t.seqno != seqno
    ensures Step(s, Reply(seqno, now)) == s
  {
  }

  /** A tick of the timer retires the first task whose time is up, if any, and
      closes the socket when nothing is listed. */
  lemma TickTimesOutFirst(s: Pings, now: int, k: nat)
    requires k < |s.tasks| && s.tasks[k].timeout > 0 && now - s.tasks[k].pingfrm >= s.tasks[k].timeout
    requires forall i :: 0 <= i < k ==> s.tasks[i].timeout <= 0 || now - s.tasks[i].pingfrm < s.tasks[i].timeout
    ensures var t := Step(s, Timer(now));
            && t.tasks == s.tasks[..k] + s.tasks[k + 1..] && t.sock == s.sock
            && t.log == s.log + [TimedOut(s.tasks[k].(ping := -1), now)]
  {
  }

  lemma QuietTick(s: Pings, now: int)
    requires forall t :: t in s.tasks ==> t.timeout <= 0 || now - t.pingfrm < t.timeout
    ensures Step(s, Timer(now)) == s.(sock := s.sock && |s.tasks| > 0)
  {
  }

  // ------------------------------------------------------------- draining

  function ExpiredCount(tasks: seq<Task>, now: int): (n: nat)
    ensures n <= |tasks|
  {
    if |tasks| == 0 then 0 else (if tasks[0].Expired(now) then 1 else 0) + ExpiredCount(tasks[1..], now)
  }

  /** The tasks that have not expired at `now`, in order. */
  function Waiting(tasks: seq<Task>, now: int): seq<Task> {
    if |tasks| == 0 then []
    else if tasks[0].Expired(now) then Waiting(tasks[1..], now)
    else [tasks[0]] + Waiting(tasks[1..], now)
  }

  function Ticks(s: Pings, times: seq<int>): Pings
    decreases |times|
  {
    if |times| == 0 then s else Ticks(OnTimer(s, times[0]), times[1..])
  }

  lemma {:induction false} ExpiredStaysExpired(tasks: seq<Task>, now: int, later: int)
    requires now <= later
    ensures ExpiredCount(tasks, now) <= ExpiredCount(tasks, later)
  {
    if |tasks| == 0 {
    } else {
      ExpiredStaysExpired(tasks[1..], now, later);
    }
  }

  lemma {:induction false} WithoutExpired(tasks: seq<Task>, now: int, later: int)
    requires now <= later
    requires FirstExpired(tasks, now) < |tasks|
    ensures var rest := Without(tasks, FirstExpired(tasks, now));
            && ExpiredCount(rest, later) == ExpiredCount(tasks, later) - 1
            && Waiting(rest, later) == Waiting(tasks, later)
  {
    var k := FirstExpired(tasks, now);
    if k == 0 {
      assert Without(tasks, 0) == tasks[1..];
    } else {
      WithoutExpired(tasks[1..], now, later);
      var rest := Without(tasks, k);
      assert rest[1..] == Without(tasks[1..], k - 1);
    }
  }

  lemma {:induction false} NoneExpired(tasks: seq<Task>, now: int)
    ensures (ExpiredCount(tasks, now) == 0) == (FirstExpired(tasks, now) == |tasks|)
    ensures ExpiredCount(tasks, now) == 0 ==> Waiting(tasks, now) == tasks
  {
    if |tasks| == 0 {
    } else {
      NoneExpired(tasks[1..], now);
      assert tasks == [tasks[0]] + tasks[1..];
    }
  }

  ghost predicate NonDecreasing(times: seq<int>) {
    forall i, j :: 0 <= i < j < |times| ==> times[i] <= times[j]
  }

  /** As many timer ticks as tasks are expired by the last tick, provided they
      have all expired by the first one, leave exactly the unexpired tasks, in
      order; each tick retires one task. */
  lemma {:induction false} TicksDrain(s: Pings, times: seq<int>, last: int)
    requires NonDecreasing(times) && (|times| > 0 ==> last == times[|times| - 1])
    requires |times| <= ExpiredCount(s.tasks, if |times| > 0 then times[0] else last)
    ensures |Ticks(s, times).tasks| == |s.tasks| - |times|
    ensures ExpiredCount(Ticks(s, times).tasks, last) == ExpiredCount(s.tasks, last) - |times|
    ensures |times| == ExpiredCount(s.tasks, last) ==> Ticks(s, times).tasks == Waiting(s.tasks, last)
    decreases |times|
  {
    if |times| == 0 {
      NoneExpired(s.tasks, last);
      return;
    }
    NoneExpired(s.tasks, times[0]);
    WithoutExpired(s.tasks, times[0], last);
    var t := OnTimer(s, times[0]);
    if |times| > 1 {
      WithoutExpired(s.tasks, times[0], times[0]);
      ExpiredStaysExpired(t.tasks, times[0], times[1]);
      assert times[1..][0] == times[1];
    }
    TicksDrain(t, times[1..], last);
  }

  // ------------------------------------------------------------ the manager

  /** The list `EndPing` will leave when it has kept the first `i` entries. */
  ghost function Left(pings: seq<Task>, i: nat, callback: Option<Callback>, id: int): seq<Task>
    requires i <= |pings|
  {
    pings[..i] + Unmatched(pings[i..], callback, id)
  }

  lemma EndOne(pings: seq<Task>, i: nat, log: seq<Outcome>, callback: Option<Callback>, id: int)
    requires i < |pings|
    ensures var w := Without(pings, i);
            if Matches(pings[i], callback, id) then
              && Left(w, i, callback, id) == Left(pings, i, callback, id)
              && log + [Ended(pings[i])] + EndedBy(w[i..], callback, id) == log + EndedBy(pings[i..], callback, id)
            else
              && Left(pings, i + 1, callback, id) == Left(pings, i, callback, id)
              && EndedBy(pings[i + 1..], callback, id) == EndedBy(pings[i..], callback, id)
  {
    var w, rest := Without(pings, i), pings[i + 1..];
    assert pings[i..][1..] == rest;
    assert w[i..] == rest && w[..i] == pings[..i];
    if Matches(pings[i], callback, id) {
      assert log + [Ended(pings[i])] + EndedBy(rest, callback, id)
             == log + ([Ended(pings[i])] + EndedBy(rest, callback, id));
    } else {
      assert pings[..i + 1] == pings[..i] + [pings[i]];
    }
  }

  lemma EndAll(pings: seq<Task>, log: seq<Outcome>, callback: Option<Callback>, id: int)
    ensures Left(pings, |pings|, callback, id) == pings
    ensures log + EndedBy(pings[|pings|..], callback, id) == log
  {
  }

  class PingServerManager {
    var pings: seq<Task>
    var sock: bool
    var nseq: int
    ghost var log: seq<Outcome>

    ghost function State(): Pings
      reads this
    {
      Pings(pings, sock, nseq, log)
    }

    constructor ()
      ensures State() == INITIAL
    {
      pings, sock, nseq, log := [], false, 0, [];
    }

    method Begin(host: string, callback: Option<Callback>, timeout: int, id: int, now: int, system: System)
      returns (ok: bool)
      modifies this
      ensures (State(), ok) == BeginPing(old(State()), Event.Begin(host, callback, timeout, id, now, system))
    {
      if |host| < 3 {
        return false;
      }
      sock := sock || system.opens;
      if !sock {
        return false;
      }
      if !system.resolves {
        return false;
      }
      nseq := nseq + 1;
      var task := Task(id, host, timeout, now, -1, nseq, callback);
      if |host| > 120 {
        return false;
      }
      if !system.sends {
        log := log + [Failed(task)];
        return false;
      }
      pings := pings + [task];
      return true;
    }

    method End(callback: Option<Callback>, id: int) returns (ok: bool)
      modifies this
      ensures (State(), ok) == EndPing(old(State()), callback, id)
    {
      if !sock {
        return false;
      }
      var i := 0;
      while i < |pings|
        invariant 0 <= i <= |pings|
        invariant Left(pings, i, callback, id) == Unmatched(old(pings), callback, id)
        invariant log + EndedBy(pings[i..], callback, id) == old(log) + EndedBy(old(pings), callback, id)
        invariant sock && nseq == old(nseq)
        decreases |pings| - i
      {
        EndOne(pings, i, log, callback, id);
        if pings[i].callback == callback && (pings[i].id == id || id == -1) {
          log := log + [Ended(pings[i])];
          pings := Without(pings, i);
        } else {
          i := i + 1;
        }
      }
      EndAll(pings, log, callback, id);
      if |pings| == 0 {
        sock := false;
      }
      return true;
    }

    method TimerTick(now: int)
      modifies this
      ensures State() == OnTimer(old(State()), now)
    {
      if |pings| == 0 {
        sock := false;
        return;
      }
      var i := 0;
      while i < |pings|
        invariant 0 <= i <= |pings|
        invariant forall j :: 0 <= j < i ==> !pings[j].Expired(now)
        invariant State() == old(State())
      {
        var elapse := now - pings[i].pingfrm;
        if pings[i].timeout > 0 && elapse >= pings[i].timeout {
          assert i == FirstExpired(pings, now);
          log := log + [TimedOut(pings[i].(ping := -1), now)];
          pings := Without(pings, i);
          return;
        }
        i := i + 1;
      }
    }

    method EchoReply(seqno: int, now: int)
      modifies this
      ensures State() == OnReply(old(State()), seqno, now)
    {
      if seqno >= 0 {
        var i := 0;
        while i < |pings|
          invariant 0 <= i <= |pings|
          invariant forall j :: 0 <= j < i ==> pings[j].seqno != seqno
          invariant State() == old(State())
        {
          if pings[i].seqno == seqno {
            assert i == FirstWithSeq(pings, seqno);
            log := log + [Answered(pings[i].(ping := now - pings[i].pingfrm), now)];
            pings := Without(pings, i);
            return;
          }
          i := i + 1;
        }
      }
    }
  }
}
