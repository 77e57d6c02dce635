/** Login and automatic reconnection, `Login` in `xproto/Login.cpp`. Every
    handler is one step; what the server, the user and the timers do is the
    event sequence. */
module LoginLink {
  import opened Common
  import LinkHistory

  datatype LinkStatus =
    | LinkInit | LinkLbs | ExchangePassword | LbsError | LinkAuth | LoginSuccess | PasswdError | ServerError
    | NetBroken | Kickoff | Logout | Unknown | ProtocolOld | LbsShutdown | ReloginSuccess | UserNonexist
    | LinkKeyError | LbsNetError | LinkNetError | LoginTimeout | ClientOld | BlackAccount | BlackMachine
    | LinkOvertime | LockOvertime

  const MAX_RELOG: nat := 120
  const MIN_RELOG: nat := 2
  const MAX_RETIME: nat := 5
  const PING_LIMIT: nat := 3

  /** What happened, oldest first: a status handed to the upper layer, an
      automatic retry scheduled after `wait` seconds, a login request of the
      user (taken up, or ignored because one is logged in), a logout. */
  datatype Act =
    | Report(status: LinkStatus)
    | Retry(wait: nat)
    | Requested(accepted: bool)
    | LoggedOut

  /** `retryWait` is the period in seconds of the running retry timer;
      `dialing` tells whether the socket is still on its way to connect. */
  datatype Link = Link(stat: LinkStatus, pingCount: nat, relogFail: nat, logSucc: nat, linkIp: string, ports: seq<nat>,
                       socket: bool, dialing: bool, loginTimer: bool, pingTimer: bool, retryWait: Option<nat>,
                       history: seq<string>, log: seq<Act>)

  // ------------------------------------------------------------ specification

  function Logged(s: Link, a: Act): Link { s.(log := s.log + [a]) }

  function Cancel(s: Link): Link {
    var kept := s.stat == LoginSuccess;
    s.(pingCount := 0, socket := s.socket && kept, dialing := s.dialing && kept, loginTimer := false, stat := LinkInit)
  }

  function Wait(relogFail: nat): nat {
    var t := 2 * relogFail;
    var u := if t < MIN_RELOG then MIN_RELOG else t;
    if u > MAX_RELOG then MAX_RELOG else u
  }

  function ScheduleRetry(s: Link): Link {
    Logged(Cancel(s), Retry(Wait(s.relogFail)))
      .(linkIp := "", ports := [], relogFail := s.relogFail + 1, retryWait := Some(Wait(s.relogFail)),
        pingTimer := false)
  }

  predicate NetError(st: LinkStatus) { st == LbsNetError || st == LinkNetError || st == NetBroken }

  /** These statuses cancel the login before they are reported. */
  predicate Fatal(st: LinkStatus) {
    st == PasswdError || st == ServerError || st == Kickoff || st == Logout || st == ProtocolOld || st == ClientOld
    || st == UserNonexist || st == LinkKeyError
  }

  function Tell(s: Link, st: LinkStatus): Link {
    if s.relogFail == 0 then Logged(s, Report(st))
    else if st == LoginSuccess then Logged(s, Report(ReloginSuccess)).(relogFail := 0)
    else s
  }

  function Broken(s: Link, st: LinkStatus): Link {
    if s.logSucc != 0 && s.relogFail < MAX_RETIME then ScheduleRetry(s) else Cancel(Logged(s, Report(st)))
  }

  function Notify(s: Link, st: LinkStatus): Link {
    var t := s.(stat := st);
    if NetError(st) then Broken(t, st) else Tell(if Fatal(st) then Cancel(t) else t, st)
  }

  function RealLogin(s: Link): Link {
    if s.stat == ExchangePassword || s.stat == LoginSuccess then s
    else if s.linkIp == "" then Notify(s, LinkLbs)
    else if |s.ports| > 0 then s.(socket := true, dialing := true)
    else Notify(s, LbsNetError)
  }

  function StartLogin(s: Link): Link {
    RealLogin(Logged(Cancel(s), Requested(true)).(linkIp := "", ports := [], relogFail := 0))
  }

  function DoLogin(s: Link): Link {
    var t := s.(logSucc := 0);
    if t.stat != LoginSuccess then StartLogin(t) else Logged(t, Requested(false))
  }

  function DoLogout(s: Link): Link {
    Notify(Logged(Cancel(s), LoggedOut).(socket := false, dialing := false, relogFail := 0, pingTimer := false), Logout)
  }

  function DoLbs(s: Link, ip: string, ports: seq<nat>): Link {
    RealLogin(Notify(s.(linkIp := ip, ports := ports), LinkAuth))
  }

  function Ping(s: Link): Link {
    var t := s.(pingCount := s.pingCount + 1);
    if s.pingCount >= PING_LIMIT then ScheduleRetry(t) else t
  }

  function Succeed(s: Link): Link {
    var t := Notify(s.(loginTimer := false, pingTimer := true), LoginSuccess);
    t.(logSucc := t.logSucc + 1)
  }

  function Timeout(s: Link): Link {
    if s.stat == LoginSuccess then s.(loginTimer := false)
    else Notify(Cancel(s), if s.relogFail == 0 then LoginTimeout else NetBroken)
  }

  function Result(s: Link, res: LinkStatus): Link {
    if res == LoginSuccess then Succeed(s) else Notify(s.(loginTimer := false), res)
  }

  /** `saved` tells whether the configuration with the history is there. */
  function Answer(s: Link, res: LinkStatus, saved: bool): Link {
    var t := Result(s, res);
    if saved then t.(history := LinkHistory.Record(t.history, t.linkIp)) else t
  }

  function RealRelog(s: Link): Link {
    RealLogin(s.(loginTimer := true)).(retryWait := None)
  }

  datatype Event =
    | UserLogin
    | UserLogout
    | UserCancel
    | LbsAnswer(ip: string, ports: seq<nat>)
    | LbsRefused(reason: LinkStatus)
    | Connected
    | Closed
    | KeyRefused
    | LoginAnswer(res: LinkStatus, saved: bool)
    | LoginFailed
    | Kicked
    | Pong
    | PingTick
    | LoginTick
    | RetryTick

  /** Statuses that the location service's answer can carry. */
  predicate LbsReason(st: LinkStatus) {
    st == ProtocolOld || st == ClientOld || st == LinkOvertime || st == LbsError || st == LbsShutdown
  }

  /** The statuses `res2Link` makes of the server's login result. */
  predicate LoginResult(st: LinkStatus) {
    st == LoginSuccess || st == PasswdError || st == UserNonexist || st == BlackAccount || st == BlackMachine
    || st == LockOvertime || st == ServerError
  }

  /** Timers only fire while they run. */
  function Step(s: Link, e: Event): Link {
    match e
    case UserLogin => DoLogin(s)
    case UserLogout => DoLogout(s)
    case UserCancel => Cancel(s)
    case LbsAnswer(ip, ports) => DoLbs(s, ip, ports)
    case LbsRefused(reason) => if LbsReason(reason) then Notify(s, reason) else s
    case Connected => Notify(s.(loginTimer := true, dialing := false), ExchangePassword)
    case Closed => Notify(s, LinkNetError)
    case KeyRefused => Notify(s, LinkKeyError)
    case LoginAnswer(res, saved) => if LoginResult(res) then Answer(s, res, saved) else s
    case LoginFailed => Notify(s, Unknown)
    case Kicked => Notify(DoLogout(s), Kickoff)
    case Pong => s.(pingCount := 0)
    case PingTick => if s.pingTimer then Ping(s) else s
    case LoginTick => if s.loginTimer then Timeout(s) else s
    case RetryTick => if s.retryWait.Some? then RealRelog(s) else s
  }

  /** The constructor leaves the status and the success count uninitialised. */
  function Initial(stat: LinkStatus, logSucc: nat): Link {
    Link(stat, 0, 0, logSucc, "", [], false, false, false, false, None, [], [])
  }

  function Run(s: Link, es: seq<Event>): Link {
    if |es| == 0 then s else Step(Run(s, es[..|es| - 1]), es[|es| - 1])
  }

  // --------------------------------------------------- what the log determines

  /** The retries after the last success, accepted login or logout. */
  function Retries(log: seq<Act>): nat {
    if |log| == 0 then 0
    else
      match log[|log| - 1]
      case Retry(_) => Retries(log[..|log| - 1]) + 1
      case Report(st) => if st == LoginSuccess || st == ReloginSuccess then 0 else Retries(log[..|log| - 1])
      case Requested(accepted) => if accepted then 0 else Retries(log[..|log| - 1])
      case LoggedOut => 0
  }

  /** The successes after the last login request; `before` counts for the time
      before the first one. */
  function Successes(log: seq<Act>, before: nat): nat {
    if |log| == 0 then before
    else
      match log[|log| - 1]
      case Requested(_) => 0
      case Report(st) =>
        Successes(log[..|log| - 1], before) + if st == LoginSuccess || st == ReloginSuccess then 1 else 0
      case _ => Successes(log[..|log| - 1], before)
  }

  /** 2, 2, 4, 6, 8 seconds. */
  const SCHEDULE: seq<nat> := [2, 2, 4, 6, 8]

  /** Each entry is what it may be after the entries before it: the k-th retry
      of a series waits as the schedule says; while a series is running only a
      renewed success or a network error is reported, and a success is reported
      as renewed exactly then. */
  ghost predicate Allowed(before: seq<Act>, a: Act) {
    match a
    case Retry(wait) => Retries(before) < |SCHEDULE| && wait == SCHEDULE[Retries(before)]
    case Report(st) => if Retries(before) > 0 then st == ReloginSuccess || NetError(st) else st != ReloginSuccess
    case _ => true
  }

  ghost predicate Proper(log: seq<Act>) {
    forall i :: 0 <= i < |log| ==> Allowed(log[..i], log[i])
  }

  /** How many successes were reported in all. */
  function Reported(log: seq<Act>): nat {
    if |log| == 0 then 0
    else Reported(log[..|log| - 1]) + if IsSuccess(log[|log| - 1]) then 1 else 0
  }

  predicate IsSuccess(a: Act) { a == Report(LoginSuccess) || a == Report(ReloginSuccess) }

  function Successful(e: Event): nat {
    if e.LoginAnswer? && e.res == LoginSuccess then 1 else 0
  }

  /** How many login answers of success came in. */
  function Answers(es: seq<Event>): nat {
    if |es| == 0 then 0 else Answers(es[..|es| - 1]) + Successful(es[|es| - 1])
  }

  /** What every step keeps; `before` is the uninitialised success count and
      `total` the number of successful answers so far. */
  ghost predicate Inv(s: Link, before: nat, total: nat) {
    && s.relogFail == Retries(s.log) <= MAX_RETIME
    && (s.pingTimer ==> s.relogFail == 0)
    && (s.stat == LoginSuccess ==> s.relogFail == 0)
    && s.logSucc == Successes(s.log, before)
    && Reported(s.log) == total
    && Proper(s.log)
  }

  lemma RetriesPush(log: seq<Act>, a: Act)
    ensures Retries(log + [a]) ==
            match a
            case Retry(_) => Retries(log) + 1
            case Report(st) => if st == LoginSuccess || st == ReloginSuccess then 0 else Retries(log)
            case Requested(accepted) => if accepted then 0 else Retries(log)
            case LoggedOut => 0
  {
    assert (log + [a])[..|log|] == log;
  }

  lemma SuccessesPush(log: seq<Act>, a: Act, before: nat)
    ensures Successes(log + [a], before) ==
            match a
            case Requested(_) => 0
            case Report(st) => Successes(log, before) + if st == LoginSuccess || st == ReloginSuccess then 1 else 0
            case _ => Successes(log, before)
    ensures Reported(log + [a]) == Reported(log) + if IsSuccess(a) then 1 else 0
  {
    assert (log + [a])[..|log|] == log;
  }

  lemma ProperPush(log: seq<Act>, a: Act)
    requires Proper(log) && Allowed(log, a)
    ensures Proper(log + [a])
  {
    var all := log + [a];
    forall i | 0 <= i < |all| ensures Allowed(all[..i], all[i]) {
      if i < |log| {
        assert all[..i] == log[..i] && all[i] == log[i];
      } else {
        assert all[..i] == log;
      }
    }
  }

  // -------------------------------------------------------- each step keeps it

  lemma CancelKeeps(s: Link, before: nat, total: nat)
    requires Inv(s, before, total)
    ensures Inv(Cancel(s), before, total)
  {
  }

  /** The clamp to 120 seconds is never reached, since five retries are. */
  lemma WaitIsScheduled(n: nat)
    requires n < MAX_RETIME
    ensures Wait(n) == SCHEDULE[n] <= 8
  {
  }

  lemma RetryKeeps(s: Link, before: nat, total: nat)
    requires Inv(s.(stat := LinkInit), before, total) && s.relogFail < MAX_RETIME
    ensures Inv(ScheduleRetry(s), before, total)
  {
    var a := Retry(Wait(s.relogFail));
    WaitIsScheduled(s.relogFail);
    RetriesPush(s.log, a);
    SuccessesPush(s.log, a, before);
    ProperPush(s.log, a);
  }

  lemma ReportKeeps(s: Link, st: LinkStatus, before: nat, total: nat)
    requires Inv(s, before, total) && st != LoginSuccess && st != ReloginSuccess
    requires NetError(st) || s.relogFail == 0
    ensures Inv(Logged(s, Report(st)), before, total)
  {
    RetriesPush(s.log, Report(st));
    SuccessesPush(s.log, Report(st), before);
    ProperPush(s.log, Report(st));
  }

  lemma GiveUpKeeps(s: Link, st: LinkStatus, before: nat, total: nat)
    requires Inv(s.(stat := LinkInit), before, total) && NetError(st)
    ensures Inv(Cancel(Logged(s, Report(st))), before, total)
  {
    ReportKeeps(s.(stat := LinkInit), st, before, total);
  }

  lemma TellKeeps(s: Link, st: LinkStatus, before: nat, total: nat)
    requires Inv(s, before, total) && !NetError(st) && st != LoginSuccess && st != ReloginSuccess
    ensures Inv(Tell(s, st), before, total)
  {
    if s.relogFail == 0 {
      ReportKeeps(s, st, before, total);
    }
  }

  /** Every notification except a success. */
  lemma NotifyKeeps(s: Link, st: LinkStatus, before: nat, total: nat)
    requires Inv(s.(stat := LinkInit), before, total) && st != LoginSuccess && st != ReloginSuccess
    ensures Inv(Notify(s, st), before, total)
  {
    var t := s.(stat := st);
    assert t.(stat := LinkInit) == s.(stat := LinkInit);
    if NetError(st) {
      if t.logSucc != 0 && t.relogFail < MAX_RETIME {
        RetryKeeps(t, before, total);
      } else {
        GiveUpKeeps(t, st, before, total);
      }
    } else {
      assert Inv(t, before, total);
      CancelKeeps(t, before, total);
      TellKeeps(if Fatal(st) then Cancel(t) else t, st, before, total);
    }
  }

  lemma ForgetStat(s: Link, before: nat, total: nat)
    requires Inv(s, before, total)
    ensures Inv(s.(stat := LinkInit), before, total)
  {
  }

  lemma RealLoginKeeps(s: Link, before: nat, total: nat)
    requires Inv(s, before, total)
    ensures Inv(RealLogin(s), before, total)
  {
    ForgetStat(s, before, total);
    if s.stat == ExchangePassword || s.stat == LoginSuccess {
    } else if s.linkIp == "" {
      NotifyKeeps(s, LinkLbs, before, total);
    } else if |s.ports| > 0 {
      assert Inv(s.(socket := true, dialing := true), before, total);
    } else {
      NotifyKeeps(s, LbsNetError, before, total);
    }
  }

  lemma SucceedIs(s: Link)
    ensures var a := Report(if s.relogFail > 0 then ReloginSuccess else LoginSuccess);
            Succeed(s) == Logged(s, a).(loginTimer := false, pingTimer := true, stat := LoginSuccess, relogFail := 0,
                                        logSucc := s.logSucc + 1)
  {
  }

  /** A success is reported exactly once, as a renewed one exactly when there
      were retries, and ends the series. */
  lemma SuccessIsReportedOnce(s: Link, before: nat, total: nat)
    requires Inv(s, before, total)
    ensures Inv(Succeed(s), before, total + 1)
    ensures Succeed(s).log == s.log + [Report(if Retries(s.log) > 0 then ReloginSuccess else LoginSuccess)]
    ensures Succeed(s).relogFail == 0 && Succeed(s).pingTimer && Succeed(s).stat == LoginSuccess
  {
    SucceedIs(s);
    var a := Report(if Retries(s.log) > 0 then ReloginSuccess else LoginSuccess);
    RetriesPush(s.log, a);
    SuccessesPush(s.log, a, before);
    ProperPush(s.log, a);
  }

  lemma LoginKeeps(s: Link, before: nat, total: nat)
    requires Inv(s, before, total)
    ensures Inv(DoLogin(s), before, total)
  {
    var accepted := s.stat != LoginSuccess;
    RetriesPush(s.log, Requested(accepted));
    SuccessesPush(s.log, Requested(accepted), before);
    ProperPush(s.log, Requested(accepted));
    var t := s.(logSucc := 0);
    if accepted {
      var u := Logged(Cancel(t), Requested(true)).(linkIp := "", ports := [], relogFail := 0);
      assert Inv(u, before, total);
      RealLoginKeeps(u, before, total);
    } else {
      assert Inv(Logged(t, Requested(false)), before, total);
    }
  }

  lemma LogoutKeeps(s: Link, before: nat, total: nat)
    requires Inv(s, before, total)
    ensures Inv(DoLogout(s), before, total)
  {
    RetriesPush(s.log, LoggedOut);
    SuccessesPush(s.log, LoggedOut, before);
    ProperPush(s.log, LoggedOut);
    var t := Logged(Cancel(s), LoggedOut).(socket := false, dialing := false, relogFail := 0, pingTimer := false);
    assert Inv(t.(stat := LinkInit), before, total);
    NotifyKeeps(t, Logout, before, total);
  }

  lemma LbsKeeps(s: Link, ip: string, ports: seq<nat>, before: nat, total: nat)
    requires Inv(s, before, total)
    ensures Inv(DoLbs(s, ip, ports), before, total)
  {
    var t := s.(linkIp := ip, ports := ports);
    assert Inv(t.(stat := LinkInit), before, total);
    NotifyKeeps(t, LinkAuth, before, total);
    RealLoginKeeps(Notify(t, LinkAuth), before, total);
  }

  lemma AnswerKeeps(s: Link, res: LinkStatus, saved: bool, before: nat, total: nat)
    requires Inv(s, before, total) && LoginResult(res)
    ensures Inv(Answer(s, res, saved), before, total + if res == LoginSuccess then 1 else 0)
  {
    if res == LoginSuccess {
      SuccessIsReportedOnce(s, before, total);
    } else {
      assert Inv(s.(loginTimer := false).(stat := LinkInit), before, total);
      NotifyKeeps(s.(loginTimer := false), res, before, total);
    }
  }

  lemma PingKeeps(s: Link, before: nat, total: nat)
    requires Inv(s, before, total) && s.pingTimer
    ensures Inv(Ping(s), before, total)
  {
    var t := s.(pingCount := s.pingCount + 1);
    assert Inv(t.(stat := LinkInit), before, total);
    if s.pingCount >= PING_LIMIT {
      RetryKeeps(t, before, total);
    }
  }

  lemma TimeoutKeeps(s: Link, before: nat, total: nat)
    requires Inv(s, before, total)
    ensures Inv(Timeout(s), before, total)
  {
    if s.stat != LoginSuccess {
      CancelKeeps(s, before, total);
      NotifyKeeps(Cancel(s), if s.relogFail == 0 then LoginTimeout else NetBroken, before, total);
    }
  }

  lemma KickKeeps(s: Link, before: nat, total: nat)
    requires Inv(s, before, total)
    ensures Inv(Notify(DoLogout(s), Kickoff), before, total)
  {
    LogoutKeeps(s, before, total);
    ForgetStat(DoLogout(s), before, total);
    NotifyKeeps(DoLogout(s), Kickoff, before, total);
  }

  lemma RelogKeeps(s: Link, before: nat, total: nat)
    requires Inv(s, before, total)
    ensures Inv(RealRelog(s), before, total)
  {
    RealLoginKeeps(s.(loginTimer := true), before, total);
    assert Inv(RealLogin(s.(loginTimer := true)).(retryWait := None), before, total);
  }

  lemma TimerKeeps(s: Link, e: Event, before: nat, total: nat)
    requires Inv(s, before, total) && (e.PingTick? || e.LoginTick? || e.RetryTick?)
    ensures Inv(Step(s, e), before, total)
  {
    match e
    case PingTick => if s.pingTimer { PingKeeps(s, before, total); }
    case LoginTick => if s.loginTimer { TimeoutKeeps(s, before, total); }
    case RetryTick => if s.retryWait.Some? { RelogKeeps(s, before, total); }
  }

  lemma StepKeeps(s: Link, e: Event, before: nat, total: nat)
    requires Inv(s, before, total)
    ensures Inv(Step(s, e), before, total + Successful(e))
  {
    ForgetStat(s, before, total);
    match e
    case UserLogin => LoginKeeps(s, before, total);
    case UserLogout => LogoutKeeps(s, before, total);
    case UserCancel => CancelKeeps(s, before, total);
    case LbsAnswer(ip, ports) => LbsKeeps(s, ip, ports, before, total);
    case LbsRefused(reason) => if LbsReason(reason) { NotifyKeeps(s, reason, before, total); }
    case Connected =>
      assert Inv(s.(loginTimer := true, dialing := false).(stat := LinkInit), before, total);
      NotifyKeeps(s.(loginTimer := true, dialing := false), ExchangePassword, before, total);
    case Closed => NotifyKeeps(s, LinkNetError, before, total);
    case KeyRefused => NotifyKeeps(s, LinkKeyError, before, total);
    case LoginAnswer(res, saved) => if LoginResult(res) { AnswerKeeps(s, res, saved, before, total); }
    case LoginFailed => NotifyKeeps(s, Unknown, before, total);
    case Kicked => KickKeeps(s, before, total);
    case Pong => assert Inv(s.(pingCount := 0), before, total);
    case _ => TimerKeeps(s, e, before, total);
  }

  // --------------------------------------------------------------- whole runs

  /** Over every event sequence: the retry counter is the number of automatic
      retries since the last success, accepted login or logout, and at most
      five; the ping timer runs only while it is 0; successive retries wait 2,
      2, 4, 6 and 8 seconds; during a series only a renewed success or a network
      error reaches the upper layer; and exactly as many successes are reported
      as login answers of success came in. */
  lemma {:induction false} EveryRunIsProper(stat: LinkStatus, logSucc: nat, es: seq<Event>)
    ensures Inv(Run(Initial(stat, logSucc), es), logSucc, Answers(es))
  {
    if |es| == 0 {
    } else {
      var front := es[..|es| - 1];
      EveryRunIsProper(stat, logSucc, front);
      StepKeeps(Run(Initial(stat, logSucc), front), es[|es| - 1], logSucc, Answers(front));
    }
  }

  /** On every run a broken connection is retried exactly when a login has
      succeeded since the last login request, even one that was ignored, and
      fewer than five retries were made; otherwise it is reported. */
  lemma BrokenLinkIsRetriedIff(stat: LinkStatus, logSucc: nat, es: seq<Event>)
    ensures var s := Run(Initial(stat, logSucc), es);
            var t := Step(s, Closed);
            if Successes(s.log, logSucc) > 0 && Retries(s.log) < MAX_RETIME then
              t.log == s.log + [Retry(SCHEDULE[Retries(s.log)])] && t.retryWait == Some(SCHEDULE[Retries(s.log)])
            else
              t.log == s.log + [Report(LinkNetError)] && t.retryWait == s.retryWait
  {
    EveryRunIsProper(stat, logSucc, es);
    var s := Run(Initial(stat, logSucc), es);
    if s.logSucc != 0 && s.relogFail < MAX_RETIME {
      WaitIsScheduled(s.relogFail);
    }
  }

  /** Three heartbeats without an answer are waited for; the fourth tick of the
      ping timer schedules a retry. */
  lemma SilentLinkIsRetried(s: Link)
    requires s.pingTimer && s.pingCount == 0
    ensures var t := Step(Step(Step(s, PingTick), PingTick), PingTick);
            && t == s.(pingCount := PING_LIMIT)
            && Step(t, PingTick) == ScheduleRetry(s)
  {
    var a := s.(pingCount := 1);
    assert Step(s, PingTick) == a;
    assert Step(a, PingTick) == a.(pingCount := 2);
  }

  /** A login that goes well: each stage is reported once, in this order, and
      the client ends up connected, watched by the heartbeat, with one success
      counted and the address that was found, which is saved when the
      configuration is there. */
  lemma LoginGoesThrough(s: Link, ip: string, ports: seq<nat>, saved: bool)
    requires s.stat != LoginSuccess && ip != "" && |ports| > 0
    ensures var c := Step(Step(Step(s, UserLogin), LbsAnswer(ip, ports)), Connected);
            var t := Step(c, LoginAnswer(LoginSuccess, saved));
            && t.log == s.log + [Requested(true)] + [Report(LinkLbs)] + [Report(LinkAuth)] + [Report(ExchangePassword)]
                        + [Report(LoginSuccess)]
            && t.history == (if saved then LinkHistory.Record(s.history, ip) else s.history)
            && t == Link(LoginSuccess, 0, 0, 1, ip, ports, true, false, false, true, s.retryWait, t.history, t.log)
  {
    LoginAsks(s);
    var a := Step(s, UserLogin);
    LocatedConnects(a, ip, ports);
    AnswerConnects(Step(Step(a, LbsAnswer(ip, ports)), Connected), saved);
  }

  lemma LoginAsks(s: Link)
    requires s.stat != LoginSuccess
    ensures Step(s, UserLogin)
            == Link(LinkLbs, 0, 0, 0, "", [], false, false, false, s.pingTimer, s.retryWait, s.history,
                    s.log + [Requested(true)] + [Report(LinkLbs)])
  {
    var t := Logged(Cancel(s.(logSucc := 0)), Requested(true)).(linkIp := "", ports := [], relogFail := 0);
    assert DoLogin(s) == RealLogin(t) == Notify(t, LinkLbs);
  }

  lemma AnswerConnects(c: Link, saved: bool)
    requires c.relogFail == 0
    ensures Step(c, LoginAnswer(LoginSuccess, saved))
            == c.(loginTimer := false, pingTimer := true, stat := LoginSuccess, logSucc := c.logSucc + 1,
                  log := c.log + [Report(LoginSuccess)],
                  history := if saved then LinkHistory.Record(c.history, c.linkIp) else c.history)
  {
    SucceedIs(c);
    assert Step(c, LoginAnswer(LoginSuccess, saved)) == Answer(c, LoginSuccess, saved);
  }

  lemma LocatedConnects(a: Link, ip: string, ports: seq<nat>)
    requires a.relogFail == 0 && ip != "" && |ports| > 0
    ensures Step(Step(a, LbsAnswer(ip, ports)), Connected)
            == a.(stat := ExchangePassword, linkIp := ip, ports := ports, socket := true, dialing := false,
                  loginTimer := true, log := a.log + [Report(LinkAuth)] + [Report(ExchangePassword)])
  {
    LocatedDials(a, ip, ports);
    var b := Step(a, LbsAnswer(ip, ports)).(loginTimer := true, dialing := false);
    assert Notify(b, ExchangePassword) == Logged(b, Report(ExchangePassword)).(stat := ExchangePassword);
  }

  lemma LocatedDials(a: Link, ip: string, ports: seq<nat>)
    requires a.relogFail == 0 && ip != "" && |ports| > 0
    ensures Step(a, LbsAnswer(ip, ports))
            == a.(stat := LinkAuth, linkIp := ip, ports := ports, socket := true, dialing := true,
                  log := a.log + [Report(LinkAuth)])
  {
    var t := a.(linkIp := ip, ports := ports);
    assert Notify(t, LinkAuth) == Logged(t, Report(LinkAuth)).(stat := LinkAuth);
  }

  /** The connection breaks and the retry timer fires, `n` times over. */
  function Outage(s: Link, n: nat): Link {
    if n == 0 then s else Step(Step(Outage(s, n - 1), Closed), RetryTick)
  }

  function Waits(n: nat): (r: seq<Act>)
    requires n <= |SCHEDULE|
  {
    if n == 0 then [] else Waits(n - 1) + [Retry(SCHEDULE[n - 1])]
  }

  /** An outage of a link that had been up is retried up to five times, each
      time looking for a new address, without telling the upper layer. */
  lemma {:induction false} OutageIsRetried(s: Link, n: nat)
    requires s.logSucc > 0 && s.relogFail == 0 && n <= MAX_RETIME
    ensures var t := Outage(s, n);
            && t.log == s.log + Waits(n) && t.relogFail == n && t.logSucc == s.logSucc
            && (n > 0 ==> t.stat == LinkLbs && t.linkIp == "" && t.loginTimer && !t.pingTimer && t.retryWait == None)
  {
    if n == 0 {
      NoBreak(s);
    } else {
      var m: nat := n - 1;
      OutageIsRetried(s, m);
      OneMoreBreak(s, m);
    }
  }

  lemma NoBreak(s: Link)
    ensures Outage(s, 0) == s && s.log + Waits(0) == s.log
  {
  }

  /** The sixth break is reported, and nothing is scheduled any more. */
  lemma SixthBreakIsReported(s: Link)
    requires s.logSucc > 0 && s.relogFail == 0
    ensures var u := Step(Outage(s, MAX_RETIME), Closed);
            u.log == s.log + Waits(MAX_RETIME) + [Report(LinkNetError)] && u.stat == LinkInit && u.retryWait == None
  {
    OutageIsRetried(s, MAX_RETIME);
    LastBreak(Outage(s, MAX_RETIME));
  }

  lemma LastBreak(p: Link)
    ensures p.relogFail == MAX_RETIME ==>
              Step(p, Closed) == Cancel(Logged(p.(stat := LinkNetError), Report(LinkNetError)))
  {
  }

  lemma OneMoreBreak(s: Link, n: nat)
    requires n < MAX_RETIME && s.logSucc > 0
    requires var p := Outage(s, n); p.log == s.log + Waits(n) && p.relogFail == n && p.logSucc == s.logSucc
    ensures var t := Outage(s, n + 1);
            && t.log == s.log + Waits(n + 1) && t.relogFail == n + 1 && t.logSucc == s.logSucc
            && t.stat == LinkLbs && t.linkIp == "" && t.loginTimer && !t.pingTimer && t.retryWait == None
  {
    WaitIsScheduled(n);
    BreakThenRetry(Outage(s, n));
    assert s.log + Waits(n) + [Retry(SCHEDULE[n])] == s.log + Waits(n + 1);
  }

  lemma BreakThenRetry(p: Link)
    requires p.logSucc > 0 && p.relogFail < MAX_RETIME
    ensures var t := Step(Step(p, Closed), RetryTick);
            && t.log == p.log + [Retry(Wait(p.relogFail))] && t.relogFail == p.relogFail + 1 && t.logSucc == p.logSucc
            && t.stat == LinkLbs && t.linkIp == "" && t.loginTimer && !t.pingTimer && t.retryWait == None
  {
    var b := Step(p, Closed);
    assert b == ScheduleRetry(p.(stat := LinkNetError));
    RetryAsks(b);
  }

  lemma RetryAsks(b: Link)
    requires b.retryWait.Some? && b.linkIp == "" && !Underway(b.stat)
    ensures Step(b, RetryTick) == Notify(b.(loginTimer := true), LinkLbs).(retryWait := None)
  {
  }

  /** Whatever was going on, logging out reports just that. */
  lemma LogoutReports(s: Link)
    ensures var t := DoLogout(s);
            && t.log == s.log + [LoggedOut] + [Report(Logout)]
            && t.stat == LinkInit && t.linkIp == s.linkIp && t.ports == s.ports && t.logSucc == s.logSucc
            && t.relogFail == 0 && t.retryWait == s.retryWait
  {
  }

  /** Neither logging out nor cancelling stops a pending retry. When its timer
      fires, the logged-out client goes on: it asks for an address or connects
      to the one it has. */
  lemma LogoutLeavesRetryPending(s: Link)
    requires s.retryWait.Some?
    ensures Step(s, UserLogout).retryWait == Step(s, UserCancel).retryWait == s.retryWait
    ensures var (u, t) := (Step(s, UserLogout), Step(Step(s, UserLogout), RetryTick));
            && u.log == s.log + [LoggedOut] + [Report(Logout)]
            && (s.linkIp == "" ==> t.stat == LinkLbs && t.log == u.log + [Report(LinkLbs)])
            && (s.linkIp != "" && |s.ports| > 0 ==> t.socket && t.dialing && t.log == u.log)
  {
    LogoutReports(s);
    var u := DoLogout(s);
    if s.linkIp == "" {
      RetryAsks(u);
    } else if |s.ports| > 0 {
      RetryDials(u);
    }
  }

  lemma RetryDials(b: Link)
    requires b.retryWait.Some? && b.linkIp != "" && |b.ports| > 0 && !Underway(b.stat)
    ensures Step(b, RetryTick) == b.(loginTimer := true, socket := true, dialing := true, retryWait := None)
  {
  }

  /** The retry timer is stopped after the login it starts, so a retry that
      this login schedules itself would be announced and never made: exactly
      when an address without ports is left and retries are still allowed. */
  lemma RetryInsideRetryIsLost(s: Link)
    requires s.retryWait.Some?
    ensures var t := Step(s, RetryTick);
            && t.retryWait == None
            && (t.log == s.log + [Retry(Wait(s.relogFail))] <==>
                  && s.stat != ExchangePassword && s.stat != LoginSuccess
                  && s.linkIp != "" && |s.ports| == 0 && s.logSucc != 0 && s.relogFail < MAX_RETIME)
  {
    var t := Step(s, RetryTick);
    if |t.log| == |s.log| + 1 {
      assert t.log[|s.log|] == (s.log + [t.log[|s.log|]])[|s.log|];
    }
  }

  // ------------------------------------------------- no retry is ever lost

  /** What the servers and the network can do. An answer of the location service
      without an address or ports comes only while the client waits for one,
      since its connections are closed whenever that status is left; one from
      the saved history carries an address and one port, at any time. Only a
      socket on its way connects, and the server answers a login only after the
      connection is made. Users, timers and failures are free. */
  predicate Possible(s: Link, e: Event) {
    match e
    case LbsAnswer(ip, ports) => s.stat == LinkLbs || (ip != "" && |ports| > 0)
    case Connected => s.dialing
    case LoginAnswer(_, _) => s.stat == ExchangePassword
    case _ => true
  }

  ghost predicate PossibleRun(s: Link, es: seq<Event>) {
    forall i :: 0 <= i < |es| ==> Possible(Run(s, es[..i]), es[i])
  }

  predicate Underway(st: LinkStatus) { st == ExchangePassword || st == LoginSuccess }

  /** A client that dials has an address with ports; one that waits for an
      address after a success has no retry pending; an address without ports is
      left only where there has been no success or no retry is pending. */
  predicate Safe(s: Link) {
    && (Underway(s.stat) ==> s.linkIp == "" || |s.ports| > 0)
    && (s.stat == LinkLbs ==> s.linkIp == "" && (s.logSucc == 0 || s.retryWait == None))
    && (s.linkIp != "" && |s.ports| == 0 && s.logSucc != 0 ==> s.retryWait == None)
    && (s.dialing ==> s.linkIp != "" && |s.ports| > 0 && !Underway(s.stat))
  }

  lemma BrokenSafe(s: Link, st: LinkStatus)
    requires Safe(s) && !Underway(s.stat)
    ensures Safe(Broken(s, st))
  {
    ScheduleSafe(s);
  }

  lemma ScheduleSafe(s: Link)
    requires s.dialing ==> s.stat != LoginSuccess
    ensures Safe(ScheduleRetry(s))
  {
  }

  /** Every notification but those of the two connected statuses and of the
      wait for an address. */
  lemma NotifySafe(s: Link, st: LinkStatus)
    requires Safe(s.(stat := LinkInit)) && !Underway(st) && st != LinkLbs
    ensures Safe(Notify(s, st))
  {
    if NetError(st) {
      BrokenSafe(s.(stat := st), st);
    }
  }

  lemma RealLoginSafe(s: Link)
    requires Safe(s) && (s.linkIp == "" ==> s.logSucc == 0 || s.retryWait == None || Underway(s.stat))
    ensures Safe(RealLogin(s))
  {
    if !Underway(s.stat) && s.linkIp != "" && |s.ports| == 0 {
      NotifySafe(s, LbsNetError);
    }
  }

  lemma LoginSafe(s: Link)
    requires Safe(s)
    ensures Safe(DoLogin(s))
  {
    if s.stat != LoginSuccess {
      RealLoginSafe(Logged(Cancel(s.(logSucc := 0)), Requested(true)).(linkIp := "", ports := [], relogFail := 0));
    }
  }

  lemma LogoutSafe(s: Link)
    requires Safe(s)
    ensures Safe(DoLogout(s))
  {
    var t := Logged(Cancel(s), LoggedOut).(socket := false, dialing := false, relogFail := 0, pingTimer := false);
    NotifySafe(t, Logout);
  }

  lemma LbsSafe(s: Link, ip: string, ports: seq<nat>)
    requires Safe(s) && Possible(s, LbsAnswer(ip, ports))
    ensures Safe(DoLbs(s, ip, ports))
  {
    var t := s.(linkIp := ip, ports := ports);
    NotifySafe(t, LinkAuth);
    RealLoginSafe(Notify(t, LinkAuth));
  }

  lemma AnswerSafe(s: Link, res: LinkStatus, saved: bool)
    requires Safe(s) && s.stat == ExchangePassword && LoginResult(res)
    ensures Safe(Answer(s, res, saved))
  {
    if res == LoginSuccess {
      SucceedIs(s);
    } else {
      NotifySafe(s.(loginTimer := false), res);
    }
  }

  lemma RelogSafe(s: Link)
    requires Safe(s)
    ensures Safe(RealRelog(s))
  {
    var t := s.(loginTimer := true);
    if s.linkIp != "" {
      RealLoginSafe(t);
      RetryDoneSafe(RealLogin(t));
    } else if !Underway(s.stat) {
      assert RealRelog(s) == Notify(t, LinkLbs).(retryWait := None);
    }
  }

  lemma RetryDoneSafe(s: Link)
    requires Safe(s)
    ensures Safe(s.(retryWait := None))
  {
  }

  lemma TimerSafe(s: Link, e: Event)
    requires Safe(s) && (e.PingTick? || e.LoginTick? || e.RetryTick?)
    ensures Safe(Step(s, e))
  {
    match e
    case PingTick => if s.pingTimer && s.pingCount >= PING_LIMIT { ScheduleSafe(s.(pingCount := s.pingCount + 1)); }
    case LoginTick =>
      if s.loginTimer && s.stat != LoginSuccess {
        NotifySafe(Cancel(s), if s.relogFail == 0 then LoginTimeout else NetBroken);
      }
    case RetryTick => if s.retryWait.Some? { RelogSafe(s); }
  }

  lemma StepSafe(s: Link, e: Event)
    requires Safe(s) && Possible(s, e)
    ensures Safe(Step(s, e))
  {
    match e
    case UserLogin => LoginSafe(s);
    case UserLogout => LogoutSafe(s);
    case LbsAnswer(ip, ports) => LbsSafe(s, ip, ports);
    case LbsRefused(reason) => if LbsReason(reason) { NotifySafe(s, reason); }
    case Closed => NotifySafe(s, LinkNetError);
    case KeyRefused => NotifySafe(s, LinkKeyError);
    case LoginAnswer(res, saved) => if LoginResult(res) { AnswerSafe(s, res, saved); }
    case LoginFailed => NotifySafe(s, Unknown);
    case Kicked => LogoutSafe(s); NotifySafe(DoLogout(s), Kickoff);
    case UserCancel => assert Safe(Cancel(s));
    case Connected => assert Safe(Notify(s.(loginTimer := true, dialing := false), ExchangePassword));
    case Pong => assert Safe(s.(pingCount := 0));
    case _ => TimerSafe(s, e);
  }

  lemma FrontIsPossible(s: Link, es: seq<Event>)
    requires |es| > 0 && PossibleRun(s, es)
    ensures PossibleRun(s, es[..|es| - 1]) && Possible(Run(s, es[..|es| - 1]), es[|es| - 1])
  {
    var front := es[..|es| - 1];
    forall i | 0 <= i < |front| ensures Possible(Run(s, front[..i]), front[i]) {
      assert front[..i] == es[..i];
    }
  }

  lemma {:induction false} RunSafe(stat: LinkStatus, logSucc: nat, es: seq<Event>)
    requires PossibleRun(Initial(stat, logSucc), es)
    ensures Safe(Run(Initial(stat, logSucc), es))
  {
    if |es| == 0 {
    } else {
      var front := es[..|es| - 1];
      FrontIsPossible(Initial(stat, logSucc), es);
      RunSafe(stat, logSucc, front);
      StepSafe(Run(Initial(stat, logSucc), front), es[|es| - 1]);
    }
  }

  /** On every run that the servers and the network can produce, from any
      uninitialised start, a retry that comes due is made: unless a login is
      under way it looks for an address or connects to the one there is, and no
      further retry is scheduled that the stopped timer would lose. Only where
      no success came before can an address without ports make it report. */
  lemma NoRetryIsLost(stat: LinkStatus, logSucc: nat, es: seq<Event>)
    requires PossibleRun(Initial(stat, logSucc), es)
    requires Run(Initial(stat, logSucc), es).retryWait.Some?
    ensures var s := Run(Initial(stat, logSucc), es);
            var t := Step(s, RetryTick);
            && t.relogFail == s.relogFail && t.retryWait == None
            && (t.log == s.log || t.log == s.log + [Report(LinkLbs)] || t.log == s.log + [Report(LbsNetError)])
            && (Underway(s.stat) || t.stat == LinkLbs || t.dialing
                || (s.logSucc == 0 && t.log == s.log + [Report(LbsNetError)]))
  {
    RunSafe(stat, logSucc, es);
    DueRetryIsMade(Run(Initial(stat, logSucc), es));
  }

  lemma DueRetryIsMade(s: Link)
    requires Safe(s) && s.retryWait.Some?
    ensures var t := Step(s, RetryTick);
            && t.relogFail == s.relogFail && t.retryWait == None
            && (t.log == s.log || t.log == s.log + [Report(LinkLbs)] || t.log == s.log + [Report(LbsNetError)])
            && (Underway(s.stat) || t.stat == LinkLbs || t.dialing
                || (s.logSucc == 0 && t.log == s.log + [Report(LbsNetError)]))
  {
    var t := s.(loginTimer := true);
    if Underway(s.stat) {
      assert RealLogin(t) == t;
    } else if s.linkIp == "" {
      assert RealLogin(t) == Notify(t, LinkLbs);
    } else if |s.ports| == 0 {
      assert RealLogin(t) == Cancel(Logged(t.(stat := LbsNetError), Report(LbsNetError)));
    }
  }

  // ------------------------------------------- every series is answered, or not

  /** The client goes on by itself: a timer of the login is running. */
  predicate Pursued(s: Link) { s.retryWait.Some? || s.loginTimer }

  /** The last thing that happened is the report of a net error. */
  predicate GaveUp(s: Link) { |s.log| > 0 && s.log[|s.log| - 1].Report? && NetError(s.log[|s.log| - 1].status) }

  /** A retry series is still going on, or its failure has been reported. */
  predicate Answered(s: Link) { s.relogFail > 0 ==> Pursued(s) || GaveUp(s) }

  /** The user cancels, or a server refuses for good, by any result of a login
      but success. */
  predicate Ends(e: Event) {
    match e
    case UserCancel => true
    case KeyRefused => true
    case LbsRefused(reason) => LbsReason(reason) && Fatal(reason)
    case LoginAnswer(res, _) => LoginResult(res) && res != LoginSuccess
    case _ => false
  }

  predicate Abandons(s: Link, e: Event) {
    s.relogFail > 0 && s.retryWait == None && !GaveUp(s) && Ends(e)
  }

  /** Ending the login inside a series is not reported and stops the login
      timer, which leaves only a pending retry to go on. */
  lemma EndsSilently(s: Link, e: Event)
    requires s.relogFail > 0 && s.stat != LoginSuccess && Ends(e)
    ensures var t := Step(s, e);
            t.log == s.log && t.relogFail == s.relogFail && t.retryWait == s.retryWait && !t.loginTimer
  {
    match e
    case UserCancel =>
    case KeyRefused => SilentInSeries(s, LinkKeyError);
    case LbsRefused(reason) => SilentInSeries(s, reason);
    case LoginAnswer(res, saved) => SilentInSeries(s.(loginTimer := false), res);
  }

  lemma SilentInSeries(s: Link, st: LinkStatus)
    requires s.relogFail > 0 && !NetError(st) && st != LoginSuccess
    ensures Notify(s, st) == if Fatal(st) then Cancel(s.(stat := st)) else s.(stat := st)
  {
  }

  lemma BrokenIsAnswered(s: Link, st: LinkStatus)
    requires NetError(st)
    ensures Answered(Broken(s, st))
  {
  }

  lemma RetryTickIsAnswered(s: Link)
    requires Safe(s) && s.retryWait.Some?
    ensures Answered(Step(s, RetryTick))
  {
    DueRetryIsMade(s);
    var t := s.(loginTimer := true);
    if Underway(s.stat) {
      assert RealLogin(t) == t;
    } else if s.linkIp == "" {
      assert RealLogin(t) == Notify(t, LinkLbs);
    } else if |s.ports| > 0 {
      RetryDials(s);
    } else {
      assert Step(s, RetryTick).log == s.log + [Report(LbsNetError)];
    }
  }

  lemma LbsIsAnswered(s: Link, ip: string, ports: seq<nat>)
    requires Answered(s)
    ensures Answered(DoLbs(s, ip, ports))
  {
    var t := s.(linkIp := ip, ports := ports);
    if s.relogFail > 0 {
      SilentInSeries(t, LinkAuth);
    } else {
      OutsideSeries(t, LinkAuth);
    }
    RealLoginIsAnswered(Notify(t, LinkAuth));
  }

  lemma RealLoginIsAnswered(s: Link)
    requires Answered(s)
    ensures Answered(RealLogin(s))
  {
    if Underway(s.stat) {
      assert RealLogin(s) == s;
    } else if s.linkIp == "" {
      if s.relogFail > 0 {
        SilentInSeries(s, LinkLbs);
      } else {
        OutsideSeries(s, LinkLbs);
      }
    } else if |s.ports| == 0 {
      BrokenIsAnswered(s.(stat := LbsNetError), LbsNetError);
    }
  }

  lemma LoginTimersAreAnswered(s: Link, e: Event)
    requires Answered(s) && (s.stat == LoginSuccess ==> s.relogFail == 0) && (e.PingTick? || e.LoginTick?)
    ensures Answered(Step(s, e))
  {
    if e.LoginTick? && s.loginTimer && s.stat != LoginSuccess && s.relogFail > 0 {
      BrokenIsAnswered(Cancel(s).(stat := NetBroken), NetBroken);
    }
  }

  lemma UserIsAnswered(s: Link, e: Event)
    requires Answered(s) && (s.stat == LoginSuccess ==> s.relogFail == 0)
    requires e.UserLogin? || e.UserLogout? || e.Kicked?
    ensures Answered(Step(s, e))
  {
    match e
    case UserLogin => LoginRestarts(s);
    case UserLogout => LogoutReports(s);
    case Kicked =>
      LogoutReports(s);
      assert Notify(DoLogout(s), Kickoff).relogFail == 0;
  }

  lemma LoginRestarts(s: Link)
    requires s.stat == LoginSuccess ==> s.relogFail == 0
    ensures DoLogin(s).relogFail == 0
  {
    if s.stat != LoginSuccess {
      LoginAsks(s);
    }
  }

  lemma ServerIsAnswered(s: Link, e: Event)
    requires Answered(s) && !Ends(e)
    requires e.LbsRefused? || e.Connected? || e.LoginAnswer? || e.LoginFailed?
    ensures Answered(Step(s, e))
  {
    match e
    case LbsRefused(reason) => if s.relogFail > 0 && LbsReason(reason) { SilentInSeries(s, reason); }
    case Connected => if s.relogFail > 0 { SilentInSeries(s.(loginTimer := true, dialing := false), ExchangePassword); }
    case LoginAnswer(res, _) => if res == LoginSuccess { SucceedIs(s); }
    case LoginFailed => if s.relogFail > 0 { SilentInSeries(s, Unknown); }
  }

  lemma StepIsAnswered(s: Link, e: Event)
    requires Safe(s) && (s.stat == LoginSuccess ==> s.relogFail == 0) && Answered(s) && !Ends(e)
    ensures Answered(Step(s, e))
  {
    match e
    case LbsAnswer(ip, ports) => LbsIsAnswered(s, ip, ports);
    case Closed => BrokenIsAnswered(s.(stat := LinkNetError), LinkNetError);
    case Pong => assert Answered(s.(pingCount := 0));
    case PingTick => LoginTimersAreAnswered(s, e);
    case LoginTick => LoginTimersAreAnswered(s, e);
    case RetryTick => if s.retryWait.Some? { RetryTickIsAnswered(s); }
    case UserLogin => UserIsAnswered(s, e);
    case UserLogout => UserIsAnswered(s, e);
    case Kicked => UserIsAnswered(s, e);
    case _ => ServerIsAnswered(s, e);
  }

  lemma EndIsAnsweredIff(s: Link, e: Event)
    requires (s.stat == LoginSuccess ==> s.relogFail == 0) && Answered(s) && Ends(e)
    ensures Answered(Step(s, e)) <==> !Abandons(s, e)
  {
    if s.relogFail > 0 {
      EndsSilently(s, e);
    } else {
      EndOutsideSeries(s, e);
    }
  }

  lemma EndOutsideSeries(s: Link, e: Event)
    requires s.relogFail == 0 && Ends(e)
    ensures Step(s, e).relogFail == 0
  {
    match e
    case UserCancel =>
    case KeyRefused => OutsideSeries(s, LinkKeyError);
    case LbsRefused(reason) => OutsideSeries(s, reason);
    case LoginAnswer(res, saved) => OutsideSeries(s.(loginTimer := false), res);
  }

  lemma OutsideSeries(s: Link, st: LinkStatus)
    requires s.relogFail == 0 && !NetError(st)
    ensures Notify(s, st).relogFail == 0
  {
    var t := if Fatal(st) then Cancel(s.(stat := st)) else s.(stat := st);
    assert t.relogFail == 0;
    assert Notify(s, st) == Tell(t, st);
  }

  /** At every point of the run so far. */
  predicate AlwaysAnswered(s: Link, es: seq<Event>) {
    Answered(Run(s, es)) && (|es| > 0 ==> AlwaysAnswered(s, es[..|es| - 1]))
  }

  predicate NeverAbandons(s: Link, es: seq<Event>) {
    |es| > 0 ==> !Abandons(Run(s, es[..|es| - 1]), es[|es| - 1]) && NeverAbandons(s, es[..|es| - 1])
  }

  /** At no point of a possible run is a retry series left neither going on nor
      reported, if and only if nothing abandons one: no cancelling and no final
      refusal during a series, while no retry is pending. Such an end of a
      series is not reported to the upper layer. */
  lemma {:induction false} SeriesAreAnsweredIff(stat: LinkStatus, logSucc: nat, es: seq<Event>)
    requires PossibleRun(Initial(stat, logSucc), es)
    ensures AlwaysAnswered(Initial(stat, logSucc), es) <==> NeverAbandons(Initial(stat, logSucc), es)
  {
    var s := Initial(stat, logSucc);
    if |es| > 0 {
      var front, e := es[..|es| - 1], es[|es| - 1];
      FrontIsPossible(s, es);
      SeriesAreAnsweredIff(stat, logSucc, front);
      RunSafe(stat, logSucc, front);
      SuccessHasNoSeries(stat, logSucc, front);
      if Answered(Run(s, front)) {
        NextIsAnsweredIff(Run(s, front), e);
      }
    }
  }

  lemma SuccessHasNoSeries(stat: LinkStatus, logSucc: nat, es: seq<Event>)
    ensures var s := Run(Initial(stat, logSucc), es);
            s.stat == LoginSuccess ==> s.relogFail == 0
  {
    EveryRunIsProper(stat, logSucc, es);
  }

  lemma NextIsAnsweredIff(s: Link, e: Event)
    requires Safe(s) && (s.stat == LoginSuccess ==> s.relogFail == 0) && Answered(s)
    ensures Answered(Step(s, e)) <==> !Abandons(s, e)
  {
    if Ends(e) {
      EndIsAnsweredIff(s, e);
    } else {
      StepIsAnswered(s, e);
    }
  }

  /** A series that ends that way: after a success the connection breaks, the
      retry reaches a server, and the server refuses the login. Only the retry
      is on record, and no timer is left. */
  lemma RefusedRetryIsSilent(s: Link, ip: string, ports: seq<nat>, res: LinkStatus, saved: bool)
    requires s.logSucc > 0 && s.relogFail == 0 && ip != "" && |ports| > 0
    requires LoginResult(res) && res != LoginSuccess
    ensures var t := Refused(Outage(s, 1), ip, ports, res, saved);
            t.log == s.log + [Retry(2)] && t.relogFail == 1 && !Pursued(t) && !Answered(t)
  {
    OutageIsRetried(s, 1);
    assert Waits(0) == [] && Waits(1) == [Retry(2)];
    RefusedInSeries(Outage(s, 1), ip, ports, res, saved);
  }

  function Refused(p: Link, ip: string, ports: seq<nat>, res: LinkStatus, saved: bool): Link {
    Step(Step(Step(p, LbsAnswer(ip, ports)), Connected), LoginAnswer(res, saved))
  }

  lemma RefusedInSeries(p: Link, ip: string, ports: seq<nat>, res: LinkStatus, saved: bool)
    requires p.relogFail > 0 && p.retryWait == None && !GaveUp(p) && ip != "" && |ports| > 0
    requires LoginResult(res) && res != LoginSuccess
    ensures var t := Refused(p, ip, ports, res, saved);
            t.log == p.log && t.relogFail == p.relogFail && !Pursued(t) && !Answered(t)
  {
    RetryConnects(p, ip, ports);
    RefusalIsSilent(Step(Step(p, LbsAnswer(ip, ports)), Connected), res, saved);
  }

  lemma RefusalIsSilent(c: Link, res: LinkStatus, saved: bool)
    requires c.relogFail > 0 && c.stat == ExchangePassword && c.retryWait == None && !GaveUp(c)
    requires LoginResult(res) && res != LoginSuccess
    ensures var t := Step(c, LoginAnswer(res, saved));
            t.log == c.log && t.relogFail == c.relogFail && !Pursued(t) && !Answered(t)
  {
    EndsSilently(c, LoginAnswer(res, saved));
  }

  lemma RetryConnects(p: Link, ip: string, ports: seq<nat>)
    requires p.relogFail > 0 && ip != "" && |ports| > 0
    ensures Step(Step(p, LbsAnswer(ip, ports)), Connected)
            == p.(stat := ExchangePassword, linkIp := ip, ports := ports, socket := true, dialing := false,
                  loginTimer := true)
  {
    var q := p.(linkIp := ip, ports := ports);
    SilentInSeries(q, LinkAuth);
    var d := q.(stat := LinkAuth, socket := true, dialing := true);
    assert Step(p, LbsAnswer(ip, ports)) == d;
    SilentInSeries(d.(loginTimer := true, dialing := false), ExchangePassword);
  }

  // --------------------------------------------------------------- the object

  class Login {
    var stat: LinkStatus
    var pingCount: nat
    var relogFailTime: nat
    var logSuccTime: nat
    var linkIp: string
    var linkPorts: seq<nat>
    var socket: bool
    ghost var dialing: bool
    var loginTimer: bool
    var pingTimer: bool
    var relogWaitTimer: Option<nat>
    var history: seq<string>
    ghost var log: seq<Act>

    ghost function State(): Link
      reads this
    {
      Link(stat, pingCount, relogFailTime, logSuccTime, linkIp, linkPorts, socket, dialing, loginTimer, pingTimer,
           relogWaitTimer, history, log)
    }

    constructor (garbageStat: LinkStatus, garbageCount: nat)
      ensures State() == Initial(garbageStat, garbageCount)
    {
      stat, logSuccTime := garbageStat, garbageCount;
      pingCount, relogFailTime, linkIp, linkPorts := 0, 0, "", [];
      socket, dialing, loginTimer, pingTimer, relogWaitTimer := false, false, false, false, None;
      history, log := [], [];
    }

    method CancelLogin()
      modifies this
      ensures State() == Cancel(old(State()))
    {
      pingCount := 0;
      if stat != LoginSuccess {
        socket, dialing := false, false;
      }
      loginTimer := false;
      stat := LinkInit;
    }

    /** The upper layer's `onLoginStatus`. */
    ghost method OnLoginStatus(st: LinkStatus)
      modifies this`log
      ensures log == old(log) + [Report(st)]
    {
      log := log + [Report(st)];
    }

    method NotifyStatus(st: LinkStatus)
      modifies this
      ensures State() == Notify(old(State()), st)
      decreases 1
    {
      stat := st;
      if NetError(st) {
        OnBroken(st);
      } else {
        OnOther(st);
      }
    }

    /** The other cases: a fatal one cancels before it is told. */
    method OnOther(st: LinkStatus)
      modifies this
      ensures State() == Tell(if Fatal(st) then Cancel(old(State())) else old(State()), st)
    {
      if Fatal(st) {
        CancelLogin();
      }
      TellUpper(st);
    }

    /** The net-error case of `notifyStatus`: retry or give up. */
    method OnBroken(st: LinkStatus)
      modifies this
      ensures State() == Broken(old(State()), st)
      decreases 1, 0
    {
      if logSuccTime != 0 && relogFailTime < MAX_RETIME {
        ReLogin(true);
      } else {
        OnLoginStatus(st);
        CancelLogin();
      }
    }

    /** The default case of `notifyStatus`. */
    method TellUpper(st: LinkStatus)
      modifies this
      ensures State() == Tell(old(State()), st)
    {
      if relogFailTime == 0 {
        OnLoginStatus(st);
      } else if st == LoginSuccess {
        OnLoginStatus(ReloginSuccess);
        relogFailTime := 0;
      }
    }

    /** The four calls terminate: a retry only starts a timer, a notification
        at most retries, a connection attempt at most notifies. */
    method ReLogin(retry: bool)
      modifies this
      ensures State() == if retry then ScheduleRetry(old(State())) else StartLogin(old(State()))
      decreases if retry then 0 else 3
    {
      CancelLogin();
      linkIp := "";
      linkPorts := [];
      var time := relogFailTime;
      if !retry {
        relogFailTime := 0;
        log := log + [Requested(true)];
        TryLogin();
        return;
      } else {
        relogFailTime := relogFailTime + 1;
      }
      time := 2 * time;
      if time < MIN_RELOG {
        time := MIN_RELOG;
      }
      time := if time > MAX_RELOG then MAX_RELOG else time;
      log := log + [Retry(time)];
      relogWaitTimer := Some(time);
      pingTimer := false;
    }

    /** `realLogin`. */
    method TryLogin()
      modifies this
      ensures State() == RealLogin(old(State()))
      decreases 2
    {
      if stat == ExchangePassword || stat == LoginSuccess {
        return;
      }
      if linkIp == "" {
        // asks the location service for an address
        NotifyStatus(LinkLbs);
      } else if |linkPorts| > 0 {
        socket, dialing := true, true;
      } else {
        NotifyStatus(LbsNetError);
      }
    }

    method Locate(ip: string, ports: seq<nat>)
      modifies this
      ensures State() == DoLbs(old(State()), ip, ports)
      decreases 3
    {
      linkIp := ip;
      linkPorts := ports;
      NotifyStatus(LinkAuth);
      TryLogin();
    }

    method LogIn()
      modifies this
      ensures State() == DoLogin(old(State()))
    {
      logSuccTime := 0;
      if stat != LoginSuccess {
        ReLogin(false);
      } else {
        log := log + [Requested(false)];
      }
    }

    method LogOut()
      modifies this
      ensures State() == DoLogout(old(State()))
    {
      HangUp();
      NotifyStatus(Logout);
    }

    /** The part of `doLogout` before its notification. */
    method HangUp()
      modifies this
      ensures State() == Logged(Cancel(old(State())), LoggedOut)
                           .(socket := false, dialing := false, relogFail := 0, pingTimer := false)
    {
      CancelLogin();
      if socket {
        socket := false;
      }
      dialing := false;
      relogFailTime := 0;
      pingTimer := false;
      log := log + [LoggedOut];
    }

    method OnClose()
      modifies this
      ensures State() == Notify(old(State()), LinkNetError)
    {
      NotifyStatus(LinkNetError);
    }

    method OnCreate()
      modifies this
      ensures State() == Notify(old(State()).(loginTimer := true, dialing := false), ExchangePassword)
    {
      dialing := false;
      loginTimer := false;
      if !loginTimer {
        loginTimer := true;
      }
      NotifyStatus(ExchangePassword);
    }

    method OnLoginSuccess()
      modifies this
      ensures State() == Succeed(old(State()))
    {
      StartHeartbeat();
      NotifyStatus(LoginSuccess);
      logSuccTime := logSuccTime + 1;
    }

    method StartHeartbeat()
      modifies this`loginTimer, this`pingTimer
      ensures State() == old(State()).(loginTimer := false, pingTimer := true)
    {
      loginTimer := false;
      pingTimer := true;
    }

    method OnLoginError(st: LinkStatus)
      modifies this
      ensures State() == Notify(old(State()).(loginTimer := false), st)
    {
      loginTimer := false;
      NotifyStatus(st);
    }

    /** Saves the address in the history, when the configuration is there. */
    method KeepAddress(saved: bool)
      modifies this`history
      ensures history == if saved then LinkHistory.Record(old(history), linkIp) else old(history)
    {
      if saved {
        history := LinkHistory.RecordAnswer(history, linkIp);
      }
    }

    method OnLogin(answered: bool, res: LinkStatus, saved: bool)
      requires LoginResult(res)
      modifies this
      ensures State() == if answered then Answer(old(State()), res, saved) else Notify(old(State()), Unknown)
    {
      if !answered {
        NotifyStatus(Unknown);
      } else {
        OnResult(res);
        KeepAddress(saved);
      }
    }

    /** The branch of `onLogin` on the result. */
    method OnResult(res: LinkStatus)
      modifies this
      ensures State() == Result(old(State()), res)
    {
      if res == LoginSuccess {
        OnLoginSuccess();
      } else {
        OnLoginError(res);
      }
    }

    method OnKick()
      modifies this
      ensures State() == Notify(DoLogout(old(State())), Kickoff)
    {
      LogOut();
      NotifyStatus(Kickoff);
    }

    method OnExchangeKeyRefused()
      modifies this
      ensures State() == Notify(old(State()), LinkKeyError)
    {
      NotifyStatus(LinkKeyError);
    }

    method OnPong()
      modifies this
      ensures State() == old(State()).(pingCount := 0)
    {
      pingCount := 0;
    }

    method OnPingTimer()
      requires pingTimer
      modifies this
      ensures State() == Ping(old(State()))
    {
      pingCount := pingCount + 1;
      if pingCount - 1 >= PING_LIMIT {
        ReLogin(true);
      }
    }

    method OnLoginTimer()
      requires loginTimer
      modifies this
      ensures State() == Timeout(old(State()))
    {
      if stat == LoginSuccess {
        loginTimer := false;
      } else {
        CancelLogin();
        if relogFailTime == 0 {
          NotifyStatus(LoginTimeout);
        } else {
          NotifyStatus(NetBroken);
        }
      }
    }

    /** `realRelog`. */
    method OnRetryTimer()
      requires relogWaitTimer.Some?
      modifies this
      ensures State() == RealRelog(old(State()))
    {
      if !loginTimer {
        loginTimer := true;
      }
      TryLogin();
      relogWaitTimer := None;
    }
  }
}
