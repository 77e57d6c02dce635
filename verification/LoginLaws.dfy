/** What single events and short runs of the login do, in terms of what the user
    and the upper layer see: what is stopped, what goes on, what is told. */
module LoginLaws {
  import opened Common
  import opened LoginLink
  import LinkHistory

  // ------------------------------------------------------ logging out is final

  /** Nothing is connected or about to be, and no timer of the login runs. */
  predicate AtRest(s: Link) { !s.socket && !s.dialing && !s.loginTimer && !s.pingTimer }

  /** Whatever was going on, logging out ends it; so does being kicked, which is
      reported on top. */
  lemma LogoutEndsAll(s: Link)
    ensures var t := Step(s, UserLogout);
            && AtRest(t) && t.stat == LinkInit && t.relogFail == 0 && t.pingCount == 0
            && t.log == s.log + [LoggedOut] + [Report(Logout)]
    ensures var k := Step(s, Kicked);
            && AtRest(k) && k.stat == LinkInit && k.relogFail == 0 && k.pingCount == 0
            && k.log == s.log + [LoggedOut] + [Report(Logout)] + [Report(Kickoff)]
  {
    LogoutReports(s);
    LogoutStops(s);
    KickStops(DoLogout(s));
  }

  lemma LogoutStops(s: Link)
    ensures AtRest(DoLogout(s)) && DoLogout(s).pingCount == 0
  {
  }

  lemma KickStops(u: Link)
    requires AtRest(u) && u.relogFail == 0
    ensures Notify(u, Kickoff) == u.(stat := LinkInit, pingCount := 0, log := u.log + [Report(Kickoff)])
  {
  }

  /** The timers, and late answers to heartbeats. */
  predicate Idle(e: Event) { e.PingTick? || e.LoginTick? || e.RetryTick? || e.Pong? }

  lemma {:induction false} AtRestStays(u: Link, es: seq<Event>)
    requires AtRest(u) && u.pingCount == 0 && u.retryWait == None
    requires forall i :: 0 <= i < |es| ==> Idle(es[i])
    ensures Run(u, es) == u
  {
    if |es| == 0 {
    } else {
      AtRestStays(u, es[..|es| - 1]);
    }
  }

  /** With no retry pending, nothing that the timers do after a logout adds
      anything or changes anything: the client stays logged out. */
  lemma LoggedOutIsQuiet(s: Link, es: seq<Event>)
    requires s.retryWait == None && forall i :: 0 <= i < |es| ==> Idle(es[i])
    ensures Run(Step(s, UserLogout), es) == Step(s, UserLogout)
  {
    LogoutEndsAll(s);
    LogoutReports(s);
    AtRestStays(Step(s, UserLogout), es);
  }

  // ---------------------------------------------------- cancelling is not

  /** Cancelling drops an unfinished login altogether. */
  lemma CancelEndsLogin(s: Link)
    requires s.stat != LoginSuccess
    ensures var t := Step(s, UserCancel);
            && !t.socket && !t.dialing && !t.loginTimer && t.pingCount == 0 && t.stat == LinkInit
            && t.log == s.log && t.pingTimer == s.pingTimer && t.relogFail == s.relogFail
  {
  }

  /** An established connection stays, with its heartbeat: four more unanswered
      ticks and the cancelled client logs itself in again. */
  lemma CancelKeepsConnection(s: Link)
    requires s.stat == LoginSuccess && s.socket && s.pingTimer && s.relogFail == 0
    ensures var t := Step(s, UserCancel);
            var u := Step(Step(Step(t, PingTick), PingTick), PingTick);
            && t.socket && t.pingTimer && t.stat == LinkInit && t.log == s.log
            && u.log == s.log && u.socket
            && Step(u, PingTick).log == s.log + [Retry(2)] && Step(u, PingTick).retryWait == Some(2)
  {
    SilentLinkIsRetried(Step(s, UserCancel));
  }

  /** A link that is given up while connected keeps its heartbeat as well, so
      that four ticks later a retry is scheduled all the same. */
  lemma GivenUpLinkStillBeats(s: Link)
    requires s.stat == LoginSuccess && s.pingTimer && s.logSucc == 0 && s.relogFail == 0
    ensures var t := Step(s, Closed);
            && t.log == s.log + [Report(LinkNetError)] && !t.socket && !t.loginTimer && t.pingTimer
            && Step(Step(Step(Step(t, PingTick), PingTick), PingTick), PingTick).log == t.log + [Retry(2)]
  {
    SilentLinkIsRetried(Step(s, Closed));
  }

  // --------------------------------------------------------------- heartbeats

  /** The ticks since the last answer. */
  function Unanswered(es: seq<Event>): nat {
    if |es| == 0 || es[|es| - 1].Pong? then 0
    else Unanswered(es[..|es| - 1]) + 1
  }

  /** Never more than three in a row without an answer. */
  predicate Beating(es: seq<Event>) {
    |es| > 0 ==> Beating(es[..|es| - 1]) && Unanswered(es) <= 3
  }

  /** As long as every fourth heartbeat at the latest is answered, nothing
      happens; the first fourth one without an answer schedules a retry. */
  lemma {:induction false} HeartbeatKeepsLink(s: Link, es: seq<Event>)
    requires s.pingTimer && s.pingCount == 0 && Beating(es)
    requires forall i :: 0 <= i < |es| ==> es[i].PingTick? || es[i].Pong?
    ensures Run(s, es) == s.(pingCount := Unanswered(es))
    ensures Unanswered(es) == 3 ==> Step(Run(s, es), PingTick).log == s.log + [Retry(Wait(s.relogFail))]
  {
    if |es| == 0 {
    } else {
      HeartbeatKeepsLink(s, es[..|es| - 1]);
    }
  }

  // ---------------------------------------------------------- what is refused

  /** The status that stands for an event that refuses a login. */
  function Reason(e: Event): Option<LinkStatus> {
    match e
    case KeyRefused => Some(LinkKeyError)
    case LoginFailed => Some(Unknown)
    case LbsRefused(reason) => if LbsReason(reason) then Some(reason) else None
    case LoginAnswer(res, _) => if LoginResult(res) && res != LoginSuccess then Some(res) else None
    case _ => None
  }

  /** Refusals after which there is no point in going on. */
  predicate Final(st: LinkStatus) {
    st == LinkKeyError || st == ProtocolOld || st == ClientOld || st == PasswdError || st == UserNonexist
    || st == ServerError
  }

  /** Outside a series each refusal is told, once and as what it is; a final one
      closes the unfinished connection, any other leaves it. */
  lemma RefusalIsTold(s: Link, e: Event)
    requires s.relogFail == 0 && s.stat != LoginSuccess && Reason(e).Some?
    ensures var (t, st) := (Step(s, e), Reason(e).value);
            && t.log == s.log + [Report(st)] && t.retryWait == s.retryWait && t.relogFail == 0
            && t.stat == (if Final(st) then LinkInit else st)
            && t.socket == (s.socket && !Final(st))
            && t.loginTimer == (s.loginTimer && !Final(st) && !e.LoginAnswer?)
  {
    match e
    case KeyRefused => ToldOutside(s, LinkKeyError);
    case LoginFailed => ToldOutside(s, Unknown);
    case LbsRefused(reason) => ToldOutside(s, reason);
    case LoginAnswer(res, _) => ToldOutside(s.(loginTimer := false), res);
  }

  lemma ToldOutside(s: Link, st: LinkStatus)
    requires s.relogFail == 0 && !NetError(st) && st != LoginSuccess && st != Kickoff && st != Logout
    ensures var t := s.(stat := st);
            Notify(s, st) == Logged(if Final(st) then Cancel(t) else t, Report(st))
  {
    var t := s.(stat := st);
    assert Notify(s, st) == Tell(if Final(st) then Cancel(t) else t, st);
  }

  /** The saved history after any answer of the server, accepted or not. */
  lemma AnswerIsSaved(s: Link, res: LinkStatus, saved: bool)
    requires LoginResult(res)
    ensures Step(s, LoginAnswer(res, saved)).history
            == if saved then LinkHistory.Record(s.history, s.linkIp) else s.history
  {
    ResultKeepsAddress(s, res);
    AnswerIs(s, res, saved);
  }

  lemma AnswerIs(s: Link, res: LinkStatus, saved: bool)
    requires LoginResult(res)
    ensures var t := Result(s, res);
            Step(s, LoginAnswer(res, saved)).history
            == if saved then LinkHistory.Record(t.history, t.linkIp) else t.history
  {
  }

  lemma ResultKeepsAddress(s: Link, res: LinkStatus)
    requires LoginResult(res)
    ensures Result(s, res).linkIp == s.linkIp && Result(s, res).history == s.history
  {
    if res == LoginSuccess {
      SucceedIs(s);
    } else {
      NoteKeepsAddress(s.(loginTimer := false), res);
    }
  }

  lemma NoteKeepsAddress(s: Link, st: LinkStatus)
    requires !NetError(st)
    ensures Notify(s, st).linkIp == s.linkIp && Notify(s, st).history == s.history
  {
    var t := s.(stat := st);
    assert Notify(s, st) == Tell(if Fatal(st) then Cancel(t) else t, st);
  }

  /** A login that takes too long is told as that, and ended. */
  lemma SlowLoginIsTold(s: Link)
    requires s.loginTimer && s.stat != LoginSuccess && s.relogFail == 0
    ensures var t := Step(s, LoginTick);
            t.log == s.log + [Report(LoginTimeout)] && !t.socket && !t.dialing && !t.loginTimer && t.relogFail == 0
  {
    assert Step(s, LoginTick) == Notify(Cancel(s), LoginTimeout);
  }

  /** Inside a series it counts as a broken net: retried, or reported when no
      retry is left. */
  lemma SlowRetryIsBroken(s: Link)
    requires s.loginTimer && s.stat != LoginSuccess && 0 < s.relogFail <= MAX_RETIME
    ensures var t := Step(s, LoginTick);
            && !t.socket && !t.dialing && !t.loginTimer
            && (if s.logSucc > 0 && s.relogFail < 5 then
                  t.log == s.log + [Retry(2 * s.relogFail)] && t.retryWait == Some(2 * s.relogFail)
                else t.log == s.log + [Report(NetBroken)] && t.retryWait == s.retryWait)
  {
    var c := Cancel(s).(stat := NetBroken);
    assert Step(s, LoginTick) == Broken(c, NetBroken);
  }

  /** Once logged in, the login timer only ends itself. */
  lemma LoggedInIgnoresLoginTimer(s: Link)
    requires s.stat == LoginSuccess
    ensures Step(s, LoginTick) == s.(loginTimer := false)
  {
  }

  /** A request to log in while logged in is ignored, but for the success count. */
  lemma SecondLoginIsIgnored(s: Link)
    requires s.stat == LoginSuccess
    ensures Step(s, UserLogin) == s.(logSucc := 0, log := s.log + [Requested(false)])
  {
  }

  /** An address without ports is a failure of the location service. */
  lemma AddressWithoutPortsFails(s: Link, ip: string)
    requires s.relogFail == 0 && s.logSucc == 0 && ip != ""
    ensures Step(s, LbsAnswer(ip, [])).log == s.log + [Report(LinkAuth)] + [Report(LbsNetError)]
  {
    var t := s.(linkIp := ip, ports := []);
    ToldOutside(t, LinkAuth);
    var u := Notify(t, LinkAuth);
    assert RealLogin(u) == Broken(u.(stat := LbsNetError), LbsNetError);
  }

  /** No address at all makes the client ask again. */
  lemma NoAddressAsksAgain(s: Link)
    requires s.relogFail == 0
    ensures var t := Step(s, LbsAnswer("", []));
            t.stat == LinkLbs && t.log == s.log + [Report(LinkAuth)] + [Report(LinkLbs)]
  {
    var t := s.(linkIp := "", ports := []);
    ToldOutside(t, LinkAuth);
    var u := Notify(t, LinkAuth);
    ToldOutside(u, LinkLbs);
    assert RealLogin(u) == Notify(u, LinkLbs);
  }

  /** The retry timer that comes due during a login, or after it, starts the
      login timer and nothing else. */
  lemma RetryDuringLogin(s: Link)
    requires s.retryWait.Some? && Underway(s.stat)
    ensures Step(s, RetryTick) == s.(loginTimer := true, retryWait := None)
  {
  }

  /** A broken connection is closed for good, and before a retry its address is
      forgotten. */
  lemma BreakCloses(s: Link)
    ensures var t := Step(s, Closed);
            && !t.socket && !t.dialing && !t.loginTimer && t.pingCount == 0 && t.stat == LinkInit
            && (if s.logSucc > 0 && s.relogFail < 5 then
                  t.linkIp == "" && t.ports == [] && !t.pingTimer && t.relogFail == s.relogFail + 1
                else
                  t.linkIp == s.linkIp && t.ports == s.ports && t.pingTimer == s.pingTimer
                  && t.relogFail == s.relogFail)
  {
    var b := s.(stat := LinkNetError);
    assert Step(s, Closed) == Broken(b, LinkNetError);
  }

  /** A connection that is silent is not: its socket stays while the retry is
      scheduled, but not its heartbeat, nor its address. */
  lemma SilentSocketStays(s: Link)
    requires s.stat == LoginSuccess && s.socket && s.pingTimer && s.pingCount == 3
    ensures var t := Step(s, PingTick);
            && t.socket && !t.pingTimer && !t.loginTimer && t.linkIp == "" && t.ports == [] && t.stat == LinkInit
            && t.log == s.log + [Retry(Wait(s.relogFail))] && t.relogFail == s.relogFail + 1
  {
  }
}
