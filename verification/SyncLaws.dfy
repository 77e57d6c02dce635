/** What the sync controller's corrections, hold-offs and turns do to what is
    played and to the reports that follow. */
module SyncLaws {
  import opened Common
  import opened SyncControl

  function From(s: Sync, es: seq<Event>): Sync {
    if |es| == 0 then s else Step(From(s, es[..|es| - 1]), es[|es| - 1])
  }

  // -------------------------------------------------------- the judged distance

  /** Late and early mean more than a second, at 1024 samples to a packet and
      eight bytes to a sample time, 48000 stereo samples of two bytes a second. */
  lemma SideIsOneSecond(diff: int)
    ensures var delay := (diff as real) * (1024.0 * 8.0 / (48000.0 * 2.0 * 2.0));
            && (SideOf(diff) == Late <==> delay > 1.0)
            && (SideOf(diff) == Early <==> delay < -1.0)
  {
    assert (diff as real) * (1024.0 * 8.0 / (48000.0 * 2.0 * 2.0)) == (diff as real) * 16.0 / 375.0;
    assert ((diff * 16) as real) == (diff as real) * 16.0;
  }

  /** Exactly when a report of the video stream is judged: it is sound, on time
      and not one of the skipped ones, it is new, no hold-off is running, and
      there is a packet to compare with; and the queue is not too long when the
      audio is late. */
  lemma ReportIsJudgedIff(s: Sync, seqno: int, bufferLength: real, now: int, fetchable: nat)
    ensures var current := if |s.queue| > 0 then s.queue[0].seqno else s.protoSeq;
            |Stream(s, seqno, bufferLength, now, fetchable).log| > |s.log|
            <==> && bufferLength <= 20.0
                 && !(s.lastStream > 0 && now - s.lastStream > 2000)
                 && s.streamCount <= 0 && seqno != s.lastSeq && now >= s.lastAdjust && current > 0
                 && !((current - seqno) * 16 > 375 && |s.queue| >= 1000)
  {
    var (t, judged) := Arrive(s, seqno, bufferLength, now);
    if judged {
      JudgedAdds(t, CurrentSeq(t) - seqno, now, fetchable);
    }
  }

  lemma JudgedAdds(t: Sync, diff: int, now: int, fetchable: nat)
    ensures var r := Judge(t, diff, now, fetchable);
            if diff * 16 > 375 && |t.queue| >= 1000 then r.log == t.log
            else |r.log| > |t.log| && r.log[..|t.log| + 1] == t.log + [Sample(SideOf(diff), now)]
  {
  }

  // ------------------------------------------------------------ a late correction

  /** The eleventh late sample in a row holds the queue back for as many packets
      as the audio is ahead: all callbacks but the last of them play nothing. */
  lemma LateCorrectionHolds(s: Sync, diff: int, now: int, fetchable: nat, count: nat)
    requires s.lateFac == 10 && diff * 16 > 375 && 1 <= |s.queue| < 1000 && 1 <= count <= diff
    ensures var t := Judge(s, diff, now, fetchable);
            Plays(t, count).queue == if count < diff then s.queue else s.queue[1..]
  {
    var t := Judge(s, diff, now, fetchable);
    LateCorrectionIs(s, diff, now, fetchable);
    LateHoldsBack(t, count);
  }

  lemma LateCorrectionIs(s: Sync, diff: int, now: int, fetchable: nat)
    requires s.lateFac == 10 && diff * 16 > 375 && |s.queue| < 1000
    ensures var t := Judge(s, diff, now, fetchable);
            && t.delayCount == diff && t.queue == s.queue && t.lateFac == 0
            && t.log == s.log + [Sample(Late, now)] + [Correction(Late, now, diff)]
  {
  }

  predicate LateCorrected(before: Sync, after: Sync) {
    |after.log| > |before.log| && after.log[|after.log| - 1].Correction? && after.log[|after.log| - 1].side == Late
  }

  /** What a late correction logs is what it holds back. */
  lemma LoggedHoldIsSet(s: Sync, e: Event)
    requires LateCorrected(s, Step(s, e))
    ensures var t := Step(s, e);
            t.delayCount == t.log[|t.log| - 1].packets >= 24 && t.queue == s.queue
  {
    match e
    case OnStream(seqno, bufferLength, now, fetchable) =>
      var (a, judged) := Arrive(s, seqno, bufferLength, now);
      if judged {
        LateJudged(a, CurrentSeq(a) - seqno, now, fetchable);
      }
    case _ =>
  }

  lemma LateJudged(a: Sync, diff: int, now: int, fetchable: nat)
    ensures var t := Judge(a, diff, now, fetchable);
            && (LateCorrected(a, t) ==> t.delayCount == t.log[|t.log| - 1].packets >= 24 && t.queue == a.queue)
            && a.log <= t.log
  {
    match SideOf(diff)
    case Late =>
    case Early =>
      var t := Judge(a, diff, now, fetchable);
      assert t.log == a.log + [Sample(Early, now)] || t.log[|t.log| - 1].side == Early;
    case Neutral =>
  }

  function PlaysIn(es: seq<Event>): nat {
    if |es| == 0 then 0 else PlaysIn(es[..|es| - 1]) + if es[|es| - 1].OnPlay? then 1 else 0
  }

  predicate Listening(e: Event) { e.OnPlay? || e.OnVoice? }

  /** The packets that come in for the current speaker. */
  function Heard(s: Sync, es: seq<Event>): seq<Packet> {
    if |es| == 0 then []
    else
      var before := Heard(s, es[..|es| - 1]);
      match es[|es| - 1]
      case OnVoice(user, packet) =>
        if user == s.micUser && s.lastSeq > 0 && packet.seqno != -1 then before + [packet] else before
      case _ => before
  }

  /** On every run: after a logged late correction of k packets with something
      queued, the first k - 1 callbacks play nothing and the k-th plays the first
      packet, whatever comes in meanwhile. */
  lemma {:induction false} LoggedHoldIsKept(s: Sync, e: Event, es: seq<Event>)
    requires LateCorrected(s, Step(s, e)) && |s.queue| > 0
    requires forall i :: 0 <= i < |es| ==> Listening(es[i])
    requires var t := Step(s, e); PlaysIn(es) <= t.log[|t.log| - 1].packets
    ensures var (t, r) := (Step(s, e), From(Step(s, e), es));
            var k := t.log[|t.log| - 1].packets;
            && r.micUser == t.micUser && r.lastSeq == t.lastSeq && r.log == t.log
            && (if PlaysIn(es) < k then r.queue == s.queue + Heard(t, es) && r.delayCount == k - PlaysIn(es)
                else r.queue == (s.queue + Heard(t, es))[1..] && r.delayCount <= 0)
  {
    LoggedHoldIsSet(s, e);
    HoldIsKept(Step(s, e), es);
  }

  lemma {:induction false} HoldIsKept(t: Sync, es: seq<Event>)
    requires |t.queue| > 0 && t.delayCount >= 1 && PlaysIn(es) <= t.delayCount
    requires forall i :: 0 <= i < |es| ==> Listening(es[i])
    ensures var r := From(t, es);
            && r.micUser == t.micUser && r.lastSeq == t.lastSeq && r.log == t.log
            && (if PlaysIn(es) < t.delayCount then r.queue == t.queue + Heard(t, es)
                else r.queue == (t.queue + Heard(t, es))[1..])
            && r.delayCount == t.delayCount - PlaysIn(es)
  {
    if |es| == 0 {
    } else {
      HoldIsKept(t, es[..|es| - 1]);
      assert (t.queue + Heard(t, es[..|es| - 1]))[1..] == t.queue[1..] + Heard(t, es[..|es| - 1]);
    }
  }

  // ----------------------------------------------------------- an early correction

  /** The eleventh early sample logs what it throws away: packets of a longer
      queue, or else packets fetched from the session, eleven fewer than the
      audio is behind, as far as there are any. */
  lemma EarlyCorrectionLogs(s: Sync, n: int, now: int, fetchable: nat)
    requires s.earlyFac == 10 && n * 16 > 375
    ensures var t := Judge(s, -n, now, fetchable);
            var k := n * 24 / 25;
            && |t.log| == |s.log| + 2 && t.log[..|s.log| + 1] == s.log + [Sample(Early, now)]
            && (|s.queue| >= 2 ==>
                  t.log[|s.log| + 1] == Correction(Early, now, |s.queue| - |t.queue|)
                  && |s.queue| - |t.queue| == (if k < |s.queue| then k else |s.queue|))
            && (|s.queue| <= 1 ==>
                  t.queue == s.queue
                  && t.log[|s.log| + 1]
                     == Correction(Early, now, if k <= 11 then 0 else if k - 11 < fetchable then k - 11 else fetchable))
  {
    assert n >= 24;
  }

  // -------------------------------------------------------------- the hold-off

  /** The n-th late correction of a turn holds off for 30 n seconds: no report
      before that is judged, and a new one at that time is. */
  lemma LateHoldOff(s: Sync, diff: int, now: int, fetchable: nat, seqno: int, at: int, more: nat)
    requires s.lateFac == 10 && diff * 16 > 375 && |s.queue| < 1000 && now >= s.lastAdjust
    ensures var (t, n) := (Judge(s, diff, now, fetchable), s.lateCount + 1);
            && t.lateCount == n
            && (now <= at < now + 30000 * n ==> Stream(t, seqno, 0.0, at, more).log == t.log)
            && (at >= now + 30000 * n && Waiting(t, seqno, at) ==> |Stream(t, seqno, 0.0, at, more).log| > |t.log|)
  {
    var t := Judge(s, diff, now, fetchable);
    LateHoldIs(s, diff, now, fetchable);
    HoldOffDecides(t, seqno, at, more);
  }

  /** All that a report with these data would still need is the end of the
      hold-off. */
  predicate Waiting(t: Sync, seqno: int, at: int) {
    && (t.lastStream <= 0 || at - t.lastStream <= 2000) && t.streamCount <= 0 && seqno != t.lastSeq
    && CurrentSeq(t) > 0 && |t.queue| < 1000
  }

  lemma LateHoldIs(s: Sync, diff: int, now: int, fetchable: nat)
    requires s.lateFac == 10 && diff * 16 > 375 && |s.queue| < 1000
    ensures var t := Judge(s, diff, now, fetchable);
            t.lateCount == s.lateCount + 1 && t.lastAdjust == now + 30000 * (s.lateCount + 1)
  {
    var n := s.lateCount + 1;
    assert 30000 * n >= 0;
  }

  lemma HoldOffDecides(t: Sync, seqno: int, at: int, more: nat)
    ensures at < t.lastAdjust ==> Stream(t, seqno, 0.0, at, more).log == t.log
    ensures at >= t.lastAdjust && Waiting(t, seqno, at) ==> |Stream(t, seqno, 0.0, at, more).log| > |t.log|
  {
    var (u, judged) := Arrive(t, seqno, 0.0, at);
    if judged {
      JudgedAdds(u, CurrentSeq(u) - seqno, at, more);
    }
  }

  /** The n-th early one for 60 n seconds; the count goes up to eleven and then
      between ten and eleven. */
  lemma EarlyHoldOff(s: Sync, diff: int, now: int, fetchable: nat, seqno: int, at: int, more: nat)
    requires s.earlyFac == 10 && diff * 16 < -375 && s.earlyCount <= 11
    ensures var t := Judge(s, diff, now, fetchable);
            var n := if s.earlyCount == 11 then 10 else s.earlyCount + 1;
            && t.earlyCount == n
            && (now <= at < now + 60000 * n ==> Stream(t, seqno, 0.0, at, more).log == t.log)
            && (at >= now + 60000 * n && Waiting(t, seqno, at) ==> |Stream(t, seqno, 0.0, at, more).log| > |t.log|)
  {
    var t := Judge(s, diff, now, fetchable);
    EarlyHoldIs(s, diff, now, fetchable);
    HoldOffDecides(t, seqno, at, more);
  }

  lemma EarlyHoldIs(s: Sync, diff: int, now: int, fetchable: nat)
    requires s.earlyFac == 10 && diff * 16 < -375 && s.earlyCount <= 11
    ensures var t := Judge(s, diff, now, fetchable);
            var n := if s.earlyCount == 11 then 10 else s.earlyCount + 1;
            t.earlyCount == n && t.lastAdjust == now + 60000 * n
  {
    var n := if s.earlyCount == 11 then 10 else s.earlyCount + 1;
    assert 60000 * n >= 0;
  }

  /** A sample more than five minutes after the hold-off ended cuts both counts
      back to at most one, any earlier one keeps them, unless it corrects. */
  lemma QuietMinutesRelax(s: Sync, diff: int, now: int, fetchable: nat)
    requires s.lateFac < 10 && s.earlyFac < 10 && |s.queue| < 1000
    ensures var t := Judge(s, diff, now, fetchable);
            if now > s.lastAdjust + 300000 then
              && t.lateCount == (if s.lateCount == 0 then 0 else 1)
              && t.earlyCount == (if s.earlyCount == 0 then 0 else 1)
            else t.lateCount == s.lateCount && t.earlyCount == s.earlyCount
  {
  }

  // --------------------------------------------------------- a gap in the reports

  /** Reports in close succession, the first one at most two seconds after
      `since`. */
  predicate Close(es: seq<Event>, since: int) {
    |es| > 0 ==>
      && Close(es[..|es| - 1], since)
      && es[|es| - 1].OnStream? && es[|es| - 1].bufferLength <= 20.0
      && es[|es| - 1].now - LastReport(es[..|es| - 1], since) <= 2000
  }

  function LastReport(es: seq<Event>, since: int): int {
    if |es| == 0 || !es[|es| - 1].OnStream? then since else es[|es| - 1].now
  }

  /** After more than two seconds without a report, the n-th time, nothing is
      judged for 30 n seconds, and not in the next fifty reports either. */
  lemma GapHoldsOff(s: Sync, seqno: int, now: int, fetchable: nat, es: seq<Event>)
    requires s.lastStream > 0 && now - s.lastStream > 2000 && |es| <= 50 && Close(es, now)
    ensures var t := Stream(s, seqno, 0.0, now, fetchable);
            && t.netErrors == s.netErrors + 1 && t.lastAdjust == now + 30000 * t.netErrors
            && t.log == s.log && t.queue == s.queue
            && From(t, es).log == s.log && From(t, es).streamCount == 50 - |es|
            && From(t, es).lastAdjust == t.lastAdjust
  {
    FiftyAreSkipped(Stream(s, seqno, 0.0, now, fetchable), es);
  }

  lemma {:induction false} FiftyAreSkipped(t: Sync, es: seq<Event>)
    requires t.streamCount == 50 && |es| <= 50 && Close(es, t.lastStream)
    ensures var r := From(t, es);
            && r == t.(streamCount := 50 - |es|, lastStream := LastReport(es, t.lastStream))
  {
    if |es| == 0 {
    } else {
      FiftyAreSkipped(t, es[..|es| - 1]);
    }
  }

  // ---------------------------------------------------------- playing in order

  /** What a callback takes from the queue. */
  function Taken(s: Sync): seq<Packet>
    requires |Play(s).queue| <= |s.queue|
  {
    s.queue[..|s.queue| - |Play(s).queue|]
  }

  lemma PlayTakesFront(s: Sync)
    ensures |Play(s).queue| <= |s.queue| && Taken(s) + Play(s).queue == s.queue && |Taken(s)| <= 1
    ensures |Taken(s)| == 1 <==> |s.queue| > 0 && s.delayCount <= 1
  {
  }

  function Played(s: Sync, es: seq<Event>): seq<Packet> {
    if |es| == 0 then []
    else
      var t := From(s, es[..|es| - 1]);
      PlayTakesFront(t);
      Played(s, es[..|es| - 1]) + if es[|es| - 1].OnPlay? then Taken(t) else []
  }

  /** Within a turn packets are played in the order in which they come in, each
      once: what was played followed by what is queued is what was queued
      followed by what came in. */
  lemma {:induction false} PlaysInOrder(s: Sync, es: seq<Event>)
    requires forall i :: 0 <= i < |es| ==> Listening(es[i])
    ensures var r := From(s, es);
            && r.micUser == s.micUser && r.lastSeq == s.lastSeq
            && Played(s, es) + r.queue == s.queue + Heard(s, es)
  {
    if |es| == 0 {
    } else {
      var front := es[..|es| - 1];
      PlaysInOrder(s, front);
      OneMoreInOrder(From(s, front), es[|es| - 1], Played(s, front), s.queue + Heard(s, front));
      HeardOneMore(s, es, s.queue);
    }
  }

  /** The packet that an event adds to the queue, if it does. */
  function Arriving(t: Sync, e: Event): seq<Packet> {
    if e.OnVoice? && e.user == t.micUser && t.lastSeq > 0 && e.packet.seqno != -1 then [e.packet] else []
  }

  lemma OneMoreInOrder(t: Sync, e: Event, played: seq<Packet>, came: seq<Packet>)
    requires Listening(e) && played + t.queue == came && |Play(t).queue| <= |t.queue|
    ensures var taken := if e.OnPlay? then Taken(t) else [];
            && Step(t, e).micUser == t.micUser && Step(t, e).lastSeq == t.lastSeq
            && played + taken + Step(t, e).queue == came + Arriving(t, e)
  {
    if e.OnPlay? {
      PlayTakesFront(t);
      JoinThree(played, Taken(t), Play(t).queue);
    } else {
      VoiceArrives(t, e);
      JoinThree(played, t.queue, Arriving(t, e));
      assert played + [] == played;
    }
  }

  lemma JoinThree(a: seq<Packet>, b: seq<Packet>, c: seq<Packet>)
    ensures a + b + c == a + (b + c)
  {
  }

  lemma VoiceArrives(t: Sync, e: Event)
    requires e.OnVoice?
    ensures Step(t, e).queue == t.queue + Arriving(t, e)
    ensures Step(t, e).micUser == t.micUser && Step(t, e).lastSeq == t.lastSeq
  {
  }

  lemma HeardOneMore(s: Sync, es: seq<Event>, queue: seq<Packet>)
    requires |es| > 0 && Listening(es[|es| - 1])
    requires From(s, es[..|es| - 1]).micUser == s.micUser && From(s, es[..|es| - 1]).lastSeq == s.lastSeq
    ensures queue + Heard(s, es) == queue + Heard(s, es[..|es| - 1]) + Arriving(From(s, es[..|es| - 1]), es[|es| - 1])
  {
    var more := Arriving(From(s, es[..|es| - 1]), es[|es| - 1]);
    assert Heard(s, es) == Heard(s, es[..|es| - 1]) + more;
  }

  // --------------------------------------------------------------------- turns

  /** A new speaker takes over an empty queue with no hold-off and no counts, and
      packets are not queued until a report has come. */
  lemma TurnStartsFresh(s: Sync, user: UserId, other: UserId, packet: Packet)
    requires user != 0
    ensures var t := Step(s, OnSpeaker(user));
            && t.micUser == user && t.lastAdjust == 0 && t.lateCount == 0 && t.earlyCount == 0
            && t.queue == (if s.micUser == 0 then s.queue else [])
            && t.log == s.log + [Turn]
            && Step(t, OnVoice(other, packet)) == t
  {
  }

  /** When nobody is in front of the microphone queue, only the speaker goes. */
  lemma NobodySpeaks(s: Sync, packet: Packet)
    requires s.micUser != 0
    ensures Step(s, OnSpeaker(0)) == s.(micUser := 0, queue := [])
  {
  }

  /** The end of a turn leaves nothing queued or held off, keeps the run counters
      and the delay, and no packet is queued until a report has come. */
  lemma StopEndsTurn(s: Sync, user: UserId, packet: Packet)
    ensures var t := Step(s, OnStop);
            && t.micUser == 0 && t.queue == [] && t.lastAdjust == 0 && t.lateCount == 0 && t.earlyCount == 0
            && t.lateFac == s.lateFac && t.earlyFac == s.earlyFac && t.delayCount == s.delayCount
            && Step(t, OnVoice(user, packet)) == t
  {
  }
}
