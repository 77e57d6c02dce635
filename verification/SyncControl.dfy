/** The controller that keeps a speaker's audio in step with the video,
    `AudioReciver` in `client/rex/channel/AudioReciver.cpp`. Times are in
    milliseconds, with one clock reading per call. */
module SyncControl {
  import opened Common

  type UserId = nat

  datatype Side = Late | Early | Neutral

  /** What the controller did, oldest first: a sample it judged, a correction
      with the number of packets held back or dropped, or the start of a turn.
      A turn starts whenever a speaker is announced, also when it is the one
      who speaks already, and whenever one stops. */
  datatype Entry = Sample(side: Side, at: int) | Correction(side: Side, at: int, packets: nat) | Turn

  datatype Packet = Packet(seqno: int, payload: seq<bv8>)

  datatype Sync = Sync(lastSeq: int, delayCount: int, streamCount: int, lastAdjust: int, lastStream: int, protoSeq: int,
                       lateFac: nat, earlyFac: nat, netErrors: nat, earlyCount: nat, lateCount: nat,
                       micUser: UserId, queue: seq<Packet>, log: seq<Entry>)

  const RUN_LIMIT: nat := 10
  const LATE_HOLD: int := 30 * 1000
  const EARLY_HOLD: int := 60 * 1000
  const RELAX_AFTER: int := 1000 * 60 * 5
  const MAX_QUEUE: nat := 1000

  // A packet plays for 1024 * 8 / (48000 * 2 * 2) = 16/375 seconds.

  /** More than a second late or early, for a distance in packets. */
  function SideOf(diff: int): Side {
    if diff * 16 > 375 then Late else if diff * 16 < -375 then Early else Neutral
  }

  /** `-delay * 22.5` truncated: 24/25 of the packets the audio is behind. */
  function DeleteCount(diff: int): int
  {
    -diff * 24 / 25
  }

  function DropFront(q: seq<Packet>, k: int): (r: seq<Packet>)
  {
    if k <= 0 then q else if k >= |q| then [] else q[k..]
  }

  // ------------------------------------------------------------ specification

  function CorrectLate(s: Sync, diff: int, now: int): Sync {
    s.(lateFac := 0, delayCount := diff, lateCount := s.lateCount + 1,
       lastAdjust := now + LATE_HOLD * (s.lateCount + 1),
       log := s.log + [Correction(Late, now, if diff > 0 then diff else 0)])
  }

  function JudgeLate(s: Sync, diff: int, now: int): Sync {
    var t := s.(lateFac := s.lateFac + 1, earlyFac := 0, log := s.log + [Sample(Late, now)]);
    if t.lateFac > RUN_LIMIT then CorrectLate(t, diff, now) else t
  }

  /** The queue after an early correction: a queue of at most one packet is
      left alone. */
  function CaughtUp(q: seq<Packet>, diff: int): seq<Packet> {
    if |q| <= 1 then q else DropFront(q, DeleteCount(diff))
  }

  /** The packets an early correction throws away. `fetchable` is how many
      waiting packets the session would hand out. */
  function Dropped(q: seq<Packet>, diff: int, fetchable: nat): nat {
    if |q| <= 1 then Fetched(DeleteCount(diff) - 11, fetchable) else |q| - |CaughtUp(q, diff)|
  }

  function NextEarlyCount(n: nat): nat { if n > 10 then 10 else n + 1 }

  function CorrectEarly(s: Sync, diff: int, now: int, fetchable: nat): Sync {
    s.(earlyFac := 0, earlyCount := NextEarlyCount(s.earlyCount),
       lastAdjust := now + EARLY_HOLD * NextEarlyCount(s.earlyCount), queue := CaughtUp(s.queue, diff),
       log := s.log + [Correction(Early, now, Dropped(s.queue, diff, fetchable))])
  }

  function JudgeEarly(s: Sync, diff: int, now: int, fetchable: nat): Sync {
    var t := s.(lateFac := 0, earlyFac := s.earlyFac + 1, log := s.log + [Sample(Early, now)]);
    if t.earlyFac > RUN_LIMIT then CorrectEarly(t, diff, now, fetchable) else t
  }

  function Fetched(wanted: int, fetchable: nat): nat {
    if wanted <= 0 then 0 else if wanted < fetchable then wanted else fetchable
  }

  function JudgeNeutral(s: Sync, now: int): Sync {
    s.(lateFac := 0, earlyFac := 0, log := s.log + [Sample(Neutral, now)])
  }

  function AtMostOne(n: nat): nat { if n > 1 then 1 else n }

  /** Five quiet minutes after the hold-off the growing counts are cut back. */
  function Relax(s: Sync, now: int): Sync {
    if now - s.lastAdjust > RELAX_AFTER then
      s.(earlyCount := AtMostOne(s.earlyCount), lateCount := AtMostOne(s.lateCount))
    else s
  }

  /** A counted sample: the audio is `diff` packets away from the video. */
  function Judge(s: Sync, diff: int, now: int, fetchable: nat): Sync {
    match SideOf(diff)
    case Late => if |s.queue| >= MAX_QUEUE then s else Relax(JudgeLate(s, diff, now), now)
    case Early => Relax(JudgeEarly(s, diff, now, fetchable), now)
    case Neutral => Relax(JudgeNeutral(s, now), now)
  }

  function CurrentSeq(s: Sync): int {
    if |s.queue| > 0 then s.queue[0].seqno else s.protoSeq
  }

  /** A report of the video stream up to the point where it is known whether
      the distance is judged. */
  function Arrive(s: Sync, seqno: int, bufferLength: real, now: int): (Sync, bool) {
    if bufferLength > 20.0 then (s, false)
    else if s.lastStream > 0 && now - s.lastStream > 2 * 1000 then
      (s.(lastStream := now, netErrors := s.netErrors + 1,
          lastAdjust := now + LATE_HOLD * (s.netErrors + 1), streamCount := 50), false)
    else if s.streamCount > 0 then
      (s.(lastStream := now, streamCount := s.streamCount - 1), false)
    else if s.lastSeq == seqno then
      (s.(lastStream := now, streamCount := 0), false)
    else
      var t := s.(lastStream := now, streamCount := 0, lastSeq := seqno);
      (t, now >= t.lastAdjust && CurrentSeq(t) > 0)
  }

  function Stream(s: Sync, seqno: int, bufferLength: real, now: int, fetchable: nat): Sync {
    var (t, judged) := Arrive(s, seqno, bufferLength, now);
    if judged then Judge(t, CurrentSeq(t) - seqno, now, fetchable) else t
  }

  /** The number -1 marks the end of a user's voice and carries no sound. */
  const END_OF_VOICE: int := -1

  function Voice(s: Sync, user: UserId, packet: Packet): Sync {
    if packet.seqno != END_OF_VOICE && user == s.micUser && s.lastSeq > 0 then
      s.(queue := s.queue + [packet], protoSeq := packet.seqno)
    else s
  }

  function Play(s: Sync): Sync {
    var d := s.delayCount - 1;
    if |s.queue| == 0 || d > 0 then s.(delayCount := d)
    else s.(delayCount := 0, queue := s.queue[1..])
  }

  function Speaker(s: Sync, user: UserId): Sync {
    var t := if s.micUser != 0 then s.(micUser := 0, queue := []) else s;
    var u := if user == t.micUser then t
             else t.(earlyCount := 0, lateCount := 0, lastAdjust := 0, lastSeq := 0, log := t.log + [Turn]);
    u.(micUser := user)
  }

  function StopSpeaker(s: Sync): Sync {
    s.(micUser := 0, lastSeq := 0, lastAdjust := 0, earlyCount := 0, lateCount := 0, queue := [], log := s.log + [Turn])
  }

  datatype Event =
    | OnStream(seqno: int, bufferLength: real, now: int, fetchable: nat)
    | OnVoice(user: UserId, packet: Packet)
    | OnPlay
    | OnSpeaker(user: UserId)
    | OnStop

  function Step(s: Sync, e: Event): Sync {
    match e
    case OnStream(seqno, bufferLength, now, fetchable) => Stream(s, seqno, bufferLength, now, fetchable)
    case OnVoice(user, packet) => Voice(s, user, packet)
    case OnPlay => Play(s)
    case OnSpeaker(user) => Speaker(s, user)
    case OnStop => StopSpeaker(s)
  }

  /** The constructor leaves `__protoSeq` uninitialised. */
  function Initial(protoSeq: int): Sync {
    Sync(0, 0, 0, 0, 0, protoSeq, 0, 0, 0, 0, 0, 0, [], [])
  }

  function Run(protoSeq: int, es: seq<Event>): Sync {
    if |es| == 0 then Initial(protoSeq) else Step(Run(protoSeq, es[..|es| - 1]), es[|es| - 1])
  }

  // --------------------------------------------------- eleven in a row

  /** The samples on one side just before position `n` of the log, back to a
      correction or a sample on another side; a new speaker does not interrupt
      them. */
  function RunBefore(log: seq<Entry>, n: nat, side: Side): nat
    requires n <= |log|
  {
    if n == 0 then 0
    else
      match log[n - 1]
      case Turn => RunBefore(log, n - 1, side)
      case Correction(_, _, _) => 0
      case Sample(x, _) => if x == side then RunBefore(log, n - 1, side) + 1 else 0
  }

  function RunLength(log: seq<Entry>, side: Side): nat { RunBefore(log, |log|, side) }

  /** The run counters are the run lengths, at most one of them is running,
      and the early count stays bounded. */
  ghost predicate Counters(s: Sync) {
    && s.lateFac == RunLength(s.log, Late) <= RUN_LIMIT
    && s.earlyFac == RunLength(s.log, Early) <= RUN_LIMIT
    && (s.lateFac == 0 || s.earlyFac == 0)
    && s.earlyCount <= 11
  }

  /** Every correction comes right after a run of exactly eleven samples on its
      side. */
  ghost predicate AfterEleven(log: seq<Entry>) {
    forall i :: 0 <= i < |log| && log[i].Correction? ==>
      && log[i].side != Neutral
      && RunBefore(log, i, log[i].side) == RUN_LIMIT + 1
  }

  lemma {:induction false} RunBeforePrefix(log: seq<Entry>, e: Entry, n: nat, side: Side)
    requires n <= |log|
    ensures RunBefore(log + [e], n, side) == RunBefore(log, n, side)
  {
    if n == 0 {
    } else {
      RunBeforePrefix(log, e, n - 1, side);
    }
  }

  lemma RunLengthPush(log: seq<Entry>, e: Entry, side: Side)
    ensures RunLength(log + [e], side) ==
            match e
            case Turn => RunLength(log, side)
            case Correction(_, _, _) => 0
            case Sample(x, _) => if x == side then RunLength(log, side) + 1 else 0
  {
    RunBeforePrefix(log, e, |log|, side);
  }

  lemma AfterElevenPush(log: seq<Entry>, e: Entry)
    requires AfterEleven(log)
    requires e.Correction? ==> e.side != Neutral && RunLength(log, e.side) == RUN_LIMIT + 1
    ensures AfterEleven(log + [e])
  {
    var all := log + [e];
    forall i | 0 <= i < |all| && all[i].Correction?
      ensures all[i].side != Neutral && RunBefore(all, i, all[i].side) == RUN_LIMIT + 1
    {
      RunBeforePrefix(log, e, i, all[i].side);
    }
  }

  lemma LateKeepsRuns(s: Sync, diff: int, now: int)
    requires Counters(s) && AfterEleven(s.log)
    ensures Counters(JudgeLate(s, diff, now)) && AfterEleven(JudgeLate(s, diff, now).log)
  {
    var sampled := s.log + [Sample(Late, now)];
    RunLengthPush(s.log, Sample(Late, now), Late);
    RunLengthPush(s.log, Sample(Late, now), Early);
    AfterElevenPush(s.log, Sample(Late, now));
    if s.lateFac + 1 > RUN_LIMIT {
      var c := Correction(Late, now, if diff > 0 then diff else 0);
      RunLengthPush(sampled, c, Late);
      RunLengthPush(sampled, c, Early);
      AfterElevenPush(sampled, c);
    }
  }

  lemma EarlyKeepsRuns(s: Sync, diff: int, now: int, fetchable: nat)
    requires Counters(s) && AfterEleven(s.log)
    ensures Counters(JudgeEarly(s, diff, now, fetchable)) && AfterEleven(JudgeEarly(s, diff, now, fetchable).log)
  {
    var sampled := s.log + [Sample(Early, now)];
    RunLengthPush(s.log, Sample(Early, now), Late);
    RunLengthPush(s.log, Sample(Early, now), Early);
    AfterElevenPush(s.log, Sample(Early, now));
    if s.earlyFac + 1 > RUN_LIMIT {
      var t := JudgeEarly(s, diff, now, fetchable);
      var c := t.log[|sampled|];
      assert t.log == sampled + [c];
      RunLengthPush(sampled, c, Late);
      RunLengthPush(sampled, c, Early);
      AfterElevenPush(sampled, c);
    }
  }

  lemma JudgeKeepsRuns(s: Sync, diff: int, now: int, fetchable: nat)
    requires Counters(s) && AfterEleven(s.log)
    ensures Counters(Judge(s, diff, now, fetchable)) && AfterEleven(Judge(s, diff, now, fetchable).log)
  {
    match SideOf(diff)
    case Late => LateKeepsRuns(s, diff, now);
    case Early => EarlyKeepsRuns(s, diff, now, fetchable);
    case Neutral =>
      RunLengthPush(s.log, Sample(Neutral, now), Late);
      RunLengthPush(s.log, Sample(Neutral, now), Early);
      AfterElevenPush(s.log, Sample(Neutral, now));
  }

  /** What the samples and corrections so far look like. */
  ghost predicate Runs(s: Sync) { Counters(s) && AfterEleven(s.log) }

  lemma SameRuns(s: Sync, t: Sync)
    requires Runs(s) && t.log == s.log
    requires t.lateFac == s.lateFac && t.earlyFac == s.earlyFac && t.earlyCount == s.earlyCount
    ensures Runs(t)
  {
  }

  lemma JudgedRuns(s: Sync, diff: int, now: int, fetchable: nat)
    requires Runs(s)
    ensures Runs(Judge(s, diff, now, fetchable))
  {
    JudgeKeepsRuns(s, diff, now, fetchable);
  }

  lemma StreamKeepsRuns(s: Sync, seqno: int, bufferLength: real, now: int, fetchable: nat)
    requires Runs(s)
    ensures Runs(Stream(s, seqno, bufferLength, now, fetchable))
  {
    var (t, judged) := Arrive(s, seqno, bufferLength, now);
    SameRuns(s, t);
    if judged {
      JudgedRuns(t, CurrentSeq(t) - seqno, now, fetchable);
    }
  }

  lemma TurnKeepsRuns(s: Sync, t: Sync)
    requires Runs(s) && t.log == s.log + [Turn]
    requires t.lateFac == s.lateFac && t.earlyFac == s.earlyFac && t.earlyCount <= s.earlyCount
    ensures Runs(t)
  {
    RunLengthPush(s.log, Turn, Late);
    RunLengthPush(s.log, Turn, Early);
    AfterElevenPush(s.log, Turn);
  }

  lemma StepKeepsRuns(s: Sync, e: Event)
    requires Runs(s)
    ensures Runs(Step(s, e))
  {
    match e
    case OnStream(seqno, bufferLength, now, fetchable) =>
      StreamKeepsRuns(s, seqno, bufferLength, now, fetchable);
    case OnVoice(user, packet) => SameRuns(s, Step(s, e));
    case OnPlay => SameRuns(s, Step(s, e));
    case OnSpeaker(user) =>
      if user != 0 {
        TurnKeepsRuns(s, Step(s, e));
      } else {
        SameRuns(s, Step(s, e));
      }
    case OnStop => TurnKeepsRuns(s, Step(s, e));
  }

  /** Over every run, each correction follows exactly eleven consecutive
      counted samples on its side, and no run of eleven stays uncorrected. */
  lemma {:induction false} CorrectionsFollowEleven(protoSeq: int, es: seq<Event>)
    ensures Runs(Run(protoSeq, es))
  {
    if |es| == 0 {
    } else {
      CorrectionsFollowEleven(protoSeq, es[..|es| - 1]);
      StepKeepsRuns(Run(protoSeq, es[..|es| - 1]), es[|es| - 1]);
    }
  }

  // ------------------------------------------------- thirty seconds apart

  /** No new turn begins between the entries `i` and `j`. */
  ghost predicate SameTurn(log: seq<Entry>, i: int, j: int) {
    forall k :: 0 <= i <= k < j <= |log| ==> log[k] != Turn
  }

  ghost predicate Spaced(log: seq<Entry>) {
    forall i, j :: 0 <= i < j < |log| && log[i].Correction? && log[j].Correction? && SameTurn(log, i, j) ==>
      log[j].at - log[i].at >= LATE_HOLD
  }

  /** The hold-off outlasts every correction of the current turn by 30 s. */
  ghost predicate Held(s: Sync, clock: int) {
    forall i :: 0 <= i < |s.log| && s.log[i].Correction? ==>
      s.log[i].at <= clock && (SameTurn(s.log, i, |s.log|) ==> s.log[i].at + LATE_HOLD <= s.lastAdjust)
  }

  lemma PushKeepsSpacing(s: Sync, e: Entry, lastAdjust: int, clock: int, now: int)
    requires Spaced(s.log) && Held(s, clock) && clock <= now
    requires e.Correction? ==> e.at == now && s.lastAdjust <= now && now + LATE_HOLD <= lastAdjust
    requires !e.Correction? && e != Turn ==> s.lastAdjust <= lastAdjust
    ensures Spaced(s.log + [e])
    ensures Held(s.(log := s.log + [e], lastAdjust := lastAdjust), now)
  {
    var all := s.log + [e];
    var n := |s.log|;
    forall i | 0 <= i < n && s.log[i].Correction? ensures SameTurn(all, i, n) == SameTurn(s.log, i, n) {
      assert forall k :: i <= k < n ==> all[k] == s.log[k];
    }
    forall i, j | 0 <= i < j < |all| && all[i].Correction? && all[j].Correction? && SameTurn(all, i, j)
      ensures all[j].at - all[i].at >= LATE_HOLD
    {
      if j < n {
        assert forall k :: i <= k < j ==> all[k] == s.log[k];
        assert SameTurn(s.log, i, j);
      } else {
        assert SameTurn(s.log, i, n);
      }
    }
    forall i | 0 <= i < |all| && all[i].Correction? && SameTurn(all, i, |all|)
      ensures all[i].at + LATE_HOLD <= lastAdjust
    {
      if i < n {
        assert SameTurn(all, i, n);
        assert all[n] != Turn;
      }
    }
  }

  lemma JudgeKeepsSpacing(s: Sync, diff: int, clock: int, now: int, fetchable: nat)
    requires Spaced(s.log) && Held(s, clock) && clock <= now && s.lastAdjust <= now
    ensures Spaced(Judge(s, diff, now, fetchable).log) && Held(Judge(s, diff, now, fetchable), now)
  {
    var sample := Sample(SideOf(diff), now);
    PushKeepsSpacing(s, sample, s.lastAdjust, clock, now);
    var t := s.(log := s.log + [sample]);
    var r := Judge(s, diff, now, fetchable);
    if |r.log| > |t.log| {
      HoldIsLong(s.lateCount + 1);
      PushKeepsSpacing(t, r.log[|t.log|], r.lastAdjust, now, now);
      assert r.log == t.log + [r.log[|t.log|]];
    }
  }

  lemma HoldIsLong(n: nat)
    requires n >= 1
    ensures LATE_HOLD * n >= LATE_HOLD && EARLY_HOLD * n >= LATE_HOLD
  {
  }

  lemma HeldLonger(s: Sync, t: Sync, clock: int, now: int)
    requires Held(s, clock) && clock <= now && t.log == s.log && s.lastAdjust <= t.lastAdjust
    ensures Held(t, now)
  {
  }

  lemma HeldRestart(s: Sync, t: Sync, clock: int, now: int)
    requires Held(s, clock) && clock <= now && t.log == s.log && now + LATE_HOLD <= t.lastAdjust
    ensures Held(t, now)
  {
  }

  function ClockAfter(e: Event, clock: int): int {
    if e.OnStream? then e.now else clock
  }

  lemma StreamKeepsSpacing(s: Sync, seqno: int, bufferLength: real, now: int, fetchable: nat, clock: int)
    requires Spaced(s.log) && Held(s, clock) && clock <= now
    ensures var r := Stream(s, seqno, bufferLength, now, fetchable);
            Spaced(r.log) && Held(r, now)
  {
    var (t, judged) := Arrive(s, seqno, bufferLength, now);
    if t.lastAdjust < s.lastAdjust {
      HoldIsLong(s.netErrors + 1);
      HeldRestart(s, t, clock, now);
    } else {
      HeldLonger(s, t, clock, now);
    }
    if judged {
      JudgeKeepsSpacing(t, CurrentSeq(t) - seqno, now, now, fetchable);
    }
  }

  lemma StepKeepsSpacing(s: Sync, e: Event, clock: int)
    requires Spaced(s.log) && Held(s, clock) && clock <= ClockAfter(e, clock)
    ensures Spaced(Step(s, e).log) && Held(Step(s, e), ClockAfter(e, clock))
  {
    match e
    case OnStream(seqno, bufferLength, now, fetchable) =>
      StreamKeepsSpacing(s, seqno, bufferLength, now, fetchable, clock);
    case OnSpeaker(user) =>
      if user == 0 {
        HeldLonger(s, Step(s, e), clock, clock);
      } else {
        TurnKeepsSpacing(s, Step(s, e), clock);
      }
    case OnStop => TurnKeepsSpacing(s, Step(s, e), clock);
    case _ => HeldLonger(s, Step(s, e), clock, clock);
  }

  lemma TurnKeepsSpacing(s: Sync, t: Sync, clock: int)
    requires Spaced(s.log) && Held(s, clock) && t.log == s.log + [Turn]
    ensures Spaced(t.log) && Held(t, clock)
  {
    PushKeepsSpacing(s, Turn, t.lastAdjust, clock, clock);
    HeldLonger(s.(log := t.log, lastAdjust := t.lastAdjust), t, clock, clock);
  }

  function Clock(es: seq<Event>, start: int): int {
    if |es| == 0 then start else ClockAfter(es[|es| - 1], Clock(es[..|es| - 1], start))
  }

  ghost predicate Timed(es: seq<Event>, start: int) {
    |es| == 0 ||
    (Timed(es[..|es| - 1], start) && Clock(es[..|es| - 1], start) <= Clock(es, start))
  }

  /** Within a turn two corrections are at least 30 s apart, over every run with
      nondecreasing time. */
  lemma {:induction false} CorrectionsAreSpaced(protoSeq: int, es: seq<Event>, start: int)
    requires Timed(es, start)
    ensures Spaced(Run(protoSeq, es).log) && Held(Run(protoSeq, es), Clock(es, start))
  {
    if |es| == 0 {
    } else {
      var front := es[..|es| - 1];
      CorrectionsAreSpaced(protoSeq, front, start);
      StepKeepsSpacing(Run(protoSeq, front), es[|es| - 1], Clock(front, start));
    }
  }

  // --------------------------------------------- runs that cross a turn

  /** Nothing but samples on one side from position `j` up to `i`. */
  ghost predicate AllOn(log: seq<Entry>, j: int, i: int, side: Side) {
    0 <= j && i <= |log| && forall k :: j <= k < i ==> log[k].Sample? && log[k].side == side
  }

  lemma {:induction false} RunOfSamples(log: seq<Entry>, j: nat, i: nat, side: Side)
    requires j <= i && AllOn(log, j, i, side)
    ensures RunBefore(log, i, side) == RunBefore(log, j, side) + (i - j)
    decreases i
  {
    if j < i {
      RunOfSamples(log, j, i - 1, side);
    }
  }

  lemma {:induction false} LastOther(log: seq<Entry>, p: nat, i: nat, side: Side) returns (j: nat)
    requires p < i <= |log| && !AllOn(log, p + 1, i, side)
    ensures p < j < i && !(log[j].Sample? && log[j].side == side) && AllOn(log, j + 1, i, side)
    decreases i
  {
    if log[i - 1].Sample? && log[i - 1].side == side {
      j := LastOther(log, p, i - 1, side);
    } else {
      j := i - 1;
    }
  }

  /** A correction at `i` in the turn that starts at `p`: the eleven samples
      before it are all of its own turn, unless a run that the turn inherits
      goes on right up to it. */
  lemma CorrectionInTurn(log: seq<Entry>, p: nat, i: nat)
    requires AfterEleven(log) && p < i < |log| && log[p] == Turn && log[i].Correction?
    requires SameTurn(log, p + 1, i)
    ensures var (x, own) := (log[i].side, RUN_LIMIT + 1);
            && (p < i - own && AllOn(log, i - own, i, x) <==> !(RunBefore(log, p, x) > 0 && AllOn(log, p + 1, i, x)))
            && (AllOn(log, p + 1, i, x) ==> i - (p + 1) == own - RunBefore(log, p, x))
  {
    var x := log[i].side;
    if AllOn(log, p + 1, i, x) {
      RunOfSamples(log, p + 1, i, x);
    } else {
      var j := LastOther(log, p, i, x);
      RunOfSamples(log, j + 1, i, x);
      assert log[j] != Turn && RunBefore(log, j + 1, x) == 0;
      assert j + 1 == i - (RUN_LIMIT + 1);
    }
  }

  lemma StepGrows(s: Sync, e: Event)
    ensures s.log <= Step(s, e).log
  {
  }

  lemma {:induction false} LogGrows(protoSeq: int, es: seq<Event>, m: nat)
    requires m <= |es|
    ensures Run(protoSeq, es[..m]).log <= Run(protoSeq, es).log
  {
    if m == |es| {
      assert es[..m] == es;
    } else {
      var front := es[..|es| - 1];
      assert front[..m] == es[..m];
      LogGrows(protoSeq, front, m);
      StepGrows(Run(protoSeq, front), es[|es| - 1]);
    }
  }

  lemma {:induction false} RunBeforeGrows(log: seq<Entry>, more: seq<Entry>, n: nat, side: Side)
    requires n <= |log| && log <= more
    ensures RunBefore(more, n, side) == RunBefore(log, n, side)
  {
    if n == 0 {
    } else {
      RunBeforeGrows(log, more, n - 1, side);
    }
  }

  function CounterOf(s: Sync, side: Side): nat {
    match side
    case Late => s.lateFac
    case Early => s.earlyFac
    case Neutral => 0
  }

  /** A turn inherits the run counters of the one before. On every run, for a
      turn that starts with the event at `m` and any correction in it (the one
      at `i`): eleven of the turn's own samples come right before it if and only
      if the turn did not inherit a run on that side, or did not continue it up
      to the correction. If it did, they are eleven less the inherited ones. */
  lemma TurnInheritsRun(protoSeq: int, es: seq<Event>, m: nat, i: nat)
    requires m < |es| && Run(protoSeq, es[..m + 1]).log == Run(protoSeq, es[..m]).log + [Turn]
    requires |Run(protoSeq, es[..m]).log| < i < |Run(protoSeq, es).log| && Run(protoSeq, es).log[i].Correction?
    requires SameTurn(Run(protoSeq, es).log, |Run(protoSeq, es[..m]).log| + 1, i)
    ensures OwnUnlessInherited(Run(protoSeq, es[..m]), Run(protoSeq, es).log, i)
  {
    CorrectionsFollowEleven(protoSeq, es);
    CorrectionsFollowEleven(protoSeq, es[..m]);
    LogGrows(protoSeq, es, m + 1);
    TurnInLog(Run(protoSeq, es[..m]), Run(protoSeq, es).log, i);
  }

  /** The claim about the correction at `i` of a log in which a turn starts in
      state `s`. */
  ghost predicate OwnUnlessInherited(s: Sync, log: seq<Entry>, i: nat)
    requires i < |log| && log[i].Correction?
  {
    var (x, first, own) := (log[i].side, |s.log| + 1, RUN_LIMIT + 1);
    && (first <= i - own && AllOn(log, i - own, i, x) <==> !(CounterOf(s, x) > 0 && AllOn(log, first, i, x)))
    && (AllOn(log, first, i, x) ==> i - first == own - CounterOf(s, x))
  }

  lemma RunOneMore(protoSeq: int, es: seq<Event>, n: nat)
    requires n < |es|
    ensures Run(protoSeq, es[..n + 1]) == Step(Run(protoSeq, es[..n]), es[n])
  {
    assert es[..n + 1][..n] == es[..n];
  }

  lemma TurnInLog(s: Sync, log: seq<Entry>, i: nat)
    requires Counters(s) && AfterEleven(log) && s.log + [Turn] <= log
    requires |s.log| < i < |log| && log[i].Correction? && SameTurn(log, |s.log| + 1, i)
    ensures OwnUnlessInherited(s, log, i)
  {
    assert log[|s.log|] == (s.log + [Turn])[|s.log|] == Turn;
    CorrectionInTurn(log, |s.log|, i);
    RunBeforeGrows(s.log, log, |s.log|, log[i].side);
  }

  /** A run on which a turn's first sample is corrected at once: the speaker 5
      sends a packet numbered 100, the video is late ten times, then 7 speaks. */
  function LateReports(n: nat): (r: seq<Event>)
    ensures |r| == n + 3
  {
    if n == 0 then [OnSpeaker(5), OnStream(1, 0.0, 1000, 0), OnVoice(5, Packet(100, []))]
    else LateReports(n - 1) + [OnStream(n + 1, 0.0, 1000, 0)]
  }

  /** After the n-th late report of that run. */
  ghost predicate LateSoFar(s: Sync, n: nat) {
    && s.lateFac == n && s.earlyFac == 0 && s.lastSeq == n + 1 && s.streamCount == 0 && s.lastAdjust == 0
    && s.lastStream == 1000 && s.protoSeq == 100 && s.queue == [Packet(100, [])] && s.micUser == 5 && s.lateCount == 0
  }

  lemma FirstPacketCounts()
    ensures LateSoFar(Run(0, LateReports(0)), 0)
  {
    var es := LateReports(0);
    RunOneMore(0, es, 0);
    RunOneMore(0, es, 1);
    var a := Speaker(Initial(0), 5);
    assert Run(0, es[..1]) == Step(Initial(0), es[0]) == a;
    FirstReport(a);
    assert Run(0, es[..2]) == Step(a, es[1]) == a.(lastStream := 1000, lastSeq := 1);
  }

  lemma FirstReport(a: Sync)
    requires a == Speaker(Initial(0), 5)
    ensures Stream(a, 1, 0.0, 1000, 0) == a.(lastStream := 1000, lastSeq := 1)
  {
  }

  lemma OneLateReport(s: Sync, n: nat)
    requires LateSoFar(s, n) && n < RUN_LIMIT
    ensures LateSoFar(Stream(s, n + 2, 0.0, 1000, 0), n + 1)
  {
    var t := s.(lastSeq := n + 2);
    assert Stream(s, n + 2, 0.0, 1000, 0) == Judge(t, 100 - (n + 2), 1000, 0);
    assert SideOf(100 - (n + 2)) == Late;
  }

  lemma {:induction false} TenLateReports(n: nat)
    requires n <= RUN_LIMIT
    ensures LateSoFar(Run(0, LateReports(n)), n)
  {
    if n > 0 {
      TenLateReports(n - 1);
      assert LateReports(n)[..|LateReports(n)| - 1] == LateReports(n - 1);
      OneLateReport(Run(0, LateReports(n - 1)), n - 1);
    } else {
      FirstPacketCounts();
    }
  }

  lemma FirstSampleMayCorrect()
    ensures var s := Run(0, LateReports(10) + [OnSpeaker(7)] + [OnStream(1, 0.0, 1000, 0)]);
            |s.log| >= 3 && s.log[|s.log| - 3..] == [Turn, Sample(Late, 1000), Correction(Late, 1000, 99)]
  {
    TenLateReports(10);
    var es := LateReports(10);
    var fs := es + [OnSpeaker(7)];
    var gs := fs + [OnStream(1, 0.0, 1000, 0)];
    assert fs[..|fs| - 1] == es && gs[..|gs| - 1] == fs;
    var s := Run(0, fs);
    assert s.log[|s.log| - 1] == Turn && s.lateFac == 10;
    assert Run(0, gs) == Stream(s, 1, 0.0, 1000, 0);
    var t := s.(lastSeq := 1);
    assert Stream(s, 1, 0.0, 1000, 0) == Judge(t, 99, 1000, 0);
  }

  // --------------------------------------------------- what a correction does

  /** An early correction drops `k` packets, 24/25 of the `n` numbers that the
      audio is behind. Where the queue has more, it leaves the audio at
      `missing - (n - k)`, with `missing` the numbers absent up to there: not
      past the video if and only if no more than `n - k` are missing, and, if
      none is repeated, at most 4% plus one packet behind it. A shorter queue is
      emptied. */
  lemma EarlyCatchesUp(s: Sync, seqno: int, now: int, fetchable: nat)
    requires s.earlyFac == RUN_LIMIT && |s.queue| >= 2
    requires SideOf(s.queue[0].seqno - seqno) == Early
    ensures var n := seqno - s.queue[0].seqno;
            var k := n * 24 / 25;
            var t := Judge(s, -n, now, fetchable);
            if k < |s.queue| then
              var missing := s.queue[k].seqno - s.queue[0].seqno - k;
              var left := s.queue[k].seqno - seqno;
              && t.queue == s.queue[k..] && CurrentSeq(t) - seqno == left == missing - (n - k)
              && (left <= 0 <==> missing <= n - k)
              && (missing >= 0 ==> -left * 25 <= n + 24)
            else t.queue == []
  {
    var n := seqno - s.queue[0].seqno;
    assert n >= 24;
  }

  /** On a queue whose numbers step evenly that means: consecutive numbers never
      take the audio past the video, a larger step, such as that of packets the
      sender numbers itself, 2, always does. */
  lemma EvenStepsCatchUp(s: Sync, seqno: int, now: int, fetchable: nat, step: nat)
    requires s.earlyFac == RUN_LIMIT && |s.queue| >= 2 && step >= 1
    requires forall i :: 0 <= i < |s.queue| ==> s.queue[i].seqno == s.queue[0].seqno + step * i
    requires SideOf(s.queue[0].seqno - seqno) == Early
    requires DeleteCount(s.queue[0].seqno - seqno) < |s.queue|
    ensures var left := CurrentSeq(Judge(s, s.queue[0].seqno - seqno, now, fetchable)) - seqno;
            (left <= 0 <==> step == 1) && (step == 1 ==> -left * 25 <= seqno - s.queue[0].seqno + 24)
  {
    EarlyCatchesUp(s, seqno, now, fetchable);
    var n := seqno - s.queue[0].seqno;
    var k := n * 24 / 25;
    assert n >= 24 && k >= 23;
    if step >= 2 {
      MulAtLeast(k, step - 1);
      assert step * k == k + k * (step - 1);
      assert 2 * k > n;
    }
  }

  function Plays(s: Sync, count: nat): Sync {
    if count == 0 then s else Play(Plays(s, count - 1))
  }

  /** A late correction holds the queue back for exactly the missing packets:
      the next `delayCount - 1` callbacks play nothing, the one after plays. */
  lemma {:induction false} LateHoldsBack(s: Sync, count: nat)
    requires |s.queue| > 0 && 1 <= count <= s.delayCount
    ensures Plays(s, count) == if count < s.delayCount then s.(delayCount := s.delayCount - count)
                               else s.(delayCount := 0, queue := s.queue[1..])
  {
    if count > 1 {
      LateHoldsBack(s, count - 1);
    } else {
      assert Plays(s, 0) == s;
    }
  }

  // ------------------------------------------------------------ the receiver

  class AudioReceiver {
    var lastSeq: int
    var delayCount: int
    var streamCount: int
    var lastAdjustTime: int
    var lastStreamTime: int
    var protoSeq: int
    var lateFac: nat
    var earlyFac: nat
    var netErrorCount: nat
    var earlyCount: nat
    var lateCount: nat
    var micUser: UserId
    var listSyncVideo: seq<Packet>
    ghost var log: seq<Entry>

    ghost function State(): Sync
      reads this
    {
      Sync(lastSeq, delayCount, streamCount, lastAdjustTime, lastStreamTime, protoSeq,
           lateFac, earlyFac, netErrorCount, earlyCount, lateCount, micUser, listSyncVideo, log)
    }

    constructor (garbage: int)
      ensures State() == Initial(garbage)
    {
      lastSeq, delayCount, streamCount, lastAdjustTime, lastStreamTime := 0, 0, 0, 0, 0;
      protoSeq := garbage;
      lateFac, earlyFac, netErrorCount, earlyCount, lateCount := 0, 0, 0, 0, 0;
      micUser, listSyncVideo, log := 0, [], [];
    }

    method OnStreamData(seqno: int, bufferLength: real, now: int, fetchable: nat)
      modifies this
      ensures State() == Stream(old(State()), seqno, bufferLength, now, fetchable)
    {
      if bufferLength > 20.0 {
        return;
      }
      if lastStreamTime > 0 && now - lastStreamTime > 2 * 1000 {
        lastStreamTime := now;
        netErrorCount := netErrorCount + 1;
        lastAdjustTime := now + LATE_HOLD * netErrorCount;
        streamCount := 50;
        return;
      }
      lastStreamTime := now;
      streamCount := streamCount - 1;
      if streamCount + 1 > 0 {
        return;
      }
      streamCount := 0;
      if lastSeq == seqno {
        return;
      }
      lastSeq := seqno;
      if now < lastAdjustTime {
        return;
      }
      var currentSeq := protoSeq;
      if |listSyncVideo| > 0 {
        currentSeq := listSyncVideo[0].seqno;
      }
      if currentSeq <= 0 {
        return;
      }
      Adjust(currentSeq - lastSeq, now, fetchable);
    }

    /** The part of `onStreamData` that judges the distance and corrects it. */
    method Adjust(diff: int, now: int, fetchable: nat)
      modifies this
      ensures State() == Judge(old(State()), diff, now, fetchable)
    {
      if SideOf(diff) == Late {
        if |listSyncVideo| >= MAX_QUEUE {
          return;
        }
        lateFac := lateFac + 1;
        earlyFac := 0;
        log := log + [Sample(Late, now)];
        if lateFac > RUN_LIMIT {
          HoldBack(diff, now);
        }
      } else if SideOf(diff) == Early {
        lateFac := 0;
        earlyFac := earlyFac + 1;
        log := log + [Sample(Early, now)];
        if earlyFac > RUN_LIMIT {
          CatchUp(diff, now, fetchable);
        }
      } else {
        lateFac := 0;
        earlyFac := 0;
        log := log + [Sample(Neutral, now)];
      }
      RelaxCounts(now);
    }

    /** After five quiet minutes the growing counts are cut back. */
    method RelaxCounts(now: int)
      modifies `earlyCount, `lateCount
      ensures State() == Relax(old(State()), now)
    {
      if now - lastAdjustTime > RELAX_AFTER {
        if earlyCount > 1 {
          earlyCount := 1;
        }
        if lateCount > 1 {
          lateCount := 1;
        }
      }
    }

    /** The late correction: playing pauses for the missing packets. */
    method HoldBack(diff: int, now: int)
      modifies this
      ensures State() == CorrectLate(old(State()), diff, now)
    {
      lateFac := 0;
      delayCount := diff;
      lateCount := lateCount + 1;
      lastAdjustTime := now + LATE_HOLD * lateCount;
      log := log + [Correction(Late, now, if diff > 0 then diff else 0)];
    }

    /** The early correction, for the sample that has just been counted. */
    method CatchUp(diff: int, now: int, fetchable: nat)
      modifies this
      ensures State() == CorrectEarly(old(State()), diff, now, fetchable)
    {
      earlyFac := 0;
      earlyCount := earlyCount + 1;
      if earlyCount - 1 > 10 {
        earlyCount := 10;
      }
      lastAdjustTime := now + EARLY_HOLD * earlyCount;
      var deleteCount := DeleteCount(diff);
      var dropped;
      if |listSyncVideo| <= 1 {
        dropped := ReleaseFetched(deleteCount - 11, fetchable);
      } else {
        dropped := DropQueued(deleteCount);
      }
      log := log + [Correction(Early, now, dropped)];
    }

    /** Fetches packets from the session and releases them unheard. */
    method ReleaseFetched(deleteCount: int, fetchable: nat) returns (i: nat)
      ensures i == Fetched(deleteCount, fetchable)
    {
      i := 0;
      while i < deleteCount && i < fetchable
        invariant i <= deleteCount || i == 0
        invariant i <= fetchable
      {
        i := i + 1;
      }
    }

    /** Takes packets from the front of the queue while there are any. */
    method DropQueued(deleteCount: int) returns (i: nat)
      modifies `listSyncVideo
      ensures listSyncVideo == DropFront(old(listSyncVideo), deleteCount)
      ensures i == |old(listSyncVideo)| - |listSyncVideo|
    {
      i := 0;
      while i < deleteCount && |listSyncVideo| > 0
        invariant (i <= deleteCount || i == 0) && i <= |old(listSyncVideo)|
        invariant listSyncVideo == old(listSyncVideo)[i..]
      {
        listSyncVideo := listSyncVideo[1..];
        i := i + 1;
      }
    }

    /** What `decode` does with a packet of the default stream. */
    method DecodeDefault(user: UserId, packet: Packet)
      modifies this
      ensures State() == Voice(old(State()), user, packet)
    {
      if packet.seqno == END_OF_VOICE {
        return;
      }
      if user == micUser && lastSeq > 0 {
        protoSeq := packet.seqno;
        listSyncVideo := listSyncVideo + [packet];
      }
    }

    method GetForSyncVideo() returns (played: Option<Packet>)
      modifies this
      ensures State() == Play(old(State()))
      ensures played.Some? <==> |old(listSyncVideo)| > 0 && old(delayCount) <= 1
      ensures played.Some? ==> old(listSyncVideo) == [played.value] + listSyncVideo
    {
      delayCount := delayCount - 1;
      if |listSyncVideo| == 0 || delayCount > 0 {
        return None;
      }
      delayCount := 0;
      played := Some(listSyncVideo[0]);
      listSyncVideo := listSyncVideo[1..];
    }

    /** `queueUser` is the user in front of the microphone queue. */
    method TurnTo(queueUser: UserId)
      modifies this
      ensures State() == Speaker(old(State()), queueUser)
    {
      if micUser != 0 {
        micUser := 0;
        listSyncVideo := [];
      }
      if queueUser != micUser {
        earlyCount := 0;
        lateCount := 0;
        lastAdjustTime := 0;
        lastSeq := 0;
        log := log + [Turn];
      }
      micUser := queueUser;
    }

    method StopTurn()
      modifies this
      ensures State() == StopSpeaker(old(State()))
    {
      micUser := 0;
      lastSeq := 0;
      lastAdjustTime := 0;
      earlyCount := 0;
      lateCount := 0;
      listSyncVideo := [];
      log := log + [Turn];
    }
  }
}
