/** Sent voice: the frame grouping and sequence numbers of
    `client/rex/channel/AudioSender.cpp` and the resend window of
    `xproto/voice_queue.cpp`. */
module VoiceQueue {
  import opened Common

  const MAX_VOICECHAT_BYTE_SIZE: nat := 900
  const QUEUE_SIZE: nat := 60
  const SEQ_ORIGINAL: nat := 1000
  const PACKET_SEQ_INCREMENT: nat := 2
  const STOP_SKIP: nat := 1500

  type Frame = seq<bv8>
  datatype Packet = Packet(uri: nat, seqno: nat, data: seq<bv8>)
  datatype PushResult = Sended | VoiceOverflow

  /** The cast of a C `int` to `uint32_t`. */
  function ToU32(x: int): nat { x % 0x1_0000_0000 }

  // ------------------------------------------------------- the resend window

  function Pushed(queue: seq<Packet>, p: Packet): seq<Packet> {
    if |p.data| > MAX_VOICECHAT_BYTE_SIZE then queue
    else (if |queue| >= QUEUE_SIZE then queue[1..] else queue) + [p]
  }

  /** The scan of `Get`: it gives up at the first larger sequence number. */
  function Scan(queue: seq<Packet>, seqno: nat): Option<Packet> {
    if |queue| == 0 || queue[0].seqno > seqno then None
    else if queue[0].seqno == seqno then Some(queue[0])
    else Scan(queue[1..], seqno)
  }

  ghost predicate Sorted(queue: seq<Packet>) {
    forall i, j :: 0 <= i < j < |queue| ==> queue[i].seqno < queue[j].seqno
  }

  /** On a sorted queue the early exit misses nothing and finds only the
      packet that was asked for. */
  lemma {:induction false} ScanIsMembership(queue: seq<Packet>, seqno: nat, p: Packet)
    requires Sorted(queue)
    ensures Scan(queue, seqno) == Some(p) <==> p in queue && p.seqno == seqno
  {
    if |queue| == 0 {
    } else {
      assert queue == [queue[0]] + queue[1..];
      if queue[0].seqno < seqno {
        ScanIsMembership(queue[1..], seqno, p);
      } else if p in queue[1..] {
        assert p.seqno > queue[0].seqno;
      }
    }
  }

  class OutputVoiceQueue {
    var queue: seq<Packet>

    constructor ()
      ensures queue == []
    {
      queue := [];
    }

    method Push(data: seq<bv8>, seqno: nat, uri: nat) returns (r: PushResult)
      modifies this
      ensures queue == Pushed(old(queue), Packet(uri, seqno, data))
      ensures r == if |data| > MAX_VOICECHAT_BYTE_SIZE then VoiceOverflow else Sended
    {
      if |data| > MAX_VOICECHAT_BYTE_SIZE {
        return VoiceOverflow;
      }
      if |queue| >= QUEUE_SIZE {
        queue := queue[1..];
      }
      queue := queue + [Packet(uri, seqno, data)];
      return Sended;
    }

    /** Finds the packet numbered `seqno`, whenever the queue is sorted. */
    method Get(seqno: int) returns (r: Option<Packet>)
      ensures r == Scan(queue, ToU32(seqno))
      ensures Sorted(queue) ==> forall p :: r == Some(p) <==> p in queue && p.seqno == ToU32(seqno)
    {
      r := None;
      var i := 0;
      while i < |queue|
        invariant 0 <= i <= |queue|
        invariant Scan(queue[i..], ToU32(seqno)) == Scan(queue, ToU32(seqno))
      {
        assert queue[i..][1..] == queue[i + 1..];
        if queue[i].seqno > ToU32(seqno) {
          break;
        } else if queue[i].seqno == ToU32(seqno) {
          r := Some(queue[i]);
          break;
        }
        i := i + 1;
      }
      forall p | Sorted(queue) ensures r == Some(p) <==> p in queue && p.seqno == ToU32(seqno) {
        ScanIsMembership(queue, ToU32(seqno), p);
      }
    }

    method End()
      modifies this
      ensures queue == []
    {
      queue := [];
    }
  }

  // -------------------------------------------------------------- the sender

  /** A group of frames handed to the session under one sequence number. */
  datatype Pack = Pack(frames: seq<Frame>, seqno: nat)

  /** `accepted` lists the packets the window took since the last stop. */
  datatype Sender = Sender(seqno: nat, pending: seq<Frame>, packs: seq<Pack>, queue: seq<Packet>, accepted: seq<Packet>)

  /** `wire` is the marshalled request of the pack that the frame completes.
      `Discard` is the capture callback while not sending or muted. */
  datatype Event = Capture(frame: Frame, uri: nat, wire: seq<bv8>) | Stop | Discard

  /** Frames per pack for a configured count: the count is compared as an
      unsigned number, after one frame has been added. */
  function GroupSize(packCount: int): (n: nat)
    ensures n >= 1
  {
    if ToU32(packCount) == 0 then 1 else ToU32(packCount)
  }

  function Step(s: Sender, packCount: int, e: Event): Sender {
    match e
    case Capture(frame, uri, wire) =>
      var frames := s.pending + [frame];
      if |frames| < ToU32(packCount) then s.(pending := frames)
      else
        var q := s.seqno + PACKET_SEQ_INCREMENT;
        var p := Packet(uri, q, wire);
        Sender(q, [], s.packs + [Pack(frames, q)], Pushed(s.queue, p),
               if |wire| > MAX_VOICECHAT_BYTE_SIZE then s.accepted else s.accepted + [p])
    case Stop => s.(seqno := s.seqno + STOP_SKIP, queue := [], accepted := [])
    case Discard => s.(pending := [])
  }

  function Run(packCount: int, es: seq<Event>): Sender {
    if |es| == 0 then Sender(SEQ_ORIGINAL, [], [], [], [])
    else Step(Run(packCount, es[..|es| - 1]), packCount, es[|es| - 1])
  }

  ghost predicate Increasing(packs: seq<Pack>) {
    forall i, j :: 0 <= i < j < |packs| ==> packs[i].seqno < packs[j].seqno
  }

  ghost predicate Inv(s: Sender) {
    && Increasing(s.packs)
    && (forall i :: 0 <= i < |s.packs| ==> s.packs[i].seqno <= s.seqno)
    && Sorted(s.accepted)
    && (forall i :: 0 <= i < |s.accepted| ==> s.accepted[i].seqno <= s.seqno)
    && s.queue == LastOf(s.accepted, QUEUE_SIZE)
  }

  lemma WindowSlides(accepted: seq<Packet>, p: Packet)
    ensures Pushed(LastOf(accepted, QUEUE_SIZE), p)
            == LastOf(if |p.data| > MAX_VOICECHAT_BYTE_SIZE then accepted else accepted + [p], QUEUE_SIZE)
  {
  }

  lemma SendKeepsInv(s: Sender, k: Pack, p: Packet)
    requires Inv(s) && k.seqno == p.seqno == s.seqno + PACKET_SEQ_INCREMENT
    ensures Inv(Sender(p.seqno, [], s.packs + [k], Pushed(s.queue, p),
                       if |p.data| > MAX_VOICECHAT_BYTE_SIZE then s.accepted else s.accepted + [p]))
  {
    WindowSlides(s.accepted, p);
  }

  lemma StopKeepsInv(s: Sender)
    requires Inv(s)
    ensures Inv(s.(seqno := s.seqno + STOP_SKIP, queue := [], accepted := []))
  {
  }

  lemma StepKeepsInv(s: Sender, packCount: int, e: Event)
    requires Inv(s)
    ensures Inv(Step(s, packCount, e))
  {
    match e
    case Capture(frame, uri, wire) =>
      var q := s.seqno + PACKET_SEQ_INCREMENT;
      var frames := s.pending + [frame];
      if |frames| >= ToU32(packCount) {
        SendKeepsInv(s, Pack(frames, q), Packet(uri, q, wire));
      } else {
        assert Inv(s.(pending := frames));
      }
    case Stop => StopKeepsInv(s);
    case Discard =>
  }

  /** Over every run the numbers of the sent packs strictly increase, and the
      window holds the last sixty packets accepted since the last stop, in
      increasing order. */
  lemma {:induction false} WindowIsLastSixty(packCount: int, es: seq<Event>)
    ensures Inv(Run(packCount, es)) && Sorted(Run(packCount, es).queue)
    ensures Run(packCount, es).queue == LastOf(Run(packCount, es).accepted, 60)
  {
    if |es| == 0 {
    } else {
      WindowIsLastSixty(packCount, es[..|es| - 1]);
      StepKeepsInv(Run(packCount, es[..|es| - 1]), packCount, es[|es| - 1]);
    }
  }

  /** A resend request for any number, on any run, gets the packet with that
      number exactly when it is among the last sixty accepted ones. */
  lemma ResendFindsExactly(packCount: int, es: seq<Event>, seqno: int, p: Packet)
    ensures var s := Run(packCount, es);
            Scan(s.queue, ToU32(seqno)) == Some(p) <==> p in LastOf(s.accepted, QUEUE_SIZE) && p.seqno == ToU32(seqno)
  {
    WindowIsLastSixty(packCount, es);
    ScanIsMembership(Run(packCount, es).queue, ToU32(seqno), p);
  }

  // ----------------------------------------------------------- frame grouping

  function Flatten(packs: seq<Pack>): seq<Frame> {
    if |packs| == 0 then [] else Flatten(packs[..|packs| - 1]) + packs[|packs| - 1].frames
  }

  /** The captured frames that are not thrown away: a discard throws away the
      frames that do not fill a group. */
  function Kept(n: nat, es: seq<Event>): seq<Frame>
    requires n >= 1
  {
    if |es| == 0 then []
    else
      var before := Kept(n, es[..|es| - 1]);
      match es[|es| - 1]
      case Capture(frame, _, _) => before + [frame]
      case Stop => before
      case Discard => before[..|before| - |before| % n]
  }

  lemma {:induction false} WholeGroups(n: nat, packs: seq<Pack>)
    requires forall k :: k in packs ==> |k.frames| == n
    ensures |Flatten(packs)| == n * |packs|
  {
    if |packs| == 0 {
    } else {
      WholeGroups(n, packs[..|packs| - 1]);
      assert n * |packs| == n * (|packs| - 1) + n;
    }
  }

  /** Every pack carries exactly one group, and the packs followed by the
      pending frames are the kept frames in capture order: frames pending at a
      stop are not lost, they open the next pack. */
  lemma {:induction false} FramesAreGrouped(packCount: int, es: seq<Event>)
    ensures var n, s := GroupSize(packCount), Run(packCount, es);
            && (forall k :: k in s.packs ==> |k.frames| == n)
            && |s.pending| < n
            && Flatten(s.packs) + s.pending == Kept(n, es)
  {
    if |es| == 0 {
      return;
    }
    var n, s := GroupSize(packCount), Run(packCount, es[..|es| - 1]);
    FramesAreGrouped(packCount, es[..|es| - 1]);
    match es[|es| - 1]
    case Capture(frame, uri, wire) =>
      var t := Step(s, packCount, es[|es| - 1]);
      assert Flatten(s.packs) + (s.pending + [frame]) == Kept(n, es);
      if |s.pending| + 1 >= ToU32(packCount) {
        assert t.packs[..|t.packs| - 1] == s.packs;
        assert Flatten(t.packs) + [] == Flatten(s.packs) + (s.pending + [frame]);
      }
    case Stop =>
    case Discard =>
      DiscardKeepsGroups(n, s.packs, s.pending);
  }

  lemma DiscardKeepsGroups(n: nat, packs: seq<Pack>, pending: seq<Frame>)
    requires n >= 1 && |pending| < n && forall k :: k in packs ==> |k.frames| == n
    ensures var all := Flatten(packs) + pending;
            all[..|all| - |all| % n] == Flatten(packs) + []
  {
    WholeGroups(n, packs);
    DivisionIsUnique(|Flatten(packs)| + |pending|, n, |packs|, |pending|);
  }

  // ------------------------------------------------------ what is kept for resending

  function Stops(es: seq<Event>): nat {
    if |es| == 0 then 0 else Stops(es[..|es| - 1]) + if es[|es| - 1].Stop? then 1 else 0
  }

  /** The number of the last pack: numbers start after 1000, go up by 2 with each
      pack and by 1500 with each stop. */
  lemma {:induction false} NumbersAre(packCount: int, es: seq<Event>)
    ensures var s := Run(packCount, es);
            && s.seqno == 1000 + 2 * |s.packs| + 1500 * Stops(es)
            && (|s.packs| > 0 && |es| > 0 && es[|es| - 1].Capture? && |s.pending| == 0 ==>
                  s.packs[|s.packs| - 1].seqno == s.seqno)
  {
    if |es| == 0 {
    } else {
      NumbersAre(packCount, es[..|es| - 1]);
    }
  }

  /** What a capture that completes a group hands over for resending. */
  datatype Wire = Wire(uri: nat, data: seq<bv8>)

  /** From the events alone: the frames of the group that is not full yet. */
  function Waiting(n: nat, es: seq<Event>): nat
    requires n >= 1
  {
    if |es| == 0 then 0
    else
      match es[|es| - 1]
      case Capture(_, _, _) =>
        var w := Waiting(n, es[..|es| - 1]) + 1;
        if w >= n then 0 else w
      case Stop => Waiting(n, es[..|es| - 1])
      case Discard => 0
  }

  /** From the events alone: what was handed over since the last stop, without
      what is longer than 900 bytes. */
  function Handed(n: nat, es: seq<Event>): seq<Wire>
    requires n >= 1
  {
    if |es| == 0 then []
    else
      var before := Handed(n, es[..|es| - 1]);
      match es[|es| - 1]
      case Capture(_, uri, data) =>
        if Waiting(n, es[..|es| - 1]) + 1 >= n && |data| <= 900 then before + [Wire(uri, data)] else before
      case Stop => []
      case Discard => before
  }

  function Wires(packets: seq<Packet>): seq<Wire> {
    if |packets| == 0 then []
    else Wires(packets[..|packets| - 1]) + [Wire(packets[|packets| - 1].uri, packets[|packets| - 1].data)]
  }

  /** Over every run the accepted packets, of which the window holds the last
      sixty, are what the captures handed over. */
  lemma {:induction false} AcceptedIsHanded(packCount: int, es: seq<Event>)
    ensures var n, s := GroupSize(packCount), Run(packCount, es);
            |s.pending| == Waiting(n, es) && Wires(s.accepted) == Handed(n, es)
  {
    if |es| == 0 {
    } else {
      AcceptedIsHanded(packCount, es[..|es| - 1]);
      FramesAreGrouped(packCount, es[..|es| - 1]);
      NextIsHanded(Run(packCount, es[..|es| - 1]), packCount, es[|es| - 1]);
    }
  }

  lemma NextIsHanded(s: Sender, packCount: int, e: Event)
    requires |s.pending| < GroupSize(packCount)
    ensures var (n, t) := (GroupSize(packCount), Step(s, packCount, e));
            match e
            case Capture(_, uri, data) =>
              && |t.pending| == (if |s.pending| + 1 >= n then 0 else |s.pending| + 1)
              && Wires(t.accepted)
                 == Wires(s.accepted) + (if |s.pending| + 1 >= n && |data| <= 900 then [Wire(uri, data)] else [])
            case Stop => t.pending == s.pending && t.accepted == []
            case Discard => t.pending == [] && t.accepted == s.accepted
  {
    if e.Capture? {
      var q := s.accepted + [Packet(e.uri, s.seqno + PACKET_SEQ_INCREMENT, e.wire)];
      assert q[..|q| - 1] == s.accepted;
      assert Wires(s.accepted) + [] == Wires(s.accepted);
    }
  }

  // -------------------------------------------------------- the sender object

  class AudioSender {
    var seqno: nat
    var listVoice: seq<Frame>
    const packCount: int
    const window: OutputVoiceQueue
    ghost var packs: seq<Pack>
    ghost var accepted: seq<Packet>

    ghost function State(): Sender
      reads this, window
    {
      Sender(seqno, listVoice, packs, window.queue, accepted)
    }

    constructor (packCount: int)
      ensures this.packCount == packCount && fresh(window)
      ensures State() == Run(packCount, [])
    {
      this.packCount := packCount;
      seqno, listVoice, packs, accepted := SEQ_ORIGINAL, [], [], [];
      window := new OutputVoiceQueue();
    }

    /** With the video plug-in at 48 kHz the frame goes to the plug-in instead
        (`toVideo`). */
    method SendAudioPack(frame: Frame, toVideo: bool, uri: nat, wire: seq<bv8>)
      modifies this, window
      ensures State() == if toVideo then old(State()) else Step(old(State()), packCount, Capture(frame, uri, wire))
    {
      if toVideo {
        return;
      }
      listVoice := listVoice + [frame];
      if |listVoice| < ToU32(packCount) {
        return;
      }
      seqno := seqno + PACKET_SEQ_INCREMENT;
      var r := window.Push(wire, seqno, uri);
      if r == Sended {
        accepted := accepted + [Packet(uri, seqno, wire)];
      }
      packs := packs + [Pack(listVoice, seqno)];
      listVoice := [];
    }

    method StopVoice()
      modifies this, window
      ensures State() == Step(old(State()), packCount, Stop)
    {
      window.End();
      accepted := [];
      seqno := seqno + STOP_SKIP;
    }

    method DiscardCapture()
      modifies this
      ensures State() == Step(old(State()), packCount, Discard)
    {
      listVoice := [];
    }
  }
}
