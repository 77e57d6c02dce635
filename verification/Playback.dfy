/** The playback callback of `client/rex/channel/AudioReciver.cpp`: the clocks
    that pace packet fetches and the mixer. */
module Playback {
  import opened Common

  // ------------------------------------------------------------- the clocks
  // Times are in thirds of a millisecond, so that every period is exact.

  const MONO: nat := 3 * 20
  const STEREO: nat := 1024 * 8 * 1000 * 3 / (48000 * 2 * 2)

  /** `z` is the time played, `x` the speex time and `y` the default-stream time
      fetched so far. */
  datatype Clocks = Clocks(z: nat, x: nat, y: nat)

  /** `frames` is the build's frames per packet, 1 or 2. */
  function Speex(frames: nat): nat { MONO * frames }

  function Callback(stereo: bool): nat { if stereo then STEREO else MONO }

  function DefaultPeriod(stereo: bool, frames: nat): nat { if stereo then STEREO else Speex(frames) }

  function LargestPeriod(frames: nat): nat { if Speex(frames) > STEREO then Speex(frames) else STEREO }

  function CatchUp(x: nat, z: nat, period: nat): (r: nat)
    requires period >= 1
    ensures r >= z
    decreases z - x
  {
    if z > x then CatchUp(x + period, z, period) else x
  }

  /** The default stream: a fetch that finds a packet ends the call, whatever is
      still due; `found(k)` tells whether the k-th fetch does. */
  function FetchDefault(y: nat, z: nat, period: nat, found: nat -> bool, k: nat): nat
    requires period >= 1
    decreases z - y
  {
    if z > y then
      if found(k) then y + period else FetchDefault(y + period, z, period, found, k + 1)
    else y
  }

  function Tick(c: Clocks, stereo: bool, frames: nat, found: nat -> bool): Clocks
    requires frames >= 1
  {
    var z := c.z + Callback(stereo);
    Clocks(z, CatchUp(c.x, z, Speex(frames)), FetchDefault(c.y, z, DefaultPeriod(stereo, frames), found, 0))
  }

  /** Speex time is the next whole period, default-stream time is ahead by less
      than the largest period. */
  ghost predicate Paced(c: Clocks, frames: nat) {
    && c.z <= c.x < c.z + Speex(frames)
    && c.x % Speex(frames) == 0
    && c.z <= c.y < c.z + LargestPeriod(frames)
  }

  lemma {:induction false} CatchUpIsNextMultiple(x: nat, z: nat, period: nat)
    requires period >= 1 && x < z + period
    ensures CatchUp(x, z, period) < z + period
    ensures CatchUp(x, z, period) % period == x % period
    decreases z - x
  {
    if z > x {
      CatchUpIsNextMultiple(x + period, z, period);
      SamePhase(x, period);
    }
  }

  lemma SamePhase(x: nat, period: nat)
    requires period >= 1
    ensures (x + period) % period == x % period
  {
    var q, r := x / period, x % period;
    assert x == period * q + r && x + period == period * (q + 1) + r;
    DivisionIsUnique(x + period, period, q + 1, r);
  }

  /** The default-stream loop runs at most once per callback, so its early
      return skips no fetch that is due. */
  lemma DefaultRunsOnce(c: Clocks, stereo: bool, frames: nat, found: nat -> bool)
    requires 1 <= frames && Paced(c, frames)
    ensures var (z, p) := (c.z + Callback(stereo), DefaultPeriod(stereo, frames));
            FetchDefault(c.y, z, p, found, 0) == if z > c.y then c.y + p else c.y
  {
    var p := DefaultPeriod(stereo, frames);
    assert Callback(stereo) <= p;
    assert FetchDefault(c.y + p, c.z + Callback(stereo), p, found, 1) == c.y + p;
  }

  lemma TickKeepsPace(c: Clocks, stereo: bool, frames: nat, found: nat -> bool)
    requires 1 <= frames && Paced(c, frames)
    ensures Paced(Tick(c, stereo, frames, found), frames)
  {
    var z := c.z + Callback(stereo);
    CatchUpIsNextMultiple(c.x, z, Speex(frames));
    DefaultRunsOnce(c, stereo, frames, found);
  }

  /** Fetches of a stream that has been fetched up to `x`. */
  function Ceil(z: nat, period: nat): nat
    requires period >= 1
  {
    (z + period - 1) / period
  }

  /** Callbacks since the clocks were last reset. */
  function Run(calls: seq<(bool, nat -> bool)>, frames: nat): Clocks
    requires frames >= 1
  {
    if |calls| == 0 then Clocks(0, 0, 0)
    else
      var last := calls[|calls| - 1];
      Tick(Run(calls[..|calls| - 1], frames), last.0, frames, last.1)
  }

  /** With any mix of mono and stereo callbacks the clocks stay paced, and the
      speex time fetched since the reset is the playing time rounded up to whole
      packets. */
  lemma {:induction false} AlwaysPaced(calls: seq<(bool, nat -> bool)>, frames: nat)
    requires frames >= 1
    ensures var c := Run(calls, frames);
            && Paced(c, frames)
            && c.x == Speex(frames) * Ceil(c.z, Speex(frames))
  {
    if |calls| > 0 {
      var last := calls[|calls| - 1];
      AlwaysPaced(calls[..|calls| - 1], frames);
      TickKeepsPace(Run(calls[..|calls| - 1], frames), last.0, frames, last.1);
    }
    var c := Run(calls, frames);
    CeilFromPace(c.z, c.x, Speex(frames));
  }

  lemma CeilFromPace(z: nat, x: nat, period: nat)
    requires period >= 1 && z <= x < z + period && x % period == 0
    ensures x == period * Ceil(z, period)
  {
    var q := x / period;
    assert x == period * q;
    DivisionIsUnique(z + period - 1, period, q, z + period - 1 - x);
  }

  // --------------------------------------------------------------- the mixer

  type Byte = x: nat | x < 0x100

  const PEAK: int := 32767

  /** The buffered sound of one user; the buffers are kept in map order. */
  datatype Voice = Voice(user: nat, data: seq<Byte>)

  /** The i-th 16-bit sample of little-endian sound data. */
  function SampleAt(data: seq<Byte>, i: nat): int
    requires 2 * i + 1 < |data|
  {
    var lo: int, hi: int := data[2 * i], data[2 * i + 1];
    var u := lo + 0x100 * hi;
    if u < 0x8000 then u else u - 0x1_0000
  }

  /** What one callback of `n` samples leaves of the buffers. */
  function Consumed(voices: seq<Voice>, n: nat): seq<Voice> {
    if |voices| == 0 then []
    else
      var v, rest := voices[0], Consumed(voices[1..], n);
      if |v.data| <= 2 * n then rest
      else [v.(data := v.data[2 * n..])] + rest
  }

  /** The exact sum of the i-th samples of all voices that fill a frame. */
  function SumAt(voices: seq<Voice>, n: nat, i: nat): int
    requires i < n
  {
    if |voices| == 0 then 0
    else (if |voices[0].data| >= 2 * n then SampleAt(voices[0].data, i) else 0) + SumAt(voices[1..], n, i)
  }

  function Sums(voices: seq<Voice>, n: nat): (r: seq<int>)
    ensures |r| == n && forall i :: 0 <= i < n ==> r[i] == SumAt(voices, n, i)
  {
    seq(n, i requires 0 <= i < n => SumAt(voices, n, i))
  }

  function Abs(x: int): nat { if x < 0 then -x else x }

  function Loudest(v: seq<int>): (m: nat)
    ensures forall i :: 0 <= i < |v| ==> Abs(v[i]) <= m
    ensures m > 0 ==> exists i :: 0 <= i < |v| && Abs(v[i]) == m
  {
    if |v| == 0 then 0
    else
      var m := Loudest(v[..|v| - 1]);
      if Abs(v[|v| - 1]) > m then Abs(v[|v| - 1]) else m
  }

  function ToReal(k: int): real { k as real }

  function FactorFor(loudest: nat): (f: real)
    ensures f > 0.0
    ensures loudest > PEAK ==> f * ToReal(loudest) == ToReal(PEAK)
  {
    if loudest > PEAK then
      DivideAndMultiply(ToReal(PEAK), ToReal(loudest));
      ToReal(PEAK) / ToReal(loudest)
    else 1.0
  }

  function Factor(v: seq<int>): real { FactorFor(Loudest(v)) }

  /** What is assumed of the conversion to a 16-bit sample: it is exact where
      that is possible and keeps the order. */
  ghost predicate Converts(toShort: real -> int) {
    && (forall k :: -PEAK <= k <= PEAK ==> toShort(ToReal(k)) == k)
    && (forall a: real, b: real :: a <= b ==> toShort(a) <= toShort(b))
  }

  function ScaleOne(f: real, x: int, toShort: real -> int): int { toShort(f * ToReal(x)) }

  function ScaleAll(f: real, v: seq<int>, toShort: real -> int): (r: seq<int>)
    ensures |r| == |v| && forall i :: 0 <= i < |v| ==> r[i] == ScaleOne(f, v[i], toShort)
  {
    seq(|v|, i requires 0 <= i < |v| => ScaleOne(f, v[i], toShort))
  }

  function Scaled(v: seq<int>, toShort: real -> int): seq<int> { ScaleAll(Factor(v), v, toShort) }

  /** When every sum fits, the frame is the exact sum of the voices. */
  lemma MixIsExactWhenItFits(v: seq<int>, toShort: real -> int)
    requires Converts(toShort)
    requires forall i :: 0 <= i < |v| ==> Abs(v[i]) <= PEAK
    ensures Scaled(v, toShort) == v
  {
    assert Factor(v) == 1.0;
    var r := Scaled(v, toShort);
    forall i | 0 <= i < |v| ensures r[i] == v[i] {
      assert 1.0 * ToReal(v[i]) == ToReal(v[i]);
    }
  }

  lemma DivideAndMultiply(a: real, b: real)
    requires b != 0.0
    ensures a / b * b == a
  {
  }

  lemma ScaleKeepsOrder(f: real, x: int, y: int, toShort: real -> int)
    requires Converts(toShort) && f > 0.0 && x <= y
    ensures ScaleOne(f, x, toShort) <= ScaleOne(f, y, toShort)
  {
    assert f * ToReal(y - x) >= 0.0;
    assert f * ToReal(y - x) == f * ToReal(y) - f * ToReal(x);
  }

  lemma ScalePoints(f: real, m: nat, toShort: real -> int)
    requires Converts(toShort) && f * ToReal(m) == ToReal(PEAK)
    ensures ScaleOne(f, m, toShort) == PEAK && ScaleOne(f, -(m as int), toShort) == -PEAK
  {
    assert f * ToReal(-(m as int)) == -(f * ToReal(m)) == ToReal(-PEAK);
  }

  lemma ScaleZero(f: real, toShort: real -> int)
    requires Converts(toShort)
    ensures ScaleOne(f, 0, toShort) == 0
  {
    assert f * ToReal(0) == ToReal(0);
  }

  /** Otherwise it is scaled: nothing is louder than the peak, and the loudest
      sample reaches it. */
  lemma MixStaysInRange(v: seq<int>, toShort: real -> int, i: nat)
    requires Converts(toShort) && i < |v|
    ensures -PEAK <= Scaled(v, toShort)[i] <= PEAK
    ensures Loudest(v) > PEAK && v[i] == Loudest(v) ==> Scaled(v, toShort)[i] == PEAK
    ensures Loudest(v) > PEAK && -v[i] == Loudest(v) ==> Scaled(v, toShort)[i] == -PEAK
  {
    var m := Loudest(v);
    if m > PEAK {
      ScaleWithin(m, v[i], toShort);
    } else {
      MixIsExactWhenItFits(v, toShort);
    }
  }

  lemma ScaleWithin(m: nat, x: int, toShort: real -> int)
    requires Converts(toShort) && m > PEAK && Abs(x) <= m
    ensures -PEAK <= ScaleOne(FactorFor(m), x, toShort) <= PEAK
    ensures x == m ==> ScaleOne(FactorFor(m), x, toShort) == PEAK
    ensures x == -(m as int) ==> ScaleOne(FactorFor(m), x, toShort) == -PEAK
  {
    var f := FactorFor(m);
    ScalePoints(f, m, toShort);
    ScaleKeepsOrder(f, x, m, toShort);
    ScaleKeepsOrder(f, -(m as int), x, toShort);
  }

  /** Scaling keeps the order of the samples and their signs. */
  lemma MixKeepsOrderAndSign(v: seq<int>, toShort: real -> int, i: nat, j: nat)
    requires Converts(toShort) && i < |v| && j < |v|
    ensures var r := Scaled(v, toShort);
            && (v[i] <= v[j] ==> r[i] <= r[j])
            && (v[i] >= 0 ==> r[i] >= 0) && (v[i] <= 0 ==> r[i] <= 0)
  {
    var f := Factor(v);
    ScaleZero(f, toShort);
    if v[i] <= v[j] {
      ScaleKeepsOrder(f, v[i], v[j], toShort);
    }
    if v[i] >= 0 {
      ScaleKeepsOrder(f, 0, v[i], toShort);
    }
    if v[i] <= 0 {
      ScaleKeepsOrder(f, v[i], 0, toShort);
    }
  }

  /** No 32-bit sum can overflow for up to 65535 voices. */
  lemma {:induction false} SumsStaySmall(voices: seq<Voice>, n: nat, i: nat)
    requires i < n
    ensures -0x8000 * |voices| <= SumAt(voices, n, i) <= 0x7FFF * |voices|
  {
    if |voices| == 0 {
    } else {
      SumsStaySmall(voices[1..], n, i);
    }
  }

  /** How many of the first `k` buffers have sound beyond one frame. */
  function Kept(voices: seq<Voice>, n: nat, k: nat): nat
    requires k <= |voices|
  {
    if k == 0 then 0 else (if |voices[0].data| > 2 * n then 1 else 0) + Kept(voices[1..], n, k - 1)
  }

  /** Each buffer with sound beyond one frame loses exactly that frame and keeps
      its place among those; the others, and only they, are dropped. */
  lemma {:induction false} EachLosesOneFrame(voices: seq<Voice>, n: nat, k: nat)
    requires k < |voices|
    ensures |Consumed(voices, n)| == Kept(voices, n, |voices|)
    ensures |voices[k].data| > 2 * n ==>
              && Kept(voices, n, k) < |Consumed(voices, n)|
              && LostFrame(voices[k], Consumed(voices, n)[Kept(voices, n, k)], n)
  {
    if |voices| > 1 {
      EachLosesOneFrame(voices[1..], n, if k > 0 then k - 1 else 0);
    }
  }

  predicate LostFrame(before: Voice, after: Voice, n: nat) {
    |before.data| >= 2 * n && after == before.(data := before.data[2 * n..])
  }

  // -------------------------------------------------------------- the player

  class AudioPlayer {
    const frames: nat
    var z: nat
    var x: nat
    var y: nat
    var voices: seq<Voice>

    ghost function Time(): Clocks
      reads this
    {
      Clocks(z, x, y)
    }

    constructor (frames: nat)
      ensures this.frames == frames && Time() == Clocks(0, 0, 0) && voices == []
    {
      this.frames := frames;
      z, x, y, voices := 0, 0, 0, [];
    }

    /** Counts the fetches of the speex streams and of the default stream. */
    method GetVoices(stereo: bool, found: nat -> bool) returns (speex: nat, normal: nat)
      requires 1 <= frames && Paced(Time(), frames)
      modifies this`z, this`x, this`y
      ensures Time() == Tick(old(Time()), stereo, frames, found)
      ensures Paced(Time(), frames)
      ensures x == old(x) + Speex(frames) * speex
      ensures normal == if z > old(y) then 1 else 0
    {
      TickKeepsPace(Time(), stereo, frames, found);
      DefaultRunsOnce(Time(), stereo, frames, found);
      z := z + (if stereo then STEREO else MONO);
      speex := FetchSpeexDue();
      normal := FetchDefaultDue(if stereo then STEREO else Speex(frames), found);
    }

    /** Broadcast and Android packets are fetched in step. */
    method FetchSpeexDue() returns (count: nat)
      requires frames >= 1
      modifies this`x
      ensures x == CatchUp(old(x), z, Speex(frames)) == old(x) + Speex(frames) * count
    {
      count := 0;
      while z > x
        invariant CatchUp(x, z, Speex(frames)) == CatchUp(old(x), z, Speex(frames))
        invariant x == old(x) + Speex(frames) * count
        decreases z - x
      {
        x := x + Speex(frames);
        count := count + 1;
      }
    }

    method FetchDefaultDue(period: nat, found: nat -> bool) returns (count: nat)
      requires period >= 1
      requires z <= y + period
      modifies this`y
      ensures y == FetchDefault(old(y), z, period, found, 0)
      ensures count == if z > old(y) then 1 else 0
    {
      count := 0;
      while z > y
        invariant count <= 1 && y == old(y) + period * count
        invariant count == 1 ==> z > old(y)
        invariant FetchDefault(y, z, period, found, count) == FetchDefault(old(y), z, period, found, 0)
        decreases z - y
      {
        y := y + period;
        count := count + 1;
        if found(count - 1) {
          return;
        }
      }
    }

    /** The mixing part of the callback: false when there is nothing to play.
        While muted the sound is consumed but the frame is left as it is. */
    method MixFrame(play: array<int>, n: nat, muted: bool, toShort: real -> int) returns (played: bool)
      requires play.Length == n
      modifies this, play
      ensures played <==> |old(voices)| > 0
      ensures voices == if played then Consumed(old(voices), n) else []
      ensures Time() == if played then old(Time()) else Clocks(0, 0, 0)
      ensures play[..] == if played && !muted then Scaled(Sums(old(voices), n), toShort) else old(play[..])
    {
      if |voices| == 0 {
        z, x, y := 0, 0, 0;
        return false;
      }
      var vec := AddVoices(n);
      if muted {
        return true;
      }
      var loudest := FindPeak(vec);
      var factor := 1.0;
      if loudest > PEAK {
        factor := ToReal(PEAK) / ToReal(loudest);
      }
      WriteFrame(play, vec, factor, toShort);
      return true;
    }

    static method WriteFrame(play: array<int>, vec: array<int>, factor: real, toShort: real -> int)
      requires play.Length == vec.Length && play != vec
      modifies play
      ensures play[..] == ScaleAll(factor, vec[..], toShort)
    {
      var i := 0;
      while i < vec.Length
        invariant 0 <= i <= vec.Length
        invariant forall k :: 0 <= k < i ==> play[k] == ScaleOne(factor, vec[k], toShort)
      {
        play[i] := ScaleOne(factor, vec[i], toShort);
        i := i + 1;
      }
    }

    /** Takes one frame off every buffer and adds the frames up. */
    method AddVoices(n: nat) returns (vec: array<int>)
      modifies this`voices
      ensures fresh(vec) && vec[..] == Sums(old(voices), n)
      ensures voices == Consumed(old(voices), n)
    {
      vec := new int[n](_ => 0);
      var it := 0;
      ghost var done := 0; // buffers handled so far
      while it < |voices|
        invariant 0 <= it <= |voices|
        invariant done + (|voices| - it) == |old(voices)|
        invariant voices[it..] == old(voices)[done..]
        invariant voices[..it] + Consumed(voices[it..], n) == Consumed(old(voices), n)
        invariant fresh(vec) && vec.Length == n
        invariant forall i :: 0 <= i < n ==> vec[i] + SumAt(voices[it..], n, i) == SumAt(old(voices), n, i)
        decreases |voices| - it
      {
        var data := voices[it].data;
        NextVoice(voices, it, n);
        if |data| < 2 * n {
          voices := Without(voices, it);
        } else {
          AddFrame(vec, data);
          if |data| == 2 * n {
            voices := Without(voices, it);
          } else {
            voices := voices[it := voices[it].(data := data[2 * n..])];
            it := it + 1;
          }
        }
        done := done + 1;
      }
    }

    static lemma NextVoice(voices: seq<Voice>, it: nat, n: nat)
      requires it < |voices|
      ensures voices[it..][1..] == voices[it + 1..] && voices[it..][0] == voices[it]
      ensures Without(voices, it)[it..] == voices[it + 1..] && Without(voices, it)[..it] == voices[..it]
    {
    }

    static method AddFrame(vec: array<int>, data: seq<Byte>)
      requires |data| >= 2 * vec.Length
      modifies vec
      ensures forall i :: 0 <= i < vec.Length ==> vec[i] == old(vec[i]) + SampleAt(data, i)
    {
      var i := 0;
      while i < vec.Length
        invariant 0 <= i <= vec.Length
        invariant forall k :: 0 <= k < i ==> vec[k] == old(vec[k]) + SampleAt(data, k)
        invariant forall k :: i <= k < vec.Length ==> vec[k] == old(vec[k])
      {
        vec[i] := vec[i] + SampleAt(data, i);
        i := i + 1;
      }
    }

    static method FindPeak(vec: array<int>) returns (m: nat)
      ensures m == Loudest(vec[..])
    {
      m := 0;
      var i := 0;
      while i < vec.Length
        invariant 0 <= i <= vec.Length
        invariant m == Loudest(vec[..i])
      {
        assert vec[..i + 1][..i] == vec[..i];
        if Abs(vec[i]) > m {
          m := Abs(vec[i]);
        }
        i := i + 1;
      }
      assert vec[..i] == vec[..];
    }
  }
}
