/** What the playback callback does, in numbers: how much time it plays, how
    often it fetches, and which sound comes out. */
module PlaybackLaws {
  import opened Common
  import opened Playback

  // ------------------------------------------------------------- the clocks

  function StereoCalls(calls: seq<(bool, nat -> bool)>): nat {
    if |calls| == 0 then 0 else StereoCalls(calls[..|calls| - 1]) + if calls[|calls| - 1].0 then 1 else 0
  }

  function MonoCalls(calls: seq<(bool, nat -> bool)>): nat {
    if |calls| == 0 then 0 else MonoCalls(calls[..|calls| - 1]) + if calls[|calls| - 1].0 then 0 else 1
  }

  /** A mono callback plays 20 ms and a stereo one 1024 samples at 48 kHz, 42 2/3
      ms; in thirds of a millisecond, 60 and 128. The time played since the reset
      is theirs, and the speex packets of `frames` times 20 ms are fetched for
      all of it and no more. */
  lemma {:induction false} TimeIsPlayed(calls: seq<(bool, nat -> bool)>, frames: nat)
    requires frames >= 1
    ensures var played := 60 * MonoCalls(calls) + 128 * StereoCalls(calls);
            && Run(calls, frames).z == played
            && Run(calls, frames).x == 60 * frames * Ceil(played, 60 * frames)
  {
    AlwaysPaced(calls, frames);
    PlayedSoFar(calls, frames);
  }

  lemma {:induction false} PlayedSoFar(calls: seq<(bool, nat -> bool)>, frames: nat)
    requires frames >= 1
    ensures Run(calls, frames).z == 60 * MonoCalls(calls) + 128 * StereoCalls(calls)
  {
    if |calls| == 0 {
    } else {
      var last := calls[|calls| - 1];
      PlayedSoFar(calls[..|calls| - 1], frames);
      CallbackPlays(Run(calls[..|calls| - 1], frames), last.0, frames, last.1);
    }
  }

  lemma CallbackPlays(c: Clocks, stereo: bool, frames: nat, found: nat -> bool)
    requires frames >= 1
    ensures Tick(c, stereo, frames, found).z == c.z + if stereo then 128 else 60
  {
  }

  /** A callback on paced clocks fetches the default stream once when it is due,
      for one packet: 42 2/3 ms in stereo, `frames` times 20 ms in mono. */
  lemma DueIsFetchedOnce(c: Clocks, stereo: bool, frames: nat, found: nat -> bool)
    requires 1 <= frames && Paced(c, frames)
    ensures var t := Tick(c, stereo, frames, found);
            && t.z == c.z + (if stereo then 128 else 60)
            && t.y == if t.z > c.y then c.y + (if stereo then 128 else 60 * frames) else c.y
  {
    DefaultRunsOnce(c, stereo, frames, found);
  }

  // ------------------------------------------------------------- the sound

  /** Samples are little-endian two's complement: the value whose low and high
      byte are there. */
  lemma SampleIsLittleEndian(data: seq<Byte>, i: nat, v: int)
    requires 2 * i + 1 < |data| && -0x8000 <= v < 0x8000
    requires data[2 * i] == v % 0x100 && data[2 * i + 1] == v / 0x100 % 0x100
    ensures SampleAt(data, i) == v
  {
    assert v == v / 0x100 * 0x100 + v % 0x100;
    assert v >= 0 ==> v / 0x100 % 0x100 == v / 0x100;
    assert v < 0 ==> v / 0x100 % 0x100 == v / 0x100 + 0x100;
  }

  /** A voice that fills the frame is heard as it is, a shorter one not at all. */
  lemma OneVoiceIsHeard(v: Voice, n: nat, i: nat)
    requires i < n
    ensures SumAt([v], n, i) == if |v.data| >= 2 * n then SampleAt(v.data, i) else 0
  {
    assert [v][1..] == [];
  }

  /** Voices add up, however they are grouped. */
  lemma {:induction false} VoicesAdd(a: seq<Voice>, b: seq<Voice>, n: nat, i: nat)
    requires i < n
    ensures SumAt(a + b, n, i) == SumAt(a, n, i) + SumAt(b, n, i)
  {
    if |a| == 0 {
      assert a + b == b;
    } else {
      assert (a + b)[1..] == a[1..] + b;
      VoicesAdd(a[1..], b, n, i);
    }
  }

  /** So two voices are heard together as the sum of each alone. */
  lemma TwoVoicesMix(v: Voice, w: Voice, n: nat, toShort: real -> int, i: nat)
    requires Converts(toShort) && i < n && |v.data| >= 2 * n && |w.data| >= 2 * n
    requires forall k :: 0 <= k < n ==> Abs(SampleAt(v.data, k) + SampleAt(w.data, k)) <= PEAK
    ensures Scaled(Sums([v, w], n), toShort)[i] == SampleAt(v.data, i) + SampleAt(w.data, i)
  {
    forall k | 0 <= k < n ensures SumAt([v, w], n, k) == SampleAt(v.data, k) + SampleAt(w.data, k) {
      assert [v, w] == [v] + [w];
      VoicesAdd([v], [w], n, k);
      OneVoiceIsHeard(v, n, k);
      OneVoiceIsHeard(w, n, k);
    }
    MixIsExactWhenItFits(Sums([v, w], n), toShort);
  }

  /** A frame that is too loud is scaled, not clipped: each sample comes out
      between the two whole numbers that enclose its share of the peak. */
  lemma MixIsProportional(v: seq<int>, toShort: real -> int, i: nat, q: int, m: nat)
    requires Converts(toShort) && i < |v| && m == Loudest(v) > 32767
    requires q * m <= v[i] * 32767 <= (q + 1) * m && -32767 <= q < 32767
    ensures q <= Scaled(v, toShort)[i] <= q + 1
  {
    ScaledIs(v, toShort, i, m);
    ShareIsScaled(m, v[i], q, toShort);
  }

  lemma ScaledIs(v: seq<int>, toShort: real -> int, i: nat, m: nat)
    requires i < |v| && m == Loudest(v)
    ensures Scaled(v, toShort)[i] == ScaleOne(FactorFor(m), v[i], toShort)
  {
  }

  lemma ShareIsScaled(m: nat, x: int, q: int, toShort: real -> int)
    requires Converts(toShort) && m > 32767 && q * m <= x * 32767 <= (q + 1) * m && -32767 <= q < 32767
    ensures q <= ScaleOne(FactorFor(m), x, toShort) <= q + 1
  {
    ShareIsBetween(m, x, q);
    var share := FactorFor(m) * ToReal(x);
    ConvertsBetween(share, q, toShort);
  }

  lemma ConvertsBetween(share: real, q: int, toShort: real -> int)
    requires Converts(toShort) && ToReal(q) <= share <= ToReal(q + 1) && -32767 <= q < 32767
    ensures q <= toShort(share) <= q + 1
  {
    assert toShort(ToReal(q)) == q && toShort(ToReal(q + 1)) == q + 1;
  }

  lemma ShareIsBetween(m: nat, x: int, q: int)
    requires m > 32767 && q * m <= x * 32767 <= (q + 1) * m
    ensures ToReal(q) <= FactorFor(m) * ToReal(x) <= ToReal(q + 1)
  {
    var f, mm := FactorFor(m), ToReal(m);
    assert f * mm == 32767.0;
    var share := f * ToReal(x);
    assert share * mm == 32767.0 * ToReal(x) == ToReal(x * 32767) by {
      Rearrange(f, ToReal(x), mm);
    }
    assert ToReal(q) * mm == ToReal(q * m) && ToReal(q + 1) * mm == ToReal((q + 1) * m);
    Cancel(ToReal(q), share, mm);
    Cancel(share, ToReal(q + 1), mm);
  }

  lemma Rearrange(f: real, x: real, m: real)
    ensures f * x * m == f * m * x
  {
  }

  lemma Cancel(a: real, b: real, m: real)
    requires m > 0.0 && a * m <= b * m
    ensures a <= b
  {
  }
}
