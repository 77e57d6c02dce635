/** The formats byte by byte, on values small enough to write out. The round
    trips hold of any format that is written and read alike; these tell which
    one it is. */
module FormatExamples {
  import opened Common
  import opened GuidText
  import opened Wire

  // -------------------------------------------------------------------- text

  lemma DigitsAre(d: nat, upper: bool)
    requires d < 16
    ensures Digit(d, upper) == (if upper then "0123456789ABCDEF" else "0123456789abcdef")[d]
  {
  }

  /** The most significant digit comes first, with zeros in front. */
  lemma FourDigits(n: nat, upper: bool)
    requires n < 0x1_0000
    ensures Hex(n, 4, upper)
            == [Digit(n / 0x1000, upper), Digit(n / 0x100 % 16, upper), Digit(n / 16 % 16, upper), Digit(n % 16, upper)]
  {
    assert Hex(n / 0x1000, 1, upper) == [Digit(n / 0x1000, upper)];
    assert n / 16 / 16 == n / 0x100 && n / 16 / 16 / 16 == n / 0x1000;
    assert Hex(n / 16 / 16, 2, upper) == [Digit(n / 0x1000, upper), Digit(n / 0x100 % 16, upper)];
    assert Hex(n / 16, 3, upper)
           == [Digit(n / 0x1000, upper), Digit(n / 0x100 % 16, upper), Digit(n / 16 % 16, upper)];
  }

  /** The layout of the text: 8-4-4-4-12 digits in the order of the fields, and
      of the bytes within them. */
  lemma GuidLayout(g: Guid)
    ensures var t := GuidToText(g);
            && |t| == 36 && t[8] == t[13] == t[18] == t[23] == '-'
            && t[..8] == Hex(g.data1, 8, true) && t[9..13] == Hex(g.data2, 4, true)
            && t[14..18] == Hex(g.data3, 4, false)
            && t[19..23] == Hex(g.data4[0], 2, true) + Hex(g.data4[1], 2, true)
            && t[24..] == HexBytes(g.data4[2..])
  {
    TwoBytes(g.data4[..2]);
    var a, b, c := Hex(g.data1, 8, true), Hex(g.data2, 4, true), Hex(g.data3, 4, false);
    var d, e := HexBytes(g.data4[..2]), HexBytes(g.data4[2..]);
    assert GuidToText(g) == a + "-" + b + "-" + c + "-" + d + "-" + e;
  }

  lemma TwoBytes(bs: seq<U8>)
    requires |bs| == 2
    ensures HexBytes(bs) == Hex(bs[0], 2, true) + Hex(bs[1], 2, true)
  {
    assert bs[..1][..0] == [] && HexBytes(bs[..1]) == Hex(bs[0], 2, true);
  }

  /** Bytes are printed in their order, two digits each. */
  lemma {:induction false} ByteDigits(bs: seq<U8>, i: nat)
    requires i < |bs|
    ensures HexBytes(bs)[2 * i..2 * i + 2] == Hex(bs[i], 2, true)
  {
    var n := |bs| - 1;
    var front, last := HexBytes(bs[..n]), Hex(bs[n], 2, true);
    assert HexBytes(bs) == front + last;
    if i == n {
      assert (front + last)[2 * i..2 * i + 2] == last;
    } else {
      ByteDigits(bs[..n], i);
      assert (front + last)[2 * i..2 * i + 2] == front[2 * i..2 * i + 2];
    }
  }

  /** A character that is no digit makes the whole number 0. */
  lemma {:induction false} NoDigitReadsAsZero(s: string, acc: nat)
    requires acc < TWO_64 && exists c :: c in s && DigitValue(c).None?
    ensures Accumulate(s, acc) == 0
  {
    if DigitValue(s[0]).None? {
    } else {
      var c :| c in s && DigitValue(c).None?;
      assert c in s[1..];
      NoDigitReadsAsZero(s[1..], (acc * 16 + DigitValue(s[0]).value) % TWO_64);
    }
  }

  /** A text is read if and only if hyphens divide it into five pieces. */
  lemma FiveGroupsAreRead(text: string)
    ensures TextToGuid(text).Some? <==> |Pieces("-", text)| == 5
  {
  }

  // -------------------------------------------------------------------- bytes

  /** The least significant byte comes first; a negative number is written as
      the one 2^32 higher. */
  lemma NumberBytes(n: nat)
    requires n < 0x1_0000_0000
    ensures var b0: int, b1: int, b2: int, b3: int := PutU32(n)[0], PutU32(n)[1], PutU32(n)[2], PutU32(n)[3];
            n == b0 + b1 * 0x100 + b2 * 0x1_0000 + b3 * 0x100_0000
  {
    FourBytes(n);
    U32RoundTrip(n, []);
  }

  lemma NegativeBytes(x: int)
    requires -0x8000_0000 <= x < 0
    ensures PutU32(x) == PutU32(x + 0x1_0000_0000)
  {
  }

  lemma BoolBytes()
    ensures PutBool(true) == [1] && PutBool(false) == [0]
    ensures GetBool([0]) == Read(false, []) && GetBool([7]) == Read(true, []) && GetBool([]) == Short
  {
  }

  lemma ListBytes(x: Num, y: Num)
    ensures PutList([x, y]) == [2, 0, 0, 0] + PutU32(x) + PutU32(y)
  {
    assert PutAll([x, y]) == PutU32(x) + (PutU32(y) + PutAll([]));
  }

  /** A map of one key: how many keys, how many users, and the key before each
      user. */
  lemma UserMapBytes(key: Num, user: Num)
    ensures EncodeUserMap(map[key := {user}]) == [1, 0, 0, 0] + [1, 0, 0, 0] + PutU32(key) + PutU32(user)
  {
    var us := map[key := {user}];
    assert us.Keys == {key} && At(us, key) == {user};
    OnlyOne(key);
    OneKeyBytes(us, key);
    KeyBytes(key, user);
    OneBytes();
  }

  lemma OneBytes()
    ensures PutU32(1) == [1, 0, 0, 0]
  {
  }

  lemma OneKeyBytes(us: UserMap, key: Num)
    ensures PutKeys(us, [key]) == PutKey(key, At(us, key))
  {
    assert [key][1..] == [];
  }

  lemma KeyBytes(key: Num, user: Num)
    ensures PutKey(key, {user}) == [1, 0, 0, 0] + PutU32(key) + PutU32(user)
  {
    OnlyOne(user);
    assert PutPairs(key, [user]) == PutU32(key) + PutU32(user) + PutPairs(key, []);
  }

  lemma OnlyOne(x: Num)
    ensures Ascending({x}) == [x] && |{x}| == 1
  {
    AscendingHasAll({x});
    assert Ascending({x})[0] in Ascending({x});
  }

  /** The fields of a message in the order in which they are sent. */
  lemma MaixuBytes(m: Maixu)
    requires m.userlist == [] && m.guests == {}
    ensures EncodeMaixu(m)
            == [if m.mute then 1 else 0] + [if m.disable then 1 else 0] + PutU32(m.ring) + PutU32(m.count)
               + PutU32(m.validring) + [0, 0, 0, 0] + PutU32(m.channelId) + [0, 0, 0, 0]
  {
  }

  // ------------------------------------------------------------- cut messages

  lemma NumbersNeedFourBytes(bs: seq<Byte>)
    ensures GetU32(bs).Short? <==> |bs| < 4
  {
  }

  /** A list that is cut short has what could be read of it. */
  lemma CutList(into: seq<Num>, x: Num, rest: seq<Byte>)
    requires IsU32(x) && |rest| < 4
    ensures GetList(into, PutU32(2) + (PutU32(x) + rest)) == Filled(into + [x], rest, false)
  {
    U32RoundTrip(2, PutU32(x) + rest);
    U32RoundTrip(x, rest);
    CutNumbers(into, x, rest);
  }

  lemma CutNumbers(into: seq<Num>, x: Num, rest: seq<Byte>)
    requires IsU32(x) && |rest| < 4
    ensures GetAll(into, PutU32(x) + rest, 2) == Filled(into + [x], rest, false)
  {
    U32RoundTrip(x, rest);
    assert GetAll(into + [x], rest, 1) == Filled(into + [x], rest, false);
  }

  /** A key whose user is cut off is entered without a user. */
  lemma CutPair(us: UserMap, key: Num, rest: seq<Byte>)
    requires IsI32(key) && key !in us && |rest| < 4
    ensures GetPair(us, PutU32(key) + rest) == Filled(us[key := {}], rest, false)
  {
    U32RoundTrip(key, rest);
    KeyRoundTrip(key);
  }

  /** A message cut off after `ring` changes the three fields before it alone. */
  lemma CutMessage(into: Maixu, mute: bool, disable: bool, ring: nat, rest: seq<Byte>)
    requires IsU32(ring) && |rest| < 4
    ensures DecodeMaixu(into, PutBool(mute) + (PutBool(disable) + (PutU32(ring) + rest)))
            == Filled(into.(mute := mute, disable := disable, ring := ring), rest, false)
  {
    var b2 := PutU32(ring) + rest;
    var b1 := PutBool(disable) + b2;
    var b0 := PutBool(mute) + b1;
    assert b0[1..] == b1 && b1[1..] == b2;
    U32RoundTrip(ring, rest);
    assert GetNumbers(into.(mute := mute, disable := disable), b2)
           == Filled(into.(mute := mute, disable := disable, ring := ring), rest, false);
  }

  /** Reading a list never loses what was there. */
  lemma ListKeepsWhatWasThere(xs: seq<Num>, bs: seq<Byte>)
    ensures xs <= GetList(xs, bs).value
  {
  }

  /** Whatever the bytes, each field of the queue part is read at its place, and
      keeps its value when the bytes do not reach that far. */
  lemma FieldsAreAtTheirPlaces(into: Maixu, bs: seq<Byte>)
    ensures var r := GetQueue(into, bs).value;
            && r.mute == (if |bs| >= 1 then bs[0] != 0 else into.mute)
            && r.disable == (if |bs| >= 2 then bs[1] != 0 else into.disable)
            && r.ring == (if |bs| >= 6 then GetU32(bs[2..]).value else into.ring)
            && r.count == (if |bs| >= 10 then GetU32(bs[6..]).value else into.count)
            && r.validring == (if |bs| >= 14 then GetU32(bs[10..]).value else into.validring)
            && into.userlist <= r.userlist && (|bs| < 18 ==> r.userlist == into.userlist)
            && r.channelId == into.channelId && r.guests == into.guests
  {
    if |bs| >= 2 {
      var m2 := into.(mute := bs[0] != 0, disable := bs[1] != 0);
      assert bs[1..][1..] == bs[2..];
      assert GetQueue(into, bs) == GetNumbers(m2, bs[2..]);
      NumbersAreAtTheirPlaces(m2, bs[2..]);
      if |bs| >= 6 {
        assert bs[2..][4..] == bs[6..];
      }
      if |bs| >= 10 {
        assert bs[2..][8..] == bs[10..];
      }
    }
  }

  lemma NumbersAreAtTheirPlaces(m: Maixu, bs: seq<Byte>)
    ensures var r := GetNumbers(m, bs).value;
            && r.mute == m.mute && r.disable == m.disable
            && r.ring == (if |bs| >= 4 then GetU32(bs).value else m.ring)
            && r.count == (if |bs| >= 8 then GetU32(bs[4..]).value else m.count)
            && r.validring == (if |bs| >= 12 then GetU32(bs[8..]).value else m.validring)
            && m.userlist <= r.userlist && (|bs| < 16 ==> r.userlist == m.userlist)
            && r.channelId == m.channelId && r.guests == m.guests
  {
    if |bs| >= 8 {
      assert bs[4..][4..] == bs[8..];
    }
    if |bs| >= 12 {
      assert bs[8..][4..] == bs[12..];
    }
  }
}
