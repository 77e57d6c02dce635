/** The wire formats of `include/protocol/psessionbase.h` and
    `include/protocol/psmemberlist.h` over the packing primitives of
    `include/common/nsox/packet.h` (little-endian on the client's platform). */
module Wire {
  import opened Common

  type Byte = x: nat | x < 0x100

  const LIMIT: nat := 0x1_0000_0000

  /** A 32-bit number, as `int` keys and `uint32_t` users hold them. */
  type Num = x: int | -0x8000_0000 <= x < 0x1_0000_0000

  /** The values of `uint32_t` and of `int`. */
  predicate IsU32(x: int) { 0 <= x < LIMIT }

  predicate IsI32(x: int) { -0x8000_0000 <= x < 0x8000_0000 }

  function ToU32(x: int): (r: nat)
    ensures r < LIMIT
  {
    x % LIMIT
  }

  function ToI32(x: nat): Num
    requires IsU32(x)
  {
    if x < 0x8000_0000 then x else x - LIMIT
  }

  lemma KeyRoundTrip(x: int)
    requires IsI32(x)
    ensures IsU32(ToU32(x)) && ToI32(ToU32(x)) == x
  {
    if x < 0 {
      assert (x + LIMIT) % LIMIT == x + LIMIT;
    }
  }

  // -------------------------------------------------------------- primitives

  /** What is left to read after a value; `Short` is the unpack error. */
  datatype Read<T> = Read(value: T, rest: seq<Byte>) | Short

  /** `push_uint32` of a value cast to `uint32_t`. */
  function PutU32(x: int): (bs: seq<Byte>)
    ensures |bs| == 4
  {
    var n := ToU32(x);
    [n % 0x100, n / 0x100 % 0x100, n / 0x1_0000 % 0x100, n / 0x100_0000]
  }

  function GetU32(bs: seq<Byte>): (r: Read<nat>)
    ensures r.Read? ==> IsU32(r.value)
  {
    if |bs| < 4 then Short
    else
      var b0: int, b1: int, b2: int, b3: int := bs[0], bs[1], bs[2], bs[3];
      Read(b0 + b1 * 0x100 + b2 * 0x1_0000 + b3 * 0x100_0000, bs[4..])
  }

  function PutBool(b: bool): seq<Byte> { [if b then 1 else 0] }

  function GetBool(bs: seq<Byte>): Read<bool> {
    if |bs| < 1 then Short else Read(bs[0] != 0, bs[1..])
  }

  lemma FourBytes(n: nat)
    requires n < LIMIT
    ensures n == n % 0x100 + n / 0x100 % 0x100 * 0x100 + n / 0x1_0000 % 0x100 * 0x1_0000 + n / 0x100_0000 * 0x100_0000
    ensures n / 0x100_0000 < 0x100
  {
    assert n / 0x1_0000 == n / 0x100 / 0x100 && n / 0x100_0000 == n / 0x1_0000 / 0x100;
  }

  lemma U32RoundTrip(x: int, rest: seq<Byte>)
    ensures GetU32(PutU32(x) + rest) == Read(ToU32(x), rest)
    ensures IsU32(x) ==> ToU32(x) == x
  {
    FourBytes(ToU32(x));
    var bs := PutU32(x) + rest;
    assert bs[4..] == rest;
  }

  function PutAll(xs: seq<Num>): (bs: seq<Byte>)
    ensures |bs| == 4 * |xs|
  {
    if |xs| == 0 then [] else PutU32(xs[0]) + PutAll(xs[1..])
  }

  /** What has been filled in so far and the unread bytes; `ok` is false after
      the unpack error that ended the reading. */
  datatype Filled<T> = Filled(value: T, rest: seq<Byte>, ok: bool)

  /** Numbers are appended one by one to those that are there. */
  function GetAll(xs: seq<Num>, bs: seq<Byte>, count: nat): (r: Filled<seq<Num>>)
    ensures xs <= r.value
    ensures r.ok ==> |r.value| == |xs| + count
    decreases count
  {
    if count == 0 then Filled(xs, bs, true)
    else
      var x := GetU32(bs);
      if x.Short? then Filled(xs, bs, false) else GetAll(xs + [x.value], x.rest, count - 1)
  }

  lemma {:induction false} AllRoundTrip(into: seq<Num>, xs: seq<Num>, rest: seq<Byte>)
    requires forall x :: x in xs ==> IsU32(x)
    ensures GetAll(into, PutAll(xs) + rest, |xs|) == Filled(into + xs, rest, true)
    decreases |xs|
  {
    if |xs| > 0 {
      assert PutAll(xs) + rest == PutU32(xs[0]) + (PutAll(xs[1..]) + rest);
      U32RoundTrip(xs[0], PutAll(xs[1..]) + rest);
      AllRoundTrip(into + [xs[0]], xs[1..], rest);
      assert into + xs == into + [xs[0]] + xs[1..];
    } else {
      assert PutAll(xs) + rest == rest;
      assert into + xs == into;
    }
  }

  /** A counted list, as containers are written. */
  function PutList(xs: seq<Num>): seq<Byte> { PutU32(|xs|) + PutAll(xs) }

  function GetList(xs: seq<Num>, bs: seq<Byte>): Filled<seq<Num>> {
    var count := GetU32(bs);
    if count.Short? then Filled(xs, bs, false) else GetAll(xs, count.rest, count.value)
  }

  lemma ListRoundTrip(into: seq<Num>, xs: seq<Num>, rest: seq<Byte>)
    requires |xs| < LIMIT && forall x :: x in xs ==> IsU32(x)
    ensures GetList(into, PutList(xs) + rest) == Filled(into + xs, rest, true)
  {
    assert PutList(xs) + rest == PutU32(|xs|) + (PutAll(xs) + rest);
    U32RoundTrip(|xs|, PutAll(xs) + rest);
    AllRoundTrip(into, xs, rest);
  }

  // ------------------------------------------------ sets in ascending order

  lemma {:induction false} MinExists(s: set<Num>) returns (m: Num)
    requires s != {}
    ensures m in s && forall x :: x in s ==> m <= x
  {
    var a :| a in s;
    var rest := s - {a};
    m := a;
    if rest != {} {
      var n := MinExists(rest);
      m := if n < a then n else a;
    }
    forall x | x in s ensures m <= x {
      assert x == a || x in rest;
    }
  }

  lemma SomeMin(s: set<Num>)
    requires s != {}
    ensures exists m :: m in s && forall x :: x in s ==> m <= x
  {
    var m := MinExists(s);
  }

  function Min(s: set<Num>): (m: Num)
    requires s != {}
    ensures m in s && forall x :: x in s ==> m <= x
  {
    SomeMin(s);
    var m :| m in s && forall x :: x in s ==> m <= x;
    m
  }

  /** The iteration order of the ordered containers. */
  function Ascending(s: set<Num>): (r: seq<Num>)
    ensures |r| == |s|
    decreases |s|
  {
    if s == {} then []
    else
      var m := Min(s);
      [m] + Ascending(s - {m})
  }

  lemma {:induction false} AscendingElements(s: set<Num>, x: Num)
    ensures x in Ascending(s) <==> x in s
    decreases |s|
  {
    if s != {} {
      AscendingElements(s - {Min(s)}, x);
    }
  }

  lemma {:induction false} AscendingIsSorted(s: set<Num>, i: nat, j: nat)
    requires i < j < |s|
    ensures Ascending(s)[i] < Ascending(s)[j]
    decreases |s|
  {
    var rest := s - {Min(s)};
    if i > 0 {
      AscendingIsSorted(rest, i - 1, j - 1);
    } else {
      var x := Ascending(rest)[j - 1];
      AscendingElements(rest, x);
      assert x in rest;
    }
  }

  /** What a set is written as reads back as that set. */
  lemma AscendingHasAll(s: set<Num>)
    ensures ValuesOf(Ascending(s)) == s
    ensures forall x :: x in Ascending(s) <==> x in s
  {
    forall x: Num ensures x in Ascending(s) <==> x in s {
      AscendingElements(s, x);
    }
  }

  function ValuesOf(values: seq<Num>): set<Num> { set v | v in values }

  // ---------------------------------------------------------- ChannelUserMap

  type UserMap = map<Num, set<Num>>

  /** What the source's types guarantee: `int` keys, `uint32_t` users, and
      sizes that fit the 32-bit counts. */
  ghost predicate Typed(us: UserMap) {
    && |us| < LIMIT
    && forall k :: k in us ==> IsI32(k) && |us[k]| < LIMIT && forall v :: v in us[k] ==> IsU32(v)
  }

  function PutPairs(key: Num, values: seq<Num>): seq<Byte> {
    if |values| == 0 then []
    else PutU32(key) + PutU32(values[0]) + PutPairs(key, values[1..])
  }

  function At(us: UserMap, key: Num): set<Num> { if key in us then us[key] else {} }

  /** One key: how many users, then a pair for each. */
  function PutKey(key: Num, users: set<Num>): seq<Byte> {
    PutU32(|users|) + PutPairs(key, Ascending(users))
  }

  function PutKeys(us: UserMap, keys: seq<Num>): seq<Byte>
  {
    if |keys| == 0 then []
    else
      PutKey(keys[0], At(us, keys[0])) + PutKeys(us, keys[1..])
  }

  function EncodeUserMap(us: UserMap): seq<Byte> {
    PutU32(|us|) + PutKeys(us, Ascending(us.Keys))
  }

  function GetPair(us: UserMap, bs: seq<Byte>): Filled<UserMap> {
    var key := GetU32(bs);
    if key.Short? then Filled(us, bs, false)
    else
      var k := ToI32(key.value);
      var value := GetU32(key.rest);
      // the key is entered before its value is read
      if value.Short? then Filled(us[k := At(us, k)], key.rest, false)
      else Filled(us[k := At(us, k) + {value.value}], value.rest, true)
  }

  function GetPairs(us: UserMap, bs: seq<Byte>, count: nat): Filled<UserMap>
    decreases count
  {
    if count == 0 then Filled(us, bs, true)
    else
      var f := GetPair(us, bs);
      if f.ok then GetPairs(f.value, f.rest, count - 1) else f
  }

  function GetKeys(us: UserMap, bs: seq<Byte>, count: nat): Filled<UserMap>
    decreases count
  {
    if count == 0 then Filled(us, bs, true)
    else
      var inner := GetU32(bs);
      if inner.Short? then Filled(us, bs, false)
      else
        var f := GetPairs(us, inner.rest, inner.value);
        if !f.ok then f else GetKeys(f.value, f.rest, count - 1)
  }

  function DecodeUserMap(us: UserMap, bs: seq<Byte>): Filled<UserMap> {
    var outer := GetU32(bs);
    if outer.Short? then Filled(us, bs, false) else GetKeys(us, outer.rest, outer.value)
  }

  function Entered(us: UserMap, key: Num, values: set<Num>): UserMap {
    if values == {} then us else us[key := At(us, key) + values]
  }

  lemma {:induction false} PairsRoundTrip(us: UserMap, key: Num, values: seq<Num>, rest: seq<Byte>)
    requires IsI32(key) && forall v :: v in values ==> IsU32(v)
    ensures GetPairs(us, PutPairs(key, values) + rest, |values|)
            == Filled(Entered(us, key, ValuesOf(values)), rest, true)
    decreases |values|
  {
    if |values| == 0 {
      assert PutPairs(key, values) + rest == rest;
      return;
    }
    var tail := PutPairs(key, values[1..]) + rest;
    assert PutPairs(key, values) + rest == PutU32(key) + (PutU32(values[0]) + tail);
    U32RoundTrip(key, PutU32(values[0]) + tail);
    U32RoundTrip(values[0], tail);
    KeyRoundTrip(key);
    var next := us[key := At(us, key) + {values[0]}];
    PairsRoundTrip(next, key, values[1..], rest);
    EnteredStep(us, key, values);
  }

  lemma EnteredStep(us: UserMap, key: Num, values: seq<Num>)
    requires |values| > 0
    ensures Entered(us[key := At(us, key) + {values[0]}], key, ValuesOf(values[1..]))
            == Entered(us, key, ValuesOf(values))
  {
    var v, more := values[0], ValuesOf(values[1..]);
    assert ValuesOf(values) == {v} + more;
    var next := us[key := At(us, key) + {v}];
    assert At(us, key) + ({v} + more) == At(us, key) + {v} + more;
    if more == {} {
      assert ValuesOf(values) == {v};
    } else {
      assert next[key := At(us, key) + {v} + more] == us[key := At(us, key) + {v} + more];
    }
  }

  function EnteredAll(into: UserMap, us: UserMap, keys: seq<Num>): UserMap
    decreases |keys|
  {
    if |keys| == 0 then into else EnteredAll(Entered(into, keys[0], At(us, keys[0])), us, keys[1..])
  }

  lemma {:induction false} KeysRoundTrip(into: UserMap, us: UserMap, keys: seq<Num>, rest: seq<Byte>)
    requires Typed(us) && forall i :: 0 <= i < |keys| ==> IsI32(keys[i])
    ensures GetKeys(into, PutKeys(us, keys) + rest, |keys|) == Filled(EnteredAll(into, us, keys), rest, true)
    decreases |keys|
  {
    if |keys| == 0 {
      assert PutKeys(us, keys) + rest == rest;
      return;
    }
    var k := keys[0];
    var tail := PutKeys(us, keys[1..]) + rest;
    assert PutKeys(us, keys) + rest == PutKey(k, At(us, k)) + tail;
    KeyDecodes(into, k, At(us, k), tail);
    KeysRoundTrip(Entered(into, k, At(us, k)), us, keys[1..], rest);
  }

  lemma KeyDecodes(into: UserMap, k: Num, users: set<Num>, tail: seq<Byte>)
    requires IsI32(k) && |users| < LIMIT && forall v :: v in users ==> IsU32(v)
    ensures GetU32(PutKey(k, users) + tail) == Read(|users|, PutPairs(k, Ascending(users)) + tail)
    ensures GetPairs(into, PutPairs(k, Ascending(users)) + tail, |users|) == Filled(Entered(into, k, users), tail, true)
  {
    var values := Ascending(users);
    assert PutKey(k, users) + tail == PutU32(|users|) + (PutPairs(k, values) + tail);
    U32RoundTrip(|users|, PutPairs(k, values) + tail);
    AscendingHasAll(users);
    PairsRoundTrip(into, k, values, tail);
  }

  lemma {:induction false} EnteredAllAt(into: UserMap, us: UserMap, keys: seq<Num>, k: Num)
    requires Distinct(keys)
    ensures var r := EnteredAll(into, us, keys);
            && At(r, k) == (if k in keys then At(into, k) + At(us, k) else At(into, k))
            && (k in r <==> k in into || (k in keys && At(us, k) != {}))
    decreases |keys|
  {
    if |keys| == 0 {
    } else {
      EnteredAllAt(Entered(into, keys[0], At(us, keys[0])), us, keys[1..], k);
      assert keys == [keys[0]] + keys[1..];
      if k == keys[0] {
        assert k !in keys[1..];
      }
    }
  }

  /** The map without the keys that have no users. */
  function WithoutEmpty(us: UserMap): UserMap {
    map k | k in us && us[k] != {} :: us[k]
  }

  /** Decoding an encoded map adds exactly its users to what the receiver had,
      whatever follows in the message. */
  lemma UserMapMerges(into: UserMap, us: UserMap, rest: seq<Byte>, k: Num)
    requires Typed(us)
    ensures var f := DecodeUserMap(into, EncodeUserMap(us) + rest);
            && f.ok && f.rest == rest
            && At(f.value, k) == At(into, k) + At(us, k)
            && (k in f.value <==> k in into || At(us, k) != {})
  {
    AscendingKeys(us);
    UserMapDecodes(into, us, Ascending(us.Keys), rest);
    EnteredAllAt(into, us, Ascending(us.Keys), k);
  }

  /** A fresh receiver gets the same map minus the keys without users. */
  lemma UserMapRoundTrip(us: UserMap, rest: seq<Byte>)
    requires Typed(us)
    ensures DecodeUserMap(map[], EncodeUserMap(us) + rest) == Filled(WithoutEmpty(us), rest, true)
  {
    var keys := Ascending(us.Keys);
    UserMapDecodes(map[], us, keys, rest);
    FreshIsWithoutEmpty(us, keys);
  }

  /** The round trip gives the very same map exactly when no key is without
      users. */
  lemma SameMapIff(us: UserMap, rest: seq<Byte>)
    requires Typed(us)
    ensures DecodeUserMap(map[], EncodeUserMap(us) + rest).value == us <==> forall k :: k in us ==> us[k] != {}
  {
    UserMapRoundTrip(us, rest);
    var r := WithoutEmpty(us);
    if forall k :: k in us ==> us[k] != {} {
      forall k: Num ensures SameAt(r, us, k) {
      }
      SameMaps(r, us);
    }
  }

  lemma FreshIsWithoutEmpty(us: UserMap, keys: seq<Num>)
    requires keys == Ascending(us.Keys)
    ensures EnteredAll(map[], us, keys) == WithoutEmpty(us)
  {
    AscendingKeys(us);
    forall k: Num ensures SameAt(EnteredAll(map[], us, keys), WithoutEmpty(us), k) {
      EnteredAllAt(map[], us, keys, k);
    }
    SameMaps(EnteredAll(map[], us, keys), WithoutEmpty(us));
  }

  predicate SameAt(a: UserMap, b: UserMap, k: Num) {
    (k in a <==> k in b) && At(a, k) == At(b, k)
  }

  lemma SameMaps(a: UserMap, b: UserMap)
    requires forall k: Num :: SameAt(a, b, k)
    ensures a == b
  {
    forall k: Num | k in a ensures k in b && a[k] == b[k] {
      assert SameAt(a, b, k);
    }
    forall k: Num | k in b ensures k in a {
      assert SameAt(a, b, k);
    }
  }

  lemma AscendingKeys(us: UserMap)
    ensures Distinct(Ascending(us.Keys))
    ensures forall k :: k in Ascending(us.Keys) <==> k in us
  {
    AscendingHasAll(us.Keys);
    var r := Ascending(us.Keys);
    forall i, j | 0 <= i < j < |r| ensures r[i] != r[j] {
      AscendingIsSorted(us.Keys, i, j);
    }
  }

  lemma UserMapDecodes(into: UserMap, us: UserMap, keys: seq<Num>, rest: seq<Byte>)
    requires Typed(us) && keys == Ascending(us.Keys)
    ensures DecodeUserMap(into, EncodeUserMap(us) + rest) == Filled(EnteredAll(into, us, keys), rest, true)
  {
    var body := PutKeys(us, keys);
    assert PutU32(|us|) + body + rest == PutU32(|us|) + (body + rest);
    U32RoundTrip(|us|, body + rest);
    AscendingHasAll(us.Keys);
    KeysRoundTrip(into, us, keys, rest);
    assert |keys| == |us|;
  }

  // -------------------------------------------------------------- PMaixuJoin

  datatype Maixu = Maixu(mute: bool, disable: bool, ring: int, count: int, validring: int,
                         userlist: seq<Num>, channelId: int, guests: set<Num>)
  {
    /** What the source's types guarantee. */
    ghost predicate Typed() {
      && IsU32(ring) && IsU32(count) && IsU32(validring) && IsU32(channelId)
      && |userlist| < LIMIT && (forall u :: u in userlist ==> IsU32(u))
      && |guests| < LIMIT && (forall u :: u in guests ==> IsU32(u))
    }
  }

  const FRESH: Maixu := Maixu(false, false, 300, 0, 300, [], 0, {})

  /** The queue part, `ChannelQueueMar::marshal`. */
  function PutQueue(m: Maixu): seq<Byte> {
    PutBool(m.mute) + PutBool(m.disable) + PutU32(m.ring) + PutU32(m.count) + PutU32(m.validring) + PutList(m.userlist)
  }

  /** What a sender without guests writes. */
  function PutWithoutGuests(m: Maixu): seq<Byte> { PutQueue(m) + PutU32(m.channelId) }

  function EncodeMaixu(m: Maixu): seq<Byte> { PutWithoutGuests(m) + PutList(Ascending(m.guests)) }

  /** Field by field; users are appended to the list that is there. */
  function GetQueue(into: Maixu, bs: seq<Byte>): Filled<Maixu> {
    var mute := GetBool(bs);
    if mute.Short? then Filled(into, bs, false) else
    var m1 := into.(mute := mute.value);
    var disable := GetBool(mute.rest);
    if disable.Short? then Filled(m1, mute.rest, false) else
    GetNumbers(m1.(disable := disable.value), disable.rest)
  }

  /** From `ring` on. */
  function GetNumbers(m2: Maixu, bs: seq<Byte>): Filled<Maixu> {
    var ring := GetU32(bs);
    if ring.Short? then Filled(m2, bs, false) else
    var m3 := m2.(ring := ring.value);
    var count := GetU32(ring.rest);
    if count.Short? then Filled(m3, ring.rest, false) else
    var m4 := m3.(count := count.value);
    var validring := GetU32(count.rest);
    if validring.Short? then Filled(m4, count.rest, false) else
    var m5 := m4.(validring := validring.value);
    var users := GetList(m5.userlist, validring.rest);
    Filled(m5.(userlist := users.value), users.rest, users.ok)
  }

  /** Guests are read only when more than the four bytes of a trailer are left. */
  function GetGuests(m: Maixu, bs: seq<Byte>): Filled<Maixu> {
    if |bs| > 4 then
      var guests := GetList([], bs);
      Filled(m.(guests := m.guests + ValuesOf(guests.value)), guests.rest, guests.ok)
    else Filled(m, bs, true)
  }

  function DecodeMaixu(into: Maixu, bs: seq<Byte>): Filled<Maixu> {
    var q := GetQueue(into, bs);
    if !q.ok then q else
    var channel := GetU32(q.rest);
    if channel.Short? then Filled(q.value, q.rest, false)
    else GetGuests(q.value.(channelId := channel.value), channel.rest)
  }

  lemma QueueRoundTrip(into: Maixu, m: Maixu, rest: seq<Byte>)
    requires m.Typed()
    ensures GetQueue(into, PutQueue(m) + rest)
            == Filled(m.(userlist := into.userlist + m.userlist, channelId := into.channelId, guests := into.guests),
                      rest, true)
  {
    var b5 := PutList(m.userlist) + rest;
    var b4 := PutU32(m.validring) + b5;
    var b3 := PutU32(m.count) + b4;
    var b2 := PutU32(m.ring) + b3;
    var b1 := PutBool(m.disable) + b2;
    var b0 := PutBool(m.mute) + b1;
    PutQueueNests(m, rest);
    assert b0[1..] == b1 && b1[1..] == b2;
    U32RoundTrip(m.ring, b3);
    U32RoundTrip(m.count, b4);
    U32RoundTrip(m.validring, b5);
    ListRoundTrip(into.userlist, m.userlist, rest);
  }

  lemma PutQueueNests(m: Maixu, rest: seq<Byte>)
    ensures PutQueue(m) + rest
            == PutBool(m.mute) + (PutBool(m.disable) + (PutU32(m.ring) + (PutU32(m.count)
               + (PutU32(m.validring) + (PutList(m.userlist) + rest)))))
  {
  }

  /** Reading past the channel id leaves the guests to the rest of the message. */
  lemma HeadRoundTrip(m: Maixu, rest: seq<Byte>)
    requires m.Typed()
    ensures DecodeMaixu(FRESH, PutWithoutGuests(m) + rest) == GetGuests(m.(guests := {}), rest)
  {
    assert PutWithoutGuests(m) + rest == PutQueue(m) + (PutU32(m.channelId) + rest);
    QueueRoundTrip(FRESH, m, PutU32(m.channelId) + rest);
    U32RoundTrip(m.channelId, rest);
    assert [] + m.userlist == m.userlist;
  }

  /** A message decodes into a fresh object as it was sent, guests included,
      whatever follows it. */
  lemma MaixuRoundTrip(m: Maixu, trailer: seq<Byte>)
    requires m.Typed()
    ensures var r := DecodeMaixu(FRESH, EncodeMaixu(m) + trailer);
            r.ok && r.value == m
  {
    var guests := Ascending(m.guests);
    assert EncodeMaixu(m) + trailer == PutWithoutGuests(m) + (PutList(guests) + trailer);
    HeadRoundTrip(m, PutList(guests) + trailer);
    AscendingHasAll(m.guests);
    ListRoundTrip([], guests, trailer);
    assert [] + guests == guests;
    assert {} + m.guests == m.guests;
  }

  /** A message from a sender without guests decodes to no guests exactly when
      what follows it is at most a trailer, or reads as an empty list. */
  lemma NoGuestsIff(m: Maixu, trailer: seq<Byte>)
    requires m.Typed()
    ensures var r := DecodeMaixu(FRESH, PutWithoutGuests(m) + trailer);
            r.ok && r.value == m.(guests := {}) <==> |trailer| <= 4 || GetU32(trailer).value == 0
  {
    HeadRoundTrip(m, trailer);
    if |trailer| > 4 {
      var count := GetU32(trailer);
      var guests := GetAll([], count.rest, count.value);
      if guests.ok && count.value > 0 {
        assert guests.value[0] in ValuesOf(guests.value);
      } else if guests.ok {
        assert ValuesOf(guests.value) == {};
      }
    }
  }

  // ------------------------------------------------------------- the objects

  class Pack {
    var buf: seq<Byte>

    constructor ()
      ensures buf == []
    {
      buf := [];
    }

    method PushU32(x: int)
      modifies this
      ensures buf == old(buf) + PutU32(x)
    {
      buf := buf + PutU32(x);
    }

    method PushBool(b: bool)
      modifies this
      ensures buf == old(buf) + PutBool(b)
    {
      buf := buf + PutBool(b);
    }

    method PushList(xs: seq<Num>)
      modifies this
      ensures buf == old(buf) + PutList(xs)
    {
      PushU32(|xs|);
      var i := 0;
      while i < |xs|
        invariant 0 <= i <= |xs|
        invariant buf + PutAll(xs[i..]) == old(buf) + PutList(xs)
      {
        assert buf + (PutU32(xs[i]) + PutAll(xs[i..][1..])) == buf + PutU32(xs[i]) + PutAll(xs[i + 1..]);
        PushU32(xs[i]);
        i := i + 1;
      }
      assert buf + PutAll(xs[i..]) == buf;
    }
  }

  class Unpack {
    var data: seq<Byte>

    constructor (data: seq<Byte>)
      ensures this.data == data
    {
      this.data := data;
    }

    method PopU32() returns (r: Option<nat>)
      modifies this
      ensures r.None? <==> GetU32(old(data)).Short?
      ensures r.None? ==> data == old(data)
      ensures r.Some? ==> GetU32(old(data)) == Read(r.value, data)
    {
      var x := GetU32(data);
      if x.Short? {
        return None;
      }
      data := x.rest;
      return Some(x.value);
    }

    method PopBool() returns (r: Option<bool>)
      modifies this
      ensures r.None? <==> GetBool(old(data)).Short?
      ensures r.None? ==> data == old(data)
      ensures r.Some? ==> GetBool(old(data)) == Read(r.value, data)
    {
      if |data| < 1 {
        return None;
      }
      r := Some(data[0] != 0);
      data := data[1..];
    }

    /** Numbers are appended to `into` until the bytes run out. */
    method PopList(into: seq<Num>) returns (xs: seq<Num>, ok: bool)
      modifies this
      ensures Filled(xs, data, ok) == GetList(into, old(data))
    {
      xs := into;
      var size := PopU32();
      if size.None? {
        return xs, false;
      }
      var i := size.value;
      while i > 0
        invariant GetAll(xs, data, i) == GetList(into, old(data))
      {
        var x := PopU32();
        if x.None? {
          return xs, false;
        }
        xs := xs + [x.value];
        i := i - 1;
      }
      return xs, true;
    }
  }

  class ChannelUserMap {
    var us: UserMap

    constructor ()
      ensures us == map[]
    {
      us := map[];
    }

    method Marshal(p: Pack)
      modifies p
      ensures p.buf == old(p.buf) + EncodeUserMap(us)
    {
      p.PushU32(|us|);
      var keys := Ascending(us.Keys);
      var i := 0;
      while i < |keys|
        invariant 0 <= i <= |keys|
        invariant p.buf + PutKeys(us, keys[i..]) == old(p.buf) + EncodeUserMap(us)
      {
        PutKeysStep(us, keys, i, p.buf);
        PushKey(p, keys[i], At(us, keys[i]));
        i := i + 1;
      }
      assert p.buf + PutKeys(us, keys[i..]) == p.buf;
    }

    static lemma PutKeysStep(us: UserMap, keys: seq<Num>, i: nat, buf: seq<Byte>)
      requires i < |keys|
      ensures buf + PutKey(keys[i], At(us, keys[i])) + PutKeys(us, keys[i + 1..]) == buf + PutKeys(us, keys[i..])
    {
      assert keys[i..][1..] == keys[i + 1..];
      var a, b := PutKey(keys[i], At(us, keys[i])), PutKeys(us, keys[i + 1..]);
      assert buf + a + b == buf + (a + b);
    }

    static method PushKey(p: Pack, key: Num, users: set<Num>)
      modifies p
      ensures p.buf == old(p.buf) + PutKey(key, users)
    {
      p.PushU32(|users|);
      PushPairs(p, key, Ascending(users));
    }

    static method PushPairs(p: Pack, key: Num, values: seq<Num>)
      modifies p
      ensures p.buf == old(p.buf) + PutPairs(key, values)
    {
      var j := 0;
      while j < |values|
        invariant 0 <= j <= |values|
        invariant p.buf + PutPairs(key, values[j..]) == old(p.buf) + PutPairs(key, values)
      {
        assert values[j..][1..] == values[j + 1..];
        ghost var more, before := PutPairs(key, values[j + 1..]), p.buf;
        p.PushU32(key);
        p.PushU32(values[j]);
        assert p.buf + more == before + (PutU32(key) + PutU32(values[j]) + more);
        j := j + 1;
      }
      assert p.buf + PutPairs(key, values[j..]) == p.buf;
    }

    method Unmarshal(p: Unpack) returns (ok: bool)
      modifies this, p
      ensures Filled(us, p.data, ok) == DecodeUserMap(old(us), old(p.data))
    {
      var outer := p.PopU32();
      if outer.None? {
        return false;
      }
      var count1 := outer.value;
      while count1 > 0
        invariant GetKeys(us, p.data, count1) == DecodeUserMap(old(us), old(p.data))
        decreases count1
      {
        var inner := p.PopU32();
        if inner.None? {
          return false;
        }
        var filled := ReadPairs(p, inner.value);
        if !filled {
          return false;
        }
        count1 := count1 - 1;
      }
      return true;
    }

    method ReadPairs(p: Unpack, count: nat) returns (ok: bool)
      modifies this, p
      ensures Filled(us, p.data, ok) == GetPairs(old(us), old(p.data), count)
    {
      var count2 := count;
      while count2 > 0
        invariant GetPairs(us, p.data, count2) == GetPairs(old(us), old(p.data), count)
      {
        var read := ReadPair(p);
        if !read {
          return false;
        }
        count2 := count2 - 1;
      }
      return true;
    }

    method ReadPair(p: Unpack) returns (ok: bool)
      modifies this, p
      ensures Filled(us, p.data, ok) == GetPair(old(us), old(p.data))
    {
      var key := p.PopU32();
      if key.None? {
        return false;
      }
      var k := ToI32(key.value);
      ghost var before := us;
      us := us[k := At(us, k)];
      var value := p.PopU32();
      if value.None? {
        return false;
      }
      us := us[k := us[k] + {value.value}];
      assert us == before[k := At(before, k) + {value.value}];
      return true;
    }
  }

  class MaixuJoin {
    var m: Maixu

    constructor ()
      ensures m == FRESH
    {
      m := FRESH;
    }

    method Marshal(p: Pack)
      modifies p
      ensures p.buf == old(p.buf) + EncodeMaixu(m)
    {
      MarshalQueue(p);
      p.PushU32(m.channelId);
      p.PushList(Ascending(m.guests));
    }

    method MarshalQueue(p: Pack)
      modifies p
      ensures p.buf == old(p.buf) + PutQueue(m)
    {
      p.PushBool(m.mute);
      p.PushBool(m.disable);
      p.PushU32(m.ring);
      p.PushU32(m.count);
      p.PushU32(m.validring);
      p.PushList(m.userlist);
    }

    /** On an unpack error the object stays filled up to it. */
    method Unmarshal(p: Unpack) returns (ok: bool)
      modifies this, p
      ensures Filled(m, p.data, ok) == DecodeMaixu(old(m), old(p.data))
    {
      ok := UnmarshalQueue(p);
      if !ok {
        return;
      }
      var channel := p.PopU32();
      if channel.None? {
        return false;
      }
      m := m.(channelId := channel.value);
      if |p.data| > 4 {
        var list;
        list, ok := p.PopList([]);
        m := m.(guests := m.guests + ValuesOf(list));
      }
    }

    method UnmarshalQueue(p: Unpack) returns (ok: bool)
      modifies this, p
      ensures Filled(m, p.data, ok) == GetQueue(old(m), old(p.data))
    {
      var mute := p.PopBool();
      if mute.None? {
        return false;
      }
      m := m.(mute := mute.value);
      var disable := p.PopBool();
      if disable.None? {
        return false;
      }
      m := m.(disable := disable.value);
      ok := UnmarshalNumbers(p);
    }

    method UnmarshalNumbers(p: Unpack) returns (ok: bool)
      modifies this, p
      ensures Filled(m, p.data, ok) == GetNumbers(old(m), old(p.data))
    {
      var ring := p.PopU32();
      if ring.None? {
        return false;
      }
      m := m.(ring := ring.value);
      var count := p.PopU32();
      if count.None? {
        return false;
      }
      m := m.(count := count.value);
      var validring := p.PopU32();
      if validring.None? {
        return false;
      }
      m := m.(validring := validring.value);
      var users;
      users, ok := p.PopList(m.userlist);
      m := m.(userlist := users);
    }
  }
}
