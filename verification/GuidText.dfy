/** GUIDs as text, `CTextUtil` in `include/client/xuimisc.h`. */
module GuidText {
  import opened Common

  type U8 = x: nat | x < 0x100
  type U16 = x: nat | x < 0x1_0000
  type U32 = x: nat | x < 0x1_0000_0000

  /** Digits of the first group, of the next two, and bytes of the last two. */
  const LONG_DIGITS: nat := 8
  const SHORT_DIGITS: nat := 4
  const HIGH_BYTES: nat := 2
  const LOW_BYTES: nat := 6

  const TWO_64: nat := 0x1_0000_0000_0000_0000

  datatype RawGuid = Guid(data1: U32, data2: U16, data3: U16, data4: seq<U8>)
  type Guid = g: RawGuid | |g.data4| == 8 witness Guid(0, 0, 0, [0, 0, 0, 0, 0, 0, 0, 0])

  // ------------------------------------------------------------------- split

  predicate OccursAt(s: string, pattern: string, i: nat) {
    i + |pattern| <= |s| && s[i..i + |pattern|] == pattern
  }

  /** Where `pattern` first occurs in `s`, if it does: `string::find`. */
  function Find(s: string, pattern: string): (r: Option<nat>)
    ensures r.Some? ==> OccursAt(s, pattern, r.value)
    ensures forall i: nat :: OccursAt(s, pattern, i) ==> r.Some? && r.value <= i
  {
    if OccursAt(s, pattern, 0) then Some(0)
    else if |s| == 0 then None
    else
      var r := Find(s[1..], pattern);
      TailOccurrences(s, pattern);
      if r.None? then None else Some(r.value + 1)
  }

  lemma TailOccurrences(s: string, pattern: string)
    requires |s| > 0
    ensures forall i: nat :: OccursAt(s[1..], pattern, i) <==> OccursAt(s, pattern, i + 1)
    ensures forall i: nat :: OccursAt(s, pattern, i) && i > 0 ==> OccursAt(s[1..], pattern, i - 1)
  {
    forall i: nat ensures OccursAt(s[1..], pattern, i) <==> OccursAt(s, pattern, i + 1) {
      if i + 1 + |pattern| <= |s| {
        assert s[1..][i..i + |pattern|] == s[i + 1..i + 1 + |pattern|];
      }
    }
    forall i: nat | OccursAt(s, pattern, i) && i > 0 ensures OccursAt(s[1..], pattern, i - 1) {
      assert OccursAt(s[1..], pattern, i - 1) <==> OccursAt(s, pattern, i - 1 + 1);
    }
  }

  function Pieces(sep: string, s: string): (r: seq<string>)
    requires |sep| > 0
    ensures |r| > 0
    decreases |s|
  {
    var k := Find(s, sep);
    if k.None? then [s] else [s[..k.value]] + Pieces(sep, s[k.value + |sep|..])
  }

  function Join(sep: string, pieces: seq<string>): string {
    if |pieces| == 0 then ""
    else if |pieces| == 1 then pieces[0]
    else pieces[0] + sep + Join(sep, pieces[1..])
  }

  ghost predicate Contains(s: string, pattern: string) {
    exists i: nat :: OccursAt(s, pattern, i)
  }

  /** Joining the pieces with the separator gives the text back. */
  lemma {:induction false} JoinOfPieces(sep: string, s: string)
    requires |sep| > 0
    ensures Join(sep, Pieces(sep, s)) == s
    decreases |s|
  {
    var k := Find(s, sep);
    if k.Some? {
      var rest := s[k.value + |sep|..];
      JoinOfPieces(sep, rest);
      JoinPut(sep, s[..k.value], Pieces(sep, rest));
      assert s == s[..k.value] + s[k.value..k.value + |sep|] + rest;
    }
  }

  lemma JoinPut(sep: string, first: string, others: seq<string>)
    requires |others| > 0
    ensures Join(sep, [first] + others) == first + sep + Join(sep, others)
  {
    assert ([first] + others)[1..] == others;
  }

  /** No piece contains the separator, also when that is longer than a
      character and overlaps itself. */
  lemma {:induction false} PiecesLackSeparator(sep: string, s: string)
    requires |sep| > 0
    ensures forall p :: p in Pieces(sep, s) ==> !Contains(p, sep)
    decreases |s|
  {
    var k := Find(s, sep);
    if k.Some? {
      PiecesLackSeparator(sep, s[k.value + |sep|..]);
      var first := s[..k.value];
      if Contains(first, sep) {
        var i: nat :| OccursAt(first, sep, i);
        assert s[i..i + |sep|] == first[i..i + |sep|];
        assert OccursAt(s, sep, i);
      }
    }
  }

  lemma FindSeparator(first: string, sep: char, rest: string)
    requires sep !in first
    ensures Find(first + [sep] + rest, [sep]) == Some(|first|)
  {
    var s := first + [sep] + rest;
    assert OccursAt(s, [sep], |first|);
    forall i: nat | OccursAt(s, [sep], i) ensures i >= |first| {
      assert s[i] == s[i..i + 1][0] == sep;
    }
  }

  lemma FindNoSeparator(s: string, sep: char)
    requires sep !in s
    ensures Find(s, [sep]) == None
  {
    forall i: nat ensures !OccursAt(s, [sep], i) {
      if i < |s| {
        assert s[i..i + 1][0] == s[i];
      }
    }
  }

  /** With a one-character separator, splitting undoes joining. */
  lemma {:induction false} PiecesOfJoin(sep: char, pieces: seq<string>)
    requires |pieces| > 0 && forall p :: p in pieces ==> sep !in p
    ensures Pieces([sep], Join([sep], pieces)) == pieces
  {
    if |pieces| == 1 {
      FindNoSeparator(pieces[0], sep);
    } else {
      var first, rest := pieces[0], Join([sep], pieces[1..]);
      FindSeparator(first, sep, rest);
      PiecesOfJoin(sep, pieces[1..]);
      var s := first + [sep] + rest;
      assert Join([sep], pieces) == s;
      assert s[..|first|] == first && s[|first| + 1..] == rest;
      assert Pieces([sep], s) == [first] + Pieces([sep], rest);
    }
  }

  method Split(pattern: string, src: string) returns (des: seq<string>)
    requires |pattern| > 0
    ensures des == Pieces(pattern, src)
    ensures Join(pattern, des) == src
    ensures forall p :: p in des ==> !Contains(p, pattern)
  {
    des := [];
    var off, oldoff := 0, 0;
    while true
      invariant 0 <= off <= |src|
      invariant des + Pieces(pattern, src[off..]) == Pieces(pattern, src)
      decreases |src| - off
    {
      oldoff := off;
      var found := Find(src[off..], pattern);
      if found.None? {
        break;
      }
      off := off + found.value;
      ghost var piece, rest := src[oldoff..off], src[off + |pattern|..];
      assert src[oldoff..][..found.value] == piece && src[oldoff..][found.value + |pattern|..] == rest;
      assert des + ([piece] + Pieces(pattern, rest)) == des + [piece] + Pieces(pattern, rest);
      des := des + [src[oldoff..off]];
      off := off + |pattern|;
    }
    des := des + [src[oldoff..]];
    JoinOfPieces(pattern, src);
    PiecesLackSeparator(pattern, src);
  }

  // ------------------------------------------------------------------ digits

  function DigitValue(c: char): Option<nat> {
    if '0' <= c <= '9' then Some(c as int - '0' as int)
    else if 'a' <= c <= 'f' then Some(c as int - 'a' as int + 10)
    else if 'A' <= c <= 'F' then Some(c as int - 'A' as int + 10)
    else None
  }

  function Digit(d: nat, upper: bool): (c: char)
    requires d < 16
    ensures DigitValue(c) == Some(d) && c != '-'
  {
    if d < 10 then ('0' as int + d) as char
    else if upper then ('A' as int + d - 10) as char
    else ('a' as int + d - 10) as char
  }

  /** The conversion of `printf` for a value that fits in `width` digits. */
  function Hex(n: nat, width: nat, upper: bool): (s: string)
    ensures |s| == width && forall c :: c in s ==> DigitValue(c).Some? && c != '-'
  {
    if width == 0 then "" else Hex(n / 16, width - 1, upper) + [Digit(n % 16, upper)]
  }

  /** The accumulation of `atohex` over a 64-bit integer; any other character
      makes the whole result 0. */
  function Accumulate(s: string, acc: nat): nat
    requires acc < TWO_64
  {
    if |s| == 0 then acc
    else if DigitValue(s[0]).None? then 0
    else Accumulate(s[1..], (acc * 16 + DigitValue(s[0]).value) % TWO_64)
  }

  ghost predicate AllDigits(s: string) {
    forall c :: c in s ==> DigitValue(c).Some?
  }

  lemma {:induction false} AccumulateAppend(s: string, t: string, acc: nat)
    requires acc < TWO_64 && AllDigits(s)
    ensures Accumulate(s, acc) < TWO_64
    ensures Accumulate(s + t, acc) == Accumulate(t, Accumulate(s, acc))
  {
    if |s| == 0 {
      assert s + t == t;
    } else {
      assert (s + t)[1..] == s[1..] + t;
      AccumulateAppend(s[1..], t, (acc * 16 + DigitValue(s[0]).value) % TWO_64);
    }
  }

  function Pow16(w: nat): (p: nat)
    ensures p >= 1
  {
    if w == 0 then 1 else 16 * Pow16(w - 1)
  }

  /** Reading back a printed number that fits its width gives the number. */
  lemma {:induction false} HexReadsBack(n: nat, width: nat, upper: bool)
    requires n < Pow16(width) && n < TWO_64
    ensures Accumulate(Hex(n, width, upper), 0) == n
  {
    if width == 0 {
    } else {
      HexReadsBack(n / 16, width - 1, upper);
      var front, c := Hex(n / 16, width - 1, upper), Digit(n % 16, upper);
      AccumulateAppend(front, [c], 0);
      assert Accumulate([c], n / 16) == (n / 16 * 16 + n % 16) % TWO_64;
    }
  }

  lemma Widths()
    ensures Pow16(2) == 0x100 && Pow16(4) == 0x1_0000 && Pow16(8) == 0x1_0000_0000
  {
    assert Pow16(2) == 0x100;
    assert Pow16(4) == 0x1_0000;
    assert Pow16(6) == 0x100_0000;
  }

  // ------------------------------------------------------------------- bytes

  function HexBytes(bs: seq<U8>): (s: string)
    ensures |s| == 2 * |bs| && forall c :: c in s ==> DigitValue(c).Some? && c != '-'
  {
    if |bs| == 0 then "" else HexBytes(bs[..|bs| - 1]) + Hex(bs[|bs| - 1], 2, true)
  }

  function BigEndian(bs: seq<U8>): nat {
    if |bs| == 0 then 0 else BigEndian(bs[..|bs| - 1]) * 256 + bs[|bs| - 1]
  }

  /** The `count` low bytes of `res`, highest first. */
  function LowBytes(res: nat, count: nat): (r: seq<U8>)
    ensures |r| == count
  {
    if count == 0 then [] else LowBytes(res / 256, count - 1) + [res % 256]
  }

  lemma {:induction false} LowBytesOfBigEndian(bs: seq<U8>)
    ensures LowBytes(BigEndian(bs), |bs|) == bs
  {
    if |bs| == 0 {
    } else {
      var front := bs[..|bs| - 1];
      var b: nat := bs[|bs| - 1];
      LowBytesOfBigEndian(front);
      assert (BigEndian(front) * 256 + b) / 256 == BigEndian(front) && (BigEndian(front) * 256 + b) % 256 == b;
      assert bs == front + [bs[|bs| - 1]];
    }
  }

  lemma {:induction false} BigEndianFits(bs: seq<U8>)
    requires |bs| <= 6
    ensures BigEndian(bs) < Pow16(2 * |bs|) <= 0x1_0000_0000_0000
  {
    if |bs| == 0 {
    } else {
      BigEndianFits(bs[..|bs| - 1]);
      assert Pow16(2 * |bs|) == 256 * Pow16(2 * |bs| - 2);
      PowBound(|bs|);
    }
  }

  lemma PowBound(k: nat)
    requires k <= 6
    ensures Pow16(2 * k) <= 0x1_0000_0000_0000
  {
    if k > 0 {
      PowBound(k - 1);
      assert Pow16(2 * k) == 256 * Pow16(2 * k - 2);
      Widths();
      assert Pow16(0) == 1 && Pow16(6) == 0x100_0000 && Pow16(10) == 0x100_0000_0000 && Pow16(12) == 0x1_0000_0000_0000;
    }
  }

  lemma {:induction false} BytesReadBack(bs: seq<U8>)
    requires |bs| <= 6
    ensures Accumulate(HexBytes(bs), 0) == BigEndian(bs)
  {
    if |bs| == 0 {
    } else {
      var front, b := bs[..|bs| - 1], bs[|bs| - 1];
      BytesReadBack(front);
      AccumulateAppend(HexBytes(front), Hex(b, 2, true), 0);
      BigEndianFits(front);
      BigEndianFits(bs);
      ByteAppends(b, BigEndian(front));
    }
  }

  lemma ByteAppends(b: U8, acc: nat)
    requires acc * 256 + b < TWO_64
    ensures Accumulate(Hex(b, 2, true), acc) == acc * 256 + b
  {
    var hi, lo := Digit(b / 16, true), Digit(b % 16, true);
    assert Hex(b / 16, 1, true) == [hi];
    assert Hex(b, 2, true) == [hi] + [lo];
    AccumulateAppend([hi], [lo], acc);
    assert Accumulate([hi], acc) == acc * 16 + b / 16;
  }

  // ------------------------------------------------------------------- guids

  /** `%08lX-%04X-%04x-%02X%02X-%02X...`: the third group is in lower case. */
  function GuidToText(g: Guid): string {
    Hex(g.data1, LONG_DIGITS, true) + "-" + Hex(g.data2, SHORT_DIGITS, true) + "-"
    + Hex(g.data3, SHORT_DIGITS, false) + "-"
    + HexBytes(g.data4[..2]) + "-" + HexBytes(g.data4[2..])
  }

  function FromGroups(p: seq<string>): Guid
    requires |p| == 5
  {
    Guid(Accumulate(p[0], 0) % 0x1_0000_0000,
         Accumulate(p[1], 0) % 0x1_0000,
         Accumulate(p[2], 0) % 0x1_0000,
         LowBytes(Accumulate(p[3], 0), HIGH_BYTES) + LowBytes(Accumulate(p[4], 0), LOW_BYTES))
  }

  function TextToGuid(text: string): Option<Guid> {
    var p := Pieces("-", text);
    if |p| != 5 then None else Some(FromGroups(p))
  }

  function Groups(g: Guid): seq<string> {
    [Hex(g.data1, LONG_DIGITS, true), Hex(g.data2, SHORT_DIGITS, true), Hex(g.data3, SHORT_DIGITS, false),
     HexBytes(g.data4[..2]), HexBytes(g.data4[2..])]
  }

  lemma TextIsJoinedGroups(g: Guid)
    ensures GuidToText(g) == Join("-", Groups(g))
  {
    var p := Groups(g);
    assert Join("-", p[4..]) == p[4];
    assert p[3..][1..] == p[4..] && p[2..][1..] == p[3..] && p[1..][1..] == p[2..];
    assert Join("-", p[3..]) == p[3] + "-" + p[4];
    assert Join("-", p[2..]) == p[2] + "-" + (p[3] + "-" + p[4]);
    assert Join("-", p[1..]) == p[1] + "-" + (p[2] + "-" + (p[3] + "-" + p[4]));
    assert Join("-", p) == p[0] + "-" + (p[1] + "-" + (p[2] + "-" + (p[3] + "-" + p[4])));
  }

  /** Every GUID survives printing and reading. */
  lemma GuidRoundTrip(g: Guid)
    ensures TextToGuid(GuidToText(g)) == Some(g)
  {
    PiecesOfGuid(g);
    GroupsReadBack(g);
  }

  lemma GroupsReadBack(g: Guid)
    ensures FromGroups(Groups(g)) == g
  {
    NumbersReadBack(g);
    BytesOfGuidReadBack(g);
    FromGroupsIs(Groups(g), g);
  }

  lemma FromGroupsIs(p: seq<string>, g: Guid)
    requires |p| == 5
    requires Accumulate(p[0], 0) == g.data1 && Accumulate(p[1], 0) == g.data2 && Accumulate(p[2], 0) == g.data3
    requires LowBytes(Accumulate(p[3], 0), HIGH_BYTES) + LowBytes(Accumulate(p[4], 0), LOW_BYTES) == g.data4
    ensures FromGroups(p) == g
  {
  }

  lemma BytesOfGuidReadBack(g: Guid)
    ensures LowBytes(Accumulate(HexBytes(g.data4[..2]), 0), HIGH_BYTES)
            + LowBytes(Accumulate(HexBytes(g.data4[2..]), 0), LOW_BYTES) == g.data4
  {
    GroupReadsBack(g.data4[..2]);
    GroupReadsBack(g.data4[2..]);
    assert g.data4 == g.data4[..2] + g.data4[2..];
  }

  lemma PiecesOfGuid(g: Guid)
    ensures Pieces("-", GuidToText(g)) == Groups(g)
  {
    TextIsJoinedGroups(g);
    PiecesOfJoin('-', Groups(g));
  }

  lemma NumbersReadBack(g: Guid)
    ensures Accumulate(Hex(g.data1, LONG_DIGITS, true), 0) == g.data1
    ensures Accumulate(Hex(g.data2, SHORT_DIGITS, true), 0) == g.data2
    ensures Accumulate(Hex(g.data3, SHORT_DIGITS, false), 0) == g.data3
  {
    Widths();
    HexReadsBack(g.data1, LONG_DIGITS, true);
    HexReadsBack(g.data2, SHORT_DIGITS, true);
    HexReadsBack(g.data3, SHORT_DIGITS, false);
  }

  lemma GroupReadsBack(bs: seq<U8>)
    requires |bs| <= 6
    ensures LowBytes(Accumulate(HexBytes(bs), 0), |bs|) == bs
  {
    BytesReadBack(bs);
    LowBytesOfBigEndian(bs);
  }

  method Atohex(str: string) returns (result: nat)
    ensures result == Accumulate(str, 0)
  {
    result := 0;
    var i := 0;
    while i < |str|
      invariant 0 <= i <= |str| && result < TWO_64
      invariant Accumulate(str[i..], result) == Accumulate(str, 0)
    {
      assert str[i..][1..] == str[i + 1..];
      var d := DigitValue(str[i]);
      if d.None? {
        return 0;
      }
      result := (result * 16 + d.value) % TWO_64;
      i := i + 1;
    }
  }

  method ReadGuid(text: string) returns (value: Option<Guid>)
    ensures value == TextToGuid(text)
    ensures forall g: Guid :: text == GuidToText(g) ==> value == Some(g)
  {
    var gvals := Split("-", text);
    if |gvals| != 5 {
      value := None;
    } else {
      var data1 := Atohex(gvals[0]);
      var data2 := Atohex(gvals[1]);
      var data3 := Atohex(gvals[2]);
      var data4: seq<U8> := [0, 0, 0, 0, 0, 0, 0, 0];
      var res := Atohex(gvals[3]);
      data4 := data4[0 := res / 256 % 256][1 := res % 256];
      ghost var high := LowBytes(res, HIGH_BYTES);
      assert high == [res / 256 % 256] + [res % 256] by { assert LowBytes(res / 256, 1) == [] + [res / 256 % 256]; }
      res := Atohex(gvals[4]);
      ghost var low := LowBytes(res, LOW_BYTES);
      var i := 7;
      while i >= 2
        invariant 1 <= i <= 7 && |data4| == 8
        invariant data4[..2] == high
        invariant LowBytes(res, i - 1) + data4[i + 1..] == low
      {
        ghost var rest := LowBytes(res / 256, i - 2);
        assert rest + ([res % 256] + data4[i + 1..]) == LowBytes(res, i - 1) + data4[i + 1..];
        data4 := data4[i := res % 256];
        assert data4[i..] == [res % 256] + data4[i + 1..];
        res := res / 256;
        i := i - 1;
      }
      assert data4 == high + low;
      value := Some(Guid(data1 % 0x1_0000_0000, data2 % 0x1_0000, data3 % 0x1_0000, data4));
    }
    forall g: Guid | text == GuidToText(g) ensures value == Some(g) {
      GuidRoundTrip(g);
    }
  }
}
