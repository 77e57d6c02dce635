/** The saved list of link addresses, `Login::onLogin` in `xproto/Login.cpp`:
    erase an equal entry, erase the oldest when more than ten are left, append. */
module LinkHistory {
  import opened Common

  /** At most ten addresses are left before the newest one is appended. */
  const KEPT: nat := 10

  function Erase<T(==)>(s: seq<T>, x: T): seq<T> {
    if IndexOf(s, x) < |s| then Without(s, IndexOf(s, x)) else s
  }

  function Record<T(==)>(history: seq<T>, link: T): seq<T> {
    var h := Erase(history, link);
    (if |h| > KEPT then h[1..] else h) + [link]
  }

  function RecordAll<T(==)>(history: seq<T>, answers: seq<T>): seq<T> {
    if |answers| == 0 then history
    else Record(RecordAll(history, answers[..|answers| - 1]), answers[|answers| - 1])
  }

  /** Every address of `s` once, at the place of its last use. */
  function ByLastUse<T(==)>(s: seq<T>): seq<T> {
    if |s| == 0 then []
    else if s[0] in s[1..] then ByLastUse(s[1..])
    else [s[0]] + ByLastUse(s[1..])
  }

  lemma {:induction false} ByLastUseKeepsAll<T>(s: seq<T>, x: T)
    ensures x in ByLastUse(s) <==> x in s
  {
    if |s| == 0 {
    } else {
      ByLastUseKeepsAll(s[1..], x);
      assert s == [s[0]] + s[1..];
    }
  }

  lemma {:induction false} ByLastUseDistinct<T>(s: seq<T>)
    ensures Distinct(ByLastUse(s))
  {
    if |s| == 0 {
    } else {
      ByLastUseDistinct(s[1..]);
      ByLastUseKeepsAll(s[1..], s[0]);
    }
  }

  lemma EraseFront<T>(a: T, s: seq<T>, x: T)
    ensures Erase([a] + s, x) == if a == x then s else [a] + Erase(s, x)
  {
    var all := [a] + s;
    assert all[1..] == s;
    if a == x {
      assert Without(all, 0) == s;
    } else {
      var k := IndexOf(s, x);
      assert IndexOf(all, x) == k + 1;
      if k < |s| {
        assert Without(all, k + 1) == [a] + Without(s, k);
      }
    }
  }

  lemma EraseAbsent<T>(s: seq<T>, x: T)
    requires x !in s
    ensures Erase(s, x) == s
  {
  }

  lemma {:induction false} UseMovesToEnd<T>(s: seq<T>, x: T)
    ensures ByLastUse(s + [x]) == Erase(ByLastUse(s), x) + [x]
  {
    if |s| == 0 {
      assert s + [x] == [x];
      return;
    }
    assert (s + [x])[1..] == s[1..] + [x];
    UseMovesToEnd(s[1..], x);
    if s[0] !in s[1..] {
      EraseFront(s[0], ByLastUse(s[1..]), x);
      if s[0] == x {
        ByLastUseKeepsAll(s[1..], x);
        EraseAbsent(ByLastUse(s[1..]), x);
      }
    }
  }

  /** Dropping old entries first does not change what one more use leaves. */
  lemma RecordOfLast<T>(all: seq<T>, x: T)
    requires Distinct(all)
    ensures Record(LastOf(all, KEPT + 1), x) == LastOf(Erase(all, x) + [x], KEPT + 1)
  {
    var h := LastOf(all, KEPT + 1);
    var k := IndexOf(all, x);
    if k < |all| - |h| {
      EraseAbsent(h, x);
    } else if k < |all| {
      var cut := |all| - |h|;
      assert h[k - cut] == x;
      assert IndexOf(h, x) == k - cut;
    } else {
      EraseAbsent(h, x);
    }
  }

  /** From any saved list without repetition, the history after any number of
      login answers holds exactly the eleven most recently used addresses, in
      order of last use. */
  lemma {:induction false} HistoryIsMostRecent<T>(saved: seq<T>, answers: seq<T>)
    requires Distinct(saved) && |saved| <= KEPT + 1
    ensures RecordAll(saved, answers) == LastOf(ByLastUse(saved + answers), 11)
    ensures Distinct(RecordAll(saved, answers)) && |RecordAll(saved, answers)| <= 11
  {
    if |answers| == 0 {
      ByLastUseOfDistinct(saved);
      assert saved + answers == saved;
      return;
    }
    var front, x := answers[..|answers| - 1], answers[|answers| - 1];
    HistoryIsMostRecent(saved, front);
    OneMoreUse(saved + front, x);
    assert saved + front + [x] == saved + answers;
    LastOfDistinct(saved + answers);
  }

  lemma OneMoreUse<T>(uses: seq<T>, x: T)
    ensures Record(LastOf(ByLastUse(uses), KEPT + 1), x) == LastOf(ByLastUse(uses + [x]), KEPT + 1)
  {
    ByLastUseDistinct(uses);
    RecordOfLast(ByLastUse(uses), x);
    UseMovesToEnd(uses, x);
  }

  lemma LastOfDistinct<T>(uses: seq<T>)
    ensures Distinct(LastOf(ByLastUse(uses), KEPT + 1))
    ensures |LastOf(ByLastUse(uses), KEPT + 1)| <= KEPT + 1
  {
    ByLastUseDistinct(uses);
  }

  lemma {:induction false} ByLastUseOfDistinct<T>(s: seq<T>)
    requires Distinct(s)
    ensures ByLastUse(s) == s
  {
    if |s| == 0 {
    } else {
      ByLastUseOfDistinct(s[1..]);
      assert s == [s[0]] + s[1..];
    }
  }

  /** The update of the saved list when a login answer arrives. */
  method RecordAnswer<T(==)>(iplist: seq<T>, link: T) returns (r: seq<T>)
    ensures r == Record(iplist, link)
  {
    r := iplist;
    var i := 0;
    while i < |r| && r[i] != link
      invariant 0 <= i <= |r|
      invariant forall j :: 0 <= j < i ==> r[j] != link
    {
      i := i + 1;
    }
    if i < |r| {
      assert i == IndexOf(iplist, link);
      r := Without(r, i);
    }
    if |r| > KEPT {
      r := r[1..];
    }
    r := r + [link];
  }
}
