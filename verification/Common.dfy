/** Small helpers shared by the modules that model the voice-chat client. */
module Common {

  datatype Option<+T> = None | Some(value: T)

  /** No element occurs twice. */
  ghost predicate Distinct<T>(s: seq<T>) {
    forall i, j :: 0 <= i < j < |s| ==> s[i] != s[j]
  }

  /** Position of the first `x`, or the length when there is none. */
  function IndexOf<T(==)>(s: seq<T>, x: T): (k: nat)
    ensures k <= |s|
    ensures k < |s| ==> s[k] == x
    ensures forall i :: 0 <= i < k ==> s[i] != x
  {
    if |s| == 0 || s[0] == x then 0 else 1 + IndexOf(s[1..], x)
  }

  /** The last `n` elements of `s`, or all of them when there are fewer. */
  function LastOf<T>(s: seq<T>, n: nat): (r: seq<T>) {
    if |s| <= n then s else s[|s| - n..]
  }

  /** `s` without the element at index `k`. */
  function Without<T>(s: seq<T>, k: nat): (r: seq<T>)
    requires k < |s|
  {
    s[..k] + s[k + 1..]
  }

  lemma WithoutKeeps<T>(s: seq<T>, k: nat)
    requires k < |s| && Distinct(s)
    ensures Distinct(Without(s, k))
    ensures forall x :: x in Without(s, k) <==> x in s && x != s[k]
  {
    var w := Without(s, k);
    assert forall i :: 0 <= i < |w| ==> w[i] == s[if i < k then i else i + 1];
    forall x | x in s && x != s[k] ensures x in w {
      var j :| 0 <= j < |s| && s[j] == x;
      assert w[if j < k then j else j - 1] == x;
    }
  }

  lemma MulAtLeast(n: nat, q: int)
    requires q >= 1
    ensures n * q >= n
  {
    assert n * q == n * (q - 1) + n;
    assert n * (q - 1) >= 0;
  }

  /** Quotient and remainder are determined by the division equation. */
  lemma DivisionIsUnique(a: nat, n: nat, q: nat, r: nat)
    requires n >= 1 && a == n * q + r && r < n
    ensures a / n == q && a % n == r
  {
    var q', r' := a / n, a % n;
    assert a == n * q' + r';
    assert n * (q - q') == r' - r && n * (q' - q) == r - r';
    if q > q' {
      MulAtLeast(n, q - q');
    } else if q < q' {
      MulAtLeast(n, q' - q);
    }
  }
}
