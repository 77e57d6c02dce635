/** The microphone queue of a channel, `xproto/MicrophoneListImp.cpp`. The user
    in front of the queue is the one who speaks. */
module MicQueue {
  import opened Common

  type UserId = nat

  // ------------------------------------------------------------ specification

  /** `list::remove`: every occurrence goes. */
  function Removed(q: seq<UserId>, u: UserId): (r: seq<UserId>)
    ensures u !in r
    ensures forall x :: x in r ==> x in q
  {
    if |q| == 0 then [] else (if q[0] == u then [] else [q[0]]) + Removed(q[1..], u)
  }

  function Swapped(q: seq<UserId>, k: nat): seq<UserId>
    requires k + 1 < |q|
  {
    q[k := q[k + 1]][k + 1 := q[k]]
  }

  /** Whether the queue lets `u` be moved, before looking for `u` in it. */
  predicate Movable(q: seq<UserId>, u: UserId, down: bool) {
    |q| > 2 && q[0] != u && (if down then q[|q| - 1] != u else q[1] != u)
  }

  function Move(q: seq<UserId>, u: UserId, down: bool): seq<UserId>
    requires u in q
  {
    var k := IndexOf(q, u);
    if Movable(q, u, down) then
      if down then (if k + 1 < |q| then Swapped(q, k) else q)
      else if 0 < k < |q| then Swapped(q, k - 1) else q
    else q
  }

  function Top(q: seq<UserId>, u: UserId): seq<UserId> {
    if u == 0 || |q| <= 2 || q[1] == u then q
    else
      var r := Removed(q, u);
      // before the element that was second
      var p := if q[0] == u || |r| == 0 then 0 else 1;
      r[..p] + [u] + r[p..]
  }

  predicate HasQueue(q: seq<UserId>, u: UserId) { u in q }

  predicate CanMove(q: seq<UserId>, u: UserId, down: bool) {
    HasQueue(q, u) && Movable(q, u, down)
  }

  predicate CanTopQueue(q: seq<UserId>, u: UserId) {
    |q| > 2 && q[0] != u && q[1] != u
  }

  // ----------------------------------------------------------- list lemmas

  lemma IndexIs(q: seq<UserId>, k: nat)
    requires Distinct(q) && k < |q|
    ensures IndexOf(q, q[k]) == k
  {
  }

  lemma {:induction false} RemovedAbsent(q: seq<UserId>, u: UserId)
    requires u !in q
    ensures Removed(q, u) == q
  {
    if |q| == 0 {
    } else {
      RemovedAbsent(q[1..], u);
      assert q == [q[0]] + q[1..];
    }
  }

  /** Without repetition `remove` takes out exactly one element. */
  lemma {:induction false} RemovedOne(q: seq<UserId>, k: nat)
    requires Distinct(q) && k < |q|
    ensures Removed(q, q[k]) == Without(q, k)
  {
    var rest := q[1..];
    if k == 0 {
      RemovedAbsent(rest, q[0]);
    } else {
      RemovedOne(rest, k - 1);
      assert Without(q, k) == [q[0]] + Without(rest, k - 1);
    }
  }

  lemma SwapKeeps(q: seq<UserId>, k: nat)
    requires Distinct(q) && k + 1 < |q|
    ensures Distinct(Swapped(q, k)) && multiset(Swapped(q, k)) == multiset(q)
    ensures Swapped(Swapped(q, k), k) == q
    ensures Without(Swapped(q, k), k) == Without(q, k + 1)
    ensures Without(Swapped(q, k), k + 1) == Without(q, k)
  {
    SwapPermutes(q, k);
    SwapWithout(q, k);
  }

  lemma SwapPermutes(q: seq<UserId>, k: nat)
    requires k + 1 < |q|
    ensures multiset(Swapped(q, k)) == multiset(q)
  {
    var a, x, y, b := q[..k], q[k], q[k + 1], q[k + 2..];
    assert q == a + [x, y] + b;
    assert Swapped(q, k) == a + [y, x] + b;
    assert multiset([x, y]) == multiset([y, x]);
  }

  lemma SwapWithout(q: seq<UserId>, k: nat)
    requires k + 1 < |q|
    ensures Swapped(Swapped(q, k), k) == q
    ensures Without(Swapped(q, k), k) == Without(q, k + 1)
    ensures Without(Swapped(q, k), k + 1) == Without(q, k)
  {
  }

  // -------------------------------------------------------------- the moves

  /** Where a move takes the user: one place up or down, and nobody else moves
      relative to the others. The speaker in front stays. */
  lemma MoveIsOneStep(q: seq<UserId>, u: UserId, down: bool)
    requires Distinct(q) && u in q
    ensures var r := Move(q, u, down);
            && Distinct(r) && multiset(r) == multiset(q) && |r| == |q|
            && r[0] == q[0]
            && Removed(r, u) == Removed(q, u)
            && IndexOf(r, u) == IndexOf(q, u) + if !CanMove(q, u, down) then 0 else if down then 1 else -1
  {
    var k := IndexOf(q, u);
    RemovedOne(q, k);
    if CanMove(q, u, down) {
      var s := if down then k else k - 1;
      var r := Swapped(q, s);
      SwapKeeps(q, s);
      IndexIs(r, if down then k + 1 else k - 1);
      RemovedOne(r, if down then k + 1 else k - 1);
    }
  }

  /** The guard the user interface asks agrees with the handler: it holds
      exactly when the handler changes the queue. */
  lemma CanMoveIffChanges(q: seq<UserId>, u: UserId, down: bool)
    requires Distinct(q) && u in q
    ensures CanMove(q, u, down) <==> Move(q, u, down) != q
  {
    MoveIsOneStep(q, u, down);
  }

  /** Moving up and moving down undo each other. */
  lemma MovesUndo(q: seq<UserId>, u: UserId, down: bool)
    requires Distinct(q) && u in q && CanMove(q, u, down)
    ensures u in Move(q, u, down)
    ensures Move(Move(q, u, down), u, !down) == q
  {
    var k := IndexOf(q, u);
    var s, to := if down then k else k - 1, if down then k + 1 else k - 1;
    var r := Swapped(q, s);
    assert Move(q, u, down) == r && r[to] == u;
    SwapKeeps(q, s);
    IndexIs(r, to);
    if down {
      assert r[0] != u && r[1] != u;
    } else {
      assert r[|r| - 1] != u && r[0] != u;
    }
    assert Move(r, u, !down) == Swapped(r, s);
  }

  // --------------------------------------------------------------------- top

  /** `u` moved up again and again until that changes nothing. */
  function UpToTop(q: seq<UserId>, u: UserId): seq<UserId>
    requires Distinct(q) && u in q
    decreases IndexOf(q, u)
  {
    MoveIsOneStep(q, u, false);
    CanMoveIffChanges(q, u, false);
    var r := Move(q, u, false);
    if r == q then q
    else
      assert u in multiset(r);
      UpToTop(r, u)
  }

  lemma TopOfDistinct(q: seq<UserId>, u: UserId, k: nat)
    requires Distinct(q) && k < |q| && q[k] == u && u != 0
    ensures Top(q, u) == if |q| <= 2 || k <= 1 then q else OnTop(q, u, k)
  {
    RemovedOne(q, k);
    if |q| > 2 && k != 1 {
      var w := Without(q, k);
      if k == 0 {
        assert [u] + w == q;
        assert w[..0] + [u] + w[0..] == [u] + w;
      } else {
        assert w[..1] == q[..1] && w[1..] == q[1..k] + q[k + 1..];
        assert q[..1] + [u] + (q[1..k] + q[k + 1..]) == q[..1] + [u] + q[1..k] + q[k + 1..];
      }
    }
  }

  lemma TopAfterUp(q: seq<UserId>, u: UserId)
    requires Distinct(q) && u in q && u != 0 && CanMove(q, u, false)
    ensures u in Move(q, u, false) && Top(Move(q, u, false), u) == Top(q, u)
  {
    var k := IndexOf(q, u);
    var r := Swapped(q, k - 1);
    SwapKeeps(q, k - 1);
    assert r[k - 1] == u;
    TopOfDistinct(q, u, k);
    TopOfDistinct(r, u, k - 1);
    OnTopAfterUp(q, u, k);
  }

  function OnTop(q: seq<UserId>, u: UserId, k: nat): seq<UserId>
    requires 1 <= k < |q|
  {
    q[..1] + [u] + q[1..k] + q[k + 1..]
  }

  lemma OnTopAfterUp(q: seq<UserId>, u: UserId, k: nat)
    requires 2 <= k < |q| && q[k] == u
    ensures OnTop(Swapped(q, k - 1), u, k - 1) == OnTop(q, u, k)
    ensures k == 2 ==> OnTop(q, u, k) == Swapped(q, k - 1)
  {
    var r := Swapped(q, k - 1);
    assert r[..1] == q[..1];
    assert r[1..k - 1] + r[k..] == q[1..k] + q[k + 1..];
    assert OnTop(r, u, k - 1) == q[..1] + [u] + (r[1..k - 1] + r[k..]);
    assert OnTop(q, u, k) == q[..1] + [u] + (q[1..k] + q[k + 1..]);
    if k == 2 {
      assert OnTop(q, u, k) == [q[0], u, q[1]] + q[3..];
      assert r == [q[0], u, q[1]] + q[3..];
    }
  }

  /** Putting a user on top is moving the user up as often as it changes
      anything; for the reserved id 0 it does nothing instead. */
  lemma {:induction false} TopIsRepeatedUp(q: seq<UserId>, u: UserId)
    requires Distinct(q) && u in q
    ensures Top(q, u) == if u == 0 then q else UpToTop(q, u)
    decreases IndexOf(q, u)
  {
    if u != 0 {
      MoveIsOneStep(q, u, false);
      CanMoveIffChanges(q, u, false);
      if CanMove(q, u, false) {
        TopAfterUp(q, u);
        TopIsRepeatedUp(Move(q, u, false), u);
      } else {
        TopOfDistinct(q, u, IndexOf(q, u));
      }
    }
  }

  /** Top is a permutation that keeps the speaker and the order of the others,
      and its guard holds exactly when it changes the queue, except for the
      reserved id 0, which the guard does not know about. */
  lemma {:induction false} TopPermutes(q: seq<UserId>, u: UserId)
    requires Distinct(q) && u in q
    ensures var r := Top(q, u);
            && Distinct(r) && multiset(r) == multiset(q) && r[0] == q[0]
            && Removed(r, u) == Removed(q, u)
            && (u != 0 ==> (CanTopQueue(q, u) <==> r != q))
    decreases IndexOf(q, u)
  {
    TopIsRepeatedUp(q, u);
    TopOfDistinctMoves(q, u, IndexOf(q, u));
    if u != 0 && CanMove(q, u, false) {
      MoveIsOneStep(q, u, false);
      TopAfterUp(q, u);
      TopPermutes(Move(q, u, false), u);
    }
  }

  lemma TopOfDistinctMoves(q: seq<UserId>, u: UserId, k: nat)
    requires Distinct(q) && k < |q| && q[k] == u
    ensures u != 0 ==> (CanTopQueue(q, u) <==> Top(q, u) != q)
    ensures u != 0 && !CanMove(q, u, false) ==> Top(q, u) == q
  {
    if u != 0 {
      TopOfDistinct(q, u, k);
      if |q| > 2 && k > 1 {
        assert OnTop(q, u, k)[1] == u;
        assert q[1] != u;
      }
    }
  }

  /** The guard of top does not ask whether the user is queued: for an absent
      user it holds on every queue of more than two, and the handler then lets
      the user in behind the speaker. */
  lemma TopAdmitsAbsent(q: seq<UserId>, u: UserId)
    requires u !in q && u != 0
    ensures CanTopQueue(q, u) <==> |q| > 2
    ensures Top(q, u) == if CanTopQueue(q, u) then [q[0], u] + q[1..] else q
  {
    RemovedAbsent(q, u);
    if |q| > 2 {
      assert q[..1] + [u] + q[1..] == [q[0], u] + q[1..];
    }
  }

  // -------------------------------------------------------------- whole runs

  datatype Mic = Mic(queue: seq<UserId>, mute: bool, count: int, validring: int, guests: set<UserId>)

  datatype Event =
    | Join(u: UserId)
    | JoinMany(us: seq<UserId>)
    | Leave(u: UserId)
    | KickOff(u: UserId)
    | Timeout(u: UserId)
    | MoveBy(u: UserId, down: bool)
    | ToTop(u: UserId)
    | KickAll
    | Sync(state: Mic)

  predicate CanSay(m: Mic, u: UserId) {
    u in m.guests || (!m.mute && |m.queue| > 0 && m.queue[0] == u)
  }

  /** What the server is trusted to send: joins of absent users, moves of
      present ones, lists without repetition. */
  ghost predicate Sane(m: Mic, e: Event) {
    match e
    case Join(u) => u !in m.queue
    case JoinMany(us) => Distinct(m.queue + us)
    case MoveBy(u, _) => u in m.queue
    case Sync(s) => Distinct(s.queue)
    case _ => true
  }

  function Step(m: Mic, e: Event): Mic {
    match e
    case Join(u) => m.(queue := m.queue + [u])
    case JoinMany(us) => m.(queue := m.queue + us)
    case Leave(u) => m.(queue := Removed(m.queue, u))
    case KickOff(u) =>
      var q := Removed(m.queue, u);
      if |q| == 0 then m.(queue := q, count := m.validring) else m.(queue := q)
    case Timeout(u) => m.(queue := Removed(m.queue, u))
    case MoveBy(u, down) => if u in m.queue then m.(queue := Move(m.queue, u, down)) else m
    case ToTop(u) => m.(queue := Top(m.queue, u))
    case KickAll => m.(queue := [])
    case Sync(s) => s
  }

  lemma {:induction false} RemovedDistinct(q: seq<UserId>, u: UserId)
    requires Distinct(q)
    ensures Distinct(Removed(q, u))
  {
    if u in q {
      RemovedOne(q, IndexOf(q, u));
      WithoutKeeps(q, IndexOf(q, u));
    } else {
      RemovedAbsent(q, u);
    }
  }

  lemma TopDistinct(q: seq<UserId>, u: UserId)
    requires Distinct(q)
    ensures Distinct(Top(q, u))
  {
    RemovedDistinct(q, u);
  }

  lemma StepKeepsDistinct(m: Mic, e: Event)
    requires Distinct(m.queue) && Sane(m, e)
    ensures Distinct(Step(m, e).queue)
  {
    match e
    case Leave(u) => RemovedDistinct(m.queue, u);
    case KickOff(u) => RemovedDistinct(m.queue, u);
    case Timeout(u) => RemovedDistinct(m.queue, u);
    case MoveBy(u, down) => MoveIsOneStep(m.queue, u, down);
    case ToTop(u) => TopDistinct(m.queue, u);
    case _ =>
  }

  function Run(m: Mic, es: seq<Event>): Mic {
    if |es| == 0 then m else Step(Run(m, es[..|es| - 1]), es[|es| - 1])
  }

  /** Whatever happens, if joins are of absent users the queue never holds a
      user twice. */
  lemma {:induction false} RunsStayDistinct(m: Mic, es: seq<Event>)
    requires Distinct(m.queue)
    requires forall i :: 0 <= i < |es| ==> Sane(Run(m, es[..i]), es[i])
    ensures Distinct(Run(m, es).queue)
  {
    if |es| == 0 {
    } else {
      var front := es[..|es| - 1];
      forall i | 0 <= i < |front| ensures Sane(Run(m, front[..i]), front[i]) {
        assert front[..i] == es[..i];
      }
      RunsStayDistinct(m, front);
      StepKeepsDistinct(Run(m, front), es[|es| - 1]);
    }
  }

  predicate Reorders(m: Mic, e: Event) {
    (e.MoveBy? || e.ToTop?) && e.u in m.queue
  }

  /** No sequence of moves and tops of queued users takes the microphone from
      the one who speaks, or gives it to anybody else. */
  lemma {:induction false} ReorderingKeepsSpeaker(m: Mic, es: seq<Event>, u: UserId)
    requires Distinct(m.queue)
    requires forall i :: 0 <= i < |es| ==> Reorders(Run(m, es[..i]), es[i])
    ensures Distinct(Run(m, es).queue) && multiset(Run(m, es).queue) == multiset(m.queue)
    ensures CanSay(Run(m, es), u) == CanSay(m, u)
  {
    if |es| == 0 {
      return;
    }
    var front := es[..|es| - 1];
    forall i | 0 <= i < |front| ensures Reorders(Run(m, front[..i]), front[i]) {
      assert front[..i] == es[..i];
    }
    ReorderingKeepsSpeaker(m, front, u);
    var t := Run(m, front);
    match es[|es| - 1]
    case MoveBy(v, down) => MoveIsOneStep(t.queue, v, down);
    case ToTop(v) => TopPermutes(t.queue, v);
    case _ =>
  }

  // ------------------------------------------------------- first come, first served

  /** `x` waits in front of `y`. */
  ghost predicate Before(q: seq<UserId>, x: UserId, y: UserId) {
    exists i, j :: 0 <= i < j < |q| && q[i] == x && q[j] == y
  }

  /** Whoever joins waits behind everybody who is there, and several who join
      together wait in the order given. */
  lemma JoinersWaitBehind(m: Mic, us: seq<UserId>, x: UserId, y: UserId)
    ensures x in m.queue ==> Before(Step(m, Join(y)).queue, x, y)
    ensures x in m.queue && y in us ==> Before(Step(m, JoinMany(us)).queue, x, y)
    ensures Before(us, x, y) ==> Before(Step(m, JoinMany(us)).queue, x, y)
  {
    var one, all := m.queue + [y], m.queue + us;
    if x in m.queue {
      var i :| 0 <= i < |m.queue| && m.queue[i] == x;
      assert one[i] == x && one[|m.queue|] == y;
      if y in us {
        var j :| 0 <= j < |us| && us[j] == y;
        assert all[i] == x && all[|m.queue| + j] == y;
      }
    }
    if Before(us, x, y) {
      var i, j :| 0 <= i < j < |us| && us[i] == x && us[j] == y;
      assert all[|m.queue| + i] == x && all[|m.queue| + j] == y;
    }
  }

  /** The user who goes, by leaving, being kicked off or running out of time. */
  function Gone(e: Event): Option<UserId> {
    match e
    case Leave(u) => Some(u)
    case KickOff(u) => Some(u)
    case Timeout(u) => Some(u)
    case _ => None
  }

  predicate Comes(e: Event) { e.Join? || e.JoinMany? }

  lemma {:induction false} RemovedKeepsOrder(q: seq<UserId>, u: UserId, x: UserId, y: UserId)
    requires Before(q, x, y) && u != x && u != y
    ensures Before(Removed(q, u), x, y)
  {
    var i, j :| 0 <= i < j < |q| && q[i] == x && q[j] == y;
    var rest := q[1..];
    var r := Removed(rest, u);
    if i == 0 {
      assert rest[j - 1] == y;
      RemovedKeepsOthers(rest, u, y);
      var k :| 0 <= k < |r| && r[k] == y;
      assert Removed(q, u) == [x] + r;
      assert Removed(q, u)[0] == x && Removed(q, u)[k + 1] == y;
    } else {
      assert rest[i - 1] == x && rest[j - 1] == y;
      RemovedKeepsOrder(rest, u, x, y);
      var k, l :| 0 <= k < l < |r| && r[k] == x && r[l] == y;
      var shift := if q[0] == u then 0 else 1;
      assert Removed(q, u)[k + shift] == x && Removed(q, u)[l + shift] == y;
    }
  }

  lemma {:induction false} RemovedKeepsOthers(q: seq<UserId>, u: UserId, x: UserId)
    requires x in q && x != u
    ensures x in Removed(q, u)
  {
    if q[0] == x {
      assert Removed(q, u)[0] == x;
    } else {
      RemovedKeepsOthers(q[1..], u, x);
    }
  }

  lemma ComingOrGoingKeepsOrder(m: Mic, e: Event, x: UserId, y: UserId)
    requires Before(m.queue, x, y) && (Comes(e) || (Gone(e).Some? && Gone(e) != Some(x) && Gone(e) != Some(y)))
    ensures Before(Step(m, e).queue, x, y)
  {
    if Comes(e) {
      var i, j :| 0 <= i < j < |m.queue| && m.queue[i] == x && m.queue[j] == y;
      assert Step(m, e).queue[i] == x && Step(m, e).queue[j] == y;
    } else {
      RemovedKeepsOrder(m.queue, Gone(e).value, x, y);
    }
  }

  /** However many come and go, of two users who stay the one who came first is
      still in front. */
  lemma {:induction false} FirstComeFirstServed(m: Mic, es: seq<Event>, x: UserId, y: UserId)
    requires Before(m.queue, x, y)
    requires forall i :: 0 <= i < |es| ==>
               Comes(es[i]) || (Gone(es[i]).Some? && Gone(es[i]) != Some(x) && Gone(es[i]) != Some(y))
    ensures Before(Run(m, es).queue, x, y)
  {
    if |es| == 0 {
    } else {
      FirstComeFirstServed(m, es[..|es| - 1], x, y);
      ComingOrGoingKeepsOrder(Run(m, es[..|es| - 1]), es[|es| - 1], x, y);
    }
  }

  /** Who goes is not queued any more, all others are; the turn time is given
      back exactly when a kick empties the queue; and all go at once when all are
      kicked off. */
  lemma GoingTakesOut(m: Mic, e: Event, x: UserId)
    requires Gone(e).Some?
    ensures var t := Step(m, e);
            && (x in t.queue <==> x in m.queue && Gone(e) != Some(x))
            && t.count == (if e.KickOff? && |t.queue| == 0 then m.validring else m.count)
            && t.mute == m.mute && t.guests == m.guests && t.validring == m.validring
    ensures Step(m, KickAll).queue == [] && Step(m, KickAll).count == m.count
  {
    if x in m.queue && Gone(e) != Some(x) {
      RemovedKeepsOthers(m.queue, Gone(e).value, x);
    }
  }

  /** At most one user who is not a guest may speak, the first in the queue, and
      none while it is muted; the next one may once that one has gone. */
  lemma OneSpeaker(m: Mic, u: UserId, v: UserId)
    requires u !in m.guests && v !in m.guests && CanSay(m, u)
    ensures CanSay(m, v) ==> u == v
    ensures !m.mute && |m.queue| > 0 && m.queue[0] == u
    ensures Distinct(m.queue) && |m.queue| > 1 ==>
              CanSay(Step(m, Leave(u)), m.queue[1]) && !CanSay(Step(m, Leave(u)), u)
  {
    if Distinct(m.queue) && |m.queue| > 1 {
      RemovedOne(m.queue, 0);
    }
  }

  // ------------------------------------------------------------ the handlers

  class MicrophoneList {
    var queue: seq<UserId>
    var mute: bool
    var count: int
    var validring: int
    var guests: set<UserId>

    ghost function State(): Mic
      reads this
    {
      Mic(queue, mute, count, validring, guests)
    }

    constructor ()
      ensures State() == Mic([], false, 0, 300, {})
    {
      queue, mute, count, validring, guests := [], false, 0, 300, {};
    }

    method OnJoinQueue(u: UserId, success: bool)
      modifies this
      ensures State() == if success then Step(old(State()), Join(u)) else old(State())
    {
      if success {
        queue := queue + [u];
      }
    }

    method OnMulJoinQueue(us: seq<UserId>, success: bool)
      modifies this
      ensures State() == if success then Step(old(State()), JoinMany(us)) else old(State())
    {
      if success {
        var i := 0;
        while i < |us|
          invariant 0 <= i <= |us|
          invariant State() == old(State()).(queue := old(queue) + us[..i])
        {
          queue := queue + [us[i]];
          i := i + 1;
          assert us[..i] == us[..i - 1] + [us[i - 1]];
        }
        assert us[..i] == us;
      }
    }

    method OnTuoRenQueue(u: UserId, success: bool)
      modifies this
      ensures State() == if success then Step(old(State()), Join(u)) else old(State())
    {
      if success {
        OnJoinQueue(u, true);
      }
    }

    method OnLeaveQueue(u: UserId, success: bool)
      modifies this
      ensures State() == if success then Step(old(State()), Leave(u)) else old(State())
    {
      if success {
        queue := Removed(queue, u);
      }
    }

    method OnTimeout(u: UserId, success: bool)
      modifies this
      ensures State() == if success then Step(old(State()), Timeout(u)) else old(State())
    {
      if success {
        queue := Removed(queue, u);
      }
    }

    method OnKickOffQueue(u: UserId, success: bool)
      modifies this
      ensures State() == if success then Step(old(State()), KickOff(u)) else old(State())
    {
      if success {
        queue := Removed(queue, u);
        if |queue| == 0 {
          count := validring;
        }
      }
    }

    /** The iterator walks to the user, steps past it, and the user is put back
        one place further down or up. */
    method OnMoveQueue(who: UserId, down: bool, success: bool)
      requires Distinct(queue) && who in queue
      modifies this
      ensures State() == if success then Step(old(State()), MoveBy(who, down)) else old(State())
    {
      if !success {
        return;
      }
      if down {
        if |queue| <= 2 || queue[0] == who || queue[|queue| - 1] == who {
          return;
        }
      } else if |queue| <= 2 || queue[0] == who || queue[1] == who {
        return;
      }
      var it := 1;
      while it < |queue|
        invariant 1 <= it <= |queue|
        invariant forall i :: 0 <= i < it ==> queue[i] != who
      {
        if queue[it] == who {
          break;
        }
        it := it + 1;
      }
      assert it == IndexOf(queue, who);
      PutBack(queue, it, down);
      queue := Removed(queue, who);
      // `it` is now the place of the element that followed `who`
      if down {
        it := it + 1;
      } else {
        it := it - 1;
      }
      queue := queue[..it] + [who] + queue[it..];
    }

    method OnTopQueue(uid: UserId)
      modifies this
      ensures State() == Step(old(State()), ToTop(uid))
    {
      if uid == 0 {
        return;
      }
      if |queue| <= 2 {
        return;
      }
      if queue[1] == uid {
        return;
      }
      // the iterator stays on the element that is second now
      var p := if queue[0] == uid then 0 else 1;
      SecondStays(queue, uid);
      queue := Removed(queue, uid);
      queue := queue[..p] + [uid] + queue[p..];
    }

    method OnKickAllQueue()
      modifies this
      ensures State() == Step(old(State()), KickAll)
    {
      queue := [];
    }

    method OnSync(state: Mic)
      modifies this
      ensures State() == Step(old(State()), Sync(state))
    {
      queue, mute, count, validring, guests := state.queue, state.mute, state.count, state.validring, state.guests;
    }
  }

  /** Taking the user at `k` out and putting it back past its neighbour. */
  lemma PutBack(q: seq<UserId>, k: nat, down: bool)
    requires Distinct(q) && 0 < k < |q| && (down ==> k + 1 < |q|)
    ensures var (r, it) := (Removed(q, q[k]), if down then k + 1 else k - 1);
            && it <= |r|
            && r[..it] + [q[k]] + r[it..] == Swapped(q, if down then k else k - 1)
  {
    RemovedOne(q, k);
    PutBackWithout(q, k, if down then k + 1 else k - 1);
  }

  lemma PutBackWithout(q: seq<UserId>, k: nat, it: nat)
    requires 0 < k < |q| && (it == k - 1 || (it == k + 1 && k + 1 < |q|))
    ensures Without(q, k)[..it] + [q[k]] + Without(q, k)[it..] == Swapped(q, if it == k - 1 then k - 1 else k)
  {
    var w := Without(q, k);
    var r := w[..it] + [q[k]] + w[it..];
    var s := Swapped(q, if it == k - 1 then k - 1 else k);
    forall i | 0 <= i < |q| ensures r[i] == s[i] {
    }
  }

  lemma SecondStays(q: seq<UserId>, u: UserId)
    requires |q| >= 2 && q[1] != u
    ensures |Removed(q, u)| >= if q[0] == u then 1 else 2
    ensures Removed(q, u)[if q[0] == u then 0 else 1] == q[1]
  {
    assert q[1..][0] == q[1];
  }
}
