/**
 * The priority scan the scheduler runs over one registry each tick: visit
 * the points in iteration order, let each one check whether it wants to
 * send, stop at the first that does, and let that one build its request.
 * The checks themselves may change the state of the points they visit.
 */
module Scan {
  import opened BsbTypes

  /** Which request a point that wants to send asks for. */
  datatype Pick = SetRequest | GetRequest

  /** A point's answer to the per-tick check and its state afterwards. */
  datatype Step<S> = Step(pick: Option<Pick>, next: S)

  /** The first point that asked to send, and what it asked for. */
  datatype Win = Win(index: nat, pick: Pick)

  /** The points after the checks, and the winner if there was one. */
  datatype Scanned<S> = Scanned(winner: Option<Win>, after: seq<S>)

  /** The outcome of a scan once the winner has also built its request. */
  datatype Outcome<S> = Outcome(winner: Option<Win>, sent: Option<Packet>, after: seq<S>)

  /** Points before k were checked, did not ask to send, and hold their checked state. */
  ghost predicate PassedBefore<S>(ps: seq<S>, check: S -> Step<S>, after: seq<S>, k: nat)
    requires k <= |ps| <= |after|
  {
    forall j :: 0 <= j < k ==> check(ps[j]).pick.None? && after[j] == check(ps[j]).next
  }

  /** Points after k were not visited. */
  ghost predicate UntouchedAfter<S>(ps: seq<S>, after: seq<S>, k: nat)
    requires |ps| == |after|
  {
    forall j :: k < j < |ps| ==> after[j] == ps[j]
  }

  /** The scan: visit the points in order and stop at the first whose check asks to send. */
  function Scan<S>(ps: seq<S>, check: S -> Step<S>): (r: Scanned<S>)
    ensures |r.after| == |ps|
    ensures r.winner.Some? ==> r.winner.value.index < |ps|
    decreases |ps|
  {
    if |ps| == 0 then Scanned(None, [])
    else
      var first := check(ps[0]);
      if first.pick.Some? then
        Scanned(Some(Win(0, first.pick.value)), [first.next] + ps[1..])
      else
        var rest := Scan(ps[1..], check);
        var winner := match rest.winner
          case None => None
          case Some(w) => Some(Win(w.index + 1, w.pick));
        Scanned(winner, [first.next] + rest.after)
  }

  /**
   * The winner of a scan is a point whose check asks to send; every point
   * before it was checked and refused and holds its checked state, and
   * every point after it is left as it was. With no winner every point was
   * checked and refused.
   */
  lemma {:induction false} ScanCharacterised<S>(ps: seq<S>, check: S -> Step<S>)
    ensures var r := Scan(ps, check);
      && (r.winner.None? ==> PassedBefore(ps, check, r.after, |ps|))
      && (r.winner.Some? ==>
        var k := r.winner.value.index;
        && check(ps[k]).pick == Some(r.winner.value.pick)
        && r.after[k] == check(ps[k]).next
        && PassedBefore(ps, check, r.after, k)
        && UntouchedAfter(ps, r.after, k))
    decreases |ps|
  {
    if |ps| > 0 && check(ps[0]).pick.None? {
      var tail := ps[1..];
      ScanCharacterised(tail, check);
      var rest := Scan(tail, check);
      var r := Scan(ps, check);
      assert r.after == [check(ps[0]).next] + rest.after;
      var k := if rest.winner.Some? then rest.winner.value.index + 1 else |ps|;
      forall j | 0 <= j < k
        ensures check(ps[j]).pick.None? && r.after[j] == check(ps[j]).next
      {
        if j > 0 {
          assert ps[j] == tail[j - 1] && r.after[j] == rest.after[j - 1];
        }
      }
      if rest.winner.Some? {
        forall j | k < j < |ps|
          ensures r.after[j] == ps[j]
        {
          assert ps[j] == tail[j - 1] && r.after[j] == rest.after[j - 1];
        }
        assert ps[k] == tail[k - 1];
      }
    }
  }

  /** The winner of a scan is exactly the first point whose check asks to send. */
  lemma ScanWinnerIsFirst<S>(ps: seq<S>, check: S -> Step<S>, k: nat)
    requires k < |ps| && check(ps[k]).pick.Some?
    requires forall j :: 0 <= j < k ==> check(ps[j]).pick.None?
    ensures Scan(ps, check).winner == Some(Win(k, check(ps[k]).pick.value))
  {
    ScanCharacterised(ps, check);
  }

  /** A scan in which no check asks to send has no winner. */
  lemma ScanNoWinner<S>(ps: seq<S>, check: S -> Step<S>)
    requires forall j :: 0 <= j < |ps| ==> check(ps[j]).pick.None?
    ensures Scan(ps, check).winner.None?
  {
    ScanCharacterised(ps, check);
  }

  /**
   * The scan followed by the winner's request: act builds the packet from
   * the winner's checked state and gives the winner's final state.
   */
  function Settle<S>(ps: seq<S>, check: S -> Step<S>, act: (S, Pick) -> Made<S>): (r: Outcome<S>)
    ensures |r.after| == |ps|
    ensures r.winner == Scan(ps, check).winner
    ensures r.sent.Some? <==> r.winner.Some?
  {
    var s := Scan(ps, check);
    match s.winner
    case None => Outcome(None, None, s.after)
    case Some(w) =>
      var m := act(s.after[w.index], w.pick);
      Outcome(s.winner, Some(m.packet), s.after[w.index := m.next])
  }

  /**
   * With no winner the settled points are the checked ones; with a winner
   * its request is built from its checked state and only its own state
   * moves on from the scan.
   */
  lemma SettleCharacterised<S>(ps: seq<S>, check: S -> Step<S>, act: (S, Pick) -> Made<S>)
    ensures var r := Settle(ps, check, act);
      && (r.winner.None? ==> PassedBefore(ps, check, r.after, |ps|))
      && (r.winner.Some? ==>
        var w := r.winner.value;
        var m := act(check(ps[w.index]).next, w.pick);
        && check(ps[w.index]).pick == Some(w.pick)
        && r.sent == Some(m.packet)
        && r.after[w.index] == m.next
        && PassedBefore(ps, check, r.after, w.index)
        && UntouchedAfter(ps, r.after, w.index))
  {
    ScanCharacterised(ps, check);
  }

  /** A registry in which every point was checked and refused settles to exactly those checked states. */
  lemma SettledWithoutWinner<S>(ps: seq<S>, check: S -> Step<S>, act: (S, Pick) -> Made<S>, after: seq<S>)
    requires |after| == |ps| && PassedBefore(ps, check, after, |ps|)
    ensures Settle(ps, check, act) == Outcome(None, None, after)
  {
    ScanNoWinner(ps, check);
    SettleCharacterised(ps, check, act);
    var r := Settle(ps, check, act);
    assert forall j :: 0 <= j < |ps| ==> r.after[j] == after[j];
  }

  /**
   * A registry whose points before k were checked and refused, whose point
   * k asked to send and then built its request, and whose later points were
   * not visited, settles to exactly that state with k's request sent.
   */
  lemma SettledAtWinner<S>(ps: seq<S>, check: S -> Step<S>, act: (S, Pick) -> Made<S>, after: seq<S>, k: nat)
    requires |after| == |ps| && k < |ps| && check(ps[k]).pick.Some?
    requires PassedBefore(ps, check, after, k) && UntouchedAfter(ps, after, k)
    requires after[k] == act(check(ps[k]).next, check(ps[k]).pick.value).next
    ensures var pick := check(ps[k]).pick.value;
      Settle(ps, check, act) == Outcome(Some(Win(k, pick)), Some(act(check(ps[k]).next, pick).packet), after)
  {
    ScanWinnerIsFirst(ps, check, k);
    SettleCharacterised(ps, check, act);
    var r := Settle(ps, check, act);
    forall j | 0 <= j < |ps|
      ensures r.after[j] == after[j]
    {
      if j < k {
      } else if j > k {
      }
    }
  }

  /** No point of the registry asks to send. */
  ghost predicate NoneReady<S>(ps: seq<S>, check: S -> Step<S>) {
    forall j :: 0 <= j < |ps| ==> check(ps[j]).pick.None?
  }

  /** Point k is the first of the registry that asks to send. */
  ghost predicate FirstReady<S>(ps: seq<S>, check: S -> Step<S>, k: nat) {
    k < |ps| && check(ps[k]).pick.Some? && forall j :: 0 <= j < k ==> check(ps[j]).pick.None?
  }

  /**
   * A relation that every state has to itself, to its checked state and,
   * when it asked to send, to its state after building the request, holds
   * between each point before the scan and the same point after it.
   */
  lemma SettleRelates<S>(ps: seq<S>, check: S -> Step<S>, act: (S, Pick) -> Made<S>, rel: (S, S) -> bool)
    requires forall s :: rel(s, s)
    requires forall s :: rel(s, check(s).next)
    requires forall s, pick :: check(s).pick == Some(pick) ==> rel(s, act(check(s).next, pick).next)
    ensures var r := Settle(ps, check, act);
      forall i :: 0 <= i < |ps| ==> rel(ps[i], r.after[i])
  {
    SettleCharacterised(ps, check, act);
    var r := Settle(ps, check, act);
    forall i | 0 <= i < |ps|
      ensures rel(ps[i], r.after[i])
    {
      if r.winner.None? {
        assert r.after[i] == check(ps[i]).next;
      } else {
        var k := r.winner.value.index;
        if i < k {
          assert r.after[i] == check(ps[i]).next;
        } else if i == k {
          assert check(ps[k]).pick == Some(r.winner.value.pick);
        } else {
          assert r.after[i] == ps[i];
        }
      }
    }
  }
}
