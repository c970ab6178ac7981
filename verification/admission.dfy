/**
 * When a client can still admit requests. Credits are lost for good by admissions that time out
 * and by answers that cannot be unpacked; but callers that wait can also block each other.
 */
module Admission {
  import opened Bytes
  import opened Wire
  import opened Clients

  /** The credits no later step can bring back. */
  ghost function Leaked(s: Client): nat {
    s.timedOut + |Losses(s)|
  }

  /** The credits that only an admission can free: leaked, or held by a waiting caller. */
  ghost function Stuck(s: Client): nat {
    |Waiters(s)| + Leaked(s)
  }

  /** A waiting caller passes, or a new one is let in at once. */
  ghost predicate Admits(s: Client, e: Event) {
    Enabled(s, e) && (e.Wake? || (e.Enter? && s.nr - 1 >= 0))
  }

  /** Some continuation admits a request. */
  ghost predicate CanAdmit(s: Client) {
    exists es, t, e :: Reaches(s, es, t) && Admits(t, e)
  }

  /** There is room for a waiting caller, or for a new one. */
  ghost predicate Room(s: Client, depth: nat) {
    Stuck(s) < depth || (Waiters(s) != {} && Stuck(s) <= depth)
  }

  lemma Parts(s: Client)
    ensures Waiters(s) !! Losses(s) && Waiters(s) + Losses(s) <= Holding(s)
    ensures |Waiters(s)| + |Losses(s)| == |Waiters(s) + Losses(s)| <= |Holding(s)|
  {
    Fewer(Waiters(s) + Losses(s), Holding(s));
  }

  lemma AdmitsWithRoom(s: Client, e: Event, depth: nat)
    requires Inv(s, depth) && Admits(s, e)
    ensures Room(s, depth)
  {
    hide Once, Messages, Queue, Holding, Losses, Admissions;
    Parts(s);
    if e.Wake? {
      assert e.p in Waiters(s);
    }
  }

  /** A step that admits nobody leaves no more room than there was. */
  lemma NoRoomStays(s: Client, e: Event, depth: nat)
    requires Inv(s, depth) && Enabled(s, e) && !Room(s, depth)
    ensures !Admits(s, e) && !Room(Do(s, e), depth)
  {
    hide Once, Messages, Holding, Admissions;
    if Admits(s, e) {
      AdmitsWithRoom(s, e, depth);
      assert false;
    }
    StuckMoves(s, e);
  }

  lemma StuckSets(s: Client, e: Event)
    requires Queue(s) && Enabled(s, e)
    ensures var t, blocked := Do(s, e), e.Enter? && s.nr - 1 < 0;
            && (blocked ==> e.p !in Waiters(s) && Waiters(t) == Waiters(s) + {e.p})
            && (e.Expire? || e.Wake? ==> e.p in Waiters(s) && Waiters(t) == Waiters(s) - {e.p})
            && (!blocked && !e.Expire? && !e.Wake? ==> Waiters(t) == Waiters(s))
            && (e.Lose? ==> e.p !in Losses(s) && Losses(t) == Losses(s) + {e.p})
            && (!e.Lose? ==> Losses(t) == Losses(s))
  {
    if e.Transmit? {
      assert At(s, s.queue[0], Queued);
    }
  }

  lemma StuckMoves(s: Client, e: Event)
    requires Queue(s) && Enabled(s, e) && !Admits(s, e)
    ensures e.Enter? ==> Stuck(Do(s, e)) == Stuck(s) + 1
    ensures !e.Enter? ==> Stuck(Do(s, e)) >= Stuck(s) && (Waiters(Do(s, e)) != {} ==> Waiters(s) != {})
  {
    hide Queue, Waiters, Losses;
    StuckSets(s, e);
  }

  /** Without room no continuation ever admits a request. */
  lemma {:induction false} Starved(s: Client, es: seq<Event>, t: Client, e: Event, depth: nat)
    requires Inv(s, depth) && Reaches(s, es, t) && !Room(s, depth)
    ensures !Admits(t, e)
    decreases es
  {
    hide Inv, Enabled, Do, Room, Admits;
    InvQueue(s, depth);
    if es == [] {
      if Admits(s, e) {
        AdmitsWithRoom(s, e, depth);
        assert false;
      }
    } else {
      NoRoomStays(s, es[0], depth);
      StepKeeps(s, es[0], depth);
      Starved(Do(s, es[0]), es[1..], t, e, depth);
    }
  }

  lemma InvQueue(s: Client, depth: nat)
    requires Inv(s, depth)
    ensures Queue(s)
  {
  }

  // ---- with room, a run that admits ----

  ghost function In(s: Client, stage: Stage): set<Ptr> {
    set p | p in s.live && s.live[p].stage == stage
  }

  /** How far the requests that neither wait nor are lost are from being deleted. */
  ghost function Rank(s: Client): nat {
    6 * |In(s, Admitted)| + 5 * |In(s, Queued)| + 4 * |In(s, Sent)| + 3 * |In(s, Answered)|
    + 3 * |In(s, Failed)| + 2 * |In(s, Repaid)| + |In(s, Finished)|
  }

  function Weight(stage: Stage): nat {
    match stage
    case Admitted => 6
    case Queued => 5
    case Sent => 4
    case Answered => 3
    case Failed => 3
    case Repaid => 2
    case Finished => 1
    case _ => 0
  }

  /** Request p goes from one stage to another. */
  lemma Moved(s: Client, t: Client, p: Ptr, to: Stage)
    requires p in s.live && s.live[p].stage != to && t.live == s.live[p := s.live[p].(stage := to)]
    ensures p in In(s, s.live[p].stage) && In(t, s.live[p].stage) == In(s, s.live[p].stage) - {p}
    ensures p !in In(s, to) && In(t, to) == In(s, to) + {p}
    ensures forall x | x != to && x != s.live[p].stage :: In(t, x) == In(s, x)
  {
  }

  lemma Deleted(s: Client, t: Client, p: Ptr)
    requires At(s, p, Finished) && t.live == s.live - {p}
    ensures p in In(s, Finished) && In(t, Finished) == In(s, Finished) - {p}
    ensures forall x | x != Finished :: In(t, x) == In(s, x)
  {
  }

  lemma SizeMoves(s: Client, t: Client, p: Ptr, to: Stage, x: Stage)
    requires p in s.live && s.live[p].stage != to && t.live == s.live[p := s.live[p].(stage := to)]
    ensures |In(t, x)| == |In(s, x)| - (if x == s.live[p].stage then 1 else 0) + (if x == to then 1 else 0)
  {
    hide In;
    Moved(s, t, p, to);
  }

  lemma RankMoves(s: Client, t: Client, p: Ptr, to: Stage)
    requires p in s.live && s.live[p].stage != to && t.live == s.live[p := s.live[p].(stage := to)]
    ensures Rank(t) == Rank(s) - Weight(s.live[p].stage) + Weight(to)
  {
    hide In;
    SizeMoves(s, t, p, to, Admitted);
    SizeMoves(s, t, p, to, Queued);
    SizeMoves(s, t, p, to, Sent);
    SizeMoves(s, t, p, to, Answered);
    SizeMoves(s, t, p, to, Failed);
    SizeMoves(s, t, p, to, Repaid);
    SizeMoves(s, t, p, to, Finished);
  }

  /** The step that brings request p, or the head of the queue before it, closer to its end. */
  ghost function Onward(s: Client, p: Ptr): Event
    requires p in s.live
  {
    match s.live[p].stage
    case Admitted => Push(p)
    case Queued => Transmit(true)
    case Answered => Release(p)
    case Failed => Release(p)
    case Finished => Delete(p)
    case _ => Complete(p, -1, EIO)
  }

  lemma OnwardSettles(s: Client, p: Ptr)
    requires Queue(s) && p in s.live && !At(s, p, Waiting) && !At(s, p, Lost)
    ensures Enabled(s, Onward(s, p)) && Rank(Do(s, Onward(s, p))) < Rank(s)
  {
    hide In, Rank;
    var e := Onward(s, p);
    if e.Transmit? {
      assert p in s.queue;
      assert At(s, s.queue[0], Queued);
      RankMoves(s, Do(s, e), s.queue[0], Sent);
    } else if e.Delete? {
      RankDrops(s, Do(s, e), p);
    } else {
      RankMoves(s, Do(s, e), p, Do(s, e).live[p].stage);
    }
  }

  lemma RankDrops(s: Client, t: Client, p: Ptr)
    requires At(s, p, Finished) && t.live == s.live - {p}
    ensures Rank(t) == Rank(s) - 1
  {
    hide In;
    Deleted(s, t, p);
  }

  /** Every request but the waiting and the lost ones can be brought to its end. */
  lemma {:induction false} Settled(s: Client, depth: nat) returns (es: seq<Event>, t: Client)
    requires Inv(s, depth)
    ensures Reaches(s, es, t) && Inv(t, depth) && t.timedOut == s.timedOut
    ensures Waiters(t) == Waiters(s) && Losses(t) == Losses(s) && t.live.Keys == Waiters(t) + Losses(t)
    decreases Rank(s)
  {
    hide Rank, Inv;
    InvQueue(s, depth);
    if p :| p in s.live && !At(s, p, Waiting) && !At(s, p, Lost) {
      hide Queue, Do, Enabled;
      var e := Onward(s, p);
      OnwardSettles(s, p);
      StepKeeps(s, e, depth);
      OnwardKeeps(s, p);
      var rest;
      rest, t := Settled(Do(s, e), depth);
      es := [e] + rest;
      assert es[1..] == rest;
    } else {
      es, t := [], s;
    }
  }

  lemma OnwardKeeps(s: Client, p: Ptr)
    requires Queue(s) && p in s.live && !At(s, p, Waiting) && !At(s, p, Lost)
    requires Enabled(s, Onward(s, p))
    ensures var t := Do(s, Onward(s, p));
            Waiters(t) == Waiters(s) && Losses(t) == Losses(s) && t.timedOut == s.timedOut
  {
    hide Queue, Waiters, Losses;
    StuckSets(s, Onward(s, p));
  }

  /** With fewer than n keys, one below n is free. */
  lemma {:induction false} FreeBelow(keys: set<nat>, n: nat) returns (p: nat)
    requires |keys| < n
    ensures p < n && p !in keys
    decreases n
  {
    p := n - 1;
    if p in keys {
      var q := FreeBelow(keys - {p}, p);
      p := q;
    }
  }

  lemma {:induction false} FreeUser(users: set<nat>) returns (u: nat)
    ensures forall x | x in users :: x < u
    decreases users
  {
    u := 0;
    if users != {} {
      var x :| x in users;
      var v := FreeUser(users - {x});
      u := if v <= x then x + 1 else v;
      assert forall y | y in users :: y == x || y in users - {x};
    }
  }

  ghost function Users(s: Client): set<nat> {
    (set p | p in s.live :: s.live[p].user) + (set k | 0 <= k < |s.log| :: s.log[k].user)
  }

  lemma NewCaller(s: Client, depth: nat) returns (e: Event)
    requires Inv(s, depth) && |s.live.Keys| < TWO_64
    ensures e.Enter? && Enabled(s, e)
  {
    hide Once, Messages, Holding, Admissions, Queue;
    var p := FreeBelow(s.live.Keys, TWO_64);
    var user := FreeUser(Users(s));
    assert forall q | q in s.live :: s.live[q].user in Users(s);
    assert forall k | 0 <= k < |s.log| :: s.log[k].user in Users(s);
    e := Enter(p, user, NOOP.(cookie := p));
  }

  /** A settled state with room admits at once. */
  lemma SettledAdmits(s: Client, depth: nat) returns (e: Event)
    requires Inv(s, depth) && depth < I64 && Room(s, depth) && s.live.Keys == Waiters(s) + Losses(s)
    ensures Admits(s, e)
  {
    hide Once, Messages, Queue;
    Parts(s);
    assert Holding(s) == Waiters(s) + Losses(s);
    if Waiters(s) != {} {
      var p :| p in Waiters(s);
      e := Wake(p);
    } else {
      assert s.live.Keys == Losses(s);
      e := NewCaller(s, depth);
    }
  }

  /**
   * Exactly when a client can still admit a request: in every state some continuation admits one
   * if and only if the credits that are leaked or held by waiting callers leave room for one of
   * those callers or, with nobody waiting, for a new one. The depth is an int64_t.
   */
  lemma AdmitsIff(s: Client, depth: nat)
    requires Inv(s, depth) && depth < I64
    ensures CanAdmit(s) <==> Room(s, depth)
  {
    hide Inv, Waiters, Losses, Admits, Reaches;
    if CanAdmit(s) {
      var es, t, e :| Reaches(s, es, t) && Admits(t, e);
      if !Room(s, depth) {
        Starved(s, es, t, e, depth);
        assert false;
      }
    }
    if Room(s, depth) {
      var es, t := Settled(s, depth);
      var e := SettledAdmits(t, depth);
      assert Reaches(s, es, t) && Admits(t, e);
    }
  }

  // ---- callers that block each other ----

  /** Depth 1 and k callers in req_queue_wait_until, the first of them admitted. */
  ghost function Crowd(k: nat): Client {
    Client(1 - k, map i: nat | 0 <= i < k :: Xmsg(i, NOOP.(cookie := i), if i == 0 then Admitted else Waiting),
           [], 0, [])
  }

  lemma CrowdGrows(k: nat)
    requires k < I64
    ensures Enabled(Crowd(k), Enter(k, k, NOOP.(cookie := k))) && Queue(Crowd(k))
    ensures Do(Crowd(k), Enter(k, k, NOOP.(cookie := k))) == Crowd(k + 1)
  {
    var t := Do(Crowd(k), Enter(k, k, NOOP.(cookie := k)));
    assert t.live == Crowd(k + 1).live;
  }

  lemma {:induction false} CrowdReached(i: nat, k: nat) returns (es: seq<Event>)
    requires i <= k < I64 && Inv(Crowd(i), 1)
    ensures Reaches(Crowd(i), es, Crowd(k)) && Inv(Crowd(k), 1)
    decreases k - i
  {
    hide Inv, Crowd, Enabled, Do;
    if i == k {
      es := [];
    } else {
      var e := Enter(i, i, NOOP.(cookie := i));
      CrowdGrows(i);
      StepKeeps(Crowd(i), e, 1);
      var rest := CrowdReached(i + 1, k);
      es := [e] + rest;
      assert es[1..] == rest;
    }
  }

  lemma CrowdSets(k: nat)
    requires 0 < k && Inv(Crowd(k), 1)
    ensures Leaked(Crowd(k)) == 0 && |Waiters(Crowd(k))| == k - 1 && Admissions(Crowd(k)) == {0}
  {
    hide Once, Messages, Queue;
    assert Losses(Crowd(k)) == {};
    assert Waiters(Crowd(k)) == Holding(Crowd(k)) - {0} && 0 in Holding(Crowd(k));
  }

  /**
   * Nothing needs to leak for that: with depth 1, one request admitted and two or more callers
   * waiting, no continuation admits a request, whatever is released.
   */
  lemma WaitersStarve(k: nat) returns (es: seq<Event>)
    requires 3 <= k < I64
    ensures Reaches(Fresh(1), es, Crowd(k)) && Inv(Crowd(k), 1)
    ensures Leaked(Crowd(k)) == 0 && Admissions(Crowd(k)) == {0} && |Waiters(Crowd(k))| == k - 1
    ensures !CanAdmit(Crowd(k))
  {
    hide Inv, CanAdmit, Reaches, Waiters, Admissions, Leaked;
    FreshInv(1);
    assert Fresh(1) == Crowd(0);
    es := CrowdReached(0, k);
    CrowdSets(k);
    AdmitsIff(Crowd(k), 1);
  }
}
