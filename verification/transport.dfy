/** NetworkXioClient as an object: its methods take the steps of Clients. */
module XioClients {
  import opened Bytes
  import opened Wire
  import opened Clients

  /** What a caller blocked in req_queue_wait_until finds when it looks at the counter. */
  datatype Look = Pass | Sleep | Busy

  ghost predicate Live(s: Client, q: seq<Ptr>) {
    forall i | 0 <= i < |q| :: q[i] in s.live
  }

  /** One turn of the sending loop: the transport takes the request, or it is completed and deleted. */
  ghost function Turn(s: Client, ok: bool): Client
    requires Queue(s) && s.queue != []
  {
    var p := s.queue[0];
    assert At(s, p, Queued);
    if ok then Move(s, p, Sent).(queue := s.queue[1..])
    else s.(nr := s.nr + 1, live := s.live - {p}, queue := s.queue[1..],
            log := s.log + [Completion(s.live[p].user, -1, EIO)])
  }

  ghost function Drain(s: Client, r: seq<bool>): Client
    requires Queue(s) && |s.queue| <= |r|
    decreases |s.queue|
  {
    if s.queue == [] then s else TurnEffect(s, r[0]); Drain(Turn(s, r[0]), r[1..])
  }

  /** What the callers are told whose requests of q xio_send_request refuses, r[k] telling its verdict on the k-th. */
  ghost function Refused(s: Client, q: seq<Ptr>, r: seq<bool>): seq<Completion>
    requires |q| <= |r| && Live(s, q)
  {
    if q == [] then []
    else (if r[0] then [] else [Completion(s.live[q[0]].user, -1, EIO)]) + Refused(s, q[1..], r[1..])
  }

  lemma {:induction false} ReachesThen(s: Client, a: seq<Event>, t: Client, b: seq<Event>, u: Client)
    requires Reaches(s, a, t) && Reaches(t, b, u)
    ensures Reaches(s, a + b, u)
    decreases a
  {
    hide Enabled, Do, Queue;
    if a == [] {
      assert a + b == b;
    } else {
      if Queue(s) {
        ReachesThen(Do(s, a[0]), a[1..], t, b, u);
      }
      assert (a + b)[1..] == a[1..] + b;
    }
  }

  class XioClient {
    var nr: int
    var live: map<Ptr, Xmsg>
    var queue: seq<Ptr>
    var timedOut: nat
    var log: seq<Completion>

    ghost function Abs(): Client
      reads this
    {
      Client(nr, live, queue, timedOut, log)
    }

    constructor (depth: nat)
      ensures Abs() == Fresh(depth) && Inv(Abs(), depth)
    {
      nr, live, queue, timedOut, log := depth, map[], [], 0, [];
      new;
      FreshInv(depth);
    }

    /** req_queue_wait_until up to its first look at the wait condition. */
    method ReqQueueWaitUntil(p: Ptr, user: nat, msg: Msg) returns (look: Look)
      requires Queue(Abs()) && Enabled(Abs(), Enter(p, user, msg))
      modifies this
      ensures Abs() == Do(old(Abs()), Enter(p, user, msg))
      ensures nr == old(nr) - 1 && look == (if old(nr) >= 1 then Pass else Sleep)
      ensures live == old(live)[p := Xmsg(user, msg, if look == Pass then Admitted else Waiting)]
    {
      nr := nr - 1;
      look := Pass;
      if nr <= 0 {
        if !(nr >= 0) {
          look := Sleep;
        }
      }
      live := live[p := Xmsg(user, msg, if look == Pass then Admitted else Waiting)];
    }

    /** A later look, on a notification or when the 60 seconds are over. */
    method LookAgain(p: Ptr, over: bool) returns (look: Look)
      requires Queue(Abs()) && At(Abs(), p, Waiting)
      modifies this
      ensures look == (if old(nr) >= 0 then Pass else if over then Busy else Sleep)
      ensures look == Pass ==> Enabled(old(Abs()), Wake(p)) && Abs() == Do(old(Abs()), Wake(p))
      ensures look == Busy ==> Enabled(old(Abs()), Expire(p)) && Abs() == Do(old(Abs()), Expire(p))
      ensures look == Busy ==> live == old(live) - {p} && timedOut == old(timedOut) + 1
      ensures look == Sleep ==> Abs() == old(Abs())
      ensures nr == old(nr) && queue == old(queue) && log == old(log)
    {
      if nr >= 0 {
        live := live[p := live[p].(stage := Admitted)];
        return Pass;
      }
      if !over {
        return Sleep;
      }
      live := live - {p};
      timedOut := timedOut + 1;
      return Busy;
    }

    /** The request joins the end of the queue, where it was not before. */
    method PushRequest(p: Ptr)
      requires Queue(Abs()) && At(Abs(), p, Admitted)
      modifies this
      ensures Abs() == Do(old(Abs()), Push(p))
      ensures p !in old(queue) && queue[..|queue| - 1] == old(queue) && queue[|queue| - 1] == p && nr == old(nr)
      ensures Admissions(Abs()) == old(Admissions(Abs()))
      ensures forall depth: nat :: old(Inv(Abs(), depth)) ==> Inv(Abs(), depth)
    {
      ghost var s := Abs();
      queue := queue + [p];
      live := live[p := live[p].(stage := Queued)];
      InvKept(s, Push(p));
      assert Admissions(Abs()) == Admissions(s);
    }

    /** One credit less is held, and a waiting caller may pass exactly when no more than one was missing. */
    method ReqQueueRelease(p: Ptr)
      requires Queue(Abs()) && Enabled(Abs(), Release(p))
      modifies this
      ensures Abs() == Do(old(Abs()), Release(p))
      ensures Holding(Abs()) == old(Holding(Abs())) - {p} && p in old(Holding(Abs())) && nr == old(nr) + 1
      ensures forall q | At(Abs(), q, Waiting) :: Enabled(Abs(), Wake(q)) <==> old(nr) >= -1
      ensures forall depth: nat :: old(Inv(Abs(), depth)) ==> Inv(Abs(), depth)
    {
      hide Inv, Queue;
      ghost var s := Abs();
      nr := nr + 1;
      live := live[p := live[p].(stage := if live[p].stage == Answered then Finished else Repaid)];
      HoldingMoves(s, Release(p));
      InvKept(s, Release(p));
    }

    /** The caller is told, for the first time, and nobody else is. */
    method CompleteRequest(p: Ptr, retval: int, errval: int)
      requires Queue(Abs()) && Enabled(Abs(), Complete(p, retval, errval))
      modifies this
      ensures Abs() == Do(old(Abs()), Complete(p, retval, errval))
      ensures log == old(log) + [Completion(old(live)[p].user, retval, errval)]
      ensures old(Once(Abs())) ==> Once(Abs()) && !old(Told(Abs(), live[p].user))
      ensures forall u :: Told(Abs(), u) <==> old(Told(Abs(), u)) || u == old(live[p].user)
      ensures forall depth: nat :: old(Inv(Abs(), depth)) ==> Inv(Abs(), depth)
    {
      hide Inv, Queue;
      ghost var s := Abs();
      log := log + [Completion(live[p].user, retval, errval)];
      live := live[p := live[p].(stage := if live[p].stage == Sent then Answered else Finished)];
      InvKept(s, Complete(p, retval, errval));
      TellsOne(s, p, retval, errval);
    }

    method DeleteRequest(p: Ptr)
      requires Queue(Abs()) && At(Abs(), p, Finished)
      modifies this
      ensures Abs() == Do(old(Abs()), Delete(p))
    {
      live := live - {p};
    }

    /** The tail of both callbacks: tell the caller, return the credit, delete. */
    method Settle(p: Ptr, retval: int, errval: int, ghost depth: nat) returns (ghost es: seq<Event>)
      requires Inv(Abs(), depth) && At(Abs(), p, Sent)
      modifies this
      ensures Inv(Abs(), depth) && Reaches(old(Abs()), es, Abs())
      ensures es == [Complete(p, retval, errval), Release(p), Delete(p)]
      ensures log == old(log) + [Completion(old(live)[p].user, retval, errval)]
      ensures nr == old(nr) + 1 && live == old(live) - {p} && queue == old(queue) && timedOut == old(timedOut)
    {
      hide Once, Messages, Holding, Admissions;
      ghost var s := Abs();
      CompleteRequest(p, retval, errval);
      StepKeeps(s, Complete(p, retval, errval), depth);
      OneStep(s, Complete(p, retval, errval));
      ghost var t := Abs();
      es := ReleaseAndDelete(p, depth);
      ReachesThen(s, [Complete(p, retval, errval)], t, es, Abs());
      es := [Complete(p, retval, errval)] + es;
      assert t.live - {p} == s.live - {p};
    }

    method ReleaseAndDelete(p: Ptr, ghost depth: nat) returns (ghost es: seq<Event>)
      requires Inv(Abs(), depth) && At(Abs(), p, Answered)
      modifies this
      ensures Inv(Abs(), depth) && Reaches(old(Abs()), es, Abs())
      ensures Abs() == old(Abs()).(nr := old(nr) + 1, live := old(live) - {p}) && es == [Release(p), Delete(p)]
    {
      hide Once, Messages, Holding, Admissions;
      ghost var s := Abs();
      ReqQueueRelease(p);
      ghost var t := Abs();
      StepKeeps(s, Release(p), depth);
      OneStep(s, Release(p));
      DeleteRequest(p);
      StepKeeps(t, Delete(p), depth);
      OneStep(t, Delete(p));
      ReachesThen(s, [Release(p)], t, [Delete(p)], Abs());
      assert t.live - {p} == s.live - {p};
      es := [Release(p)] + [Delete(p)];
    }

    /**
     * on_response, for a reply that the transport matches with the request at `owner`. The code
     * trusts the cookie in the header to be that address; Sessions shows that it is.
     */
    method OnResponse(header: seq<byte>, owner: Ptr, ghost depth: nat) returns (ghost es: seq<Event>)
      requires Inv(Abs(), depth) && At(Abs(), owner, Sent)
      requires Parse(NOOP, header).Some? ==> Parse(NOOP, header).value.cookie == owner
      modifies this
      ensures Inv(Abs(), depth) && Reaches(old(Abs()), es, Abs())
      ensures match Parse(NOOP, header)
              case Some(m) =>
                && es == [Complete(owner, m.retval, m.errval), Release(owner), Delete(owner)]
                && log == old(log) + [Completion(old(live)[owner].user, m.retval, m.errval)]
                && nr == old(nr) + 1 && live == old(live) - {owner}
              case None => es == [Lose(owner)] && Abs() == Move(old(Abs()), owner, Lost)
      ensures queue == old(queue) && timedOut == old(timedOut)
    {
      hide Once, Messages, Holding, Admissions, Queue, Parse;
      ghost var s := Abs();
      var imsg := new XioMsg(0);
      var r := imsg.UnpackMsg(header);
      if r != Accepted {
        live := live[owner := live[owner].(stage := Lost)];
        StepKeeps(s, Lose(owner), depth);
        OneStep(s, Lose(owner));
        es := [Lose(owner)];
        return;
      }
      es := Settle(imsg.cookie, imsg.retval, imsg.errval, depth);
    }

    /** on_msg_error; header is the request's own, or the reply's when the direction is in. */
    method OnMsgError(header: seq<byte>, owner: Ptr, ghost depth: nat) returns (ghost es: seq<Event>)
      requires Inv(Abs(), depth) && At(Abs(), owner, Sent)
      requires Parse(NOOP, header).Some? ==> Parse(NOOP, header).value.cookie == owner
      modifies this
      ensures Inv(Abs(), depth) && Reaches(old(Abs()), es, Abs())
      ensures match Parse(NOOP, header)
              case Some(_) =>
                && es == [Complete(owner, -1, EIO), Release(owner), Delete(owner)]
                && log == old(log) + [Completion(old(live)[owner].user, -1, EIO)]
                && nr == old(nr) + 1 && live == old(live) - {owner}
              case None => es == [Lose(owner)] && Abs() == Move(old(Abs()), owner, Lost)
      ensures queue == old(queue) && timedOut == old(timedOut)
    {
      hide Once, Messages, Holding, Admissions, Queue, Parse;
      ghost var s := Abs();
      var imsg := new XioMsg(0);
      var r := imsg.UnpackMsg(header);
      if r != Accepted {
        live := live[owner := live[owner].(stage := Lost)];
        StepKeeps(s, Lose(owner), depth);
        OneStep(s, Lose(owner));
        es := [Lose(owner)];
        return;
      }
      es := Settle(imsg.cookie, -1, EIO, depth);
    }

    /** What the sending loop does to a request that xio_send_request refused. */
    method Refuse(p: Ptr, ghost depth: nat) returns (ghost es: seq<Event>)
      requires Inv(Abs(), depth) && At(Abs(), p, Failed)
      modifies this
      ensures Inv(Abs(), depth) && Reaches(old(Abs()), es, Abs())
      ensures Abs() == old(Abs()).(nr := old(nr) + 1, live := old(live) - {p},
                                   log := old(log) + [Completion(old(live)[p].user, -1, EIO)])
    {
      hide Once, Messages, Holding, Admissions;
      ghost var s := Abs();
      ReqQueueRelease(p);
      StepKeeps(s, Release(p), depth);
      OneStep(s, Release(p));
      ghost var t := Abs();
      es := CompleteAndDelete(p, -1, EIO, depth);
      ReachesThen(s, [Release(p)], t, es, Abs());
      es := [Release(p)] + es;
      assert t.live - {p} == s.live - {p};
    }

    /** The tail of a request whose credit is back. */
    method CompleteAndDelete(p: Ptr, retval: int, errval: int, ghost depth: nat) returns (ghost es: seq<Event>)
      requires Inv(Abs(), depth) && At(Abs(), p, Repaid)
      modifies this
      ensures Inv(Abs(), depth) && Reaches(old(Abs()), es, Abs())
      ensures Abs() == old(Abs()).(live := old(live) - {p},
                log := old(log) + [Completion(old(live)[p].user, retval, errval)])
    {
      hide Once, Messages, Holding, Admissions;
      ghost var s := Abs();
      CompleteRequest(p, retval, errval);
      ghost var t := Abs();
      StepKeeps(s, Complete(p, retval, errval), depth);
      OneStep(s, Complete(p, retval, errval));
      DeleteRequest(p);
      StepKeeps(t, Delete(p), depth);
      OneStep(t, Delete(p));
      ReachesThen(s, [Complete(p, retval, errval)], t, [Delete(p)], Abs());
      assert t.live - {p} == s.live - {p};
      es := [Complete(p, retval, errval)] + [Delete(p)];
    }

    /** One turn of the sending loop; ok is whether xio_send_request took the request. */
    method SendNext(ok: bool, ghost depth: nat) returns (p: Ptr, ghost es: seq<Event>)
      requires Inv(Abs(), depth) && queue != []
      modifies this
      ensures p == old(queue[0]) && p in old(live)
      ensures Inv(Abs(), depth) && Reaches(old(Abs()), es, Abs())
      ensures Abs() == Turn(old(Abs()), ok)
      ensures queue == old(queue)[1..] && timedOut == old(timedOut)
      ensures ok ==> log == old(log) && nr == old(nr) && live == old(live)[p := old(live)[p].(stage := Sent)]
      ensures !ok ==> log == old(log) + [Completion(old(live)[p].user, -1, EIO)]
                      && nr == old(nr) + 1 && live == old(live) - {p}
    {
      hide Once, Messages, Holding, Admissions;
      ghost var s := Abs();
      p := queue[0];
      assert At(s, p, Queued);
      queue := queue[1..];
      live := live[p := live[p].(stage := if ok then Sent else Failed)];
      es := [Transmit(ok)];
      StepKeeps(s, Transmit(ok), depth);
      OneStep(s, Transmit(ok));
      if !ok {
        ghost var t := Abs();
        ghost var fs := Refuse(p, depth);
        ReachesThen(s, es, t, fs, Abs());
        es := es + fs;
        assert t.live - {p} == s.live - {p};
      }
    }

    /** The inner loop of xio_run_loop_worker, r giving the results of xio_send_request. */
    method SendAll(r: seq<bool>, ghost depth: nat) returns (ghost es: seq<Event>)
      requires Inv(Abs(), depth) && |queue| <= |r|
      modifies this
      ensures Inv(Abs(), depth) && Reaches(old(Abs()), es, Abs())
      ensures Abs() == Drain(old(Abs()), r)
    {
      hide Do, Enabled, Turn, Holding, Admissions, Queue, Once, Messages;
      es := [];
      var k := 0;
      ghost var s := Abs();
      while queue != []
        invariant 0 <= k && k + |queue| <= |r|
        invariant Inv(Abs(), depth) && Reaches(s, es, Abs())
        invariant Drain(s, r) == Drain(Abs(), r[k..])
        decreases |queue|
      {
        ghost var t := Abs();
        var p; ghost var fs;
        TurnEffect(t, r[k]);
        p, fs := SendNext(r[k], depth);
        ReachesThen(s, es, t, fs, Abs());
        es := es + fs;
        assert r[k..][1..] == r[k + 1..];
        k := k + 1;
      }
    }
  }

  /** The loop empties the queue: the requests that the transport takes are sent and the others deleted. */
  lemma {:induction false} DrainSends(s: Client, r: seq<bool>)
    requires Queue(s) && |s.queue| <= |r|
    ensures Drain(s, r).queue == []
    ensures forall i | 0 <= i < |s.queue| && r[i] :: At(Drain(s, r), s.queue[i], Sent)
    ensures forall i | 0 <= i < |s.queue| && !r[i] :: s.queue[i] !in Drain(s, r).live
    ensures forall p | p !in s.queue :: Same(s, Drain(s, r), p)
    decreases |s.queue|
  {
    hide Turn, Queue;
    if s.queue != [] {
      var t, q := Turn(s, r[0]), s.queue;
      TurnEffect(s, r[0]);
      DrainSends(t, r[1..]);
      assert Same(t, Drain(s, r), q[0]);
      assert forall i | 0 < i < |q| :: q[i] == t.queue[i - 1] && r[i] == r[1..][i - 1];
      forall p | p !in q
        ensures Same(s, Drain(s, r), p)
      {
        assert Same(s, t, p) && Same(t, Drain(s, r), p);
      }
    }
  }

  /** Each caller of a refused request is told -1 and EIO once, in queue order, and its credit is back. */
  lemma {:induction false} DrainTells(s: Client, r: seq<bool>)
    requires Queue(s) && |s.queue| <= |r|
    ensures Live(s, s.queue) && Drain(s, r).log == s.log + Refused(s, s.queue, r)
    ensures Drain(s, r).nr == s.nr + |Refused(s, s.queue, r)|
    decreases |s.queue|
  {
    hide Turn, Queue, At;
    QueueLive(s);
    if s.queue != [] {
      var t, q := Turn(s, r[0]), s.queue;
      TurnEffect(s, r[0]);
      assert forall i | 0 < i < |q| :: Same(s, t, q[i]);
      DrainTells(t, r[1..]);
      RefusedSame(s, t, q[1..], r[1..]);
    }
  }

  lemma QueueLive(s: Client)
    requires Queue(s)
    ensures Live(s, s.queue)
  {
  }

  ghost predicate Same(s: Client, t: Client, p: Ptr) {
    (p in s.live <==> p in t.live) && (p in s.live ==> t.live[p] == s.live[p])
  }

  lemma TurnQueue(s: Client, ok: bool)
    requires Queue(s) && s.queue != []
    ensures Queue(Turn(s, ok))
  {
    assert At(s, s.queue[0], Queued);
    QueuePop(s, ok);
    QueueSame(Do(s, Transmit(ok)), Turn(s, ok));
  }

  lemma TurnEffect(s: Client, ok: bool)
    requires Queue(s) && s.queue != []
    ensures Queue(Turn(s, ok)) && Turn(s, ok).queue == s.queue[1..]
    ensures s.queue[0] in s.live && s.queue[0] !in s.queue[1..]
    ensures forall p | p != s.queue[0] :: Same(s, Turn(s, ok), p)
    ensures ok ==> At(Turn(s, ok), s.queue[0], Sent) && Turn(s, ok).log == s.log && Turn(s, ok).nr == s.nr
    ensures !ok ==> s.queue[0] !in Turn(s, ok).live && Turn(s, ok).nr == s.nr + 1
                    && Turn(s, ok).log == s.log + [Completion(s.live[s.queue[0]].user, -1, EIO)]
  {
    assert At(s, s.queue[0], Queued);
    TurnQueue(s, ok);
  }

  lemma {:induction false} RefusedSame(s: Client, t: Client, q: seq<Ptr>, r: seq<bool>)
    requires |q| <= |r| && Live(s, q)
    requires forall i | 0 <= i < |q| :: q[i] in t.live && t.live[q[i]] == s.live[q[i]]
    ensures Refused(s, q, r) == Refused(t, q, r)
  {
    if q != [] {
      RefusedSame(s, t, q[1..], r[1..]);
    }
  }

  lemma InvKept(s: Client, e: Event)
    requires Queue(s) && Enabled(s, e)
    ensures forall depth: nat | Inv(s, depth) :: Inv(Do(s, e), depth)
  {
    hide Inv, Queue, Enabled, Do;
    forall depth: nat | Inv(s, depth)
      ensures Inv(Do(s, e), depth)
    {
      StepKeeps(s, e, depth);
    }
  }

  lemma TellsOne(s: Client, p: Ptr, retval: int, errval: int)
    requires Queue(s) && Enabled(s, Complete(p, retval, errval))
    ensures var t := Do(s, Complete(p, retval, errval));
            && (Once(s) ==> Once(t) && !Told(s, s.live[p].user))
            && forall u :: Told(t, u) <==> Told(s, u) || u == s.live[p].user
  {
    hide Queue, Once, Told;
    var e := Complete(p, retval, errval);
    ToldMore(s, Do(s, e));
    if Once(s) {
      OnceKeeps(s, e);
      NotTold(s, p);
    }
    LastTold(Do(s, e));
  }

  lemma NotTold(s: Client, p: Ptr)
    requires Once(s) && (At(s, p, Sent) || At(s, p, Repaid))
    ensures !Told(s, s.live[p].user)
  {
  }

  lemma LastTold(s: Client)
    requires s.log != []
    ensures Told(s, s.log[|s.log| - 1].user)
  {
  }

  lemma OneStep(s: Client, e: Event)
    requires Queue(s) && Enabled(s, e)
    ensures Reaches(s, [e], Do(s, e))
  {
    hide Queue, Enabled, Do;
    assert [e][1..] == [];
    assert Reaches(Do(s, e), [], Do(s, e));
  }
}
