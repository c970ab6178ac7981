/**
 * NetworkXioClient on values: requests are admitted against the nr_req_queue credits, queued,
 * sent and completed. Each step is one critical section or one callback of the source, so a
 * sequence of steps is an interleaving of any number of callers with the transport thread.
 */
module Clients {
  import opened Wire

  /** The address of an xio_msg_s, which is also the cookie of its message. */
  type Ptr = nat

  /**
   * How far a request has come. Waiting: in req_queue_wait_until. Admitted: past it. Queued: in
   * inflight_reqs. Sent: with the transport. Failed: xio_send_request refused it. Answered: its
   * caller was told. Repaid: its credit is back. Finished: both. Lost: an answer came that could
   * not be unpacked.
   */
  datatype Stage = Waiting | Admitted | Queued | Sent | Failed | Answered | Repaid | Finished | Lost

  datatype Xmsg = Xmsg(user: nat, msg: Msg, stage: Stage)

  /** One call of ovs_xio_aio_complete_request. */
  datatype Completion = Completion(user: nat, retval: int, errval: int)

  /** `live` holds the requests not deleted; timedOut counts admissions given up after 60 s. */
  datatype Client = Client(nr: int, live: map<Ptr, Xmsg>, queue: seq<Ptr>, timedOut: nat, log: seq<Completion>)

  function Fresh(depth: nat): Client {
    Client(depth, map[], [], 0, [])
  }

  function Move(s: Client, p: Ptr, stage: Stage): Client
    requires p in s.live
  {
    s.(live := s.live[p := s.live[p].(stage := stage)])
  }

  datatype Event =
    | Enter(p: Ptr, user: nat, msg: Msg)
    | Wake(p: Ptr)
    | Expire(p: Ptr)
    | Push(p: Ptr)
    | Transmit(ok: bool)
    | Complete(p: Ptr, retval: int, errval: int)
    | Release(p: Ptr)
    | Delete(p: Ptr)
    | Lose(p: Ptr)

  predicate At(s: Client, p: Ptr, stage: Stage) {
    p in s.live && s.live[p].stage == stage
  }

  /** When the source can take the step: the guards of its waits and the order of its statements. */
  ghost predicate Enabled(s: Client, e: Event) {
    match e
    case Enter(p, user, msg) =>
      && p !in s.live
      && (forall q | q in s.live :: s.live[q].user != user)
      && (forall k | 0 <= k < |s.log| :: s.log[k].user != user)
      && Sendable(msg) && msg.cookie == p
    case Wake(p) => At(s, p, Waiting) && s.nr >= 0
    case Expire(p) => At(s, p, Waiting) && s.nr < 0
    case Push(p) => At(s, p, Admitted)
    case Transmit(ok) => s.queue != []
    case Complete(p, _, _) => At(s, p, Sent) || At(s, p, Repaid)
    case Release(p) => At(s, p, Answered) || At(s, p, Failed)
    case Delete(p) => At(s, p, Finished)
    case Lose(p) => At(s, p, Sent)
  }

  function Remove(s: Client, p: Ptr): Client {
    s.(live := s.live - {p})
  }

  /** The state after the step. */
  ghost function Do(s: Client, e: Event): Client
    requires Enabled(s, e) && Queue(s)
  {
    match e
    case Enter(p, user, msg) =>
      var stage := if s.nr - 1 >= 0 then Admitted else Waiting;
      s.(nr := s.nr - 1, live := s.live[p := Xmsg(user, msg, stage)])
    case Wake(p) => Move(s, p, Admitted)
    case Expire(p) => Remove(s, p).(timedOut := s.timedOut + 1)
    case Push(p) => Move(s, p, Queued).(queue := s.queue + [p])
    case Transmit(ok) =>
      Move(s, s.queue[0], if ok then Sent else Failed).(queue := s.queue[1..])
    case Complete(p, retval, errval) =>
      var next := if s.live[p].stage == Sent then Answered else Finished;
      Move(s, p, next).(log := s.log + [Completion(s.live[p].user, retval, errval)])
    case Release(p) =>
      Move(s, p, if s.live[p].stage == Answered then Finished else Repaid).(nr := s.nr + 1)
    case Delete(p) => Remove(s, p)
    case Lose(p) => Move(s, p, Lost)
  }

  // ---- the invariant ----

  /** The requests whose credit is not back. */
  ghost function Holding(s: Client): set<Ptr> {
    set p | p in s.live && !s.live[p].stage.Repaid? && !s.live[p].stage.Finished?
  }

  ghost function Waiters(s: Client): set<Ptr> {
    set p | p in s.live && s.live[p].stage.Waiting?
  }

  /** Admitted and not released. */
  ghost function Admissions(s: Client): set<Ptr> {
    Holding(s) - Waiters(s)
  }

  ghost function Losses(s: Client): set<Ptr> {
    set p | p in s.live && s.live[p].stage.Lost?
  }

  /** inflight_reqs holds each queued request once. */
  ghost predicate Queue(s: Client) {
    && (forall i | 0 <= i < |s.queue| :: At(s, s.queue[i], Queued))
    && (forall i, j | 0 <= i < j < |s.queue| :: s.queue[i] != s.queue[j])
    && (forall p | p in s.live && s.live[p].stage.Queued? :: p in s.queue)
  }

  ghost predicate Told(s: Client, user: nat) {
    exists k :: 0 <= k < |s.log| && s.log[k].user == user
  }

  /** No caller is told twice, and the live requests that were answered are those in the log. */
  ghost predicate Once(s: Client) {
    && (forall i, j | 0 <= i < j < |s.log| :: s.log[i].user != s.log[j].user)
    && (forall p, q | p in s.live && q in s.live && p != q :: s.live[p].user != s.live[q].user)
    && (forall p | p in s.live :: Told(s, s.live[p].user) <==> s.live[p].stage.Answered? || s.live[p].stage.Finished?)
  }

  ghost predicate Messages(s: Client) {
    forall p | p in s.live :: Sendable(s.live[p].msg) && s.live[p].msg.cookie == p
  }

  ghost predicate Inv(s: Client, depth: nat) {
    && s.nr + |Holding(s)| + s.timedOut == depth
    && |Admissions(s)| <= depth
    && Queue(s) && Once(s) && Messages(s)
  }

  // ---- preservation ----

  lemma HoldingMoves(s: Client, e: Event)
    requires Queue(s) && Enabled(s, e)
    ensures e.Enter? ==> e.p !in Holding(s) && Holding(Do(s, e)) == Holding(s) + {e.p}
    ensures e.Expire? || e.Release? ==> e.p in Holding(s) && Holding(Do(s, e)) == Holding(s) - {e.p}
    ensures !e.Enter? && !e.Expire? && !e.Release? ==> Holding(Do(s, e)) == Holding(s)
  {
    if e.Transmit? {
      assert At(s, s.queue[0], Queued);
    }
  }

  lemma CreditKeeps(s: Client, e: Event, depth: nat)
    requires Inv(s, depth) && Enabled(s, e)
    ensures Do(s, e).nr + |Holding(Do(s, e))| + Do(s, e).timedOut == depth
  {
    hide Once, Messages, Admissions, Told, Holding, Queue;
    HoldingMoves(s, e);
  }

  lemma Fewer(a: set<Ptr>, b: set<Ptr>)
    requires a <= b
    ensures |a| <= |b|
  {
    assert b == a + (b - a);
  }

  /** Only Enter and Wake admit, and only while the counter is not negative. */
  lemma AdmissionsShrink(s: Client, e: Event)
    requires Queue(s) && Enabled(s, e) && !e.Wake? && !(e.Enter? && s.nr - 1 >= 0)
    ensures Admissions(Do(s, e)) <= Admissions(s)
  {
    if e.Transmit? {
      assert At(s, s.queue[0], Queued);
    }
  }

  lemma AdmissionsKeep(s: Client, e: Event, depth: nat)
    requires Inv(s, depth) && Enabled(s, e)
    ensures |Admissions(Do(s, e))| <= depth
    ensures |Admissions(Do(s, e))| > |Admissions(s)| ==> Do(s, e).nr >= 0 && (e.Enter? || e.Wake?)
  {
    hide Once, Messages, Told, Holding, Waiters, Queue;
    var t := Do(s, e);
    CreditKeeps(s, e, depth);
    if t.nr >= 0 {
      Fewer(Admissions(t), Holding(t));
    }
    if !(e.Enter? && s.nr - 1 >= 0) && !e.Wake? {
      AdmissionsShrink(s, e);
      Fewer(Admissions(t), Admissions(s));
    }
  }

  lemma QueuePush(s: Client, p: Ptr)
    requires Queue(s) && At(s, p, Admitted)
    ensures Queue(Do(s, Push(p)))
  {
    var t := Do(s, Push(p));
    assert t.queue[|s.queue|] == p;
    assert forall i | 0 <= i < |s.queue| :: t.queue[i] == s.queue[i] && At(s, s.queue[i], Queued);
  }

  lemma QueuePop(s: Client, ok: bool)
    requires Queue(s) && s.queue != []
    ensures Queue(Do(s, Transmit(ok)))
  {
    var t, q := Do(s, Transmit(ok)), s.queue;
    assert At(s, q[0], Queued);
    forall p | p in t.live && t.live[p].stage.Queued?
      ensures p in t.queue
    {
      var i :| 0 <= i < |q| && q[i] == p;
      assert t.queue[i - 1] == p;
    }
  }

  /** The queue and the queued requests stay. */
  lemma QueueSame(s: Client, t: Client)
    requires Queue(s) && t.queue == s.queue && forall p :: At(t, p, Queued) <==> At(s, p, Queued)
    ensures Queue(t)
  {
    forall p | p in t.live && t.live[p].stage.Queued?
      ensures p in t.queue
    {
      assert At(s, p, Queued);
    }
  }

  lemma QueueKeeps(s: Client, e: Event)
    requires Queue(s) && Enabled(s, e)
    ensures Queue(Do(s, e))
  {
    hide Queue;
    match e
    case Push(p) => QueuePush(s, p);
    case Transmit(ok) => QueuePop(s, ok);
    case _ => QueueSame(s, Do(s, e));
  }

  lemma OnceKeeps(s: Client, e: Event)
    requires Queue(s) && Once(s) && Enabled(s, e)
    ensures Once(Do(s, e))
  {
    var t := Do(s, e);
    if e.Transmit? {
      assert At(s, s.queue[0], Queued);
    }
    forall p | p in t.live
      ensures Told(t, t.live[p].user) <==> t.live[p].stage.Answered? || t.live[p].stage.Finished?
    {
      if e.Complete? {
        ToldMore(s, t);
        if p == e.p {
          assert t.log[|s.log|].user == t.live[p].user;
        }
      } else {
        assert t.log == s.log;
      }
    }
  }

  lemma ToldMore(s: Client, t: Client)
    requires |t.log| == |s.log| + 1 && t.log[..|s.log|] == s.log
    ensures forall u | Told(t, u) :: Told(s, u) || u == t.log[|s.log|].user
    ensures forall u | Told(s, u) :: Told(t, u)
  {
    forall u | Told(t, u)
      ensures Told(s, u) || u == t.log[|s.log|].user
    {
      var k :| 0 <= k < |t.log| && t.log[k].user == u;
      assert k < |s.log| ==> s.log[k].user == u;
    }
    forall u | Told(s, u)
      ensures Told(t, u)
    {
      var k :| 0 <= k < |s.log| && s.log[k].user == u;
      assert t.log[k] == s.log[k];
    }
  }

  lemma MessagesKeep(s: Client, e: Event)
    requires Queue(s) && Messages(s) && Enabled(s, e)
    ensures Messages(Do(s, e))
  {
    hide Sendable;
    if e.Transmit? {
      assert At(s, s.queue[0], Queued);
    }
  }

  lemma StepKeeps(s: Client, e: Event, depth: nat)
    requires Inv(s, depth) && Enabled(s, e)
    ensures Inv(Do(s, e), depth)
  {
    hide Do, Enabled, Holding, Admissions, Queue, Once, Messages;
    CreditKeeps(s, e, depth);
    AdmissionsKeep(s, e, depth);
    QueueKeeps(s, e);
    OnceKeeps(s, e);
    MessagesKeep(s, e);
  }

  // ---- runs ----

  /** The steps es lead from s to t; with a broken queue a step may lead anywhere. */
  ghost predicate Reaches(s: Client, es: seq<Event>, t: Client)
    decreases es
  {
    if es == [] then s == t
    else Enabled(s, es[0]) && (Queue(s) ==> Reaches(Do(s, es[0]), es[1..], t))
  }

  /**
   * Credit accounting over every run: the counter, the credits held by admitted or waiting
   * requests and the timed-out admissions add up to the initial depth, and admitted requests
   * never exceed it, even while the counter is negative.
   */
  lemma {:induction false} RunKeeps(s: Client, es: seq<Event>, t: Client, depth: nat)
    requires Inv(s, depth) && Reaches(s, es, t)
    ensures Inv(t, depth)
    decreases es
  {
    hide Enabled, Do, Queue, Once, Messages, Holding, Admissions;
    if es != [] {
      StepKeeps(s, es[0], depth);
      RunKeeps(Do(s, es[0]), es[1..], t, depth);
    }
  }

  lemma FreshInv(depth: nat)
    ensures Inv(Fresh(depth), depth)
  {
    assert Holding(Fresh(depth)) == {};
    assert Admissions(Fresh(depth)) == {};
  }
}
