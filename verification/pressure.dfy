/** Runs that drive the executor to its bounds. */
module Pressure {
  import opened Options
  import opened Submission
  import opened Executors

  /** No caller in submitTask, and every job from j0 on is new. */
  ghost predicate Quiet(s: State, j0: nat) {
    s.callers == map[] && forall j | j in s.used :: j < j0
  }

  function Ids(j0: nat, n: nat): (ids: seq<Job>)
    ensures |ids| == n
  {
    seq(n, i requires 0 <= i < n => j0 + i)
  }

  /** No caller pauses on the way. */
  ghost predicate Restless(es: seq<Event>) {
    forall i | 0 <= i < |es| :: !es[i].Sleep?
  }

  // ---- callers ----

  /** One caller submits n jobs, one after the other. */
  lemma {:induction false} SubmitMany(s: State, j0: nat, n: nat, max: nat, T: nat) returns (es: seq<Event>, t: State)
    requires Quiet(s, j0) && T > 0 && s.size + n <= max + 1
    ensures Reaches(s, es, t, max, T) && Quiet(t, j0 + n) && Restless(es)
    ensures t == s.(queue := s.queue + Ids(j0, n), size := s.size + n, used := t.used)
    decreases n
  {
    hide Reaches;
    Stay(s, max, T);
    es, t := [], s;
    if n > 0 {
      es, t := SubmitMany(s, j0, n - 1, max, T);
      var j := j0 + n - 1;
      var a := Do(t, Check(0, j), max, T);
      Extend(s, es, t, Check(0, j), max, T);
      var b := Do(a, Increment(0), max, T);
      Extend(s, es + [Check(0, j)], a, Increment(0), max, T);
      var c := Do(b, Push(0), max, T);
      Extend(s, es + [Check(0, j)] + [Increment(0)], b, Push(0), max, T);
      assert c.callers == map[];
      assert Ids(j0, n) == Ids(j0, n - 1) + [j];
      es, t := es + [Check(0, j)] + [Increment(0)] + [Push(0)], c;
    }
  }

  /** Callers 0 to k - 1 have arrived, all at the same stage. */
  ghost predicate Crowd(t: State, k: nat) {
    forall i: Tid :: i in t.callers <==> i < k
  }

  /** k callers pass the check while the counter stands still. */
  lemma {:induction false} CheckMany(s: State, j0: nat, k: nat, max: nat, T: nat) returns (es: seq<Event>, t: State)
    requires Quiet(s, j0) && k <= T && s.size <= max
    ensures Reaches(s, es, t, max, T) && t == s.(callers := t.callers, used := t.used) && Restless(es)
    ensures Crowd(t, k) && (forall i | i in t.callers :: t.callers[i].Checked?) && forall j | j in t.used :: j < j0 + k
    decreases k
  {
    hide Reaches;
    Stay(s, max, T);
    es, t := [], s;
    if k > 0 {
      es, t := CheckMany(s, j0, k - 1, max, T);
      var e := Check(k - 1, j0 + k - 1);
      Extend(s, es, t, e, max, T);
      es, t := es + [e], Do(t, e, max, T);
    }
  }

  /** k callers find the queue full and pause. */
  lemma {:induction false} SleepMany(s: State, j0: nat, k: nat, max: nat, T: nat) returns (es: seq<Event>, t: State)
    requires Quiet(s, j0) && k <= T && s.size > max
    ensures Reaches(s, es, t, max, T) && t == s.(callers := t.callers, used := t.used)
    ensures Crowd(t, k) && (forall i | i in t.callers :: t.callers[i].Asleep?) && forall j | j in t.used :: j < j0 + k
    decreases k
  {
    hide Reaches;
    Stay(s, max, T);
    es, t := [], s;
    if k > 0 {
      es, t := SleepMany(s, j0, k - 1, max, T);
      var e := Sleep(k - 1, j0 + k - 1);
      Extend(s, es, t, e, max, T);
      es, t := es + [e], Do(t, e, max, T);
    }
  }

  /** The first k of the crowd increment. */
  lemma {:induction false} IncrementMany(s: State, k: nat, max: nat, T: nat) returns (es: seq<Event>, t: State)
    requires Crowd(s, T) && k <= T && (forall i | i in s.callers :: s.callers[i].Checked? || s.callers[i].Woken?)
    ensures Reaches(s, es, t, max, T) && t == s.(callers := t.callers, size := s.size + k) && Crowd(t, T)
    ensures Restless(es)
    ensures forall i | i in t.callers :: if i < k then t.callers[i].Counted? else t.callers[i] == s.callers[i]
    decreases k
  {
    hide Reaches;
    Stay(s, max, T);
    es, t := [], s;
    if k > 0 {
      es, t := IncrementMany(s, k - 1, max, T);
      var e := Increment(k - 1);
      Extend(s, es, t, e, max, T);
      es, t := es + [e], Do(t, e, max, T);
    }
  }

  /** The crowd pushes and returns, the last caller first. */
  lemma {:induction false} PushMany(s: State, k: nat, max: nat, T: nat) returns (es: seq<Event>, t: State)
    requires Crowd(s, k) && (forall i | i in s.callers :: s.callers[i].Counted?)
    ensures Reaches(s, es, t, max, T) && t == s.(callers := map[], queue := t.queue)
    decreases k
  {
    if k == 0 {
      assert s.callers == map[];
      es, t := [], s;
    } else {
      var u := Do(s, Push(k - 1), max, T);
      var rest;
      rest, t := PushMany(u, k - 1, max, T);
      es := [Push(k - 1)] + rest;
      assert es[1..] == rest;
    }
  }

  /** Everyone in a crowd that passed the check or was woken increments, pushes and returns. */
  lemma AllIn(s: State, max: nat, T: nat) returns (es: seq<Event>, t: State)
    requires Crowd(s, T) && (forall i | i in s.callers :: s.callers[i].Checked? || s.callers[i].Woken?)
    ensures Reaches(s, es, t, max, T) && t == s.(callers := map[], size := s.size + T, queue := t.queue)
  {
    hide Reaches;
    var a, u := IncrementMany(s, T, max, T);
    var b;
    b, t := PushMany(u, T, max, T);
    Joins(s, a, u, b, t, max, T);
    es := a + b;
  }

  // ---- the consumer ----

  lemma BeginCollecting(s: State, max: nat, T: nat) returns (es: seq<Event>)
    requires s.consumer == REST && s.sem > 0
    ensures Reaches(s, es, s.(consumer := REST.(phase := Collecting)), max, T)
  {
    hide Reaches;
    Stay(s, max, T);
    var a := Do(s, Begin, max, T);
    Extend(s, [], s, Begin, max, T);
    Extend(s, [] + [Begin], a, Settle, max, T);
    es := [] + [Begin] + [Settle];
  }

  lemma CollectOne(s: State, max: nat, T: nat) returns (es: seq<Event>)
    requires s.consumer.phase == Collecting && Ready(s.consumer) && s.queue != [] && s.avail > 0 && s.sem > 0
    ensures Reaches(s, es, Collected(s, 1), max, T)
  {
    hide Reaches;
    Stay(s, max, T);
    var a := Do(s, Pop, max, T);
    Extend(s, [], s, Pop, max, T);
    var b := Do(a, TakeSlot, max, T);
    Extend(s, [] + [Pop], a, TakeSlot, max, T);
    var c := Do(b, Settle, max, T);
    Extend(s, [] + [Pop] + [TakeSlot], b, Settle, max, T);
    Extend(s, [] + [Pop] + [TakeSlot] + [Settle], c, Decrement, max, T);
    es := [] + [Pop] + [TakeSlot] + [Settle] + [Decrement];
    assert s.queue[..1] == [s.queue[0]];
  }

  /** n jobs have been collected. */
  ghost function Collected(s: State, n: nat): State
    requires n <= |s.queue|
  {
    s.(queue := s.queue[n..], avail := s.avail - n, sem := s.sem - n, size := s.size - n,
       consumer := s.consumer.(offered := s.consumer.offered + s.queue[..n]))
  }

  lemma {:induction false} CollectMany(s: State, n: nat, max: nat, T: nat) returns (es: seq<Event>)
    requires s.consumer.phase == Collecting && Ready(s.consumer) && n <= |s.queue| && n <= s.avail && n <= s.sem
    ensures Reaches(s, es, Collected(s, n), max, T)
    decreases n
  {
    hide Reaches;
    if n == 0 {
      es := [];
      assert s.queue[..0] == [] && s.queue[0..] == s.queue && s.consumer.offered + [] == s.consumer.offered;
      Stay(s, max, T);
    } else {
      var a := CollectOne(s, max, T);
      var u := Collected(s, 1);
      var b := CollectMany(u, n - 1, max, T);
      Joins(s, a, u, b, Collected(u, n - 1), max, T);
      es := a + b;
      assert s.queue[1..][n - 1..] == s.queue[n..] && s.queue[..1] + s.queue[1..][..n - 1] == s.queue[..n];
      assert (s.consumer.offered + s.queue[..1]) + s.queue[1..][..n - 1] == s.consumer.offered + s.queue[..n];
    }
  }

  /** From the end of the retry loop back to rest, with nobody in submitTask. */
  lemma WindUp(s: State, max: nat, T: nat) returns (es: seq<Event>, t: State)
    requires s.consumer.phase == Submitting && s.consumer.pend == 0 && s.consumer.offered != []
    requires s.consumer.tries == 0 && s.sem >= 0 && s.callers == map[]
    ensures Reaches(s, es, t, max, T)
    ensures var n := |s.consumer.offered|;
            t == s.(consumer := REST, avail := s.avail + n, sem := s.sem + n, log := t.log)
  {
    hide Reaches, Posts;
    Stay(s, max, T);
    var a := Do(s, Finish, max, T);
    Extend(s, [], s, Finish, max, T);
    var b := Do(a, Settle, max, T);
    Extend(s, [] + [Finish], a, Settle, max, T);
    t := Do(b, Look, max, T);
    es := [] + [Finish] + [Settle] + [Look];
    Extend(s, [] + [Finish] + [Settle], b, Look, max, T);
    if t.consumer.phase == Waking {
      Extend(s, es, t, Notify, max, T);
      es, t := es + [Notify], Do(t, Notify, max, T);
      assert t.callers == map[];
    }
  }

  /** A batch of one job that the kernel takes, up to the decision to wake the paused. */
  lemma OneJobBatch(s: State, max: nat, T: nat) returns (es: seq<Event>, t: State)
    requires s.consumer == REST && |s.queue| == 1 && s.size == 1 && s.avail > 0 && s.sem > 0 && max > 0
    ensures Reaches(s, es, t, max, T)
    ensures t.consumer.phase == Waking && t.size == 0 && t.callers == s.callers && t.used == s.used
  {
    hide Reaches, Posts;
    var a := BeginCollecting(s, max, T);
    var u := s.(consumer := REST.(phase := Collecting));
    var b := CollectOne(u, max, T);
    var v := Collected(u, 1);
    Joins(s, a, u, b, v, max, T);
    var c, w := GiveAll(v, max, T);
    Joins(s, a + b, v, c, w, max, T);
    es, t := a + b + c, w;
  }

  lemma GiveAll(s: State, max: nat, T: nat) returns (es: seq<Event>, t: State)
    requires s.consumer.phase == Collecting && Ready(s.consumer) && |s.consumer.offered| == 1 && s.queue == []
    requires s.size < max
    ensures Reaches(s, es, t, max, T)
    ensures t.consumer.phase == Waking && t.size == s.size && t.callers == s.callers && t.used == s.used
  {
    hide Reaches, Posts;
    Stay(s, max, T);
    var a := Do(s, Offer, max, T);
    Extend(s, [], s, Offer, max, T);
    var b := Do(a, Round(1), max, T);
    Extend(s, [] + [Offer], a, Round(1), max, T);
    var c := Do(b, Finish, max, T);
    Extend(s, [] + [Offer] + [Round(1)], b, Finish, max, T);
    t := Do(c, Look, max, T);
    Extend(s, [] + [Offer] + [Round(1)] + [Finish], c, Look, max, T);
    es := [] + [Offer] + [Round(1)] + [Finish] + [Look];
  }

  // ---- the bounds ----

  /**
   * T callers that pass the check together drive the counter to maxRequestQueueSize_ + T: without
   * pausing callers the bound is tight.
   */
  lemma BoundAttained(depth: nat, max: nat, T: nat) returns (es: seq<Event>, t: State)
    requires T > 0
    ensures Reaches(Start(depth), es, t, max, T) && t.size == max + T && Restless(es)
  {
    hide Reaches;
    var s := Start(depth);
    var a, u := SubmitMany(s, 0, max, max, T);
    var b, v := CheckMany(u, max, T, max, T);
    Joins(s, a, u, b, v, max, T);
    var c;
    c, t := IncrementMany(v, T, max, T);
    Joins(s, a + b, v, c, t, max, T);
    es := a + b + c;
  }

  /**
   * With pausing callers the bound of twice as many is tight: the consumer sees room and is about
   * to wake the paused, T callers fill the queue, pause, and are all woken.
   */
  lemma PausedBoundAttained(depth: nat, max: nat, T: nat) returns (es: seq<Event>, t: State)
    requires T > 0 && depth > 0 && max > 0
    ensures Reaches(Start(depth), es, t, max, T) && t.size == max + 2 * T
  {
    hide Reaches;
    var s := Start(depth);
    var a, s1 := SubmitMany(s, 0, 1, max, T);
    var b, s2 := OneJobBatch(s1, max, T);
    Joins(s, a, s1, b, s2, max, T);
    var c, s3 := FillUp(s2, 1, max, T);
    Joins(s, a + b, s2, c, s3, max, T);
    var d;
    d, t := WakeAll(s3, 1 + max + T, max, T);
    Joins(s, a + b + c, s3, d, t, max, T);
    es := a + b + c + d;
  }

  /** Up to the limit one by one, then T at once. */
  lemma FillUp(s: State, j0: nat, max: nat, T: nat) returns (es: seq<Event>, t: State)
    requires Quiet(s, j0) && T > 0 && s.size == 0
    ensures Reaches(s, es, t, max, T) && Quiet(t, j0 + max + T) && t.size == max + T && t.consumer == s.consumer
  {
    hide Reaches;
    var a, u := SubmitMany(s, j0, max, max, T);
    var b, v := CheckMany(u, j0 + max, T, max, T);
    Joins(s, a, u, b, v, max, T);
    var c;
    c, t := AllIn(v, max, T);
    Joins(s, a + b, v, c, t, max, T);
    es := a + b + c;
  }

  lemma WakeAll(s: State, j0: nat, max: nat, T: nat) returns (es: seq<Event>, t: State)
    requires Quiet(s, j0) && s.size > max && s.consumer.phase == Waking
    ensures Reaches(s, es, t, max, T) && t.size == s.size + T
  {
    hide Reaches;
    var a, u := SleepMany(s, j0, T, max, T);
    Extend(s, a, u, Notify, max, T);
    var v := Do(u, Notify, max, T);
    var b;
    b, t := AllIn(v, max, T);
    Joins(s, a + [Notify], v, b, t, max, T);
    es := a + [Notify] + b;
  }

  /** io_submit takes one job and then none. */
  const ONE_TAKEN := [1, -EAGAIN, -EAGAIN, -EAGAIN, -EAGAIN]

  lemma OneTaken(n: nat)
    requires n >= 2
    ensures Retry(ONE_TAKEN, n) == Attempt(1, 1, None)
  {
    assert ONE_TAKEN[1..] == [-EAGAIN, -EAGAIN, -EAGAIN, -EAGAIN];
    NothingMore([-EAGAIN, -EAGAIN, -EAGAIN, -EAGAIN], n - 1);
  }

  lemma {:induction false} NothingMore(rs: seq<int>, n: nat)
    requires forall i | 0 <= i < |rs| :: Again(rs[i])
    ensures Retry(rs, n) == Attempt(0, 0, None)
    decreases rs
  {
    if rs != [] {
      NothingMore(rs[1..], n);
    }
  }

  /** A whole batch of depth jobs of which the kernel takes one, and completes it: a slot too many. */
  lemma PartialBatch(s: State, depth: nat, max: nat, T: nat) returns (es: seq<Event>, t: State)
    requires depth >= 2 && s == Start(depth).(queue := Ids(0, depth), size := depth, used := s.used)
    ensures Reaches(s, es, t, max, T)
    ensures t.callers == map[] && t.queue == [] && t.size == 0 && t.consumer == REST && t.used == s.used
    ensures t.avail == t.sem == depth + 1 && t.drift == 1
  {
    hide Reaches, Posts;
    var a := BeginCollecting(s, max, T);
    var u := s.(consumer := REST.(phase := Collecting));
    var b := CollectMany(u, depth, max, T);
    var v := Collected(u, depth);
    Joins(s, a, u, b, v, max, T);
    assert v.queue == [] && v.consumer.offered == Ids(0, depth);
    var c, w := TakeOne(v, depth, max, T);
    Joins(s, a + b, v, c, w, max, T);
    es, t := a + b + c, w;
  }

  lemma TakeOne(s: State, depth: nat, max: nat, T: nat) returns (es: seq<Event>, t: State)
    requires depth >= 2 && s.callers == map[] && s.queue == [] && s.size == 0 && s.avail == 0 && s.sem == 0
    requires s.consumer == REST.(phase := Collecting, offered := Ids(0, depth)) && s.kernel == {} && s.callback == Idle
    requires s.drift == 0
    ensures Reaches(s, es, t, max, T)
    ensures t.callers == map[] && t.queue == [] && t.size == 0 && t.consumer == REST && t.used == s.used
    ensures t.avail == t.sem == depth + 1 && t.drift == 1
  {
    hide Reaches, Posts;
    var u := Do(s, Offer, max, T);
    Stay(s, max, T);
    Extend(s, [], s, Offer, max, T);
    OneTaken(depth);
    var a, v := RetryIsRun(u, ONE_TAKEN, max, T);
    Joins(s, [] + [Offer], u, a, v, max, T);
    var b, w := WindUp(v, max, T);
    Joins(s, [] + [Offer] + a, v, b, w, max, T);
    assert v.kernel == {0} by { assert Ids(0, depth)[..1] == [0]; }
    var c;
    c, t := OneDone(w, 0, max, T);
    Joins(s, [] + [Offer] + a + b, w, c, t, max, T);
    es := [] + [Offer] + a + b + c;
  }

  lemma OneDone(s: State, j: Job, max: nat, T: nat) returns (es: seq<Event>, t: State)
    requires s.callback == Idle && j in s.kernel
    ensures Reaches(s, es, t, max, T)
    ensures t == s.(kernel := s.kernel - {j}, log := t.log, avail := s.avail + 1, sem := s.sem + 1)
  {
    var a := Do(s, Complete(j, 0), max, T);
    Extend(s, [], s, Complete(j, 0), max, T);
    var b := Do(a, GiveSlot, max, T);
    Extend(s, [] + [Complete(j, 0)], a, GiveSlot, max, T);
    t := Do(b, GiveSem, max, T);
    Extend(s, [] + [Complete(j, 0)] + [GiveSlot], b, GiveSem, max, T);
    es := [] + [Complete(j, 0)] + [GiveSlot] + [GiveSem];
  }

  /**
   * One partial submit is enough to collect a batch of one job more than the arrays of
   * ProcessRequestQueue hold, for every queue depth from 2 on.
   */
  lemma BatchOverruns(depth: nat, max: nat, T: nat) returns (es: seq<Event>, t: State)
    requires depth >= 2 && max >= depth && T > 0
    ensures Reaches(Start(depth), es, t, max, T) && t.drift == 1 && |t.consumer.offered| == depth + 1
  {
    hide Reaches;
    var s := Start(depth);
    var a, u := SubmitMany(s, 0, depth, max, T);
    var b, v := PartialBatch(u, depth, max, T);
    Joins(s, a, u, b, v, max, T);
    var c, w := SubmitMany(v, depth, depth + 1, max, T);
    Joins(s, a + b, v, c, w, max, T);
    var d := BeginCollecting(w, max, T);
    var x := w.(consumer := REST.(phase := Collecting));
    Joins(s, a + b + c, w, d, x, max, T);
    var e := CollectMany(x, depth + 1, max, T);
    t := Collected(x, depth + 1);
    Joins(s, a + b + c + d, x, e, t, max, T);
    es := a + b + c + d + e;
  }
}
