/**
 * IOExecutor under all interleavings: submitTask callers, the thread in ProcessRequestQueue and
 * the completion thread. A step is one access to a shared counter, queue or semaphore; only Round
 * and Finish join an io_submit, the post-processing it leads to and the update of numAvailable_.
 */
module Executors {
  import opened Options
  import opened Submission

  type Tid = nat

  /**
   * A caller of submitTask: past the size check, past the increment, paused because the queue was
   * full, or woken from that pause.
   */
  datatype Caller = Checked(job: Job) | Counted(job: Job) | Asleep(job: Job) | Woken(job: Job)

  /** Announcing and Waking: after a batch, about to look at requestQueueSize_ and to wake the paused. */
  datatype Phase = Resting | Collecting | Submitting | Announcing | Waking

  /**
   * The thread in ProcessRequestQueue. `offered` are the collected jobs not with the kernel;
   * slotless and unsized: the last job popped has not been taken off numAvailable_ or
   * requestQueueSize_; pend: what it still has to add to the semaphore.
   */
  datatype Consumer = Consumer(phase: Phase, offered: seq<Job>, tries: nat, slotless: bool, unsized: bool, pend: int)

  /** The completion thread: it owes a slot for a post-processed job, then the semaphore. */
  datatype Callback = Idle | OwesSlot | OwesSem

  /**
   * drift: slots given back for jobs that the kernel still held or that were given back twice.
   * aborted: jobs post-processed in the fatal branch. used: jobs ever submitted.
   */
  datatype State = State(callers: map<Tid, Caller>, queue: seq<Job>, size: int, avail: int, sem: int,
                         consumer: Consumer, callback: Callback, kernel: set<Job>, log: seq<Post>,
                         used: set<Job>, aborted: set<Job>, drift: nat)

  const REST := Consumer(Resting, [], 0, false, false, 0)

  function Start(depth: nat): State {
    State(map[], [], 0, depth, depth, REST, Idle, {}, [], {}, {}, 0)
  }

  datatype Event =
    | Check(t: Tid, job: Job)
    | Sleep(t: Tid, job: Job)
    | Increment(t: Tid)
    | Push(t: Tid)
    | Begin
    | Pop
    | TakeSlot
    | Settle
    | Decrement
    | Offer
    | Round(r: int)
    | Finish
    | Look
    | Notify
    | Complete(job: Job, code: int)
    | GiveSlot
    | GiveSem

  predicate Ready(c: Consumer) {
    !c.slotless && !c.unsized && c.pend == 0
  }

  /** Guards, with max = maxRequestQueueSize_ and at most T callers at once. */
  ghost predicate Enabled(s: State, e: Event, max: nat, T: nat) {
    var c := s.consumer;
    match e
    case Check(t, job) => t < T && t !in s.callers && s.size <= max && job !in s.used
    case Sleep(t, job) => t < T && t !in s.callers && s.size > max && job !in s.used
    case Increment(t) => t in s.callers && (s.callers[t].Checked? || s.callers[t].Woken?)
    case Push(t) => t in s.callers && s.callers[t].Counted?
    case Begin => c == REST && s.sem > 0
    case Pop => c.phase == Collecting && Ready(c) && s.avail != 0 && s.queue != []
    case TakeSlot => c.slotless
    case Settle => c.pend != 0 && s.sem + c.pend >= 0
    case Decrement => c.unsized && !c.slotless && c.pend == 0
    case Offer => c.phase == Collecting && Ready(c) && (s.avail == 0 || s.queue == [])
    case Round(r) => c.phase == Submitting && c.pend == 0 && c.tries > 0 && c.offered != [] && r <= |c.offered|
    case Finish => c.phase == Submitting && c.pend == 0 && (c.tries == 0 || c.offered == [])
    case Look => c.phase == Announcing && c.pend == 0
    case Notify => c.phase == Waking
    case Complete(job, _) => s.callback == Idle && job in s.kernel
    case GiveSlot => s.callback == OwesSlot
    case GiveSem => s.callback == OwesSem
  }

  /** notify_all: every paused caller goes on, without another look at the size. */
  function Roused(callers: map<Tid, Caller>): map<Tid, Caller> {
    map t | t in callers :: if callers[t].Asleep? then Woken(callers[t].job) else callers[t]
  }

  function Elements(q: seq<Job>): set<Job> {
    set j | j in q
  }

  /** One io_submit with result r and what ProcessRequestQueue does about it. */
  ghost function DoRound(s: State, r: int): State
    requires r <= |s.consumer.offered| && s.consumer.tries > 0
  {
    var c := s.consumer;
    var n := |c.offered|;
    if Again(r) then s.(consumer := c.(tries := c.tries - 1))
    else if r < 0 then
      s.(log := s.log + Posts(c.offered, r), avail := s.avail + n, drift := s.drift + n,
         aborted := s.aborted + Elements(c.offered), consumer := c.(tries := 0, pend := n))
    else
      var t := s.(kernel := s.kernel + Elements(c.offered[..r]));
      if r == n then t.(consumer := c.(offered := [], tries := 0))
      else t.(avail := s.avail + r, drift := s.drift + r,
              consumer := c.(offered := c.offered[r..], tries := c.tries - 1, pend := r))
  }

  ghost function Do(s: State, e: Event, max: nat, T: nat): State
    requires Enabled(s, e, max, T)
  {
    var c := s.consumer;
    match e
    case Check(t, job) => s.(callers := s.callers[t := Checked(job)], used := s.used + {job})
    case Sleep(t, job) => s.(callers := s.callers[t := Asleep(job)], used := s.used + {job})
    case Increment(t) => s.(size := s.size + 1, callers := s.callers[t := Counted(s.callers[t].job)])
    case Push(t) => s.(queue := s.queue + [s.callers[t].job], callers := s.callers - {t})
    case Begin => s.(sem := s.sem - 1, consumer := REST.(phase := Collecting, pend := 1))
    case Pop => s.(queue := s.queue[1..],
                consumer := c.(offered := c.offered + [s.queue[0]], slotless := true, unsized := true))
    case TakeSlot => s.(avail := s.avail - 1, consumer := c.(slotless := false, pend := c.pend - 1))
    case Settle => s.(sem := s.sem + c.pend, consumer := c.(pend := 0))
    case Decrement => s.(size := s.size - 1, consumer := c.(unsized := false))
    case Offer => s.(consumer := if c.offered == [] then REST else c.(phase := Submitting, tries := TRIES))
    case Round(r) => DoRound(s, r)
    case Finish =>
      var n := |c.offered|;
      s.(log := s.log + Posts(c.offered, -EINVAL), avail := s.avail + n,
        consumer := REST.(phase := Announcing, pend := n))
    case Look => s.(consumer := if s.size < max then REST.(phase := Waking) else REST)
    case Notify => s.(callers := Roused(s.callers), consumer := REST)
    case Complete(job, code) => s.(kernel := s.kernel - {job}, log := s.log + [Post(job, code)], callback := OwesSlot)
    case GiveSlot => s.(avail := s.avail + 1, callback := OwesSem)
    case GiveSem => s.(sem := s.sem + 1, callback := Idle)
  }

  // ---- the counters ----

  function Flag(b: bool): nat {
    if b then 1 else 0
  }

  /** Callers that will increment without another look. */
  ghost function InCheck(s: State): set<Tid> {
    set t | t in s.callers && (s.callers[t].Checked? || s.callers[t].Woken?)
  }

  ghost function Paused(s: State): set<Tid> {
    set t | t in s.callers && s.callers[t].Asleep?
  }

  ghost function InPush(s: State): set<Tid> {
    set t | t in s.callers && s.callers[t].Counted?
  }

  /** Slots: free ones, jobs collected or with the kernel, and the one being given back. */
  ghost predicate Slots(s: State, depth: nat) {
    && s.avail + |s.consumer.offered| - Flag(s.consumer.slotless) + |s.kernel| + Flag(s.callback == OwesSlot) ==
       depth + s.drift
    && s.avail >= Flag(s.consumer.slotless)
    && s.sem + s.consumer.pend + Flag(s.callback == OwesSem) == s.avail
    && s.sem >= 0
  }

  ghost predicate Sizes(s: State, max: nat, T: nat) {
    && s.size == |s.queue| + |InPush(s)| + Flag(s.consumer.unsized)
    && s.size + |InCheck(s)| <= max + 2 * T
    && (s.consumer.phase == Waking ==> s.size + |InCheck(s)| <= max + T)
    && (forall t | t in s.callers :: t < T)
  }

  ghost predicate Shape(s: State) {
    var c := s.consumer;
    && (c.slotless ==> c.unsized && c.pend == 0)
    && (c.unsized ==> c.phase == Collecting && c.offered != [])
    && (c.phase != Collecting && c.phase != Submitting ==> c.offered == [])
    && (c.phase != Collecting ==> c.pend >= 0) && (c.phase == Waking ==> c.pend == 0)
    && (s.aborted != {} ==> s.drift > 0)
  }

  // ---- the jobs ----

  ghost function Carriers(s: State, j: Job): set<Tid> {
    set t | t in s.callers && s.callers[t].job == j
  }

  /** Where a job is, counted with multiplicity: with a caller, queued, collected, in the kernel. */
  ghost function Held(s: State, j: Job): nat {
    |Carriers(s, j)| + multiset(s.queue)[j] + multiset(s.consumer.offered)[j] + Flag(j in s.kernel)
  }

  /**
   * A job submitted is held once or was post-processed once; one that met the fatal branch was
   * post-processed there as well and is then still held by the consumer, or was twice.
   */
  ghost predicate Tracked(s: State, j: Job) {
    && Held(s, j) + Count(s.log, j) == Flag(j in s.used) + Flag(j in s.aborted)
    && (j in s.aborted ==>
          && j in s.used && Held(s, j) == multiset(s.consumer.offered)[j] <= 1
          && (j in s.consumer.offered ==> s.consumer.phase == Submitting && s.consumer.tries == 0))
  }

  ghost predicate Inv(s: State, depth: nat, max: nat, T: nat) {
    && Slots(s, depth) && Sizes(s, max, T) && Shape(s)
    && (forall j :: Tracked(s, j))
  }

  // ---- preservation ----

  lemma SlotsKeep(s: State, e: Event, depth: nat, max: nat, T: nat)
    requires Inv(s, depth, max, T) && Enabled(s, e, max, T)
    ensures Slots(Do(s, e, max, T), depth)
  {
    hide Tracked, Sizes, DoRound;
    if e.Round? {
      RoundSlots(s, e, depth, max, T);
    }
  }

  lemma RoundSlots(s: State, e: Event, depth: nat, max: nat, T: nat)
    requires Inv(s, depth, max, T) && Enabled(s, e, max, T) && e.Round?
    ensures Slots(DoRound(s, e.r), depth)
  {
    hide Tracked, Sizes, Elements, Posts;
    if e.r >= 0 {
      KernelGrows(s, e, depth, max, T);
    }
  }

  /** The jobs that a round hands to the kernel are distinct and not there yet. */
  lemma KernelGrows(s: State, e: Event, depth: nat, max: nat, T: nat)
    requires Inv(s, depth, max, T) && Enabled(s, e, max, T) && e.Round? && e.r >= 0
    ensures |s.kernel + Elements(s.consumer.offered[..e.r])| == |s.kernel| + e.r
  {
    hide Slots, Sizes, Shape;
    var q := s.consumer.offered[..e.r];
    forall j | j in q
      ensures j !in s.kernel && multiset(q)[j] == 1
    {
      assert Tracked(s, j);
      assert s.consumer.offered == q + s.consumer.offered[e.r..];
    }
    Distinct(q);
    assert s.kernel !! Elements(q);
  }

  lemma {:induction false} Distinct(q: seq<Job>)
    requires forall j | j in q :: multiset(q)[j] == 1
    ensures |Elements(q)| == |q|
    decreases q
  {
    if q != [] {
      var rest := q[1..];
      assert q == [q[0]] + rest;
      assert multiset(q) == multiset{q[0]} + multiset(rest);
      assert q[0] in q && multiset(q)[q[0]] == 1;
      assert forall j | j in rest :: j in q && multiset(q)[j] == 1;
      Distinct(rest);
      assert Elements(q) == Elements(rest) + {q[0]};
    } else {
      assert Elements(q) == {};
    }
  }

  lemma CallersMove(s: State, e: Event, max: nat, T: nat)
    requires Enabled(s, e, max, T)
    ensures var t := Do(s, e, max, T);
            && (e.Check? ==> InCheck(t) == InCheck(s) + {e.t} && e.t !in InCheck(s))
            && (e.Increment? ==> InCheck(t) == InCheck(s) - {e.t} && e.t in InCheck(s))
            && (e.Notify? ==> InCheck(t) == InCheck(s) + Paused(s))
            && (!e.Check? && !e.Increment? && !e.Notify? ==> InCheck(t) == InCheck(s))
            && (e.Increment? ==> InPush(t) == InPush(s) + {e.t} && e.t !in InPush(s))
            && (e.Push? ==> InPush(t) == InPush(s) - {e.t} && e.t in InPush(s))
            && (!e.Increment? && !e.Push? ==> InPush(t) == InPush(s))
  {
  }

  lemma CallersBelow(s: State, e: Event, max: nat, T: nat)
    requires Enabled(s, e, max, T) && (forall t | t in s.callers :: t < T)
    ensures |InCheck(s)| <= T && |InCheck(s) + Paused(s)| <= |InCheck(s)| + T && |InCheck(Do(s, e, max, T))| <= T
    ensures forall t | t in Do(s, e, max, T).callers :: t < T
  {
    Below(InCheck(s), T);
    Below(Paused(s), T);
    assert |InCheck(s) + Paused(s)| <= |InCheck(s)| + |Paused(s)|;
    Below(InCheck(Do(s, e, max, T)), T);
  }

  lemma SizesKeep(s: State, e: Event, depth: nat, max: nat, T: nat)
    requires Inv(s, depth, max, T) && Enabled(s, e, max, T)
    ensures Sizes(Do(s, e, max, T), max, T)
  {
    hide Tracked, Slots, InCheck, InPush, Paused, Roused;
    CallersMove(s, e, max, T);
    CallersBelow(s, e, max, T);
  }

  lemma {:induction false} Below(ts: set<Tid>, T: nat)
    requires forall t | t in ts :: t < T
    ensures |ts| <= T
    decreases T
  {
    if T == 0 {
      assert ts == {};
    } else {
      Below(ts - {T - 1}, T - 1);
      assert ts <= (ts - {T - 1}) + {T - 1};
    }
  }

  lemma ShapeKeeps(s: State, e: Event, max: nat, T: nat)
    requires Shape(s) && Enabled(s, e, max, T)
    ensures Shape(Do(s, e, max, T))
  {
  }

  lemma {:induction false} CountPosts(q: seq<Job>, code: int, j: Job)
    ensures Count(Posts(q, code), j) == multiset(q)[j]
    decreases q
  {
    if q != [] {
      var rest := q[1..];
      assert q == [q[0]] + rest;
      assert Posts(q, code) == [Post(q[0], code)] + Posts(rest, code);
      CountPosts(rest, code, j);
    }
  }

  lemma PostedMore(log: seq<Post>, q: seq<Job>, code: int, j: Job)
    ensures Count(log + Posts(q, code), j) == Count(log, j) + multiset(q)[j]
  {
    CountJoins(log, Posts(q, code), j);
    CountPosts(q, code, j);
  }

  lemma CarriersMove(s: State, e: Event, max: nat, T: nat, j: Job)
    requires Enabled(s, e, max, T)
    ensures var t, comes := Do(s, e, max, T), (e.Check? || e.Sleep?) && e.job == j;
            && (comes ==> e.t !in Carriers(s, j) && Carriers(t, j) == Carriers(s, j) + {e.t})
            && (e.Push? && s.callers[e.t].job == j ==>
                  e.t in Carriers(s, j) && Carriers(t, j) == Carriers(s, j) - {e.t})
            && (!comes && !(e.Push? && s.callers[e.t].job == j) ==> Carriers(t, j) == Carriers(s, j))
  {
  }

  lemma CallerTracks(s: State, e: Event, max: nat, T: nat, j: Job)
    requires Tracked(s, j) && Shape(s) && Enabled(s, e, max, T) && CallerStep(e)
    ensures Tracked(Do(s, e, max, T), j)
  {
    hide Carriers, Count;
    CarriersMove(s, e, max, T, j);
  }

  predicate CallerStep(e: Event) {
    e.Check? || e.Sleep? || e.Increment? || e.Push?
  }

  lemma RoundTracks(s: State, r: int, max: nat, T: nat, j: Job)
    requires Tracked(s, j) && Enabled(s, Round(r), max, T)
    ensures Tracked(DoRound(s, r), j)
  {
    hide Tracked;
    if Again(r) {
      SameJobs(s, DoRound(s, r), j);
    } else if r < 0 {
      FatalTracks(s, r, j);
    } else {
      TakeTracks(s, r, j);
    }
  }

  lemma SameJobs(s: State, t: State, j: Job)
    requires Tracked(s, j) && s.consumer.tries > 0
    requires t == s.(consumer := s.consumer.(tries := t.consumer.tries))
    ensures Tracked(t, j)
  {
    hide Count;
    assert Carriers(t, j) == Carriers(s, j);
  }

  lemma FatalTracks(s: State, r: int, j: Job)
    requires Tracked(s, j) && s.consumer.phase == Submitting && s.consumer.tries > 0 && r < 0 && !Again(r)
    ensures Tracked(DoRound(s, r), j)
  {
    hide Count, Posts;
    var t := DoRound(s, r);
    assert Carriers(t, j) == Carriers(s, j);
    PostedMore(s.log, s.consumer.offered, r, j);
  }

  lemma TakeTracks(s: State, r: int, j: Job)
    requires Tracked(s, j) && s.consumer.phase == Submitting && s.consumer.tries > 0 && 0 <= r <= |s.consumer.offered|
    ensures Tracked(DoRound(s, r), j)
  {
    hide Count, Posts;
    var t, q := DoRound(s, r), s.consumer.offered;
    assert Carriers(t, j) == Carriers(s, j);
    assert q == q[..r] + q[r..];
    assert multiset(q)[j] == multiset(q[..r])[j] + multiset(q[r..])[j];
  }

  lemma ConsumerTracks(s: State, e: Event, max: nat, T: nat, j: Job)
    requires Tracked(s, j) && Shape(s) && Enabled(s, e, max, T) && !CallerStep(e) && !e.Round?
    ensures Tracked(Do(s, e, max, T), j)
  {
    hide Carriers;
    CarriersMove(s, e, max, T, j);
    match e
    case Pop => assert s.queue == [s.queue[0]] + s.queue[1..];
    case Finish => PostedMore(s.log, s.consumer.offered, -EINVAL, j);
    case Complete(job, code) =>
      assert Posts([job], code) == [Post(job, code)];
      PostedMore(s.log, [job], code, j);
    case _ =>
  }

  lemma StepKeeps(s: State, e: Event, depth: nat, max: nat, T: nat)
    requires Inv(s, depth, max, T) && Enabled(s, e, max, T)
    ensures Inv(Do(s, e, max, T), depth, max, T)
  {
    hide Tracked, Slots, Sizes, Shape, Enabled, DoRound;
    SlotsKeep(s, e, depth, max, T);
    SizesKeep(s, e, depth, max, T);
    ShapeKeeps(s, e, max, T);
    forall j: Job
      ensures Tracked(Do(s, e, max, T), j)
    {
      if CallerStep(e) {
        CallerTracks(s, e, max, T, j);
      } else if e.Round? {
        RoundTracks(s, e.r, max, T, j);
      } else {
        ConsumerTracks(s, e, max, T, j);
      }
    }
  }

  // ---- runs ----

  ghost predicate Reaches(s: State, es: seq<Event>, t: State, max: nat, T: nat)
    decreases es
  {
    if es == [] then s == t
    else Enabled(s, es[0], max, T) && Reaches(Do(s, es[0], max, T), es[1..], t, max, T)
  }

  lemma StartInv(depth: nat, max: nat, T: nat)
    ensures Inv(Start(depth), depth, max, T)
  {
    var s := Start(depth);
    assert InCheck(s) == {} && InPush(s) == {};
    assert forall j :: Carriers(s, j) == {};
  }

  /** The counters and the jobs are accounted for in every state of every run. */
  lemma {:induction false} RunKeeps(s: State, es: seq<Event>, t: State, depth: nat, max: nat, T: nat)
    requires Inv(s, depth, max, T) && Reaches(s, es, t, max, T)
    ensures Inv(t, depth, max, T)
    decreases es
  {
    hide Inv, Enabled, Do;
    if es != [] {
      StepKeeps(s, es[0], depth, max, T);
      RunKeeps(Do(s, es[0], max, T), es[1..], t, depth, max, T);
    }
  }

  /** A submit that is partial or fatal. */
  ghost predicate Dirty(s: State, e: Event) {
    e.Round? && e.r != -4 && e.r != -11 && (e.r < 0 || 0 < e.r < |s.consumer.offered|)
  }

  ghost predicate AllClean(s: State, es: seq<Event>, max: nat, T: nat)
    decreases es
  {
    es == [] || (Enabled(s, es[0], max, T) && !Dirty(s, es[0]) && AllClean(Do(s, es[0], max, T), es[1..], max, T))
  }

  lemma DriftStep(s: State, e: Event, max: nat, T: nat)
    requires Enabled(s, e, max, T)
    ensures Do(s, e, max, T).drift >= s.drift
    ensures Do(s, e, max, T).drift == s.drift <==> !Dirty(s, e)
  {
  }

  /** Slots drift exactly in the runs with a partial or fatal submit. */
  lemma {:induction false} DriftIff(s: State, es: seq<Event>, t: State, max: nat, T: nat)
    requires Reaches(s, es, t, max, T)
    ensures t.drift >= s.drift
    ensures t.drift == s.drift <==> AllClean(s, es, max, T)
    decreases es
  {
    hide Enabled, Do, Dirty;
    if es != [] {
      DriftStep(s, es[0], max, T);
      DriftIff(Do(s, es[0], max, T), es[1..], t, max, T);
    }
  }

  /**
   * Event e post-processes a job with this code: its completion, a fatal submit, or the end of the
   * tries (EINVAL, 22).
   */
  ghost predicate Reports(e: Event, p: Post) {
    e == Complete(p.job, p.code) || (Fatal(e) && p.code == e.r) || (e.Finish? && p.code == -22)
  }

  lemma StepReports(s: State, e: Event, max: nat, T: nat)
    requires Enabled(s, e, max, T)
    ensures var log := Do(s, e, max, T).log;
            && |s.log| <= |log| && log[..|s.log|] == s.log
            && (forall i | |s.log| <= i < |log| :: Reports(e, log[i]))
            && (e.Complete? ==> log == s.log + [Post(e.job, e.code)])
  {
  }

  /**
   * Every post of a run is explained by an event that reports this code, and every completion is
   * posted with its own code.
   */
  lemma {:induction false} RunReports(s: State, es: seq<Event>, t: State, max: nat, T: nat)
    requires Reaches(s, es, t, max, T)
    ensures |s.log| <= |t.log| && t.log[..|s.log|] == s.log
    ensures forall i | |s.log| <= i < |t.log| :: exists k :: 0 <= k < |es| && Reports(es[k], t.log[i])
    ensures forall k | 0 <= k < |es| && es[k].Complete? ::
              exists i :: |s.log| <= i < |t.log| && t.log[i] == Post(es[k].job, es[k].code)
    decreases es
  {
    hide Enabled, Do, Reports;
    if es != [] {
      var u, e := Do(s, es[0], max, T), es[0];
      StepReports(s, e, max, T);
      RunReports(u, es[1..], t, max, T);
      assert t.log[..|s.log|] == t.log[..|u.log|][..|s.log|];
      forall i | |s.log| <= i < |t.log|
        ensures exists k :: 0 <= k < |es| && Reports(es[k], t.log[i])
      {
        if i < |u.log| {
          assert t.log[i] == t.log[..|u.log|][i] && Reports(es[0], t.log[i]);
        } else {
          var k :| 0 <= k < |es[1..]| && Reports(es[1..][k], t.log[i]);
          assert Reports(es[k + 1], t.log[i]);
        }
      }
      forall k | 0 <= k < |es| && es[k].Complete?
        ensures exists i :: |s.log| <= i < |t.log| && t.log[i] == Post(es[k].job, es[k].code)
      {
        if k == 0 {
          assert t.log[|s.log|] == t.log[..|u.log|][|s.log|];
        } else {
          assert es[1..][k - 1] == es[k];
        }
      }
    }
  }

  /** The slots taken: jobs collected or in the kernel, and the one whose slot is on its way back. */
  ghost function InUse(s: State): int {
    |s.consumer.offered| - Flag(s.consumer.slotless) + |s.kernel| + Flag(s.callback == OwesSlot)
  }

  /**
   * Slot conservation over every run without partial or fatal submits: free slots and slots in
   * use are the queue depth, the semaphore is the slot counter when no update is pending, the
   * counter never exceeds the depth, and no job is post-processed twice.
   */
  lemma SlotsConserved(es: seq<Event>, t: State, depth: nat, max: nat, T: nat)
    requires Reaches(Start(depth), es, t, max, T) && AllClean(Start(depth), es, max, T)
    ensures t.avail + InUse(t) == depth && 0 <= t.avail <= depth
    ensures t.consumer.pend == 0 && t.callback != OwesSem ==> t.sem == t.avail
    ensures forall j :: Count(t.log, j) <= 1
  {
    hide Reaches, AllClean, Start, Held, Sizes;
    StartInv(depth, max, T);
    RunKeeps(Start(depth), es, t, depth, max, T);
    DriftIff(Start(depth), es, t, max, T);
    StartDrift(depth);
    forall j: Job
      ensures Count(t.log, j) <= 1
    {
      assert Tracked(t, j);
    }
  }

  lemma StartDrift(depth: nat)
    ensures Start(depth).drift == 0
  {
  }

  /** Once all is drained, the slot counter is back at the queue depth exactly when no submit was partial or fatal. */
  lemma DrainedIff(es: seq<Event>, t: State, depth: nat, max: nat, T: nat)
    requires Reaches(Start(depth), es, t, max, T)
    requires t.consumer == REST && t.kernel == {} && t.callback == Idle
    ensures t.avail == t.sem && t.avail >= depth
    ensures t.avail == depth <==> AllClean(Start(depth), es, max, T)
  {
    hide Reaches, AllClean, Start, Tracked, Sizes;
    StartInv(depth, max, T);
    RunKeeps(Start(depth), es, t, depth, max, T);
    DriftIff(Start(depth), es, t, max, T);
    StartDrift(depth);
  }

  ghost predicate Fatal(e: Event) {
    e.Round? && e.r < 0 && e.r != -4 && e.r != -11
  }

  /** The jobs that a fatal submit of the run was offered. */
  ghost function Aborted(s: State, es: seq<Event>, max: nat, T: nat): set<Job>
    decreases es
  {
    if es == [] || !Enabled(s, es[0], max, T) then {}
    else (if Fatal(es[0]) then Elements(s.consumer.offered) else {}) + Aborted(Do(s, es[0], max, T), es[1..], max, T)
  }

  lemma AbortedStep(s: State, e: Event, max: nat, T: nat)
    requires Enabled(s, e, max, T)
    ensures Do(s, e, max, T).aborted == s.aborted + (if Fatal(e) then Elements(s.consumer.offered) else {})
  {
  }

  lemma {:induction false} AbortedIs(s: State, es: seq<Event>, t: State, max: nat, T: nat)
    requires Reaches(s, es, t, max, T)
    ensures t.aborted == s.aborted + Aborted(s, es, max, T)
    decreases es
  {
    hide Enabled, Do, Fatal, Elements;
    if es != [] {
      AbortedStep(s, es[0], max, T);
      AbortedIs(Do(s, es[0], max, T), es[1..], t, max, T);
    }
  }

  /**
   * Over every run, once the consumer is done: a job is post-processed twice exactly if a fatal
   * submit was offered it.
   */
  lemma PostedTwiceIff(es: seq<Event>, t: State, depth: nat, max: nat, T: nat, j: Job)
    requires Reaches(Start(depth), es, t, max, T) && t.consumer.phase == Resting
    ensures Count(t.log, j) == 2 <==> j in Aborted(Start(depth), es, max, T)
    ensures Count(t.log, j) <= 2
  {
    hide Reaches, Aborted, Slots, Sizes;
    StartInv(depth, max, T);
    RunKeeps(Start(depth), es, t, depth, max, T);
    AbortedIs(Start(depth), es, t, max, T);
    assert Tracked(t, j);
  }

  lemma {:induction false} NoneAborted(s: State, es: seq<Event>, max: nat, T: nat)
    requires forall i | 0 <= i < |es| :: !Fatal(es[i])
    ensures Aborted(s, es, max, T) == {}
    decreases es
  {
    hide Enabled, Do, Fatal;
    if es != [] && Enabled(s, es[0], max, T) {
      NoneAborted(Do(s, es[0], max, T), es[1..], max, T);
    }
  }

  /**
   * In every run without a fatal submit, partial ones included, each job is post-processed at most
   * once: the owner of a read gets at most one completion event for it.
   */
  lemma OnceWithoutFatal(es: seq<Event>, t: State, depth: nat, max: nat, T: nat, j: Job)
    requires Reaches(Start(depth), es, t, max, T) && (forall i | 0 <= i < |es| :: !Fatal(es[i]))
    ensures Count(t.log, j) <= 1
  {
    hide Reaches, Aborted, Slots, Sizes, Fatal;
    StartInv(depth, max, T);
    RunKeeps(Start(depth), es, t, depth, max, T);
    AbortedIs(Start(depth), es, t, max, T);
    NoneAborted(Start(depth), es, max, T);
    assert Tracked(t, j);
  }

  /** The batch overruns the arrays of ioQueueDepth_ entries by no more than the drift, and not at all in clean runs. */
  lemma BatchBounded(es: seq<Event>, t: State, depth: nat, max: nat, T: nat)
    requires Reaches(Start(depth), es, t, max, T)
    ensures |t.consumer.offered| <= depth + t.drift
    ensures AllClean(Start(depth), es, max, T) ==> |t.consumer.offered| <= depth
  {
    hide Reaches, AllClean, Start, Tracked, Sizes;
    StartInv(depth, max, T);
    RunKeeps(Start(depth), es, t, depth, max, T);
    DriftIff(Start(depth), es, t, max, T);
    StartDrift(depth);
  }

  /** Nobody pauses. */
  ghost predicate Polite(s: State, max: nat, T: nat) {
    && (forall t | t in s.callers :: !s.callers[t].Asleep? && !s.callers[t].Woken?)
    && s.size + |InCheck(s)| <= max + T
  }

  lemma PoliteSizes(s: State, e: Event, depth: nat, max: nat, T: nat)
    requires Inv(s, depth, max, T) && Enabled(s, e, max, T) && Polite(s, max, T) && !e.Sleep?
    ensures Do(s, e, max, T).size + |InCheck(Do(s, e, max, T))| <= max + T
  {
    hide Tracked, Slots, InCheck, InPush, Paused, Roused, Shape;
    CallersMove(s, e, max, T);
    CallersBelow(s, e, max, T);
    NobodyPaused(s, max, T);
  }

  lemma PoliteStep(s: State, e: Event, depth: nat, max: nat, T: nat)
    requires Inv(s, depth, max, T) && Enabled(s, e, max, T) && Polite(s, max, T) && !e.Sleep?
    ensures Polite(Do(s, e, max, T), max, T)
  {
    hide Tracked, Slots, Sizes, InCheck, InPush, Paused;
    PoliteSizes(s, e, depth, max, T);
  }

  lemma NobodyPaused(s: State, max: nat, T: nat)
    requires Polite(s, max, T)
    ensures Paused(s) == {}
  {
  }

  lemma {:induction false} PoliteRun(s: State, es: seq<Event>, t: State, depth: nat, max: nat, T: nat)
    requires Inv(s, depth, max, T) && Reaches(s, es, t, max, T) && Polite(s, max, T)
    requires forall i | 0 <= i < |es| :: !es[i].Sleep?
    ensures Polite(t, max, T)
    decreases es
  {
    hide Inv, Enabled, Do, Polite;
    if es != [] {
      StepKeeps(s, es[0], depth, max, T);
      PoliteStep(s, es[0], depth, max, T);
      PoliteRun(Do(s, es[0], max, T), es[1..], t, depth, max, T);
    }
  }

  lemma StartPolite(depth: nat, max: nat, T: nat)
    ensures Polite(Start(depth), max, T)
  {
    assert InCheck(Start(depth)) == {};
  }

  /**
   * Back-pressure over every run: the counter is the queue length, the callers between increment
   * and push and the pop not counted yet; it is never negative and exceeds the limit by at most
   * the number of callers, or by twice that number if callers pause on a full queue.
   */
  lemma SizeBounded(es: seq<Event>, t: State, depth: nat, max: nat, T: nat)
    requires Reaches(Start(depth), es, t, max, T)
    ensures t.size == |t.queue| + |InPush(t)| + Flag(t.consumer.unsized)
    ensures 0 <= t.size <= max + 2 * T
    ensures (forall i | 0 <= i < |es| :: !es[i].Sleep?) ==> t.size <= max + T
  {
    hide Reaches, Start, Slots, Tracked;
    StartInv(depth, max, T);
    RunKeeps(Start(depth), es, t, depth, max, T);
    if forall i | 0 <= i < |es| :: !es[i].Sleep? {
      StartPolite(depth, max, T);
      PoliteRun(Start(depth), es, t, depth, max, T);
    }
  }

  /** Nobody has been woken, or is about to be. */
  ghost predicate Unwoken(s: State) {
    s.consumer.phase != Waking && forall t | t in s.callers :: !s.callers[t].Woken?
  }

  lemma UnwokenStep(s: State, e: Event, depth: nat, T: nat)
    requires Inv(s, depth, 0, T) && Enabled(s, e, 0, T) && Unwoken(s)
    ensures Unwoken(Do(s, e, 0, T))
  {
    hide Tracked, Slots, InCheck, InPush, Posts, Elements;
  }

  lemma {:induction false} UnwokenRun(s: State, es: seq<Event>, t: State, depth: nat, T: nat)
    requires Inv(s, depth, 0, T) && Reaches(s, es, t, 0, T) && Unwoken(s)
    ensures Unwoken(t)
    decreases es
  {
    hide Inv, Enabled, Do, Unwoken;
    if es != [] {
      StepKeeps(s, es[0], depth, 0, T);
      UnwokenStep(s, es[0], depth, T);
      UnwokenRun(Do(s, es[0], 0, T), es[1..], t, depth, T);
    }
  }

  /**
   * Callers pause above the limit but are woken only below it. With the limit 0 the counter is never
   * below, so in no run is a paused caller woken.
   */
  lemma NeverWoken(es: seq<Event>, t: State, depth: nat, T: nat)
    requires Reaches(Start(depth), es, t, 0, T)
    ensures forall c | c in t.callers :: !t.callers[c].Woken?
  {
    hide Reaches, Inv;
    StartInv(depth, 0, T);
    UnwokenRun(Start(depth), es, t, depth, T);
  }

  lemma {:induction false} Extend(s: State, es: seq<Event>, t: State, e: Event, max: nat, T: nat)
    requires Reaches(s, es, t, max, T) && Enabled(t, e, max, T)
    ensures Reaches(s, es + [e], Do(t, e, max, T), max, T)
    decreases es
  {
    hide Enabled, Do;
    if es == [] {
      assert Reaches(Do(t, e, max, T), [], Do(t, e, max, T), max, T);
      assert (es + [e])[1..] == [];
    } else {
      Extend(Do(s, es[0], max, T), es[1..], t, e, max, T);
      assert (es + [e])[1..] == es[1..] + [e];
    }
  }

  // ---- ProcessRequestQueue takes these steps ----

  /** From s to t the consumer has offered its jobs with the results that make up the attempt a. */
  ghost predicate Offered(s: State, t: State, a: Attempt)
    requires a.taken <= |s.consumer.offered|
  {
    var q, n := s.consumer.offered, |s.consumer.offered|;
    var back := a.early + (if a.fatal.Some? then n - a.taken else 0);
    && t.consumer.phase == Submitting && t.consumer.pend == 0 && (t.consumer.tries == 0 || a.taken == n)
    && t.consumer.offered == q[a.taken..] && t.kernel == s.kernel + Elements(q[..a.taken])
    && t.drift == s.drift + back && t.avail == s.avail + back && t.sem == s.sem + back
    && t.log == s.log + (if a.fatal.Some? then Posts(q[a.taken..], a.fatal.value) else [])
    && t.queue == s.queue && t.size == s.size && t.callers == s.callers && t.callback == s.callback && t.used == s.used
  }

  ghost predicate Offering(s: State) {
    s.consumer.phase == Submitting && s.consumer.pend == 0 && s.consumer.offered != [] && s.sem >= 0
  }

  /** The state after one round and its semaphore update. */
  ghost function After(s: State, r: int): State
    requires s.consumer.tries > 0 && r <= |s.consumer.offered|
  {
    var u := DoRound(s, r);
    u.(sem := u.sem + u.consumer.pend, consumer := u.consumer.(pend := 0))
  }

  lemma OneRound(s: State, r: int, max: nat, T: nat) returns (es: seq<Event>)
    requires Offering(s) && s.consumer.tries > 0 && r <= |s.consumer.offered|
    ensures Reaches(s, es, After(s, r), max, T)
  {
    hide Posts;
    var u := DoRound(s, r);
    es := [Round(r)];
    Extend(s, [], s, Round(r), max, T);
    assert [] + [Round(r)] == es;
    if u.consumer.pend != 0 {
      Extend(s, es, u, Settle, max, T);
      es := es + [Settle];
    }
  }

  lemma {:induction false} Joins(s: State, a: seq<Event>, t: State, b: seq<Event>, u: State, max: nat, T: nat)
    requires Reaches(s, a, t, max, T) && Reaches(t, b, u, max, T)
    ensures Reaches(s, a + b, u, max, T)
    decreases a
  {
    hide Enabled, Do;
    if a == [] {
      assert a + b == b;
    } else {
      Joins(Do(s, a[0], max, T), a[1..], t, b, u, max, T);
      assert (a + b)[1..] == a[1..] + b;
    }
  }

  /**
   * The retry loop of Submission.Submitter.Offer is a run of this machine: from any state in which
   * the consumer starts offering, rounds with the same results reach the state that Retry predicts.
   */
  lemma {:induction false} RetryIsRun(s: State, rs: seq<int>, max: nat, T: nat) returns (es: seq<Event>, t: State)
    requires Offering(s) && s.consumer.tries == |rs|
    ensures Reaches(s, es, t, max, T) && Offered(s, t, Retry(rs, |s.consumer.offered|))
    decreases rs
  {
    hide Posts, Elements, After, Offered, Reaches;
    var n := |s.consumer.offered|;
    if rs == [] {
      es, t := Nowhere(s, max, T);
    } else {
      var r := if rs[0] < 0 then rs[0] else Min(rs[0], n);
      es := OneRound(s, r, max, T);
      t := After(s, r);
      if Again(r) || 0 <= r < n {
        GoesOn(s, r);
        var fs, u := RetryIsRun(t, rs[1..], max, T);
        Joins(s, es, t, fs, u, max, T);
        OfferedLater(s, r, u, Retry(rs[1..], |t.consumer.offered|));
        es, t := es + fs, u;
      } else {
        OfferedLast(s, r);
      }
    }
  }

  /** The untaken jobs are posted with EINVAL and their slots returned. */
  lemma FinishRun(s: State, max: nat, T: nat) returns (es: seq<Event>, t: State)
    requires s.consumer.phase == Submitting && s.consumer.pend == 0
    requires (s.consumer.tries == 0 || s.consumer.offered == []) && s.sem >= 0
    ensures Reaches(s, es, t, max, T)
    ensures var n := |s.consumer.offered|;
            && t.log == s.log + Posts(s.consumer.offered, -EINVAL) && t.kernel == s.kernel
            && t.avail == s.avail + n && t.sem == s.sem + n && t.consumer.offered == [] && t.consumer.pend == 0
  {
    hide Posts, Reaches;
    Stay(s, max, T);
    t := Do(s, Finish, max, T);
    es := [] + [Finish];
    Extend(s, [], s, Finish, max, T);
    if t.consumer.pend != 0 {
      Extend(s, es, t, Settle, max, T);
      es, t := es + [Settle], Do(t, Settle, max, T);
    }
  }

  lemma Stay(s: State, max: nat, T: nat)
    ensures Reaches(s, [], s, max, T)
  {
  }

  /**
   * So is the rest of ProcessRequestQueue: with the results rs the machine can go on from the
   * collected batch to where all of it is with the kernel or posted, as the results alone say.
   */
  lemma CallIsRun(s: State, rs: seq<int>, max: nat, T: nat) returns (es: seq<Event>, t: State, submitted: nat)
    requires Offering(s) && s.consumer.tries == |rs|
    ensures Reaches(s, es, t, max, T) && t.consumer.offered == [] && t.consumer.pend == 0
    ensures var q := s.consumer.offered;
            && submitted <= |q| && t.kernel == s.kernel + Elements(q[..submitted])
            && Submits(rs, q, submitted, s.log, t.log, t.avail - s.avail - (|q| - submitted))
            && t.sem - s.sem == t.avail - s.avail
  {
    hide Posts, Elements, Reaches, Retry, Submits;
    var a, u := RetryIsRun(s, rs, max, T);
    var b;
    b, t := FinishRun(u, max, T);
    Joins(s, a, u, b, t, max, T);
    es, submitted := a + b, Retry(rs, |s.consumer.offered|).taken;
    RetrySubmits(rs, s.consumer.offered, s.log);
  }

  lemma Nowhere(s: State, max: nat, T: nat) returns (es: seq<Event>, t: State)
    requires Offering(s) && s.consumer.tries == 0
    ensures Reaches(s, es, t, max, T) && Offered(s, t, Attempt(0, 0, None))
  {
    es, t := [], s;
    NoneOffered(s);
  }

  lemma GoesOn(s: State, r: int)
    requires Offering(s) && s.consumer.tries > 0 && (Again(r) || 0 <= r < |s.consumer.offered|)
    ensures Offering(After(s, r)) && After(s, r).consumer.tries == s.consumer.tries - 1
    ensures |After(s, r).consumer.offered| == |s.consumer.offered| - (if r < 0 then 0 else r)
  {
  }

  /** The last round: everything taken, or a fatal error. */
  lemma OfferedLast(s: State, r: int)
    requires Offering(s) && s.consumer.tries > 0 && !Again(r) && (r < 0 || r == |s.consumer.offered|)
    ensures Offered(s, After(s, r), if r < 0 then Attempt(0, 0, Some(r)) else Attempt(r, 0, None))
  {
    hide Posts;
    var q, n := s.consumer.offered, |s.consumer.offered|;
    NoneOffered(s);
    assert q[..n] == q && q[n..] == [];
  }

  lemma OfferedLater(s: State, r: int, t: State, a: Attempt)
    requires Offering(s) && s.consumer.tries > 0 && (Again(r) || 0 <= r < |s.consumer.offered|)
    requires a.taken <= |After(s, r).consumer.offered| && Offered(After(s, r), t, a)
    ensures a.taken + (if r < 0 then 0 else r) <= |s.consumer.offered|
    ensures Offered(s, t, if r < 0 then a else Attempt(r + a.taken, r + a.early, a.fatal))
  {
    hide Posts;
    if r >= 0 {
      OfferedMore(s, After(s, r), t, r, a);
    }
  }

  lemma NoneOffered(s: State)
    ensures s.kernel + Elements(s.consumer.offered[..0]) == s.kernel
    ensures s.consumer.offered[0..] == s.consumer.offered
  {
  }

  lemma OfferedSplit(q: seq<Job>, r: nat, k: nat)
    requires r + k <= |q|
    ensures q[r..][k..] == q[r + k..]
    ensures Elements(q[..r + k]) == Elements(q[..r]) + Elements(q[r..][..k])
  {
    assert q[..r + k] == q[..r] + q[r..][..k];
  }

  lemma OfferedMore(s: State, u: State, t: State, r: nat, a: Attempt)
    requires r < |s.consumer.offered| && a.taken <= |s.consumer.offered| - r
    requires u.consumer.offered == s.consumer.offered[r..] && Offered(u, t, a)
    requires u.kernel == s.kernel + Elements(s.consumer.offered[..r])
    requires u.drift == s.drift + r && u.avail == s.avail + r && u.sem == s.sem + r && u.log == s.log
    requires u.queue == s.queue && u.size == s.size && u.callers == s.callers && u.callback == s.callback
    requires u.used == s.used
    ensures Offered(s, t, Attempt(r + a.taken, r + a.early, a.fatal))
  {
    hide Posts, Elements;
    OfferedSplit(s.consumer.offered, r, a.taken);
  }
}
