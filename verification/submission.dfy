/** IOExecutor::ProcessRequestQueue on its own: collect a batch, then offer it to io_submit up to five times. */
module Submission {
  import opened Options

  type Job = nat

  const EINTR := 4
  const EAGAIN := 11
  const EINVAL := 22
  const TRIES := 5

  /** One doPostProcessingOfJob: the job and the retcode_ it carries. */
  datatype Post = Post(job: Job, code: int)

  function Posts(jobs: seq<Job>, code: int): (ps: seq<Post>)
    ensures |ps| == |jobs|
  {
    seq(|jobs|, i requires 0 <= i < |jobs| => Post(jobs[i], code))
  }

  predicate Again(r: int) {
    r == -EINTR || r == -EAGAIN
  }

  function Min(a: nat, b: nat): nat {
    if a <= b then a else b
  }

  /** What the retry loop achieves: jobs taken by the kernel, slots returned early, a fatal error. */
  datatype Attempt = Attempt(taken: nat, early: nat, fatal: Option<int>)

  /** rs are the results of the tries that are left for `left` jobs; io_submit never takes more than it is offered. */
  function Retry(rs: seq<int>, left: nat): (a: Attempt)
    ensures a.early <= a.taken <= left
    ensures a.fatal.Some? ==> a.fatal.value in rs && a.fatal.value < 0 && !Again(a.fatal.value) && a.taken < left
  {
    if rs == [] || left == 0 then Attempt(0, 0, None)
    else if Again(rs[0]) then Retry(rs[1..], left)
    else if rs[0] < 0 then Attempt(0, 0, Some(rs[0]))
    else
      var n := Min(rs[0], left);
      if n == left then Attempt(n, 0, None)
      else
        var a := Retry(rs[1..], left - n);
        Attempt(n + a.taken, n + a.early, a.fatal)
  }

  predicate Aborts(r: int) {
    r < 0 && !Again(r)
  }

  /** How many of `left` jobs io_submit took, by its result. */
  function Took(r: int, left: nat): (n: nat)
    ensures n <= left
  {
    if r < 0 then 0 else Min(r, left)
  }

  /** One round of the loop, with its result rs[k], and the end of the loop. */
  lemma RetryStep(rs: seq<int>, k: nat, left: nat)
    requires k <= |rs| && left > 0
    ensures k == |rs| ==> Retry(rs[k..], left) == Attempt(0, 0, None)
    ensures k < |rs| && Aborts(rs[k]) ==>
              Took(rs[k], left) == 0 && Retry(rs[k..], left) == Attempt(0, 0, Some(rs[k]))
    ensures k < |rs| && !Aborts(rs[k]) && Took(rs[k], left) == left ==> Retry(rs[k..], left) == Attempt(left, 0, None)
    ensures k < |rs| && !Aborts(rs[k]) && Took(rs[k], left) < left ==>
              var n := Took(rs[k], left);
              var a := Retry(rs[k + 1..], left - n);
              Retry(rs[k..], left) == Attempt(n + a.taken, n + a.early, a.fatal)
  {
    if k < |rs| {
      assert rs[k..][1..] == rs[k + 1..];
    }
  }

  /** The rounds before the one that ends the loop only say EINTR (4) or EAGAIN (11) or take nothing. */
  predicate Clean(rs: seq<int>, left: nat) {
    rs == [] || left == 0 || rs[0] >= left || (rs[0] in {-4, -11, 0} && Clean(rs[1..], left))
  }

  /** The loop returns no slot early and meets no fatal error exactly on such results. */
  lemma {:induction false} CleanIff(rs: seq<int>, left: nat)
    ensures Clean(rs, left) <==> Retry(rs, left).early == 0 && Retry(rs, left).fatal == None
    decreases rs
  {
    if rs != [] && left > 0 && rs[0] < left && rs[0] in {-4, -11, 0} {
      CleanIff(rs[1..], left);
    }
  }

  // ---- what a call achieves, from the results alone ----

  /** The jobs that these results take together. */
  function Summed(rs: seq<int>): nat {
    if rs == [] then 0 else (if rs[0] > 0 then rs[0] else 0) + Summed(rs[1..])
  }

  /** rs[e] is the first result that is an error other than EINTR (4) and EAGAIN (11), if there is one. */
  ghost predicate FirstFatal(rs: seq<int>, e: nat) {
    && e <= |rs| && (forall i | 0 <= i < e :: rs[i] >= 0 || rs[i] == -4 || rs[i] == -11)
    && (e < |rs| ==> rs[e] < 0 && rs[e] != -4 && rs[e] != -11)
  }

  lemma SummedStep(rs: seq<int>, e: nat)
    requires 0 < e <= |rs|
    ensures rs[1..][..e - 1] == rs[..e][1..]
    ensures Summed(rs[..e]) == (if rs[0] > 0 then rs[0] else 0) + Summed(rs[1..][..e - 1])
  {
    assert rs[1..][..e - 1] == rs[..e][1..];
  }

  /**
   * The attempt in closed form: the jobs taken are the sum of the results before the first fatal
   * one, up to the whole batch; that result counts only if jobs are left; and the slots returned
   * early are those of the rounds that left jobs, up to round j.
   */
  lemma {:induction false} RetryIs(rs: seq<int>, n: nat, e: nat) returns (j: nat)
    requires n > 0 && FirstFatal(rs, e)
    ensures Retry(rs, n).taken == Min(n, Summed(rs[..e]))
    ensures Retry(rs, n).fatal == if e < |rs| && Summed(rs[..e]) < n then Some(rs[e]) else None
    ensures j <= e && Retry(rs, n).early == Summed(rs[..j]) < n && (j < e ==> Summed(rs[..j + 1]) >= n)
    decreases rs
  {
    hide Summed, Retry;
    RetryStep(rs, 0, n);
    assert rs[0..] == rs;
    NothingSummed(rs);
    if e == 0 {
      return 0;
    }
    SummedStep(rs, e);
    SummedStep(rs, 1);
    NothingSummed(rs[1..]);
    if rs[0] >= n {
      return 0;
    }
    var left := if rs[0] > 0 then n - rs[0] else n;
    var i := RetryIs(rs[1..], left, e - 1);
    SummedStep(rs, i + 1);
    if i + 1 < e {
      SummedStep(rs, i + 2);
    }
    return i + 1;
  }

  lemma NothingSummed(rs: seq<int>)
    ensures Summed(rs[..0]) == 0
  {
  }

  /**
   * `now` continues `was` with each job of `jobs` in order, first with the code `first` if there is
   * one, then with EINVAL (22).
   */
  ghost predicate Posted(was: seq<Post>, now: seq<Post>, jobs: seq<Job>, first: Option<int>) {
    var n := |jobs|;
    && |now| == |was| + n + (if first.Some? then n else 0) && now[..|was|] == was
    && (forall i | 0 <= i < n :: now[|now| - n + i] == Post(jobs[i], -22))
    && (first.Some? ==> forall i | 0 <= i < n :: now[|was| + i] == Post(jobs[i], first.value))
  }

  lemma PostsPosted(was: seq<Post>, jobs: seq<Job>, first: Option<int>)
    ensures Posted(was, was + (if first.Some? then Posts(jobs, first.value) else []) + Posts(jobs, -EINVAL),
                   jobs, first)
  {
  }

  /** The rounds before j left jobs; round j, if it comes before the fatal one e, takes the last of n. */
  ghost predicate LastRound(rs: seq<int>, n: nat, e: nat, j: nat) {
    j <= e <= |rs| && Summed(rs[..j]) < n && (j < e ==> Summed(rs[..j + 1]) >= n)
  }

  /**
   * What a call does with its batch, when rs[e] is the first fatal result: how many jobs it submits,
   * what is posted for the others, and how many slots come back for jobs that it collected.
   */
  ghost predicate SubmitsBefore(rs: seq<int>, batch: seq<Job>, submitted: nat, was: seq<Post>, now: seq<Post>,
                                back: int, e: nat)
    requires e <= |rs|
  {
    var total := Summed(rs[..e]);
    var fatal := if e < |rs| && total < |batch| then Some(rs[e]) else None;
    && submitted == Min(|batch|, total)
    && Posted(was, now, batch[submitted..], fatal)
    && (exists j: nat :: LastRound(rs, |batch|, e, j)
                         && back == Summed(rs[..j]) + (if fatal.Some? then |batch| - submitted else 0))
  }

  ghost predicate Submits(rs: seq<int>, batch: seq<Job>, submitted: nat, was: seq<Post>, now: seq<Post>, back: int) {
    batch != [] ==> forall e: nat | FirstFatal(rs, e) :: SubmitsBefore(rs, batch, submitted, was, now, back, e)
  }

  lemma RetrySubmits(rs: seq<int>, batch: seq<Job>, was: seq<Post>)
    ensures var a := Retry(rs, |batch|);
            var untaken := batch[a.taken..];
            Submits(rs, batch, a.taken, was,
                    was + (if a.fatal.Some? then Posts(untaken, a.fatal.value) else []) + Posts(untaken, -EINVAL),
                    a.early + (if a.fatal.Some? then |untaken| else 0))
  {
    hide Retry, Summed, Posts, Posted;
    var a := Retry(rs, |batch|);
    var now := was + (if a.fatal.Some? then Posts(batch[a.taken..], a.fatal.value) else [])
               + Posts(batch[a.taken..], -EINVAL);
    var back := a.early + (if a.fatal.Some? then |batch[a.taken..]| else 0);
    PostsPosted(was, batch[a.taken..], a.fatal);
    if batch != [] {
      forall e: nat | FirstFatal(rs, e)
        ensures SubmitsBefore(rs, batch, a.taken, was, now, back, e)
      {
        var j := RetryIs(rs, |batch|, e);
        assert LastRound(rs, |batch|, e, j);
      }
    }
  }

  lemma Joined(kernel: seq<Job>, jobs: seq<Job>, from: nat, took: nat)
    requires from + took <= |jobs|
    ensures kernel + jobs[..from] + jobs[from..from + took] == kernel + jobs[..from + took]
  {
    assert jobs[..from] + jobs[from..from + took] == jobs[..from + took];
  }

  class Submitter {
    const depth: nat
    var requestQueue: seq<Job>
    var requestQueueSize: int
    var numAvailable: int
    var semaphore: int
    var kernel: seq<Job>
    var log: seq<Post>
    var numSubmitted: nat

    constructor (depth: nat)
      ensures this.depth == depth && requestQueue == [] && requestQueueSize == 0 && numAvailable == depth
      ensures semaphore == depth && kernel == [] && log == [] && numSubmitted == 0
    {
      this.depth := depth;
      requestQueue, requestQueueSize, numAvailable, semaphore := [], 0, depth, depth;
      kernel, log, numSubmitted := [], [], 0;
    }

    /** The collecting loop: move jobs to post while there are slots and jobs. */
    method Collect(post: array<Job>) returns (n: nat)
      requires 0 <= numAvailable <= post.Length
      modifies this`requestQueue, this`requestQueueSize, this`numAvailable, this`semaphore, post
      ensures n == Min(|old(requestQueue)|, old(numAvailable)) && n <= post.Length
      ensures post[..n] == old(requestQueue)[..n] && requestQueue == old(requestQueue)[n..]
      ensures requestQueueSize == old(requestQueueSize) - n
      ensures numAvailable == old(numAvailable) - n && semaphore == old(semaphore) - n
    {
      n := 0;
      while numAvailable != 0
        invariant 0 <= n <= |old(requestQueue)| && n <= post.Length && numAvailable >= 0
        invariant post[..n] == old(requestQueue)[..n] && requestQueue == old(requestQueue)[n..]
        invariant requestQueueSize == old(requestQueueSize) - n
        invariant numAvailable == old(numAvailable) - n && semaphore == old(semaphore) - n
        decreases numAvailable
      {
        if requestQueue == [] {
          break;
        }
        post[n] := requestQueue[0];
        requestQueue := requestQueue[1..];
        n := n + 1;
        numAvailable := numAvailable - 1;
        semaphore := semaphore - 1;
        requestQueueSize := requestQueueSize - 1;
      }
    }

    /** Post-process post[from..to] with one code and give their slots back. */
    method Fail(post: array<Job>, from: nat, to: nat, code: int)
      requires from <= to <= post.Length
      modifies this`log, this`numAvailable, this`semaphore
      ensures log == old(log) + Posts(post[from..to], code)
      ensures numAvailable == old(numAvailable) + (to - from) && semaphore == old(semaphore) + (to - from)
    {
      for i := from to to
        invariant log == old(log) + Posts(post[from..i], code)
        invariant numAvailable == old(numAvailable) && semaphore == old(semaphore)
      {
        log := log + [Post(post[i], code)];
        assert Posts(post[from..i + 1], code) == Posts(post[from..i], code) + [Post(post[i], code)];
      }
      numAvailable := numAvailable + (to - from);
      semaphore := semaphore + (to - from);
    }

    /** One turn of the retry loop: r is the result of io_submit on post[n - remaining..n]. */
    method Round(post: array<Job>, n: nat, remaining: nat, r: int) returns (left: nat, again: bool)
      requires 0 < remaining <= n <= post.Length
      modifies this`kernel, this`log, this`numAvailable, this`semaphore, this`numSubmitted
      ensures var fatal, took := Aborts(r), Took(r, remaining);
              var back := if fatal then remaining else if took == remaining then 0 else took;
              && left == remaining - took && again == (left > 0 && !fatal)
              && kernel == old(kernel) + post[n - remaining..n - left] && numSubmitted == old(numSubmitted) + took
              && log == old(log) + (if fatal then Posts(post[n - remaining..n], r) else [])
              && numAvailable == old(numAvailable) + back && semaphore == old(semaphore) + back
    {
      hide Posts;
      if r < 0 {
        if r == -EINTR || r == -EAGAIN {
          return remaining, true;
        }
        Fail(post, n - remaining, n, r);
        return remaining, false;
      }
      var took := Min(r, remaining);
      kernel := kernel + post[n - remaining..n - remaining + took];
      numSubmitted := numSubmitted + took;
      if took == remaining {
        return 0, false;
      }
      numAvailable := numAvailable + took;
      semaphore := semaphore + took;
      return remaining - took, true;
    }

    /** The retry loop; rs[k] is the result of the k-th io_submit. */
    method Offer(post: array<Job>, n: nat, rs: seq<int>) returns (remaining: nat)
      requires 0 < n <= post.Length && |rs| == TRIES
      modifies this`kernel, this`log, this`numAvailable, this`semaphore, this`numSubmitted
      ensures var a := Retry(rs, n);
              var extra := if a.fatal.Some? then n - a.taken else 0;
              && remaining == n - a.taken
              && kernel == old(kernel) + post[..a.taken]
              && log == old(log) + (if a.fatal.Some? then Posts(post[a.taken..n], a.fatal.value) else [])
              && numAvailable == old(numAvailable) + a.early + extra && semaphore == old(semaphore) + a.early + extra
              && numSubmitted == old(numSubmitted) + a.taken
    {
      hide Posts, Retry, Aborts, Took;
      ghost var goal, jobs := Retry(rs, n), post[..];
      remaining := n;
      var tries, k := TRIES, 0;
      ghost var early: nat := 0;
      while tries > 0
        invariant 0 <= tries <= TRIES && k == TRIES - tries && 0 < remaining <= n
        invariant post[..] == jobs && kernel == old(kernel) + jobs[..n - remaining] && log == old(log)
        invariant numAvailable == old(numAvailable) + early && semaphore == old(semaphore) + early
        invariant numSubmitted == old(numSubmitted) + (n - remaining)
        invariant var a := Retry(rs[k..], remaining); goal == Attempt(n - remaining + a.taken, early + a.early, a.fatal)
        decreases tries
      {
        tries := tries - 1;
        var r := rs[k];
        k := k + 1;
        RetryStep(rs, k - 1, remaining);
        ghost var before := remaining;
        var again;
        remaining, again := Round(post, n, remaining, r);
        Joined(old(kernel), jobs, n - before, before - remaining);
        if !again {
          return;
        }
        early := early + (before - remaining);
      }
      RetryStep(rs, k, remaining);
    }

    /**
     * ProcessRequestQueue once ctxCond_ lets it through. The kernel gets a prefix of the batch in
     * queue order, each job once; the rest is failed with -EINVAL, after a fatal error for the
     * second time; the result is the length of the prefix.
     */
    method ProcessRequestQueue(rs: seq<int>) returns (submitted: nat)
      requires 0 <= numAvailable <= depth && semaphore > 0 && |rs| == TRIES
      modifies this
      ensures var k := Min(|old(requestQueue)|, old(numAvailable));
              var batch, a := old(requestQueue)[..k], Retry(rs, k);
              var untaken := batch[a.taken..];
              && submitted == a.taken && numSubmitted == old(numSubmitted) + a.taken
              && requestQueue == old(requestQueue)[k..] && requestQueueSize == old(requestQueueSize) - k
              && kernel == old(kernel) + batch[..a.taken]
              && log == old(log) + (if a.fatal.Some? then Posts(untaken, a.fatal.value) else [])
                        + Posts(untaken, -EINVAL)
              && numAvailable == old(numAvailable) - a.taken + a.early + (if a.fatal.Some? then |untaken| else 0)
              && semaphore - old(semaphore) == numAvailable - old(numAvailable)
      ensures var batch := old(requestQueue)[..Min(|old(requestQueue)|, old(numAvailable))];
              && submitted <= |batch| && kernel == old(kernel) + batch[..submitted]
              && Submits(rs, batch, submitted, old(log), log, numAvailable - old(numAvailable) + submitted)
              && (batch == [] ==> log == old(log))
              && (forall i | |old(log)| <= i < |log| :: log[i].code != -4 && log[i].code != -11)
    {
      hide Retry, Posts, Submits;
      semaphore := semaphore - 1;
      semaphore := semaphore + 1;
      var post := new Job[depth];
      ghost var q := requestQueue;
      var n := Collect(post);
      ghost var batch, a := q[..n], Retry(rs, n);
      var remaining := n;
      if n > 0 {
        remaining := Offer(post, n, rs);
        assert post[..a.taken] == batch[..a.taken] && post[a.taken..n] == batch[a.taken..];
        if remaining > 0 {
          Fail(post, n - remaining, n, -EINVAL);
        }
      }
      RetrySubmits(rs, batch, old(log));
      assert log == old(log) + (if a.fatal.Some? then Posts(batch[a.taken..], a.fatal.value) else [])
                    + Posts(batch[a.taken..], -EINVAL);
      if batch != [] {
        NoTransientPost(rs, batch, n - remaining, old(log), log, numAvailable - old(numAvailable) + n - remaining);
      }
      return n - remaining;
    }
  }

  lemma {:induction false} FindFatal(rs: seq<int>) returns (e: nat)
    ensures FirstFatal(rs, e)
  {
    if rs == [] || (rs[0] < 0 && rs[0] != -4 && rs[0] != -11) {
      return 0;
    }
    var k := FindFatal(rs[1..]);
    return k + 1;
  }

  lemma {:induction false} SummedGrows(rs: seq<int>, a: nat, b: nat)
    requires a <= b <= |rs|
    ensures Summed(rs[..a]) <= Summed(rs[..b])
  {
    if a > 0 {
      SummedStep(rs, a);
      SummedStep(rs, b);
      SummedGrows(rs[1..], a - 1, b - 1);
    }
  }

  lemma {:induction false} SummedTo(rs: seq<int>, k: nat)
    requires k < |rs| && forall i | 0 <= i < k :: rs[i] in {-4, -11, 0}
    ensures Summed(rs[..k]) == 0 && Summed(rs[..k + 1]) == if rs[k] > 0 then rs[k] else 0
  {
    SummedStep(rs, k + 1);
    if k > 0 {
      SummedStep(rs, k);
      SummedTo(rs[1..], k - 1);
    } else {
      NothingSummed(rs[1..]);
    }
  }

  lemma {:induction false} NoneSummed(rs: seq<int>, k: nat)
    requires k <= |rs| && forall i | 0 <= i < k :: rs[i] in {-4, -11, 0}
    ensures Summed(rs[..k]) == 0
  {
    if k > 0 {
      SummedTo(rs, k - 1);
    }
  }

  /** EINTR, EAGAIN and 0 only cost a try: if a later round takes all, the batch is submitted and nothing is posted. */
  lemma TransientThenAll(rs: seq<int>, batch: seq<Job>, submitted: nat, was: seq<Post>, now: seq<Post>, back: int,
                         k: nat)
    requires batch != [] && Submits(rs, batch, submitted, was, now, back)
    requires k < |rs| && rs[k] >= |batch| && (forall i | 0 <= i < k :: rs[i] in {-4, -11, 0})
    ensures submitted == |batch| && now == was && back == 0
  {
    hide Summed;
    var e := FindFatal(rs);
    assert k < e;
    SummedTo(rs, k);
    SummedGrows(rs, k + 1, e);
    assert SubmitsBefore(rs, batch, submitted, was, now, back, e);
    var j: nat :| LastRound(rs, |batch|, e, j) && back == Summed(rs[..j]) + 0;
    if j > k {
      SummedGrows(rs, k + 1, j);
    } else {
      SummedGrows(rs, j, k);
    }
  }

  /** If all results are of that kind, each job is posted exactly once, with EINVAL. */
  lemma OnlyTransient(rs: seq<int>, batch: seq<Job>, submitted: nat, was: seq<Post>, now: seq<Post>, back: int)
    requires batch != [] && Submits(rs, batch, submitted, was, now, back)
    requires forall i | 0 <= i < |rs| :: rs[i] in {-4, -11, 0}
    ensures submitted == 0 && back == 0 && |now| == |was| + |batch| && now[..|was|] == was
    ensures forall i | 0 <= i < |batch| :: now[|was| + i] == Post(batch[i], -22)
  {
    hide Summed;
    var e := |rs|;
    assert FirstFatal(rs, e) && SubmitsBefore(rs, batch, submitted, was, now, back, e);
    forall j | 0 <= j <= e
      ensures Summed(rs[..j]) == 0
    {
      NoneSummed(rs, j);
    }
  }

  /** No post of a call carries EINTR or EAGAIN. */
  lemma NoTransientPost(rs: seq<int>, batch: seq<Job>, submitted: nat, was: seq<Post>, now: seq<Post>, back: int)
    requires batch != [] && Submits(rs, batch, submitted, was, now, back)
    ensures forall i | |was| <= i < |now| :: now[i].code != -4 && now[i].code != -11
  {
    hide Summed;
    var e := FindFatal(rs);
    assert SubmitsBefore(rs, batch, submitted, was, now, back, e);
    var jobs, n := batch[submitted..], |batch| - submitted;
    forall i | |was| <= i < |now|
      ensures now[i].code != -4 && now[i].code != -11
    {
      if i >= |now| - n {
        var k := i - (|now| - n);
        assert now[|now| - n + k] == Post(jobs[k], -22);
      } else {
        var k := i - |was|;
        assert now[|was| + k] == Post(jobs[k], rs[e]);
      }
    }
  }

  /** Slots and kernel jobs still add up after a call exactly when no result was partial or fatal. */
  lemma SlotsConservedIff(rs: seq<int>, k: nat)
    ensures var a := Retry(rs, k);
            var change: int := a.early + (if a.fatal.Some? then k - a.taken else 0) - a.taken;
            && change + a.taken >= 0
            && (change + a.taken == 0 <==> Clean(rs, k))
  {
    CleanIff(rs, k);
  }

  /** Every untaken job is post-processed once, except that a fatal error makes it twice. */
  lemma {:induction false} PostedOnce(jobs: seq<Job>, code: int, j: Job)
    requires forall i, k | 0 <= i < k < |jobs| :: jobs[i] != jobs[k]
    ensures Count(Posts(jobs, code), j) == if j in jobs then 1 else 0
    decreases jobs
  {
    if jobs != [] {
      var rest := jobs[1..];
      PostedOnce(rest, code, j);
      assert Posts(jobs, code) == [Post(jobs[0], code)] + Posts(rest, code);
      assert jobs == [jobs[0]] + rest;
    }
  }

  function Count(log: seq<Post>, j: Job): nat {
    if log == [] then 0 else (if log[0].job == j then 1 else 0) + Count(log[1..], j)
  }

  lemma {:induction false} CountJoins(a: seq<Post>, b: seq<Post>, j: Job)
    ensures Count(a + b, j) == Count(a, j) + Count(b, j)
    decreases a
  {
    if a == [] {
      assert a + b == b;
    } else {
      CountJoins(a[1..], b, j);
      assert (a + b)[1..] == a[1..] + b;
    }
  }

  /** The posts of one call: no job more than once exactly when no fatal error left jobs untaken. */
  lemma OnceIffNotFatal(batch: seq<Job>, rs: seq<int>)
    requires forall i, k | 0 <= i < k < |batch| :: batch[i] != batch[k]
    ensures var a := Retry(rs, |batch|);
            var untaken := batch[a.taken..];
            var posts := (if a.fatal.Some? then Posts(untaken, a.fatal.value) else []) + Posts(untaken, -EINVAL);
            && (forall j :: Count(posts, j) == if j !in untaken then 0 else if a.fatal.Some? then 2 else 1)
            && ((forall j :: Count(posts, j) <= 1) <==> a.fatal.None?)
  {
    var a := Retry(rs, |batch|);
    var untaken := batch[a.taken..];
    var posts := (if a.fatal.Some? then Posts(untaken, a.fatal.value) else []) + Posts(untaken, -EINVAL);
    forall j: Job
      ensures Count(posts, j) == if j !in untaken then 0 else if a.fatal.Some? then 2 else 1
    {
      PostedOnce(untaken, -EINVAL, j);
      if a.fatal.Some? {
        PostedOnce(untaken, a.fatal.value, j);
        CountJoins(Posts(untaken, a.fatal.value), Posts(untaken, -EINVAL), j);
      } else {
        assert posts == Posts(untaken, -EINVAL);
      }
    }
    if a.fatal.Some? {
      assert Count(posts, untaken[0]) == 2;
    }
  }
}
