/**
 * The job executor: a thread pool whose bounded semaphore limits either the jobs that are queued
 * and running (blocking submit), or the jobs that run and the results nobody has collected yet.
 */
module JobExecutor {
  import opened Arithmetic

  /**
   * Life of a job. A `Waiting` job is on a worker and about to acquire the semaphore; a `Released`
   * one has given its permit back and is about to end. `Collected` and `Dropped` jobs have been
   * yielded, with their result and as a cancelled job.
   */
  datatype Job = Queued | Waiting | Running | Released | Done | Cancelled | Collected | Dropped

  datatype Pool = Pool(blocking: bool, workers: Pos, permits: nat, jobs: seq<Job>, yielded: seq<nat>)

  function Limit(p: Pool): nat {
    2 * p.workers + 1
  }

  datatype Event =
    | Submit
    | Start(k: nat)
    | Acquire(k: nat)
    | Release(k: nat)
    | Finish(k: nat)
    | Cancel(k: nat)
    | Collect(k: nat)

  // ---------------------------------------------------------------- counting jobs

  /**
   * Groups of jobs: those on a worker, those that hold a permit, those of one state, and those that
   * have been yielded. With blocking submit a job holds its permit from submission until it releases
   * it, and for good if it is cancelled; otherwise it holds one from its start until its collection.
   */
  datatype Group = OnWorker | WithPermit(blocking: bool) | Is(state: Job) | Yielded

  predicate In(j: Job, g: Group) {
    match g
    case OnWorker => j.Waiting? || j.Running? || j.Released?
    case WithPermit(true) => j.Queued? || j.Running? || j.Cancelled? || j.Dropped?
    case WithPermit(false) => j.Running? || j.Done?
    case Is(state) => j == state
    case Yielded => j.Collected? || j.Dropped?
  }

  function One(j: Job, g: Group): nat {
    if In(j, g) then 1 else 0
  }

  function Count(jobs: seq<Job>, g: Group): (n: nat)
    ensures n <= |jobs|
  {
    if jobs == [] then 0 else Count(jobs[..|jobs| - 1], g) + One(jobs[|jobs| - 1], g)
  }

  lemma {:induction false} CountUpdate(jobs: seq<Job>, k: nat, j: Job, g: Group)
    requires k < |jobs|
    ensures Count(jobs[k := j], g) + One(jobs[k], g) == Count(jobs, g) + One(j, g)
  {
    var n := |jobs| - 1;
    if k == n {
      assert jobs[k := j][..n] == jobs[..n];
    } else {
      CountUpdate(jobs[..n], k, j, g);
      assert jobs[k := j][..n] == jobs[..n][k := j];
    }
  }

  lemma {:induction false} CountFind(jobs: seq<Job>, g: Group) returns (k: nat)
    requires Count(jobs, g) > 0
    ensures k < |jobs| && In(jobs[k], g)
  {
    k := |jobs| - 1;
    if !In(jobs[k], g) {
      k := CountFind(jobs[..k], g);
    }
  }

  lemma {:induction false} CountSome(jobs: seq<Job>, g: Group, k: nat)
    requires k < |jobs| && In(jobs[k], g)
    ensures Count(jobs, g) > 0
  {
    if k < |jobs| - 1 {
      CountSome(jobs[..|jobs| - 1], g, k);
    }
  }

  // ---------------------------------------------------------------- steps

  predicate InState(p: Pool, k: nat, j: Job) {
    k < |p.jobs| && p.jobs[k] == j
  }

  predicate Enabled(p: Pool, e: Event) {
    match e
    case Submit => p.blocking ==> p.permits > 0
    case Start(k) => InState(p, k, Queued) && Count(p.jobs, OnWorker) < p.workers
    case Acquire(k) => InState(p, k, Waiting) && p.permits > 0
    case Release(k) => InState(p, k, Running) && p.blocking
    case Finish(k) => InState(p, k, if p.blocking then Released else Running)
    case Cancel(k) => InState(p, k, Queued)
    case Collect(k) => InState(p, k, Done) || InState(p, k, Cancelled)
  }

  function Set(p: Pool, k: nat, j: Job): Pool
    requires k < |p.jobs|
  {
    p.(jobs := p.jobs[k := j])
  }

  /** The state after an event; a release adds a permit, whether or not the semaphore has room for it. */
  function Next(p: Pool, e: Event): Pool
    requires Enabled(p, e)
  {
    match e
    case Submit => p.(jobs := p.jobs + [Queued], permits := if p.blocking then p.permits - 1 else p.permits)
    case Start(k) => Set(p, k, if p.blocking then Running else Waiting)
    case Acquire(k) => Set(p, k, Running).(permits := p.permits - 1)
    case Release(k) => Set(p, k, Released).(permits := p.permits + 1)
    case Finish(k) => Set(p, k, Done)
    case Cancel(k) => Set(p, k, Cancelled)
    case Collect(k) =>
      var release := !p.blocking && p.jobs[k] != Cancelled;
      Set(p, k, if p.jobs[k] == Done then Collected else Dropped)
        .(permits := if release then p.permits + 1 else p.permits, yielded := p.yielded + [k])
  }

  // ---------------------------------------------------------------- invariant

  /** A job has been yielded once if it was collected, and not at all otherwise. */
  ghost predicate YieldedOnce(p: Pool) {
    forall k: nat :: multiset(p.yielded)[k] == if k < |p.jobs| && In(p.jobs[k], Yielded) then 1 else 0
  }

  /** Free permits and jobs that hold one add up to the semaphore's limit. */
  ghost predicate Conserved(p: Pool) {
    p.permits + Count(p.jobs, WithPermit(p.blocking)) == Limit(p)
  }

  ghost predicate Inv(p: Pool) {
    && Conserved(p)
    && Count(p.jobs, OnWorker) <= p.workers
    && YieldedOnce(p)
    && Modal(p)
  }

  lemma {:induction false} InitInv(blocking: bool, workers: Pos)
    ensures Inv(Pool(blocking, workers, 2 * workers + 1, [], []))
  {
  }

  lemma {:induction false} CountStep(p: Pool, e: Event, g: Group)
    requires Enabled(p, e)
    ensures Count(Next(p, e).jobs, g) ==
            if e.Submit? then Count(p.jobs, g) + One(Queued, g)
            else Count(p.jobs, g) - One(p.jobs[e.k], g) + One(Next(p, e).jobs[e.k], g)
  {
    hide In;
    var next := Next(p, e);
    if e.Submit? {
      assert (p.jobs + [Queued])[..|p.jobs|] == p.jobs;
    } else {
      assert next.jobs == p.jobs[e.k := next.jobs[e.k]];
      CountUpdate(p.jobs, e.k, next.jobs[e.k], g);
    }
  }

  /** In blocking mode no job waits on a worker, otherwise none is between release and end. */
  ghost predicate Modal(p: Pool) {
    Count(p.jobs, Is(if p.blocking then Waiting else Released)) == 0
  }

  lemma {:induction false} ModalStep(p: Pool, e: Event)
    requires Modal(p) && Enabled(p, e)
    ensures Modal(Next(p, e)) && (p.blocking ==> !e.Acquire?)
  {
    hide Count;
    var g := Is(if p.blocking then Waiting else Released);
    CountStep(p, e, g);
    if e.Acquire? {
      CountSome(p.jobs, Is(Waiting), e.k);
    }
  }

  lemma {:induction false} ConservedStep(p: Pool, e: Event)
    requires Conserved(p) && Enabled(p, e) && (p.blocking ==> !e.Acquire?)
    ensures Conserved(Next(p, e)) && Next(p, e).permits <= Limit(p)
  {
    hide Count;
    CountStep(p, e, WithPermit(p.blocking));
  }

  lemma {:induction false} WorkersStep(p: Pool, e: Event)
    requires Count(p.jobs, OnWorker) <= p.workers && Enabled(p, e)
    ensures Count(Next(p, e).jobs, OnWorker) <= p.workers
  {
    hide Count;
    CountStep(p, e, OnWorker);
  }

  lemma {:induction false} YieldedStep(p: Pool, e: Event)
    requires YieldedOnce(p) && Enabled(p, e)
    ensures YieldedOnce(Next(p, e))
  {
    hide Count;
    var next := Next(p, e);
    if e.Collect? {
      assert next.yielded == p.yielded + [e.k];
      assert multiset(next.yielded) == multiset(p.yielded) + multiset{e.k};
    }
    forall k: nat ensures multiset(next.yielded)[k] == if k < |next.jobs| && In(next.jobs[k], Yielded) then 1 else 0 {
    }
  }

  /** Every step keeps the invariant; in particular no release overflows the bounded semaphore. */
  lemma {:induction false} StepKeeps(p: Pool, e: Event)
    requires Inv(p) && Enabled(p, e)
    ensures Inv(Next(p, e)) && Next(p, e).permits <= Limit(p)
    ensures Next(p, e).blocking == p.blocking && Next(p, e).workers == p.workers
  {
    hide Modal, Conserved, YieldedOnce, Count;
    ModalStep(p, e);
    ConservedStep(p, e);
    WorkersStep(p, e);
    YieldedStep(p, e);
  }

  // ---------------------------------------------------------------- runs

  /** The events can happen one after another. */
  predicate Possible(p: Pool, es: seq<Event>)
    decreases |es|
  {
    es == [] || (Enabled(p, es[0]) && Possible(Next(p, es[0]), es[1..]))
  }

  function After(p: Pool, es: seq<Event>): Pool
    requires Possible(p, es)
    decreases |es|
  {
    if es == [] then p else After(Next(p, es[0]), es[1..])
  }

  /** The invariant holds after every run. */
  lemma {:induction false} RunKeeps(p: Pool, es: seq<Event>)
    requires Inv(p) && Possible(p, es)
    ensures Inv(After(p, es))
    decreases |es|
  {
    hide Inv;
    if es != [] {
      StepKeeps(p, es[0]);
      RunKeeps(Next(p, es[0]), es[1..]);
    }
  }

  lemma {:induction false} CountSub(jobs: seq<Job>, g: Group, h: Group)
    requires forall j :: In(j, g) ==> In(j, h)
    ensures Count(jobs, g) <= Count(jobs, h)
  {
    if jobs != [] {
      CountSub(jobs[..|jobs| - 1], g, h);
    }
  }

  /** Without blocking submit, at most the semaphore's limit of results wait to be collected. */
  lemma {:induction false} ResultsBounded(p: Pool)
    requires Inv(p) && !p.blocking
    ensures Count(p.jobs, Is(Done)) <= 2 * p.workers + 1
  {
    CountSub(p.jobs, Is(Done), WithPermit(false));
  }

  /** With blocking submit, at most the semaphore's limit of jobs are queued or running. */
  lemma {:induction false} QueueBounded(p: Pool)
    requires Inv(p) && p.blocking
    ensures Count(p.jobs, Is(Queued)) <= 2 * p.workers + 1
  {
    CountSub(p.jobs, Is(Queued), WithPermit(true));
  }

  // ---------------------------------------------------------------- progress

  /** Events of the workers and of a caller that only collects. */
  predicate Draining(e: Event) {
    !e.Submit? && !e.Cancel?
  }

  predicate AllYielded(p: Pool) {
    forall k :: 0 <= k < |p.jobs| ==> In(p.jobs[k], Yielded)
  }

  /** The event that the caller or a worker can do for the sake of job `k`, which has not been yielded. */
  lemma {:induction false} ProgressFor(p: Pool, k: nat) returns (e: Event)
    requires Inv(p) && k < |p.jobs| && !In(p.jobs[k], Yielded)
    ensures Draining(e) && Enabled(p, e)
  {
    hide Count;
    if p.jobs[k].Done? || p.jobs[k].Cancelled? {
      e := Collect(k);
    } else if Count(p.jobs, OnWorker) == 0 {
      if p.jobs[k].Queued? {
        e := Start(k);
      } else {
        CountSome(p.jobs, OnWorker, k);
        assert false;
      }
    } else {
      e := WorkerEvent(p);
    }
  }

  /** If some job is on a worker, a worker can go on or a result can be collected. */
  lemma {:induction false} WorkerEvent(p: Pool) returns (e: Event)
    requires Inv(p) && Count(p.jobs, OnWorker) > 0
    ensures Draining(e) && Enabled(p, e)
  {
    hide Count;
    var k := CountFind(p.jobs, OnWorker);
    if p.jobs[k].Running? {
      e := if p.blocking then Release(k) else Finish(k);
    } else if p.blocking {
      if p.jobs[k].Waiting? { CountSome(p.jobs, Is(Waiting), k); }
      e := Finish(k);
    } else {
      if p.jobs[k].Released? { CountSome(p.jobs, Is(Released), k); }
      if p.permits > 0 {
        e := Acquire(k);
      } else {
        var h := CountFind(p.jobs, WithPermit(false));
        e := if p.jobs[h].Running? then Finish(h) else Collect(h);
      }
    }
  }

  /** A caller that drains the executor never deadlocks, even after jobs were cancelled. */
  lemma {:induction false} NoDeadlock(p: Pool)
    requires Inv(p) && !AllYielded(p)
    ensures exists e :: Draining(e) && Enabled(p, e)
  {
    var k :| 0 <= k < |p.jobs| && !In(p.jobs[k], Yielded);
    var e := ProgressFor(p, k);
  }

  /** Steps that a job has ahead of it. */
  function Rank(j: Job): nat {
    match j
    case Queued => 5
    case Waiting => 4
    case Running => 3
    case Released => 2
    case Done => 1
    case Cancelled => 1
    case _ => 0
  }

  function Ahead(jobs: seq<Job>): nat {
    if jobs == [] then 0 else Ahead(jobs[..|jobs| - 1]) + Rank(jobs[|jobs| - 1])
  }

  lemma {:induction false} AheadUpdate(jobs: seq<Job>, k: nat, j: Job)
    requires k < |jobs|
    ensures Ahead(jobs[k := j]) + Rank(jobs[k]) == Ahead(jobs) + Rank(j)
  {
    var n := |jobs| - 1;
    if k == n {
      assert jobs[k := j][..n] == jobs[..n];
    } else {
      AheadUpdate(jobs[..n], k, j);
      assert jobs[k := j][..n] == jobs[..n][k := j];
    }
  }

  lemma {:induction false} StepGoesAhead(p: Pool, e: Event)
    requires Enabled(p, e) && !e.Submit?
    ensures Ahead(Next(p, e).jobs) < Ahead(p.jobs)
  {
    hide Count;
    var next := Next(p, e);
    assert next.jobs == p.jobs[e.k := next.jobs[e.k]];
    AheadUpdate(p.jobs, e.k, next.jobs[e.k]);
  }

  ghost predicate NoSubmit(es: seq<Event>) {
    forall i :: 0 <= i < |es| ==> !es[i].Submit?
  }

  /**
   * Draining ends: without further submissions a run has at most as many steps as the jobs have
   * ahead of them, and a run that cannot go on has yielded every job exactly once. All permits are
   * then free, except, with blocking submit, those of jobs that were cancelled.
   */
  lemma {:induction false} DrainEnds(p: Pool, es: seq<Event>)
    requires Inv(p) && Possible(p, es) && NoSubmit(es)
    ensures |es| + Ahead(After(p, es).jobs) <= Ahead(p.jobs)
    ensures (forall e :: Draining(e) ==> !Enabled(After(p, es), e)) ==>
              var q := After(p, es);
              && AllYielded(q)
              && (forall k: nat :: k < |q.jobs| ==> multiset(q.yielded)[k] == 1)
              && q.permits == Limit(q) - if q.blocking then Count(q.jobs, Is(Dropped)) else 0
  {
    RunSteps(p, es);
    RunKeeps(p, es);
    var q := After(p, es);
    if forall e :: Draining(e) ==> !Enabled(q, e) {
      Drained(q);
    }
  }

  lemma {:induction false} RunSteps(p: Pool, es: seq<Event>)
    requires Possible(p, es) && NoSubmit(es)
    ensures |es| + Ahead(After(p, es).jobs) <= Ahead(p.jobs)
    decreases |es|
  {
    hide Enabled, Next;
    if es != [] {
      StepGoesAhead(p, es[0]);
      RunSteps(Next(p, es[0]), es[1..]);
    }
  }

  lemma {:induction false} CountSame(jobs: seq<Job>, g: Group, h: Group)
    requires forall k :: 0 <= k < |jobs| ==> (In(jobs[k], g) <==> In(jobs[k], h))
    ensures Count(jobs, g) == Count(jobs, h)
  {
    if jobs != [] {
      CountSame(jobs[..|jobs| - 1], g, h);
    }
  }

  lemma {:induction false} Drained(q: Pool)
    requires Inv(q) && forall e :: Draining(e) ==> !Enabled(q, e)
    ensures AllYielded(q)
    ensures forall k: nat :: k < |q.jobs| ==> multiset(q.yielded)[k] == 1
    ensures q.permits == Limit(q) - if q.blocking then Count(q.jobs, Is(Dropped)) else 0
  {
    hide Count, Enabled;
    if !AllYielded(q) {
      NoDeadlock(q);
    }
    if q.blocking {
      CountSame(q.jobs, WithPermit(true), Is(Dropped));
    } else if Count(q.jobs, WithPermit(false)) > 0 {
      var k := CountFind(q.jobs, WithPermit(false));
    }
  }

  predicate ByWorker(e: Event) {
    e.Start? || e.Acquire? || e.Release? || e.Finish?
  }

  predicate NoneCancelled(p: Pool) {
    forall k :: 0 <= k < |p.jobs| ==> !p.jobs[k].Cancelled? && !p.jobs[k].Dropped?
  }

  /** A submit that has to wait can count on a worker, as long as no job was cancelled. */
  lemma {:induction false} BlockedSubmitIsServed(p: Pool)
    requires Inv(p) && p.blocking && p.permits == 0
    requires NoneCancelled(p)
    ensures exists e: Event :: ByWorker(e) && Enabled(p, e)
  {
    hide Count;
    var h := CountFind(p.jobs, WithPermit(true));
    if p.jobs[h].Running? {
      assert Enabled(p, Release(h));
    } else if Count(p.jobs, OnWorker) < p.workers {
      assert Enabled(p, Start(h));
    } else {
      var k := CountFind(p.jobs, OnWorker);
      if p.jobs[k].Waiting? { CountSome(p.jobs, Is(Waiting), k); }
      assert Enabled(p, if p.jobs[k].Running? then Release(k) else Finish(k));
    }
  }

  // ---------------------------------------------------------------- the executor

  lemma {:induction false} WorkerStep(p: Pool, e: Event)
    requires Inv(p) && Enabled(p, e) && ByWorker(e)
    ensures Inv(Next(p, e)) && Served(p, Next(p, e)) && Ahead(Next(p, e).jobs) < Ahead(p.jobs)
  {
    hide Count, Inv;
    StepKeeps(p, e);
    StepGoesAhead(p, e);
  }

  /** What workers leave as it is: the jobs submitted, those yielded or cancelled, and the results collected. */
  ghost predicate Served(p: Pool, q: Pool) {
    && q.blocking == p.blocking && q.workers == p.workers && |q.jobs| == |p.jobs| && q.yielded == p.yielded
    && (forall k :: 0 <= k < |p.jobs| ==> (q.jobs[k].Cancelled? <==> p.jobs[k].Cancelled?))
    && (forall k :: 0 <= k < |p.jobs| ==> (In(q.jobs[k], Yielded) <==> In(p.jobs[k], Yielded)))
    && (forall k :: 0 <= k < |p.jobs| ==> (q.jobs[k].Dropped? <==> p.jobs[k].Dropped?))
    && (forall k :: 0 <= k < |p.jobs| && q.jobs[k].Queued? ==> p.jobs[k].Queued?)
  }

  /** The next event in the life of job `k`, other than its cancellation. */
  function Move(p: Pool, k: nat): Event
    requires k < |p.jobs|
  {
    match p.jobs[k]
    case Queued => Start(k)
    case Waiting => Acquire(k)
    case Running => if p.blocking then Release(k) else Finish(k)
    case Released => Finish(k)
    case _ => Collect(k)
  }

  predicate CanWork(p: Pool, k: nat) {
    k < |p.jobs| && ByWorker(Move(p, k)) && Enabled(p, Move(p, k))
  }

  predicate CanCollect(p: Pool, k: nat) {
    Enabled(p, Collect(k))
  }

  lemma {:induction false} EventIsMove(p: Pool, e: Event)
    requires Draining(e) && Enabled(p, e)
    ensures CanWork(p, e.k) || CanCollect(p, e.k)
    ensures ByWorker(e) ==> CanWork(p, e.k)
  {
  }

  lemma {:induction false} CollectIs(p: Pool, k: nat)
    requires CanCollect(p, k)
    ensures var q := Next(p, Collect(k));
            && q.yielded == p.yielded + [k] && |q.jobs| == |p.jobs|
            && q.blocking == p.blocking && q.workers == p.workers
  {
  }

  /** Collecting a job changes that job alone, and to a yielded one. */
  lemma {:induction false} CollectedIs(p: Pool, k: nat)
    requires CanCollect(p, k)
    ensures var q := Next(p, Collect(k));
            && In(q.jobs[k], Yielded)
            && forall j :: 0 <= j < |p.jobs| && j != k ==> q.jobs[j] == p.jobs[j]
  {
  }

  lemma {:induction false} EachOnce(p: Pool)
    requires Inv(p) && AllYielded(p)
    ensures forall k: nat :: k < |p.jobs| ==> multiset(p.yielded)[k] == 1
  {
  }

  /** With blocking submit, a job on a worker never has to wait. */
  lemma {:induction false} BusyCanGoOn(p: Pool, k: nat)
    requires Inv(p) && p.blocking && k < |p.jobs| && In(p.jobs[k], OnWorker)
    ensures CanWork(p, k)
  {
    hide Count;
    if p.jobs[k].Waiting? { CountSome(p.jobs, Is(Waiting), k); }
  }

  lemma {:induction false} CancelledHold(jobs: seq<Job>)
    requires forall k :: 0 <= k < |jobs| ==> jobs[k].Done? || jobs[k].Cancelled? || In(jobs[k], Yielded)
    ensures Count(jobs, WithPermit(true)) == Count(jobs, Is(Cancelled)) + Count(jobs, Is(Dropped))
  {
    if jobs != [] {
      CancelledHold(jobs[..|jobs| - 1]);
    }
  }

  lemma {:induction false} AllEnded(p: Pool)
    requires Inv(p) && (!p.blocking ==> AllYielded(p))
    requires forall k :: 0 <= k < |p.jobs| ==> p.jobs[k].Done? || p.jobs[k].Cancelled? || In(p.jobs[k], Yielded)
    ensures !p.blocking ==> p.permits == Limit(p)
    ensures p.blocking ==> p.permits + Count(p.jobs, Is(Cancelled)) + Count(p.jobs, Is(Dropped)) == Limit(p)
  {
    hide Count;
    if p.blocking {
      CancelledHold(p.jobs);
    } else if Count(p.jobs, WithPermit(false)) > 0 {
      var k := CountFind(p.jobs, WithPermit(false));
    }
  }

  // ---------------------------------------------------------------- iterating over completed jobs

  /** The jobs that an iteration has yet to yield; it learns of them when it starts. */
  ghost predicate Snapshot(p: Pool, waiting: set<nat>) {
    forall k :: k in waiting ==> k < |p.jobs| && !In(p.jobs[k], Yielded)
  }

  /** No job was submitted since the iteration started. */
  ghost predicate Covers(p: Pool, waiting: set<nat>) {
    forall k: nat :: k < |p.jobs| && !In(p.jobs[k], Yielded) ==> k in waiting
  }

  /** Neither can a worker go on, nor is there a result that the iteration can yield. */
  ghost predicate Stuck(p: Pool, waiting: set<nat>) {
    (forall k: nat :: k < |p.jobs| ==> !CanWork(p, k)) && forall k :: k in waiting ==> !CanCollect(p, k)
  }

  /** With blocking submit, or as long as no job is submitted in between, an iteration never gets stuck. */
  lemma {:induction false} IterationProgress(p: Pool, waiting: set<nat>)
    requires Inv(p) && Snapshot(p, waiting) && waiting != {} && (p.blocking || Covers(p, waiting))
    ensures !Stuck(p, waiting)
  {
    hide Count;
    var k :| k in waiting;
    var e := ProgressFor(p, k);
    EventIsMove(p, e);
    if p.blocking && !CanCollect(p, k) {
      BlockingProgress(p, k);
    }
  }

  lemma {:induction false} BlockingProgress(p: Pool, k: nat)
    requires Inv(p) && p.blocking && k < |p.jobs| && !In(p.jobs[k], Yielded) && !CanCollect(p, k)
    ensures exists j: nat :: j < |p.jobs| && CanWork(p, j)
  {
    hide Count;
    if Count(p.jobs, OnWorker) == 0 {
      if p.jobs[k].Queued? {
        assert CanWork(p, k);
      } else {
        CountSome(p.jobs, OnWorker, k);
        assert false;
      }
    } else {
      var j := CountFind(p.jobs, OnWorker);
      BusyCanGoOn(p, j);
    }
  }

  // ---------------------------------------------------------------- jobs submitted during an iteration

  /** No permit is free, all are held by finished jobs that the iteration does not yield, and it waits for others. */
  ghost predicate Starved(p: Pool, waiting: set<nat>) {
    && !p.blocking && p.permits == 0
    && (forall k: nat :: k < |p.jobs| && In(p.jobs[k], WithPermit(false)) ==> p.jobs[k].Done? && k !in waiting)
    && forall k :: k in waiting ==> !InState(p, k, Cancelled)
  }

  /** An iteration is stuck if and only if it is starved, and no worker is free that could start a job. */
  lemma {:induction false} StuckIff(p: Pool, waiting: set<nat>)
    requires Inv(p) && Snapshot(p, waiting) && waiting != {}
    ensures Stuck(p, waiting) <==>
            Starved(p, waiting) && (Count(p.jobs, OnWorker) == p.workers || Count(p.jobs, Is(Queued)) == 0)
  {
    hide Inv, Count;
    if Stuck(p, waiting) {
      StuckStarves(p, waiting);
      if Count(p.jobs, OnWorker) < p.workers && Count(p.jobs, Is(Queued)) > 0 {
        QueuedStarts(p);
      }
      WorkersBounded(p);
    } else if Starved(p, waiting) {
      StarvedMoves(p, waiting);
    }
  }

  lemma {:induction false} QueuedStarts(p: Pool)
    requires Count(p.jobs, OnWorker) < p.workers && Count(p.jobs, Is(Queued)) > 0
    ensures exists k: nat :: k < |p.jobs| && CanWork(p, k)
  {
    hide Count;
    var k := CountFind(p.jobs, Is(Queued));
    assert CanWork(p, k);
  }

  lemma {:induction false} WorkersBounded(p: Pool)
    requires Inv(p)
    ensures Count(p.jobs, OnWorker) <= p.workers
  {
  }

  lemma {:induction false} StuckStarves(p: Pool, waiting: set<nat>)
    requires Inv(p) && Snapshot(p, waiting) && waiting != {} && Stuck(p, waiting)
    ensures Starved(p, waiting)
  {
    hide Count;
    if p.blocking {
      IterationProgress(p, waiting);
    }
    var k :| k in waiting;
    assert !CanWork(p, k) && !CanCollect(p, k);
    if Count(p.jobs, OnWorker) == 0 {
      if !p.jobs[k].Queued? { CountSome(p.jobs, OnWorker, k); }
    } else {
      var j := CountFind(p.jobs, OnWorker);
      assert !CanWork(p, j);
      if p.jobs[j].Released? { CountSome(p.jobs, Is(Released), j); }
    }
    forall h: nat | h < |p.jobs| && In(p.jobs[h], WithPermit(false)) ensures p.jobs[h].Done? && h !in waiting {
      assert !CanWork(p, h);
    }
    forall h | h in waiting ensures !InState(p, h, Cancelled) {
      assert !CanCollect(p, h);
    }
  }

  /** In a starved iteration, all that can go on is the start of a queued job. */
  lemma {:induction false} StarvedMoves(p: Pool, waiting: set<nat>)
    requires Inv(p) && Snapshot(p, waiting) && Starved(p, waiting)
    ensures forall k :: k in waiting ==> !CanCollect(p, k)
    ensures forall k: nat :: k < |p.jobs| && CanWork(p, k) ==>
              p.jobs[k].Queued? && Count(p.jobs, OnWorker) < p.workers && Count(p.jobs, Is(Queued)) > 0
  {
    hide Count;
    forall k: nat | k < |p.jobs| && CanWork(p, k)
      ensures p.jobs[k].Queued? && Count(p.jobs, OnWorker) < p.workers && Count(p.jobs, Is(Queued)) > 0
    {
      if p.jobs[k].Released? { CountSome(p.jobs, Is(Released), k); }
      if p.jobs[k].Queued? { CountSome(p.jobs, Is(Queued), k); }
    }
  }

  /** What goes on while an iteration waits: workers work, and others submit jobs. */
  predicate Meanwhile(es: seq<Event>) {
    forall i :: 0 <= i < |es| ==> ByWorker(es[i]) || es[i].Submit?
  }

  lemma {:induction false} StarvedStep(p: Pool, waiting: set<nat>, e: Event)
    requires Inv(p) && Snapshot(p, waiting) && Starved(p, waiting) && Enabled(p, e) && (ByWorker(e) || e.Submit?)
    ensures Snapshot(Next(p, e), waiting) && Starved(Next(p, e), waiting)
  {
    hide Count;
  }

  /** A starved iteration has nothing to yield any more, whatever workers do and whatever else is submitted. */
  lemma {:induction false} StarvedForever(p: Pool, waiting: set<nat>, es: seq<Event>)
    requires Inv(p) && Snapshot(p, waiting) && Starved(p, waiting) && Possible(p, es) && Meanwhile(es)
    ensures Starved(After(p, es), waiting) && forall k :: k in waiting ==> !CanCollect(After(p, es), k)
    decreases |es|
  {
    hide Inv, Enabled, Next, Starved, Snapshot;
    if es == [] {
      StarvedMoves(p, waiting);
    } else {
      StarvedStep(p, waiting, es[0]);
      StepKeeps(p, es[0]);
      StarvedForever(Next(p, es[0]), waiting, es[1..]);
    }
  }

  // ---------------------------------------------------------------- when an iteration can get stuck

  /** An executor that no job has been submitted to. */
  function NoJobs(blocking: bool, workers: Pos): Pool {
    Pool(blocking, workers, 2 * workers + 1, [], [])
  }

  /** Queued jobs are started in the order in which they were submitted. */
  predicate FirstInLine(p: Pool, e: Event) {
    e.Start? ==> forall i :: 0 <= i < |p.jobs| && i < e.k ==> !p.jobs[i].Queued?
  }

  predicate InOrder(p: Pool, es: seq<Event>)
    requires Possible(p, es)
    decreases |es|
  {
    es != [] ==> FirstInLine(p, es[0]) && InOrder(Next(p, es[0]), es[1..])
  }

  /** Those of the first `n` jobs that have not been yielded. */
  function Left(p: Pool, n: nat): set<nat> {
    set k | 0 <= k < n && k < |p.jobs| && !In(p.jobs[k], Yielded)
  }

  /**
   * After `es` an iteration starts. During `fs` it collects jobs that were there, jobs may be
   * submitted if `late`, and then the iteration is stuck with jobs left to yield.
   */
  ghost predicate GetsStuck(p: Pool, es: seq<Event>, fs: seq<Event>, late: bool, inOrder: bool) {
    && Possible(p, es) && Possible(After(p, es), fs) && (inOrder ==> InOrder(p, es) && InOrder(After(p, es), fs))
    && var n, q := |After(p, es).jobs|, After(After(p, es), fs);
    && (forall i :: 0 <= i < |fs| && fs[i].Collect? ==> fs[i].k < n) && (late || NoSubmit(fs))
    && Left(q, n) != {} && Stuck(q, Left(q, n))
  }

  ghost predicate CanGetStuck(blocking: bool, workers: Pos, late: bool, inOrder: bool) {
    exists es, fs :: GetsStuck(NoJobs(blocking, workers), es, fs, late, inOrder)
  }

  /**
   * An iteration can get stuck exactly if submitting does not block and jobs are submitted while it
   * goes on; if jobs are started in the order of their submission it also takes two workers.
   */
  lemma {:induction false} CanGetStuckIff(blocking: bool, workers: Pos, late: bool, inOrder: bool)
    ensures CanGetStuck(blocking, workers, late, inOrder) <==> !blocking && late && (inOrder ==> workers >= 2)
  {
    hide GetsStuck;
    if CanGetStuck(blocking, workers, late, inOrder) {
      var es, fs :| GetsStuck(NoJobs(blocking, workers), es, fs, late, inOrder);
      StuckNeeds(blocking, workers, es, fs, late, inOrder);
    }
    if !blocking && late && (inOrder ==> workers >= 2) {
      LateSubmitsDeadlock(workers, inOrder);
    }
  }

  /** Where a worker can go on at all, one can go on in the order of submission. */
  lemma {:induction false} NextInLine(p: Pool, k: nat) returns (j: nat)
    requires CanWork(p, k)
    ensures CanWork(p, j) && FirstInLine(p, Move(p, j)) && (p.jobs[k].Queued? || j == k)
    decreases k
  {
    j := k;
    if p.jobs[k].Queued? {
      if i: nat :| i < k && p.jobs[i].Queued? {
        j := NextInLine(p, i);
      }
    }
  }

  // ---------------------------------------------------------------- what it takes to get stuck

  lemma {:induction false} RunFrame(p: Pool, es: seq<Event>)
    requires Possible(p, es)
    ensures var q := After(p, es);
            && q.blocking == p.blocking && q.workers == p.workers && |q.jobs| >= |p.jobs|
            && (NoSubmit(es) ==> |q.jobs| == |p.jobs|)
    decreases |es|
  {
    hide Enabled, Next;
    if es != [] {
      StepFrame(p, es[0]);
      RunFrame(Next(p, es[0]), es[1..]);
    }
  }

  lemma {:induction false} StepFrame(p: Pool, e: Event)
    requires Enabled(p, e)
    ensures var q := Next(p, e);
            && q.blocking == p.blocking && q.workers == p.workers
            && |q.jobs| == if e.Submit? then |p.jobs| + 1 else |p.jobs|
  {
    hide Count;
  }

  /** With one worker and jobs started in order, a job that has been started finds all earlier ones ended. */
  ghost predicate OneByOne(p: Pool) {
    forall i, k :: 0 <= i < k < |p.jobs| && Begun(p.jobs[k]) ==> !p.jobs[i].Queued? && !In(p.jobs[i], OnWorker)
  }

  predicate Begun(j: Job) {
    !j.Queued? && !j.Cancelled? && !j.Dropped?
  }

  lemma {:induction false} OneByOneStep(p: Pool, e: Event)
    requires OneByOne(p) && p.workers == 1 && Enabled(p, e) && FirstInLine(p, e)
    ensures OneByOne(Next(p, e))
  {
    hide Count;
    if e.Start? {
      forall i | 0 <= i < e.k ensures !In(p.jobs[i], OnWorker) {
        if In(p.jobs[i], OnWorker) { CountSome(p.jobs, OnWorker, i); }
      }
    }
  }

  lemma {:induction false} OneByOneRun(p: Pool, es: seq<Event>)
    requires OneByOne(p) && p.workers == 1 && Possible(p, es) && InOrder(p, es)
    ensures OneByOne(After(p, es))
    decreases |es|
  {
    hide Enabled, Next, OneByOne, FirstInLine;
    if es != [] {
      OneByOneStep(p, es[0]);
      StepFrame(p, es[0]);
      OneByOneRun(Next(p, es[0]), es[1..]);
    }
  }

  lemma {:induction false} StuckNeeds(blocking: bool, workers: Pos, es: seq<Event>, fs: seq<Event>, late: bool,
                                      inOrder: bool)
    requires GetsStuck(NoJobs(blocking, workers), es, fs, late, inOrder)
    ensures !blocking && late && (inOrder ==> workers >= 2)
  {
    hide Possible, After, InOrder, Stuck, Inv, OneByOne;
    var p := NoJobs(blocking, workers);
    var m, n := After(p, es), |After(p, es).jobs|;
    var q := After(m, fs);
    InitInv(blocking, workers);
    RunKeeps(p, es);
    RunKeeps(m, fs);
    RunFrame(p, es);
    RunFrame(m, fs);
    if blocking || !late {
      IterationProgress(q, Left(q, n));
    }
    if inOrder && workers == 1 {
      assert OneByOne(p) by { NothingBegun(p); }
      OneByOneRun(p, es);
      OneByOneRun(m, fs);
      StuckStarves(q, Left(q, n));
      OneWorkerServes(q, n);
    }
  }

  lemma {:induction false} NothingBegun(p: Pool)
    requires p.jobs == []
    ensures OneByOne(p)
  {
  }

  lemma {:induction false} OneWorkerServes(q: Pool, n: nat)
    requires Inv(q) && OneByOne(q) && n <= |q.jobs| && Left(q, n) != {}
    ensures !Starved(q, Left(q, n))
  {
    hide Count;
    var k :| k in Left(q, n);
    if Starved(q, Left(q, n)) {
      var h := CountFind(q.jobs, WithPermit(false));
    }
  }

  // ---------------------------------------------------------------- a run that gets an iteration stuck

  /** The first job waits for a worker or for a permit, and `n` later ones have finished. */
  function Overtaken(workers: Pos, first: Job, n: nat): Pool
    requires n <= 2 * workers + 1
  {
    Pool(false, workers, 2 * workers + 1 - n, [first] + seq(n, _ => Done), [])
  }

  /** A later job is submitted, runs and ends, while the first one still waits. */
  function Overtaking(n: nat): seq<Event> {
    [Submit, Start(n + 1), Acquire(n + 1), Finish(n + 1)]
  }

  /** One more job, in some state. */
  function Another(workers: Pos, first: Job, n: nat, j: Job): Pool
    requires n < 2 * workers + 1
  {
    var p := Overtaken(workers, first, n);
    p.(jobs := p.jobs + [j], permits := if j.Running? || j.Done? then p.permits - 1 else p.permits)
  }

  lemma {:induction false} FirstAlone(workers: Pos, first: Job, n: nat)
    requires n <= 2 * workers + 1
    ensures Count(Overtaken(workers, first, n).jobs, OnWorker) == One(first, OnWorker)
  {
    if n == 0 {
      assert [first][..0] == [];
    } else {
      FirstAlone(workers, first, n - 1);
      assert Overtaken(workers, first, n).jobs[..n] == Overtaken(workers, first, n - 1).jobs;
    }
  }

  lemma {:induction false} AnotherSubmits(workers: Pos, first: Job, n: nat)
    requires n < 2 * workers + 1
    ensures var p := Overtaken(workers, first, n);
            Enabled(p, Submit) && Next(p, Submit) == Another(workers, first, n, Queued)
  {
  }

  lemma {:induction false} AnotherStarts(workers: Pos, first: Job, n: nat)
    requires n < 2 * workers + 1 && One(first, OnWorker) < workers
    ensures var p := Another(workers, first, n, Queued);
            && Enabled(p, Start(n + 1)) && Next(p, Start(n + 1)) == Another(workers, first, n, Waiting)
            && (!first.Queued? ==> FirstInLine(p, Start(n + 1)))
  {
    FirstAlone(workers, first, n);
    var p, q := Overtaken(workers, first, n), Another(workers, first, n, Queued);
    assert q.jobs[..n + 1] == p.jobs;
    assert Count(q.jobs, OnWorker) == Count(p.jobs, OnWorker) + One(Queued, OnWorker);
  }

  lemma {:induction false} AnotherAcquires(workers: Pos, first: Job, n: nat)
    requires n < 2 * workers + 1
    ensures var p := Another(workers, first, n, Waiting);
            Enabled(p, Acquire(n + 1)) && Next(p, Acquire(n + 1)) == Another(workers, first, n, Running)
  {
  }

  lemma {:induction false} AnotherFinishes(workers: Pos, first: Job, n: nat)
    requires n < 2 * workers + 1
    ensures var p := Another(workers, first, n, Running);
            Enabled(p, Finish(n + 1)) && Next(p, Finish(n + 1)) == Overtaken(workers, first, n + 1)
  {
    var q := Next(Another(workers, first, n, Running), Finish(n + 1));
    assert q.jobs == Overtaken(workers, first, n + 1).jobs;
  }

  lemma {:induction false} RunOne(p: Pool, e: Event)
    requires Enabled(p, e)
    ensures Possible(p, [e]) && After(p, [e]) == Next(p, e) && (FirstInLine(p, e) ==> InOrder(p, [e]))
  {
    assert [e][1..] == [];
  }

  lemma {:induction false} RunsOn(p: Pool, es: seq<Event>, fs: seq<Event>)
    requires Possible(p, es) && Possible(After(p, es), fs)
    ensures Possible(p, es + fs) && After(p, es + fs) == After(After(p, es), fs)
    ensures InOrder(p, es) && InOrder(After(p, es), fs) ==> InOrder(p, es + fs)
    decreases |es|
  {
    hide Enabled, Next, FirstInLine;
    if es == [] {
      assert es + fs == fs;
    } else {
      RunsOn(Next(p, es[0]), es[1..], fs);
      assert (es + fs)[1..] == es[1..] + fs && (es + fs)[0] == es[0];
    }
  }

  lemma {:induction false} RunOneMore(p: Pool, es: seq<Event>, e: Event)
    requires Possible(p, es) && Enabled(After(p, es), e)
    ensures Possible(p, es + [e]) && After(p, es + [e]) == Next(After(p, es), e)
    ensures InOrder(p, es) && FirstInLine(After(p, es), e) ==> InOrder(p, es + [e])
  {
    hide Enabled, Next, FirstInLine, After, Possible, InOrder;
    RunOne(After(p, es), e);
    RunsOn(p, es, [e]);
  }

  lemma {:induction false} Overtake(workers: Pos, first: Job, n: nat)
    requires n < 2 * workers + 1 && One(first, OnWorker) < workers
    ensures var p := Overtaken(workers, first, n);
            && Possible(p, Overtaking(n)) && After(p, Overtaking(n)) == Overtaken(workers, first, n + 1)
            && (!first.Queued? ==> InOrder(p, Overtaking(n)))
  {
    var p, k := Overtaken(workers, first, n), n + 1;
    AnotherSubmits(workers, first, n);
    AnotherStarts(workers, first, n);
    AnotherAcquires(workers, first, n);
    AnotherFinishes(workers, first, n);
    assert FirstInLine(p, Submit) && forall q :: FirstInLine(q, Acquire(k)) && FirstInLine(q, Finish(k));
    hide Enabled, Next, Overtaken, Another, FirstInLine, Possible, After, InOrder;
    RunOne(p, Submit);
    RunOneMore(p, [Submit], Start(k));
    assert [Submit] + [Start(k)] == [Submit, Start(k)];
    RunOneMore(p, [Submit, Start(k)], Acquire(k));
    assert [Submit, Start(k)] + [Acquire(k)] == [Submit, Start(k), Acquire(k)];
    RunOneMore(p, [Submit, Start(k), Acquire(k)], Finish(k));
    assert [Submit, Start(k), Acquire(k)] + [Finish(k)] == Overtaking(n);
  }

  function OvertakingAll(n: nat): seq<Event> {
    if n == 0 then [] else OvertakingAll(n - 1) + Overtaking(n - 1)
  }

  lemma {:induction false} AllOvertake(workers: Pos, first: Job, n: nat)
    requires n <= 2 * workers + 1 && One(first, OnWorker) < workers
    ensures var p := Overtaken(workers, first, 0);
            && Possible(p, OvertakingAll(n)) && After(p, OvertakingAll(n)) == Overtaken(workers, first, n)
            && (!first.Queued? ==> InOrder(p, OvertakingAll(n)))
    ensures forall e :: e in OvertakingAll(n) ==> !e.Collect?
  {
    hide Enabled, Next, FirstInLine, Overtaken;
    if n > 0 {
      AllOvertake(workers, first, n - 1);
      hide Possible, After, InOrder;
      Overtake(workers, first, n - 1);
      RunsOn(Overtaken(workers, first, 0), OvertakingAll(n - 1), Overtaking(n - 1));
    }
  }

  lemma {:induction false} FirstSubmitted(workers: Pos)
    ensures var p := NoJobs(false, workers);
            Possible(p, [Submit]) && After(p, [Submit]) == Overtaken(workers, Queued, 0) && InOrder(p, [Submit])
  {
    RunOne(NoJobs(false, workers), Submit);
  }

  lemma {:induction false} FirstStarts(workers: Pos, n: nat)
    requires n <= 2 * workers + 1
    ensures var p := Overtaken(workers, Queued, n);
            && Enabled(p, Start(0)) && Next(p, Start(0)) == Overtaken(workers, Waiting, n) && FirstInLine(p, Start(0))
  {
    FirstAlone(workers, Queued, n);
    assert Next(Overtaken(workers, Queued, n), Start(0)).jobs == Overtaken(workers, Waiting, n).jobs;
  }

  /** Once the results of later jobs hold all permits, the first job can neither go on nor be yielded. */
  lemma {:induction false} OvertakenIsStuck(workers: Pos)
    ensures var q := Overtaken(workers, Waiting, 2 * workers + 1); Left(q, 1) == {0} && Stuck(q, {0})
  {
    hide Count;
    var q := Overtaken(workers, Waiting, 2 * workers + 1);
    assert q.jobs[0] == Waiting;
    forall k: nat | k < |q.jobs| ensures !CanWork(q, k) {
      assert k > 0 ==> q.jobs[k] == Done;
    }
  }

  /** The overtaking run: the first job waits from the start, or is itself overtaken in the queue. */
  function Overtakes(workers: Pos, inOrder: bool): seq<Event> {
    if inOrder then [Start(0)] + OvertakingAll(2 * workers + 1) else OvertakingAll(2 * workers + 1) + [Start(0)]
  }

  /**
   * For every number of workers, jobs submitted during an iteration can overtake a job of the
   * iteration and end; their results then hold all permits, and the iteration does not yield them.
   */
  lemma {:induction false} LateSubmitsDeadlock(workers: Pos, inOrder: bool)
    requires inOrder ==> workers >= 2
    ensures GetsStuck(NoJobs(false, workers), [Submit], Overtakes(workers, inOrder), true, inOrder)
  {
    hide Enabled, Next, OvertakingAll, Possible, After, InOrder, FirstInLine, Left, Stuck;
    var n := 2 * workers + 1;
    FirstSubmitted(workers);
    assert |Overtaken(workers, Queued, 0).jobs| == 1;
    hide Overtaken;
    if inOrder {
      FirstStarts(workers, 0);
      RunOne(Overtaken(workers, Queued, 0), Start(0));
      AllOvertake(workers, Waiting, n);
      RunsOn(Overtaken(workers, Queued, 0), [Start(0)], OvertakingAll(n));
    } else {
      AllOvertake(workers, Queued, n);
      FirstStarts(workers, n);
      RunOneMore(Overtaken(workers, Queued, 0), OvertakingAll(n), Start(0));
    }
    OvertakenIsStuck(workers);
  }

  /** What workers do leaves an iteration as it is. */
  lemma {:induction false} ServedKeeps(p: Pool, q: Pool, waiting: set<nat>)
    requires Served(p, q) && Snapshot(p, waiting)
    ensures Snapshot(q, waiting) && (Covers(p, waiting) ==> Covers(q, waiting))
    ensures q.blocking == p.blocking && q.workers == p.workers && |q.jobs| == |p.jobs| && q.yielded == p.yielded
  {
  }

  lemma {:induction false} CollectedKeeps(p: Pool, waiting: set<nat>, k: nat)
    requires CanCollect(p, k) && Snapshot(p, waiting) && k in waiting
    ensures Snapshot(Next(p, Collect(k)), waiting - {k})
    ensures Covers(p, waiting) ==> Covers(Next(p, Collect(k)), waiting - {k})
  {
    CollectedIs(p, k);
  }

  datatype NextResult = Result(job: nat) | Exhausted | TimedOut

  class Executor {
    var pool: Pool

    constructor (workers: Pos, blocking: bool)
      ensures Inv(pool) && pool == Pool(blocking, workers, 2 * workers + 1, [], [])
    {
      InitInv(blocking, workers);
      pool := Pool(blocking, workers, 2 * workers + 1, [], []);
    }

    /** A worker goes on with a job. */
    method WorkOn(k: nat)
      requires Inv(pool) && CanWork(pool, k)
      modifies this
      ensures Inv(pool) && Served(old(pool), pool) && Ahead(pool.jobs) < Ahead(old(pool).jobs)
    {
      hide Inv, Served, Ahead;
      WorkerStep(pool, Move(pool, k));
      pool := Next(pool, Move(pool, k));
    }

    /** Workers take any number of steps. */
    method Work()
      requires Inv(pool)
      modifies this
      ensures Inv(pool) && Served(old(pool), pool) && Ahead(pool.jobs) <= Ahead(old(pool).jobs)
    {
      hide Inv, Ahead, CanWork;
      while *
        invariant Inv(pool) && Served(old(pool), pool) && Ahead(pool.jobs) <= Ahead(old(pool).jobs)
        decreases Ahead(pool.jobs)
      {
        if k: nat :| k < |pool.jobs| && CanWork(pool, k) {
          WorkOn(k);
        } else {
          break;
        }
      }
    }

    /** Submits a job. With blocking submit it waits for a permit, which workers will provide. */
    method SubmitJob()
      requires Inv(pool) && (pool.blocking ==> NoneCancelled(pool))
      modifies this
      ensures Inv(pool) && (pool.blocking ==> NoneCancelled(pool))
      ensures |pool.jobs| == |old(pool).jobs| + 1 && InState(pool, |old(pool).jobs|, Queued)
      ensures pool.yielded == old(pool).yielded
    {
      hide Inv, Ahead, CanWork;
      Work();
      while pool.blocking && pool.permits == 0
        invariant Inv(pool) && Served(old(pool), pool)
        decreases Ahead(pool.jobs)
      {
        BlockedSubmitIsServed(pool);
        ghost var e: Event :| ByWorker(e) && Enabled(pool, e);
        EventIsMove(pool, e);
        var k: nat :| k < |pool.jobs| && CanWork(pool, k);
        WorkOn(k);
      }
      StepKeeps(pool, Submit);
      pool := Next(pool, Submit);
    }

    /** Yields the result of one job that has ended. */
    method CollectOne(k: nat)
      requires Inv(pool) && CanCollect(pool, k)
      modifies this
      ensures Inv(pool) && pool == Next(old(pool), Collect(k)) && Ahead(pool.jobs) < Ahead(old(pool).jobs)
    {
      hide Inv, Ahead, Next;
      StepKeeps(pool, Collect(k));
      StepGoesAhead(pool, Collect(k));
      pool := Next(pool, Collect(k));
    }

    /** Starts an iteration: it will yield the jobs there are now, and no later ones. */
    method Iterate() returns (waiting: set<nat>)
      requires Inv(pool)
      ensures Snapshot(pool, waiting) && Covers(pool, waiting)
    {
      waiting := set k | 0 <= k < |pool.jobs| && !In(pool.jobs[k], Yielded);
    }

    /** Workers go on until the iteration can yield a job, or until it is too late. */
    method Await(waiting: set<nat>, limited: bool) returns (late: bool)
      requires Inv(pool) && Snapshot(pool, waiting) && waiting != {}
      requires !limited ==> pool.blocking || Covers(pool, waiting)
      modifies this
      ensures Inv(pool) && Served(old(pool), pool)
      ensures if late then limited else exists k :: k in waiting && CanCollect(pool, k)
    {
      hide Inv, Ahead, CanWork, CanCollect;
      Work();
      while !exists k :: k in waiting && CanCollect(pool, k)
        invariant Inv(pool) && Served(old(pool), pool)
        decreases Ahead(pool.jobs)
      {
        var expired: bool := *;
        if limited && expired { return true; }
        if k: nat :| k < |pool.jobs| && CanWork(pool, k) {
          WorkOn(k);
        } else if limited {
          return true;
        } else {
          IterationProgress(pool, waiting);
          assert false;
        }
      }
      late := false;
    }

    /**
     * One step of an iteration: it yields a job that has ended, and each job once; it is exhausted
     * when it has yielded all. Without a time limit it never times out and never waits in vain,
     * provided that submitting blocks or that nothing was submitted since it started.
     */
    method YieldNext(waiting: set<nat>, limited: bool) returns (r: NextResult, rest: set<nat>)
      requires Inv(pool) && Snapshot(pool, waiting) && (!limited ==> pool.blocking || Covers(pool, waiting))
      modifies this
      ensures Inv(pool) && |pool.jobs| == |old(pool).jobs| && Snapshot(pool, rest)
      ensures pool.blocking == old(pool).blocking && pool.workers == old(pool).workers
      ensures r.Exhausted? <==> waiting == {}
      ensures r.TimedOut? ==> limited
      ensures r.Result? ==> r.job in waiting && rest == waiting - {r.job} && pool.yielded == old(pool).yielded + [r.job]
      ensures !r.Result? ==> rest == waiting && pool.yielded == old(pool).yielded
      ensures old(Covers(pool, waiting)) ==> Covers(pool, rest)
    {
      hide Inv, Ahead, Served, CanCollect, Covers, Snapshot;
      rest := waiting;
      if waiting == {} { return Exhausted, rest; }
      var late := Await(waiting, limited);
      ServedKeeps(old(pool), pool, waiting);
      if late { return TimedOut, rest; }
      var k :| k in waiting && CanCollect(pool, k);
      CollectIs(pool, k);
      CollectedKeeps(pool, waiting, k);
      CollectOne(k);
      r, rest := Result(k), waiting - {k};
    }

    /** Yields all results, waiting for those that are not there yet; it ends with each job yielded once. */
    method GetCompleted()
      requires Inv(pool)
      modifies this
      ensures Inv(pool) && AllYielded(pool) && |pool.jobs| == |old(pool).jobs|
      ensures pool.blocking == old(pool).blocking && pool.workers == old(pool).workers
      ensures old(pool).yielded <= pool.yielded
      ensures forall k: nat :: k < |pool.jobs| ==> multiset(pool.yielded)[k] == 1
    {
      hide Inv, Ahead;
      var waiting := Iterate();
      while waiting != {}
        invariant Inv(pool) && |pool.jobs| == |old(pool).jobs| && old(pool).yielded <= pool.yielded
        invariant pool.blocking == old(pool).blocking && pool.workers == old(pool).workers
        invariant Snapshot(pool, waiting) && Covers(pool, waiting)
        decreases |waiting|
      {
        var r, rest := YieldNext(waiting, false);
        waiting := rest;
      }
      EachOnce(pool);
    }

    /**
     * Shuts the executor down: queued jobs are cancelled, all others end. Without blocking submit
     * every job has then been yielded and every permit is free; with it, all permits are free but
     * those of the jobs that were cancelled.
     */
    method Shutdown()
      requires Inv(pool)
      modifies this
      ensures Inv(pool) && |pool.jobs| == |old(pool).jobs|
      ensures pool.blocking == old(pool).blocking && pool.workers == old(pool).workers
      ensures forall k :: 0 <= k < |pool.jobs| ==>
                pool.jobs[k].Done? || pool.jobs[k].Cancelled? || In(pool.jobs[k], Yielded)
      ensures !pool.blocking ==> AllYielded(pool) && pool.permits == Limit(pool)
      ensures pool.blocking ==>
                pool.permits + Count(pool.jobs, Is(Cancelled)) + Count(pool.jobs, Is(Dropped)) == Limit(pool)
    {
      hide Inv, Ahead, Count;
      for n := 0 to |pool.jobs|
        invariant Inv(pool) && |pool.jobs| == |old(pool).jobs|
        invariant pool.blocking == old(pool).blocking && pool.workers == old(pool).workers
        invariant forall k :: 0 <= k < n ==> !pool.jobs[k].Queued?
      {
        Work();
        if pool.jobs[n].Queued? {
          StepKeeps(pool, Cancel(n));
          pool := Next(pool, Cancel(n));
        }
      }
      if !pool.blocking {
        GetCompleted();
      }
      while exists k: nat :: k < |pool.jobs| && In(pool.jobs[k], OnWorker)
        invariant Inv(pool) && |pool.jobs| == |old(pool).jobs|
        invariant pool.blocking == old(pool).blocking && pool.workers == old(pool).workers
        invariant forall k :: 0 <= k < |pool.jobs| ==> !pool.jobs[k].Queued?
        invariant !pool.blocking ==> AllYielded(pool)
        decreases Ahead(pool.jobs)
      {
        var k: nat :| k < |pool.jobs| && In(pool.jobs[k], OnWorker);
        BusyCanGoOn(pool, k);
        WorkOn(k);
      }
      AllEnded(pool);
    }
  }
}
