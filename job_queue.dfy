/**
  The queue object: its fields are updated in place by EnqueueJob, DequeueJob and ConcludeJob,
  each of which is proved to compute the matching function of module QueueSpec.
 */
module JobQueue {
  import opened Jobs
  import opened QueueSpec

  class Queue {
    var notCriticalAvailable: seq<int>
    var criticalAvailable: seq<int>
    var jobMap: map<int, Job>
    var count: int

    /** The abstract value of the object. */
    function State(): State
      reads this
    {
      QueueSpec.State(count, jobMap, criticalAvailable, notCriticalAvailable)
    }

    ghost predicate Valid()
      reads this
    {
      QueueSpec.Valid(State())
    }

    /** New: an empty queue. */
    constructor New()
      ensures Valid() && State() == Init()
    {
      notCriticalAvailable := [];
      criticalAvailable := [];
      jobMap := map[];
      count := 0;
    }

    method EnqueueJob(job: Job) returns (id: int)
      requires Valid()
      modifies this
      ensures Valid()
      ensures Step(State(), id) == Enqueue(old(State()), job)
    {
      count := count + 1;
      var stored := job.(id := count, status := Queued);
      if job.jobType == TimeCritical {
        criticalAvailable := criticalAvailable + [count];
      } else if job.jobType == NotTimeCritical {
        notCriticalAvailable := notCriticalAvailable + [count];
      }
      jobMap := jobMap[count := stored];
      id := count;
    }

    method DequeueJob() returns (r: Result<Job>)
      requires Valid()
      modifies this
      ensures Valid()
      ensures Step(State(), r) == Dequeue(old(State()))
    {
      if |criticalAvailable| < 1 && |notCriticalAvailable| < 1 {
        return Err(ErrNoJobs);
      }
      var id;
      if |criticalAvailable| > 0 {
        id := criticalAvailable[0];
        criticalAvailable := criticalAvailable[1..];
      } else {
        id := notCriticalAvailable[0];
        notCriticalAvailable := notCriticalAvailable[1..];
      }
      jobMap := jobMap[id := jobMap[id].(status := InProgress)];
      r := Ok(jobMap[id]);
    }

    method ConcludeJob(id: int, result: JobResult) returns (r: Outcome)
      requires Valid()
      modifies this
      ensures Valid()
      ensures Step(State(), r) == Conclude(old(State()), id, result)
    {
      if id !in jobMap {
        return Fail(ErrJobNotFound);
      }
      if result == Failed {
        var retryId := EnqueueJob(jobMap[id]);
      }
      jobMap := jobMap[id := jobMap[id].(status := Concluded)];
      r := Pass;
    }

    /** GetJob: the stored record of a known id, whatever its status; ErrJobNotFound otherwise. */
    method GetJob(id: int) returns (r: Result<Job>)
      ensures r.Ok? <==> id in jobMap
      ensures r.Ok? ==> r.value == jobMap[id]
      ensures r.Err? ==> r.error == ErrJobNotFound
    {
      if id !in jobMap {
        return Err(ErrJobNotFound);
      }
      r := Ok(jobMap[id]);
    }

    /** GetQueue: every job ever enqueued, keyed by its id. */
    method GetQueue() returns (m: map<int, Job>)
      ensures m == jobMap
      ensures Valid() ==> forall k :: k in m ==> 1 <= k <= count && m[k].id == k
    {
      m := jobMap;
    }
  }

  /** Three enqueues on a new queue store ids 1, 2, 3 with their types, all QUEUED. */
  method EnqueueMultipleJobs()
  {
    var q := new Queue.New();
    var a := q.EnqueueJob(Job(0, NotTimeCritical, Queued, 0));
    var b := q.EnqueueJob(Job(0, TimeCritical, Queued, 0));
    var c := q.EnqueueJob(Job(0, NotTimeCritical, Queued, 0));
    assert a == 1 && b == 2 && c == 3;
    assert q.jobMap == map[1 := Job(1, NotTimeCritical, Queued, 0),
                           2 := Job(2, TimeCritical, Queued, 0),
                           3 := Job(3, NotTimeCritical, Queued, 0)];
  }

  /** A critical job enqueued later is still dispatched first; then the queue reports ErrNoJobs. */
  method CriticalFirst()
  {
    var q := new Queue.New();
    var a := q.EnqueueJob(Job(0, NotTimeCritical, Queued, 0));
    var b := q.EnqueueJob(Job(0, TimeCritical, Queued, 0));
    var first := q.DequeueJob();
    assert first == Ok(Job(2, TimeCritical, InProgress, 0));
    var second := q.DequeueJob();
    assert second == Ok(Job(1, NotTimeCritical, InProgress, 0));
    var third := q.DequeueJob();
    assert third == Err(ErrNoJobs);
  }

  /** A FAILED conclusion concludes the job and enqueues a fresh copy, which is dispatched next. */
  method FailedJobIsRetried()
  {
    var q := new Queue.New();
    var a := q.EnqueueJob(Job(0, TimeCritical, Queued, 0));
    var first := q.DequeueJob();
    var done := q.ConcludeJob(1, Failed);
    assert done == Pass;
    var original := q.GetJob(1);
    assert original == Ok(Job(1, TimeCritical, Concluded, 0));
    var retry := q.DequeueJob();
    assert retry == Ok(Job(2, TimeCritical, InProgress, 0));
  }
}
