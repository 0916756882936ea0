/**
  The queue as a value: its state, the invariant every operation keeps, and one function per
  state-changing operation. The class in module JobQueue is proved to compute exactly these.
 */
module QueueSpec {
  import opened Jobs

  /**
    `count` is the last id minted, `jobs` maps every id ever minted to its record, and the two
    lanes hold the ids still waiting for dispatch, oldest first.
   */
  datatype State = State(count: int, jobs: map<int, Job>, critical: seq<int>, notCritical: seq<int>)

  /** The new state after one operation, together with what the operation returns. */
  datatype Step<T> = Step(next: State, out: T)

  /** Strictly increasing ids: a lane is in minting order and holds no id twice. */
  predicate Increasing(lane: seq<int>) {
    forall i, j :: 0 <= i < j < |lane| ==> lane[i] < lane[j]
  }

  /** Every id in `lane` is a known job of type `t`. */
  predicate LaneOf(s: State, lane: seq<int>, t: JobType) {
    forall i :: 0 <= i < |lane| ==> lane[i] in s.jobs && s.jobs[lane[i]].jobType == t
  }

  /** Every id waiting in a lane is a key of the map. */
  predicate LanesKnown(s: State) {
    (forall i :: 0 <= i < |s.critical| ==> s.critical[i] in s.jobs) &&
    (forall i :: 0 <= i < |s.notCritical| ==> s.notCritical[i] in s.jobs)
  }

  /**
    The invariant of the queue: keys are ids already minted and match their records, each lane
    holds known jobs of its own type, in minting order.
   */
  predicate Valid(s: State) {
    && s.count >= 0
    && (forall k :: k in s.jobs ==> 1 <= k <= s.count && s.jobs[k].id == k)
    && LaneOf(s, s.critical, TimeCritical)
    && LaneOf(s, s.notCritical, NotTimeCritical)
    && Increasing(s.critical)
    && Increasing(s.notCritical)
  }

  /** The queue returned by `New`: nothing minted, nothing stored, both lanes empty. */
  function Init(): (s: State)
    ensures Valid(s)
    ensures s.jobs == map[] && s.critical == [] && s.notCritical == []
  {
    State(0, map[], [], [])
  }

  /**
    EnqueueJob: mint the next id, store the job under it as QUEUED, and append the id to the lane
    of its type; a job of any other type is stored but put in no lane.
   */
  function Enqueue(s: State, job: Job): (r: Step<int>)
    ensures r.out == s.count + 1 && r.next.count == r.out
    ensures r.next.jobs.Keys == s.jobs.Keys + {r.out}
    ensures r.next.jobs[r.out] == Job(r.out, job.jobType, Queued, job.attempts)
    ensures forall k :: k in s.jobs && k != r.out ==> r.next.jobs[k] == s.jobs[k]
    ensures job.jobType == TimeCritical ==>
              r.next.critical == s.critical + [r.out] && r.next.notCritical == s.notCritical
    ensures job.jobType == NotTimeCritical ==>
              r.next.critical == s.critical && r.next.notCritical == s.notCritical + [r.out]
    ensures job.jobType != TimeCritical && job.jobType != NotTimeCritical ==>
              r.next.critical == s.critical && r.next.notCritical == s.notCritical
    ensures Valid(s) ==> r.out !in s.jobs && Valid(r.next)
  {
    var id := s.count + 1;
    var jobs := s.jobs[id := job.(id := id, status := Queued)];
    if job.jobType == TimeCritical then
      Step(State(id, jobs, s.critical + [id], s.notCritical), id)
    else if job.jobType == NotTimeCritical then
      Step(State(id, jobs, s.critical, s.notCritical + [id]), id)
    else
      Step(State(id, jobs, s.critical, s.notCritical), id)
  }

  /** The id DequeueJob would take: the critical head if there is one, else the other head. */
  function NextId(s: State): int
    requires s.critical != [] || s.notCritical != []
  {
    if s.critical != [] then s.critical[0] else s.notCritical[0]
  }

  /**
    DequeueJob: with both lanes empty, ErrNoJobs and no change; otherwise remove the critical head
    if there is one, else the non-critical head, mark that job IN_PROGRESS and return its record.
   */
  function Dequeue(s: State): (r: Step<Result<Job>>)
    requires LanesKnown(s)
    ensures r.out.Err? <==> s.critical == [] && s.notCritical == []
    ensures r.out.Err? ==> r.out.error == ErrNoJobs && r.next == s
    ensures r.out.Ok? ==>
              var id := NextId(s);
              && r.next.count == s.count
              && r.next.jobs == s.jobs[id := s.jobs[id].(status := InProgress)]
              && r.out.value == r.next.jobs[id]
              && (if s.critical != []
                  then r.next.critical == s.critical[1..] && r.next.notCritical == s.notCritical
                  else r.next.critical == [] && r.next.notCritical == s.notCritical[1..])
    ensures Valid(s) ==> Valid(r.next)
    ensures Valid(s) && r.out.Ok? ==> r.out.value.id == NextId(s) && r.out.value.status == InProgress
  {
    if |s.critical| < 1 && |s.notCritical| < 1 then
      Step(s, Err(ErrNoJobs))
    else
      var id := if |s.critical| > 0 then s.critical[0] else s.notCritical[0];
      var critical := if |s.critical| > 0 then s.critical[1..] else s.critical;
      var notCritical := if |s.critical| > 0 then s.notCritical else s.notCritical[1..];
      var jobs := s.jobs[id := s.jobs[id].(status := InProgress)];
      Step(State(s.count, jobs, critical, notCritical), Ok(jobs[id]))
  }

  /**
    ConcludeJob: an unknown id is ErrJobNotFound with no change. Otherwise, if the result is FAILED,
    first enqueue a copy of the job (fresh id, same type and attempts), and then mark the original
    id CONCLUDED whatever its status was. The id is not taken out of a lane it may still be in.
   */
  function Conclude(s: State, id: int, result: JobResult): (r: Step<Outcome>)
    ensures id !in s.jobs ==> r == Step(s, Fail(ErrJobNotFound))
    ensures id in s.jobs ==> r.out == Pass && id in r.next.jobs && r.next.jobs[id].status == Concluded
    ensures id in s.jobs && result != Failed ==>
              r.next == s.(jobs := s.jobs[id := s.jobs[id].(status := Concluded)])
    ensures id in s.jobs && result == Failed && Valid(s) ==>
              var n := s.count + 1;
              var t := s.jobs[id].jobType;
              && r.next.count == n
              && r.next.jobs.Keys == s.jobs.Keys + {n}
              && r.next.jobs[n] == Job(n, t, Queued, s.jobs[id].attempts)
              && r.next.jobs[id] == s.jobs[id].(status := Concluded)
              && (forall k :: k in s.jobs && k != id ==> r.next.jobs[k] == s.jobs[k])
              && r.next.critical == (if t == TimeCritical then s.critical + [n] else s.critical)
              && r.next.notCritical == (if t == NotTimeCritical then s.notCritical + [n] else s.notCritical)
    ensures s.jobs.Keys <= r.next.jobs.Keys
    ensures Valid(s) ==> Valid(r.next)
  {
    if id !in s.jobs then
      Step(s, Fail(ErrJobNotFound))
    else
      var s1 := if result == Failed then Enqueue(s, s.jobs[id]).next else s;
      Step(s1.(jobs := s1.jobs[id := s1.jobs[id].(status := Concluded)]), Pass)
  }

  /** No two positions of the two lanes taken together hold the same id. */
  lemma LanesDistinct(s: State)
    requires Valid(s)
    ensures forall i, j :: 0 <= i < j < |s.critical + s.notCritical| ==>
              (s.critical + s.notCritical)[i] != (s.critical + s.notCritical)[j]
  {
    var all := s.critical + s.notCritical;
    forall i, j | 0 <= i < j < |all| ensures all[i] != all[j] {
      if j < |s.critical| {
        assert all[i] == s.critical[i] && all[j] == s.critical[j];
      } else if i >= |s.critical| {
        assert all[i] == s.notCritical[i - |s.critical|] && all[j] == s.notCritical[j - |s.critical|];
      } else {
        assert s.jobs[all[i]].jobType == TimeCritical;
        assert s.jobs[all[j]].jobType == NotTimeCritical;
      }
    }
  }

  /**
    Concluding a job that is still waiting in a lane does not take it out: the next dequeue hands
    it out again and turns CONCLUDED back into IN_PROGRESS.
   */
  lemma ConcludedWaitingJobIsRedispatched(s: State, result: JobResult)
    requires Valid(s) && s.critical != [] && result != Failed
    ensures var c := Conclude(s, s.critical[0], result).next;
            && c.jobs[s.critical[0]].status == Concluded
            && c.critical == s.critical
            && Dequeue(c).out == Ok(s.jobs[s.critical[0]].(status := InProgress))
  {
  }
}
