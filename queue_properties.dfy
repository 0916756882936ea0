/**
  Properties of runs of several operations: ids minted by a series of enqueues, and the order in
  which repeated dequeues hand jobs out.
 */
module QueueProperties {
  import opened Jobs
  import opened QueueSpec

  /**
    Enqueue the jobs one after the other; the output lists the ids returned, in order. Each call
    mints one id, and the invariant holds throughout.
   */
  function EnqueueAll(s: State, js: seq<Job>): (r: Step<seq<int>>)
    ensures r.next.count == s.count + |js| && |r.out| == |js|
    ensures Valid(s) ==> Valid(r.next)
    decreases |js|
  {
    if js == [] then Step(s, [])
    else
      var prev := EnqueueAll(s, js[..|js| - 1]);
      var e := Enqueue(prev.next, js[|js| - 1]);
      Step(e.next, prev.out + [e.out])
  }

  /** The ids that enqueueing `js` with the first id `first` puts in the lane for type `t`. */
  function LaneIds(js: seq<Job>, first: int, t: JobType): seq<int>
    decreases |js|
  {
    if js == [] then []
    else LaneIds(js[..|js| - 1], first, t) + (if js[|js| - 1].jobType == t then [first + |js| - 1] else [])
  }

  /**
    A series of enqueues returns consecutive ids after `count` and stores each job QUEUED under its
    id, with its type and attempts.
   */
  lemma {:induction false} EnqueueAllMintsConsecutiveIds(s: State, js: seq<Job>)
    requires Valid(s)
    ensures var r := EnqueueAll(s, js);
            forall i :: 0 <= i < |js| ==>
              && r.out[i] == s.count + 1 + i
              && r.out[i] in r.next.jobs
              && r.next.jobs[r.out[i]] == Job(r.out[i], js[i].jobType, Queued, js[i].attempts)
    decreases |js|
  {
    if js != [] {
      var n := |js|;
      var init := js[..n - 1];
      EnqueueAllMintsConsecutiveIds(s, init);
      var prev := EnqueueAll(s, init);
      var e := Enqueue(prev.next, js[n - 1]);
      var r := EnqueueAll(s, js);
      assert r == Step(e.next, prev.out + [e.out]);
      forall i | 0 <= i < n
        ensures r.out[i] == s.count + 1 + i
        ensures r.next.jobs[r.out[i]] == Job(r.out[i], js[i].jobType, Queued, js[i].attempts)
      {
        if i < n - 1 {
          assert init[i] == js[i];
          assert r.out[i] == prev.out[i];
          assert prev.out[i] in prev.next.jobs;
        }
      }
    }
  }

  /**
    A series of enqueues keeps every earlier record, and adds no key other than the ids it mints.
   */
  lemma {:induction false} EnqueueAllKeepsRecords(s: State, js: seq<Job>)
    requires Valid(s)
    ensures var r := EnqueueAll(s, js);
            && (forall k :: k in s.jobs ==> k in r.next.jobs && r.next.jobs[k] == s.jobs[k])
            && (forall k :: k in r.next.jobs ==> k in s.jobs || s.count < k <= r.next.count)
    decreases |js|
  {
    if js != [] {
      EnqueueAllKeepsRecords(s, js[..|js| - 1]);
    }
  }

  /** A series of enqueues appends to each lane, in order, the ids of the jobs of its type. */
  lemma {:induction false} EnqueueAllFillsLanes(s: State, js: seq<Job>)
    ensures var r := EnqueueAll(s, js);
            && r.next.critical == s.critical + LaneIds(js, s.count + 1, TimeCritical)
            && r.next.notCritical == s.notCritical + LaneIds(js, s.count + 1, NotTimeCritical)
    decreases |js|
  {
    if js != [] {
      EnqueueAllFillsLanes(s, js[..|js| - 1]);
    }
  }

  /** From a new queue, n enqueues return ids 1..n and the map holds exactly those ids. */
  lemma NewQueueIdsAreOneToN(js: seq<Job>)
    ensures var r := EnqueueAll(Init(), js);
            && r.next.count == |js|
            && (forall i :: 0 <= i < |js| ==> r.out[i] == i + 1)
            && (forall k :: k in r.next.jobs <==> 1 <= k <= |js|)
            && (forall k :: 1 <= k <= |js| ==>
                  r.next.jobs[k] == Job(k, js[k - 1].jobType, Queued, js[k - 1].attempts))
  {
    EnqueueAllMintsConsecutiveIds(Init(), js);
    EnqueueAllKeepsRecords(Init(), js);
    var r := EnqueueAll(Init(), js);
    forall k | 1 <= k <= |js|
      ensures k in r.next.jobs
      ensures r.next.jobs[k] == Job(k, js[k - 1].jobType, Queued, js[k - 1].attempts)
    {
      assert r.out[k - 1] == k;
    }
  }

  /** Dequeue until ErrNoJobs; the jobs handed out, in order, one per waiting id. */
  function Drain(s: State): (out: seq<Job>)
    requires Valid(s)
    ensures |out| == |s.critical| + |s.notCritical|
    decreases |s.critical| + |s.notCritical|
  {
    var d := Dequeue(s);
    if d.out.Err? then [] else [d.out.value] + Drain(d.next)
  }

  /**
    Strict priority and FIFO: repeated dequeues hand out every critical job, oldest first, then
    every non-critical job, oldest first, each exactly once, with its stored record marked
    IN_PROGRESS.
   */
  lemma {:induction false} DrainDispatchOrder(s: State)
    requires Valid(s)
    ensures var all := s.critical + s.notCritical;
            forall i :: 0 <= i < |all| ==>
              Drain(s)[i] == s.jobs[all[i]].(status := InProgress) && Drain(s)[i].id == all[i]
    decreases |s.critical| + |s.notCritical|
  {
    var all := s.critical + s.notCritical;
    if all != [] {
      var d := Dequeue(s);
      var rest := d.next.critical + d.next.notCritical;
      DrainDispatchOrder(d.next);
      DequeueTakesHead(s);
      LanesDistinct(s);
      assert Drain(s) == [d.out.value] + Drain(d.next);
      forall i | 0 <= i < |all|
        ensures Drain(s)[i] == s.jobs[all[i]].(status := InProgress)
      {
        if i > 0 {
          assert all[i] == rest[i - 1];
          assert all[0] != all[i];
        }
      }
    }
  }

  /** One dequeue splits the waiting ids into the one handed out and the ones still waiting. */
  lemma DequeueTakesHead(s: State)
    requires Valid(s) && (s.critical != [] || s.notCritical != [])
    ensures var d := Dequeue(s);
            && s.critical + s.notCritical == [NextId(s)] + (d.next.critical + d.next.notCritical)
            && d.out == Ok(s.jobs[NextId(s)].(status := InProgress))
            && forall k :: k in s.jobs && k != NextId(s) ==> d.next.jobs[k] == s.jobs[k]
  {
  }
}
