# In-memory job queue of cloud-stream-queue, modelled in Dafny

The repository's core is `queue.Queue`: an in-memory job store with an id counter, a map from id
to job record that only ever grows, and two FIFO lanes (time-critical and not time-critical).
Producers enqueue jobs, workers dequeue the next one (critical lane first, FIFO inside a lane)
and conclude it, and a FAILED conclusion enqueues a fresh copy of the job under a new id.

The model has four modules:

- `Jobs` (`jobs.dfy`): the `Job` record, the type and result strings the queue interprets
  (`TIME_CRITICAL`, `NOT_TIME_CRITICAL`, `FAILED`), the three statuses and the two errors
  (`ErrNoJobs`, `ErrJobNotFound`).
- `QueueSpec` (`queue_spec.dfy`): the queue as a value (`State`), its invariant `Valid`, and one
  function per state-changing operation (`Init`, `Enqueue`, `Dequeue`, `Conclude`), each with a
  contract that states what the operation does, what it leaves alone, and that it keeps `Valid`.
- `JobQueue` (`job_queue.dfy`): the class `Queue` with the source's fields (`count`, `jobMap`,
  `criticalAvailable`, `notCriticalAvailable`) updated in place. `EnqueueJob`, `DequeueJob` and
  `ConcludeJob` are proved to compute exactly the `QueueSpec` function of the old state, and
  `ConcludeJob` calls `EnqueueJob` as the source does. `GetJob` and `GetQueue` only read. Three
  client methods replay the repository's enqueue test and two dispatch scenarios against the
  class contracts.
- `QueueProperties` (`queue_properties.dfy`): properties of runs of several operations. A series
  of enqueues mints consecutive ids (from a new queue, ids 1..n). Repeated dequeues hand out every
  critical job, oldest first, then every non-critical job, oldest first, each exactly once.

The lanes are modelled as sequences of ids. In the source each lane entry is the same `*Job`
pointer that `JobMap` holds under that id, and `JobMap` is written only when a job is enqueued. So
an id and a map lookup denote exactly the lane's record. `DequeueJob` itself goes back through the
map by id to set the status. `QueueSpec.Dequeue` therefore requires that every waiting id is a
key of the map (`LanesKnown`, part of `Valid`); in the source a lane entry not in the map would
make that status write dereference nil, and no sequence of operations reaches such a state.

The model follows the code, not the looser description around it:

- A job whose type is neither constant is stored in the map as QUEUED but put in no lane. No error
  is raised, and no dequeue will ever hand it out.
- `ConcludeJob` does not check the status and does not remove the id from its lane. A job
  concluded while still waiting is handed out by a later dequeue, which turns CONCLUDED back into
  IN_PROGRESS (`QueueSpec.ConcludedWaitingJobIsRedispatched`). So "every laned id is QUEUED" is
  not an invariant, and CONCLUDED is not terminal.
- `DequeueJob` neither checks the status nor ignores the type. Its doc comment says it does both;
  the model follows the code.
- A FAILED conclusion creates a new id; `attempts` is copied, never incremented.

## Model

| member | source | states |
|---|---|---|
| `QueueSpec.Init` | queue/queue.go:63-70 | A new queue has no jobs and empty lanes, and satisfies the queue invariant. |
| `QueueSpec.Enqueue` | queue/queue.go:73-93 | Returns count+1 and makes it the new count. The map gains exactly that key, holding the caller's type and attempts with status QUEUED. Every other entry is unchanged. The id goes to the tail of the critical lane for TIME_CRITICAL, of the other lane for NOT_TIME_CRITICAL, and to neither lane for any other type. On a valid queue the id is fresh and the invariant is kept. |
| `QueueSpec.Dequeue` | queue/queue.go:97-116 | ErrNoJobs with the state unchanged exactly when both lanes are empty. Otherwise it removes the critical head if there is one, else the non-critical head, and leaves the rest of both lanes in order. That one map entry becomes IN_PROGRESS and is the record returned; count and every other entry are unchanged. The invariant is kept. |
| `QueueSpec.Conclude` | queue/queue.go:140-158 | An unknown id gives ErrJobNotFound with the state unchanged. A known id always ends CONCLUDED. For a result other than FAILED nothing else changes. For FAILED exactly one new job is created: id count+1, the original's type and attempts, status QUEUED, appended to the lane for its type. No key is ever removed, and the invariant is kept. |
| `QueueSpec.LanesDistinct` | queue/queue.go:78-91 | On a valid queue no id occurs twice across the two lanes: inside a lane ids are strictly increasing, and the two lanes hold different types. |
| `QueueSpec.ConcludedWaitingJobIsRedispatched` | queue/queue.go:144-157 | Concluding the critical head without FAILED marks it CONCLUDED but leaves it in its lane. The next dequeue returns it again as IN_PROGRESS. |
| `JobQueue.Queue.New` | queue/queue.go:63-70 | The constructed queue is valid and equals `QueueSpec.Init`. |
| `JobQueue.Queue.EnqueueJob` | queue/queue.go:73-93 | Updates the fields in place to exactly `QueueSpec.Enqueue` of the old state, returns its id, and keeps the invariant. |
| `JobQueue.Queue.DequeueJob` | queue/queue.go:97-116 | Updates the fields in place to exactly `QueueSpec.Dequeue` of the old state, returns its result, and keeps the invariant. |
| `JobQueue.Queue.ConcludeJob` | queue/queue.go:140-158 | Updates the fields in place to exactly `QueueSpec.Conclude` of the old state, returns its outcome, and keeps the invariant. |
| `JobQueue.Queue.GetJob` | queue/queue.go:160-167 | Succeeds exactly when the id is a key. It then returns the stored record unchanged, otherwise ErrJobNotFound. It modifies nothing. |
| `JobQueue.Queue.GetQueue` | queue/queue.go:169-172 | Returns the current id-to-job map, modifies nothing. On a valid queue every key is in 1..count and equals its record's id. |
| `QueueProperties.EnqueueAll` | queue/queue_test.go:72-75 | A series of enqueues raises count by the number of jobs and returns one id per job. It keeps the invariant. |
| `QueueProperties.EnqueueAllMintsConsecutiveIds` | queue/queue.go:77-92 | The i-th enqueue of a series returns count+1+i and stores that job under it as QUEUED, with its type and attempts. |
| `QueueProperties.EnqueueAllKeepsRecords` | queue/queue.go:91 | A series of enqueues keeps every earlier record unchanged. It adds no key other than the ids it mints. |
| `QueueProperties.EnqueueAllFillsLanes` | queue/queue.go:82-90 | A series of enqueues appends to each lane, in enqueue order, exactly the ids of the jobs of that lane's type. |
| `QueueProperties.NewQueueIdsAreOneToN` | queue/queue_test.go:43-77 | From a new queue, n enqueues return ids 1..n. The map then holds exactly the keys 1..n, and key k maps to a record with id k, status QUEUED and the k-th job's type and attempts. |
| `QueueProperties.Drain` | queue/queue.go:100-111 | Dequeuing until ErrNoJobs hands out exactly as many jobs as there were ids waiting in both lanes. |
| `QueueProperties.DrainDispatchOrder` | queue/queue.go:104-115 | Repeated dequeues hand out all critical ids in lane order and then all non-critical ids in lane order. Each comes back as its stored record marked IN_PROGRESS. |
| `QueueProperties.DequeueTakesHead` | queue/queue.go:104-113 | One dequeue splits the waiting ids into the head it returns, marked IN_PROGRESS, and the ids still waiting. It leaves every other record unchanged. |

## Left out

- Locking with `sync.Mutex` (queue/queue.go:56, 74-75, 98-99, 141-142): each operation is one
  atomic sequential step. `GetJob` and `GetQueue` take no lock in the source.
- Deadlock on a FAILED conclusion: `ConcludeJob` holds the non-reentrant mutex and calls
  `EnqueueJob`, which locks it again (queue/queue.go:141, 153, 74). As written, that call never
  returns. The model gives the evidently intended sequential effect: enqueue the copy, then
  conclude the original.
- `requeueFailed` (queue/queue.go:118-137): never called. It declares an `error` result without
  returning one, so it does not compile.
- `fmt.Println` diagnostics (queue/queue.go:88, 151): output only.
- `GetQueue` returns the live internal map, not a copy. Callers aliasing the queue's records
  cannot be expressed on values. `JobQueue.Queue.GetQueue` returns the map's current value. Its
  always-nil `error` result is dropped.
- The zero `Job{}` that `DequeueJob` and `GetJob` return beside an error: the model returns only
  the error.
- Status strings: in the source a caller may pass any string as the status of the job it
  enqueues. That value is always overwritten with QUEUED, so the model's `Job` carries only the
  three statuses the queue stores.
- Integer width: `count` is a Go `int`, which would wrap after 2^63 - 1 enqueues. The model's
  counter is unbounded.
- The HTTP layer (`api/api.go`, `api/jobs.go`, `main.go`): routing, JSON handling, status-code
  mapping, server start-up, and the diagnostic partition of `GetQueue` by status.
