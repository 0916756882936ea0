/** The job record, the string constants the queue interprets, and its error values. */
module Jobs {

  /** A job type is a free-form string; only the two constants below route a job to a lane. */
  type JobType = string

  /** A conclusion result is a free-form string; only `Failed` has an effect. */
  type JobResult = string

  const TimeCritical: JobType := "TIME_CRITICAL"
  const NotTimeCritical: JobType := "NOT_TIME_CRITICAL"
  const Failed: JobResult := "FAILED"

  /** The three statuses the queue ever stores (QUEUED, IN_PROGRESS, CONCLUDED). */
  datatype JobStatus = Queued | InProgress | Concluded

  /** The metadata of one job; `attempts` is carried along and never changed by the queue. */
  datatype Job = Job(id: int, jobType: JobType, status: JobStatus, attempts: int)

  /** ErrNoJobs: dequeue with both lanes empty; ErrJobNotFound: an id that is not in the map. */
  datatype Error = ErrNoJobs | ErrJobNotFound

  /** A value or an error, for the operations that return `(T, error)`. */
  datatype Result<T> = Ok(value: T) | Err(error: Error)

  /** The outcome of an operation that returns only an `error`. */
  datatype Outcome = Pass | Fail(error: Error)
}
