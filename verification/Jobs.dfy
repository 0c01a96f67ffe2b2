/** Jobs and the order in which they are served (internal/queue/job.go, internal/queue/heap.go). */
module Jobs {
  import opened Binary

  // Nanoseconds since the Unix epoch.
  type Time = int

  // Go's zero time.Time: the start of the year 1.
  const ZERO_TIME: Time := -62_135_596_800_000_000_000

  datatype Status = Ready | Inflight | Dead

  datatype Job = Job(
    id: Bytes, queue: Bytes, payload: Bytes, headers: map<Bytes, Bytes>, priority: byte, tries: uint32,
    maxRetries: uint32, eta: Time, leaseId: Bytes, leaseDeadline: Time, status: Status, enqueuedAt: Time)

  predicate IsReady(j: Job, now: Time) {
    j.status == Ready && (j.eta == ZERO_TIME || j.eta < now || j.eta == now)
  }

  predicate ShouldRetry(j: Job) {
    j.tries < j.maxRetries
  }

  /** jobHeap.Less: priority descending, then ETA, then enqueue time. */
  predicate Before(a: Job, b: Job) {
    if a.priority != b.priority then a.priority > b.priority
    else if a.eta != b.eta then a.eta < b.eta
    else a.enqueuedAt < b.enqueuedAt
  }

  /** Nothing in the order puts `b` ahead of `a`. Jobs may tie. */
  predicate NotAfter(a: Job, b: Job) {
    !Before(b, a)
  }

  /** A total preorder, so "first" and "sorted" make sense. */
  lemma NotAfterTransitive(a: Job, b: Job, c: Job)
    requires NotAfter(a, b) && NotAfter(b, c)
    ensures NotAfter(a, c)
  {
  }
}
