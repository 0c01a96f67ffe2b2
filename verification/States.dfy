/** The queue manager's state as a value, and what each operation does to it (internal/queue/queue.go). */
module States {
  import opened Binary
  import opened Codec
  import opened Logs
  import opened Jobs

  /** One named queue; each map is keyed by job id. */
  datatype QState = QState(ready: map<Bytes, Job>, inflight: map<Bytes, Job>, dlq: map<Bytes, Job>)

  const NO_JOBS := QState(map[], map[], map[])

  /** `keys` is the idempotency store. */
  datatype State = State(queues: map<Bytes, QState>, log: Log, keys: map<Bytes, Bytes>)

  /** The maps are keyed by the jobs' own ids. */
  ghost predicate Keyed(m: map<Bytes, Job>) {
    forall id :: id in m ==> m[id].id == id
  }

  /** A duration in milliseconds as Go's 64-bit nanosecond arithmetic makes it. */
  function Millis(ms: int): int {
    WrapInt64(ms * NS_PER_MS)
  }

  function WithQueue(queues: map<Bytes, QState>, name: Bytes): map<Bytes, QState> {
    if name in queues then queues else queues[name := NO_JOBS]
  }

  lemma Rebuilt(a: State, b: State, n: Bytes, q: QState)
    requires a.log == b.log && a.keys == b.keys && a.queues.Keys == b.queues.Keys + {n} && a.queues[n] == q
    requires forall m :: m in b.queues && m != n ==> a.queues[m] == b.queues[m]
    ensures a == b.(queues := b.queues[n := q])
  {
    assert a.queues == b.queues[n := q];
  }

  // ---------- Enqueue ----------

  function EnqueueEta(now: Time, delayMs: int): Time {
    if delayMs > 0 then now + Millis(delayMs) else now
  }

  function NewJob(id: Bytes, queue: Bytes, payload: Bytes, headers: map<Bytes, Bytes>, priority: byte,
                  maxRetries: uint32, eta: Time, at: Time): Job
  {
    Job(id, queue, payload, headers, priority, 0, maxRetries, eta, [], ZERO_TIME, Ready, at)
  }

  function EnqueueRecord(j: Job): Record {
    Record(ENQUEUE, j.queue, j.id, j.payload, j.headers, j.priority, j.tries, j.maxRetries, j.eta, [], [])
  }

  function AddReady(q: QState, j: Job): QState {
    if j.id in q.ready then q else q.(ready := q.ready[j.id := j])
  }

  // ---------- Lease ----------

  function Leased(j: Job, leaseId: Bytes, deadline: Time): Job {
    j.(leaseId := leaseId, leaseDeadline := deadline, status := Inflight)
  }

  /** The jobs of `m`, each once, in the order they are to be served. */
  ghost predicate ServingOrder(js: seq<Job>, m: map<Bytes, Job>) {
    && (forall i, j :: 0 <= i < j < |js| ==> js[i].id != js[j].id && NotAfter(js[i], js[j]))
    && (forall i :: 0 <= i < |js| ==> js[i].id in m && m[js[i].id] == js[i])
    && (forall id :: id in m ==> m[id] in js)
  }

  ghost predicate AllReady(js: seq<Job>, now: Time) {
    forall i :: 0 <= i < |js| ==> IsReady(js[i], now)
  }

  /** `picked` is the longest stretch of ready jobs, up to `limit`, at the head of a serving order of `m`. */
  ghost predicate PickedFrom(picked: seq<Job>, order: seq<Job>, m: map<Bytes, Job>, now: Time, limit: int) {
    && ServingOrder(order, m) && picked <= order && AllReady(picked, now) && |picked| <= limit
    && (|picked| == limit || |picked| == |order| || !IsReady(order[|picked|], now))
  }

  ghost predicate Picked(picked: seq<Job>, m: map<Bytes, Job>, now: Time, limit: int) {
    exists order :: PickedFrom(picked, order, m, now, limit)
  }

  function IdSet(js: seq<Job>): set<Bytes> {
    set i | 0 <= i < |js| :: js[i].id
  }

  function LeasedAll(js: seq<Job>, ids: nat -> Bytes, deadline: Time): (ls: seq<Job>)
    ensures |ls| == |js| && forall i :: 0 <= i < |js| ==> ls[i] == Leased(js[i], ids(i), deadline)
  {
    seq(|js|, i requires 0 <= i < |js| => Leased(js[i], ids(i), deadline))
  }

  function PutAll(m: map<Bytes, Job>, js: seq<Job>): map<Bytes, Job> {
    if js == [] then m
    else
      var j := js[|js| - 1];
      PutAll(m, js[..|js| - 1])[j.id := j]
  }

  function TakeLeases(q: QState, picked: seq<Job>, ids: nat -> Bytes, deadline: Time): QState {
    QState(q.ready - IdSet(picked), PutAll(q.inflight, LeasedAll(picked, ids, deadline)), q.dlq)
  }

  function LeaseLimit(maxJobs: int): int {
    if maxJobs <= 0 then 1 else maxJobs
  }

  // ---------- Ack, Nack and expiry ----------

  function AckRecord(j: Job, id: Bytes, leaseId: Bytes): Record {
    Record(ACK, j.queue, id, [], map[], 0, 0, 0, ZERO_TIME, leaseId, [])
  }

  function DropLease(q: QState, id: Bytes): QState {
    q.(inflight := q.inflight - {id})
  }

  /** A job whose lease came to nothing: one more try counted, in the source's 32 bits, and a later ETA. */
  function Tried(j: Job, eta: Time): (t: Job)
    ensures t.id == j.id && t.queue == j.queue
  {
    j.(tries := (j.tries + 1) % 0x1_0000_0000, eta := eta, leaseId := [], leaseDeadline := ZERO_TIME)
  }

  /** The job `j`, tried once more, leaves inflight for the ready queue or the dead-letter queue. */
  function GiveBack(q: QState, id: Bytes, j: Job): QState {
    var q' := DropLease(q, id);
    if ShouldRetry(j) then AddReady(q', j.(status := Ready))
    else q'.(dlq := q'.dlq[id := j.(status := Dead)])
  }

  /** A nack whose log write failed: the job, tried once more and without its lease, is left inflight. */
  function HalfNacked(q: QState, id: Bytes, j: Job): QState {
    q.(inflight := q.inflight[id := j.(status := if ShouldRetry(j) then Ready else Dead)])
  }

  /** The record of a nack; one that dead-letters the job leaves most fields zero. */
  function NackRecord(j: Job, id: Bytes, leaseId: Bytes, reason: Bytes): Record {
    if ShouldRetry(j) then
      Record(NACK, j.queue, id, [], map[], j.priority, j.tries, j.maxRetries, j.eta, leaseId, reason)
    else
      Record(NACK, j.queue, id, [], map[], 0, j.tries, 0, ZERO_TIME, leaseId, reason)
  }

  predicate Expired(j: Job, now: Time) {
    j.leaseDeadline != ZERO_TIME && j.leaseDeadline < now
  }

  function RequeueRecord(j: Job): Record {
    Record(REQUEUE, j.queue, j.id, [], map[], j.priority, j.tries, j.maxRetries, j.eta, [], [])
  }

  /** The expired jobs of a queue, tried once more. `delay` stands for the backoff drawn for each of them. */
  function ExpiredJobs(q: QState, now: Time, delay: Bytes -> nat): map<Bytes, Job> {
    map id | id in q.inflight && Expired(q.inflight[id], now) :: Tried(q.inflight[id], now + delay(id))
  }

  function ToRetry(m: map<Bytes, Job>): map<Bytes, Job> {
    map id | id in m && ShouldRetry(m[id]) :: m[id].(status := Ready)
  }

  function ToBury(m: map<Bytes, Job>): map<Bytes, Job> {
    map id | id in m && !ShouldRetry(m[id]) :: m[id].(status := Dead)
  }

  /** A whole sweep of one queue, in one stroke: no order of visiting the jobs enters into it. */
  function Swept(q: QState, now: Time, delay: Bytes -> nat): QState {
    var late := ExpiredJobs(q, now, delay);
    QState(ToRetry(late) + q.ready, q.inflight - late.Keys, q.dlq + ToBury(late))
  }

  // ---------- Replay ----------

  function Revived(r: Record, at: Time): Job {
    Job(r.jobId, r.queue, r.payload, r.headers, r.priority, r.tries, r.maxRetries, r.eta, [], ZERO_TIME, Ready, at)
  }

  /** An inflight job as the record of a nack or a requeue leaves it. */
  function Retaken(j: Job, r: Record): Job {
    j.(tries := r.tries, eta := r.eta, leaseId := [], leaseDeadline := ZERO_TIME)
  }

  function Erased(q: QState, id: Bytes): QState {
    q.(inflight := q.inflight - {id}, dlq := q.dlq - {id})
  }

  /** What replaying one record does; a record for an unknown queue, or of an unknown kind, does nothing. */
  function Applied(queues: map<Bytes, QState>, r: Record, at: Time): map<Bytes, QState> {
    if r.kind == ENQUEUE then
      var qs := WithQueue(queues, r.queue);
      qs[r.queue := AddReady(qs[r.queue], Revived(r, at))]
    else if r.queue !in queues then queues
    else
      var q := queues[r.queue];
      if r.kind == ACK then queues[r.queue := DropLease(q, r.jobId)]
      else if r.kind == NACK || r.kind == REQUEUE then
        if r.jobId !in q.inflight then queues
        else
          queues[r.queue := GiveBack(q, r.jobId, Retaken(q.inflight[r.jobId], r))]
      else if r.kind == TOMBSTONE then
        queues[r.queue := Erased(q, r.jobId)]
      else queues
  }

  /** The records in turn; `clock` is what time.Now answers at each. */
  function AppliedAll(queues: map<Bytes, QState>, rs: seq<Record>, clock: nat -> Time): map<Bytes, QState> {
    if rs == [] then queues
    else
      var n := |rs| - 1;
      Applied(AppliedAll(queues, rs[..n], clock), rs[n], clock(n))
  }
}
