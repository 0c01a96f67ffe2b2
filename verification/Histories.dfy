/** Runs of the queue manager: its state, the Enqueue calls under way, and a history kept for the sake of the proofs.
    Each public operation is one atomic step, except Enqueue, which holds no lock between looking up its key, writing the
    log, storing the key and pushing the job: other steps, or a crash, may come between (internal/queue/queue.go). */
module Histories {
  import opened Binary
  import opened Seqs
  import opened Codec
  import opened Framing
  import opened Logs
  import opened Compaction
  import opened Jobs
  import opened States
  import opened Steps

  // The length of a UUID in its canonical text form.
  const ID_LENGTH := 36

  predicate IsId(id: Bytes) {
    |id| == ID_LENGTH
  }

  /**
   * origin: for every job ever logged, what the log keeps of its enqueue record.
   * known:  the jobs that entered a ready queue since the process started, by a push or by replay.
   * acked:  those of them that were acknowledged.
   * counts: how often each known job was leased since the process started.
   * holder: for every lease id ever drawn, the job it was drawn for.
   * spent:  the lease ids that were acked, nacked, or expired, or that an earlier process took with it.
   */
  datatype Hist = Hist(origin: map<Bytes, Record>, known: set<Bytes>, acked: set<Bytes>, counts: map<Bytes, nat>,
                       holder: map<Bytes, Bytes>, spent: set<Bytes>)

  /**
   * The Enqueue calls with an idempotency key, each named by the id that its job gets.
   * asked:  those whose lookup found nothing and which have not written the log yet, with their keys.
   * keyOf:  the keys of the jobs that were logged.
   * called: all of them, from the lookup on, also those that an earlier process took with it.
   */
  datatype Calls = Calls(asked: map<Bytes, Bytes>, keyOf: map<Bytes, Bytes>, called: set<Bytes>)

  /** `pending` are the jobs whose Enqueue has written the log but not yet pushed. */
  datatype World = World(st: State, pending: map<Bytes, Job>, hist: Hist, calls: Calls)

  datatype Event =
    | LookUp(id: Bytes, key: Bytes, found: Option<Bytes>)
    | WriteEnqueue(job: Job)
    | StoreKey(key: Bytes, id: Bytes)
    | PushJob(id: Bytes)
    | LeaseJobs(queue: Bytes, now: Time, maxJobs: int, visibilityMs: int, ids: nat -> Bytes, picked: seq<Job>)
    | AckJob(queue: Bytes, id: Bytes, leaseId: Bytes)
    | NackJob(queue: Bytes, id: Bytes, leaseId: Bytes, reason: Bytes, now: Time, delay: nat)
    | SweepQueue(queue: Bytes, now: Time, delays: Bytes -> nat)
    | CompactLog(active: set<Bytes>, ok: bool)
    | Crash(configured: int, clock: nat -> Time)

  /** The time can be written to the log. */
  predicate InRange(t: Time) {
    -TWO_63 <= UnixMilli(t) < TWO_63
  }

  /** A job as Enqueue creates it. */
  predicate IsNew(j: Job) {
    j.tries == 0 && j.leaseId == [] && j.leaseDeadline == ZERO_TIME && j.status == Ready
  }

  /** What GetIdempotencyKey answers; an empty id stands for none. */
  function Answer(keys: map<Bytes, Bytes>, key: Bytes): Option<Bytes> {
    if key in keys && keys[key] != [] then Some(keys[key]) else None
  }

  /** An Enqueue with a key starts with its lookup; if it finds a job it returns that and is over. */
  ghost predicate LookUpEvent(w: World, id: Bytes, key: Bytes, found: Option<Bytes>, w': World) {
    && key != [] && IsId(id) && id !in w.hist.origin && id !in w.calls.called
    && found == Answer(w.st.keys, key)
    && w' == if found.Some? then w
             else w.(calls := w.calls.(asked := w.calls.asked[id := key], called := w.calls.called + {id}))
  }

  /** A job of a call that asked for a key is logged with it. */
  function KeyLogged(c: Calls, id: Bytes): Calls {
    if id in c.asked then c.(asked := c.asked - {id}, keyOf := c.keyOf[id := c.asked[id]]) else c
  }

  ghost predicate LogEvent(ck: Checksum, w: World, j: Job, w': World) {
    && IsNew(j) && IsId(j.id) && j.id !in w.hist.origin && (j.id in w.calls.asked || j.id !in w.calls.called)
    && w'.calls == KeyLogged(w.calls, j.id)
    && Storable(EnqueueRecord(j))
    && Logged(ck, w.st, j, w'.st)
    && w'.pending == w.pending[j.id := j]
    && w'.hist == w.hist.(origin := w.hist.origin[j.id := Durable(EnqueueRecord(j))])
  }

  ghost predicate KeyEvent(w: World, key: Bytes, id: Bytes, w': World) {
    && id in w.pending && id in w.calls.keyOf && w.calls.keyOf[id] == key
    && w' == w.(st := KeyStored(w.st, key, id))
  }

  ghost predicate PushEvent(w: World, id: Bytes, w': World) {
    && id in w.pending && w.pending[id].queue in w.st.queues
    && w'.st == Pushed(w.st, w.pending[id])
    && w'.pending == w.pending - {id} && w'.calls == w.calls
    && w'.hist == w.hist.(known := w.hist.known + {id}, counts := w.hist.counts[id := 0])
  }

  /** The ids drawn are new and differ from each other. */
  ghost predicate FreshIds(h: Hist, ids: nat -> Bytes, n: nat) {
    && (forall i :: 0 <= i < n ==> IsId(ids(i)) && ids(i) !in h.holder)
    && (forall i, j :: 0 <= i < j < n ==> ids(i) != ids(j))
  }

  function CountUp(counts: map<Bytes, nat>, ids: set<Bytes>): map<Bytes, nat> {
    map id | id in counts :: if id in ids then counts[id] + 1 else counts[id]
  }

  function HoldersWith(holder: map<Bytes, Bytes>, picked: seq<Job>, ids: nat -> Bytes): map<Bytes, Bytes> {
    if picked == [] then holder
    else
      var n := |picked| - 1;
      HoldersWith(holder, picked[..n], ids)[ids(n) := picked[n].id]
  }

  ghost predicate LeaseEvent(w: World, n: Bytes, now: Time, maxJobs: int, visibilityMs: int, ids: nat -> Bytes,
                             picked: seq<Job>, w': World)
  {
    && LeaseStep(w.st, n, now, maxJobs, visibilityMs, ids, picked, w'.st)
    && FreshIds(w.hist, ids, |picked|)
    && w'.pending == w.pending && w'.calls == w.calls
    && w'.hist == w.hist.(counts := CountUp(w.hist.counts, IdSet(picked)), holder := HoldersWith(w.hist.holder, picked, ids))
  }

  ghost predicate AckEvent(ck: Checksum, w: World, n: Bytes, id: Bytes, leaseId: Bytes, w': World) {
    && AckStep(ck, w.st, n, id, leaseId, w'.st)
    && w'.pending == w.pending && w'.calls == w.calls
    && w'.hist == w.hist.(acked := w.hist.acked + {id}, spent := w.hist.spent + {leaseId})
  }

  ghost predicate NackEvent(ck: Checksum, w: World, n: Bytes, id: Bytes, leaseId: Bytes, reason: Bytes, now: Time,
                            delay: nat, w': World)
  {
    && |reason| < 0x8000_0000 && InRange(now + delay)
    && NackStep(ck, w.st, n, id, leaseId, reason, now, delay, w'.st)
    && w'.pending == w.pending && w'.calls == w.calls
    && w'.hist == w.hist.(spent := w.hist.spent + {leaseId})
  }

  /** The leases that a sweep at `now` takes back. */
  function LateLeases(q: QState, now: Time): set<Bytes> {
    set id | id in q.inflight && Expired(q.inflight[id], now) :: q.inflight[id].leaseId
  }

  ghost predicate SweepEvent(ck: Checksum, w: World, n: Bytes, now: Time, delay: Bytes -> nat, w': World) {
    && SweepStep(ck, w.st, n, now, delay, w'.st)
    && (forall id :: id in w.st.queues[n].inflight ==> InRange(now + delay(id)))
    && w'.pending == w.pending && w'.calls == w.calls
    && w'.hist == w.hist.(spent := w.hist.spent + LateLeases(w.st.queues[n], now))
  }

  /** The job is somewhere in the manager, or on its way into it. */
  predicate IsLive(w: World, id: Bytes) {
    (id in w.hist.known && id !in w.hist.acked) || id in w.pending
  }

  ghost predicate CompactEvent(ck: Checksum, w: World, active: set<Bytes>, ok: bool, w': World) {
    && (forall id :: IsLive(w, id) ==> id in active)
    && IsOpen(w.st.log) && CompactStep(ck, w.st.log, active, ok, w'.st.log)
    && w'.st == w.st.(log := w'.st.log)
    && w'.pending == w.pending && w'.hist == w.hist && w'.calls == w.calls
  }

  function ReadyIds(queues: map<Bytes, QState>): set<Bytes> {
    set n, id | n in queues && id in queues[n].ready :: id
  }

  ghost predicate RestartEvent(ck: Checksum, w: World, configured: int, clock: nat -> Time, w': World) {
    && RestartStep(ck, w.st, configured, clock, w'.st)
    && w'.pending == map[] && w'.calls == w.calls.(asked := map[])
    && var ids := ReadyIds(w'.st.queues);
       w'.hist == Hist(w.hist.origin, ids, {}, map id | id in ids :: 0, w.hist.holder, w.hist.holder.Keys)
  }

  ghost predicate Happens(ck: Checksum, w: World, e: Event, w': World) {
    match e
    case LookUp(id, key, found) => LookUpEvent(w, id, key, found, w')
    case WriteEnqueue(j) => LogEvent(ck, w, j, w')
    case StoreKey(key, id) => KeyEvent(w, key, id, w')
    case PushJob(id) => PushEvent(w, id, w')
    case LeaseJobs(n, now, maxJobs, visibilityMs, ids, picked) =>
      LeaseEvent(w, n, now, maxJobs, visibilityMs, ids, picked, w')
    case AckJob(n, id, leaseId) => AckEvent(ck, w, n, id, leaseId, w')
    case NackJob(n, id, leaseId, reason, now, delay) => NackEvent(ck, w, n, id, leaseId, reason, now, delay, w')
    case SweepQueue(n, now, delay) => SweepEvent(ck, w, n, now, delay, w')
    case CompactLog(active, ok) => CompactEvent(ck, w, active, ok, w')
    case Crash(configured, clock) => RestartEvent(ck, w, configured, clock, w')
  }

  /** A process that starts in an empty directory. */
  ghost predicate Initial(w: World) {
    && (exists configured :: w.st == State(map[], Reopened(map[], configured), map[]))
    && w.pending == map[]
    && w.hist == Hist(map[], {}, {}, map[], map[], {})
    && w.calls == Calls(map[], map[], {})
  }

  ghost predicate Run(ck: Checksum, ws: seq<World>, es: seq<Event>) {
    && |ws| == |es| + 1 && Initial(ws[0])
    && forall i :: 0 <= i < |es| ==> Happens(ck, ws[i], es[i], ws[i + 1])
  }
}
