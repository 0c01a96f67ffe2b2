/** Every step of a run keeps the invariant: where the jobs are, how often they were leased, whose leases are valid,
    and what of them is in the log (internal/queue/queue.go). */
module Runs {
  import opened Binary
  import opened Seqs
  import opened Codec
  import opened Framing
  import opened Logs
  import opened Compaction
  import opened Jobs
  import opened States
  import opened Sweeping
  import opened Steps
  import opened Histories
  import opened Invariants
  import opened Recovery

  /** Every live job has its enqueue record in the log, and the log's enqueue records are those of known origin. */
  ghost predicate LogInv(ck: Checksum, w: World) {
    && Healthy(ck, w.st.log)
    && (forall r :: Holds(ck, w.st.log, r) && r.kind == ENQUEUE ==> r.jobId in w.hist.origin && w.hist.origin[r.jobId] == r)
    && (forall id :: IsLive(w, id) ==> id in w.hist.origin && Holds(ck, w.st.log, w.hist.origin[id]))
  }

  ghost predicate Inv(ck: Checksum, w: World) {
    HistInv(w) && QueuesInv(w.hist, w.st.queues) && LogInv(ck, w)
  }

  // ---------- The queues ----------

  /** One queue moved on; the history says something new only about its jobs. */
  lemma QueuesMoveOn(h: Hist, h': Hist, queues: map<Bytes, QState>, n: Bytes, q': QState)
    requires QueuesInv(h, queues) && QueueInv(h', n, q') && h.known <= h.origin.Keys && Grows(h, h')
    requires forall id :: id in h.origin && h.origin[id].queue != n ==> Agree(h, h', id)
    requires forall id :: id in h'.known && id !in h.known && id in h'.origin ==> h'.origin[id].queue == n
    ensures QueuesInv(h', queues[n := q'])
  {
    hide Agree, QueueInv;
    forall m | m in queues && m != n ensures QueueInv(h', m, queues[m]) {
      QueueKept(h, h', m, queues[m]);
    }
  }

  lemma EmptyQueueInv(h: Hist, n: Bytes)
    requires forall id :: id in h.known && id in h.origin ==> h.origin[id].queue != n
    ensures QueueInv(h, n, NO_JOBS)
  {
  }

  // ---------- The log ----------

  lemma OtherRecordWritten(ck: Checksum, w: World, w': World, r: Record)
    requires LogInv(ck, w) && Storable(r) && r.kind != ENQUEUE && Wrote(ck, w.st.log, r, w'.st.log)
    requires w'.hist.origin == w.hist.origin && forall id :: IsLive(w', id) ==> IsLive(w, id)
    ensures LogInv(ck, w')
  {
    hide Holds, Wrote, Storable, IsLive;
    WriteHolds(ck, w.st.log, r, w'.st.log, r);
    forall x ensures Holds(ck, w'.st.log, x) <==> Holds(ck, w.st.log, x) || x == Cut(r) {
      WriteHolds(ck, w.st.log, r, w'.st.log, x);
    }
  }

  lemma SmallRecord(r: Record)
    requires Short(r.queue) && Short(r.jobId) && Short(r.leaseId) && r.payload == [] && r.headers == map[]
    requires InRange(r.eta) && |r.reason| < 0x8000_0000
    ensures Storable(r)
  {
    assert HeaderSize(r.headers) == 0;
  }

  lemma ZeroTimeInRange()
    ensures InRange(ZERO_TIME)
  {
  }

  // ---------- Event by event ----------

  lemma FitsForOrigin(j: Job)
    requires Storable(EnqueueRecord(j)) && IsNew(j) && IsId(j.id)
    ensures Cut(EnqueueRecord(j)) == Durable(EnqueueRecord(j))
    ensures IsOrigin(j.id, Durable(EnqueueRecord(j))) && SameJob(j, Durable(EnqueueRecord(j)))
  {
  }

  lemma LoggedQueues(ck: Checksum, w: World, j: Job, w': World)
    requires HistInv(w) && QueuesInv(w.hist, w.st.queues) && LogEvent(ck, w, j, w')
    ensures QueuesInv(w'.hist, w'.st.queues)
  {
    hide QueueInv, Storable, Wrote;
    forall n | n in w'.st.queues ensures QueueInv(w'.hist, n, w'.st.queues[n]) {
      if n in w.st.queues {
        QueueKept(w.hist, w'.hist, n, w.st.queues[n]);
      } else {
        EmptyQueueInv(w'.hist, n);
      }
    }
  }

  lemma LoggedPending(ck: Checksum, w: World, j: Job, w': World, id: Bytes)
    requires HistInv(w) && LogEvent(ck, w, j, w') && id in w'.pending
    ensures PendingAt(w', id, w'.pending[id])
  {
    FitsForOrigin(j);
    hide Storable, Wrote, SameJob, IsOrigin, Durable, EnqueueRecord, IsOpen, KeyLogged;
    if id != j.id {
      assert PendingAt(w, id, w.pending[id]);
    }
  }

  lemma LoggedHist(ck: Checksum, w: World, j: Job, w': World)
    requires HistInv(w) && LogEvent(ck, w, j, w')
    ensures HistInv(w')
  {
    FitsForOrigin(j);
    forall id | id in w'.pending ensures PendingAt(w', id, w'.pending[id]) {
      hide LogEvent, HistInv, PendingAt;
      LoggedPending(ck, w, j, w', id);
    }
    var r := Durable(EnqueueRecord(j));
    assert w'.hist == w.hist.(origin := w.hist.origin[j.id := r]) && w'.st.keys == w.st.keys;
    assert forall n :: n in w.st.queues ==> n in w'.st.queues;
    hide LogEvent, SameJob, IsOrigin, Durable, EnqueueRecord, IsOpen, PendingAt;
    OneMoreOrigin(w, w', j.id, r);
  }

  lemma OneMoreOrigin(w: World, w': World, id: Bytes, r: Record)
    requires HistInv(w) && id !in w.hist.origin && IsOrigin(id, r)
    requires w'.hist == w.hist.(origin := w.hist.origin[id := r]) && w'.st.keys == w.st.keys
    requires forall n :: n in w.st.queues ==> n in w'.st.queues
    requires forall x :: x in w'.pending ==> PendingAt(w', x, w'.pending[x])
    ensures HistInv(w')
  {
    hide IsOrigin, PendingAt;
  }

  lemma LoggedLog(ck: Checksum, w: World, j: Job, w': World)
    requires HistInv(w) && LogInv(ck, w) && LogEvent(ck, w, j, w')
    ensures LogInv(ck, w')
  {
    hide HistInv, Holds, Storable, Wrote, Durable, Cut, AllClean, IsLive;
    var r := EnqueueRecord(j);
    FitsForOrigin(j);
    WriteHolds(ck, w.st.log, r, w'.st.log, r);
    forall x ensures Holds(ck, w'.st.log, x) <==> Holds(ck, w.st.log, x) || x == Durable(r) {
      WriteHolds(ck, w.st.log, r, w'.st.log, x);
    }
    LiveOneMore(w, j, w');
    OriginWritten(ck, w, w', Durable(r));
  }

  lemma LiveOneMore(w: World, j: Job, w': World)
    requires w'.pending == w.pending[j.id := j] && w'.hist.known == w.hist.known && w'.hist.acked == w.hist.acked
    ensures forall id :: IsLive(w', id) ==> IsLive(w, id) || id == j.id
  {
  }

  lemma OriginWritten(ck: Checksum, w: World, w': World, d: Record)
    requires LogInv(ck, w) && Healthy(ck, w'.st.log)
    requires forall x :: Holds(ck, w'.st.log, x) <==> Holds(ck, w.st.log, x) || x == d
    requires d.kind == ENQUEUE && d.jobId !in w.hist.origin && w'.hist.origin == w.hist.origin[d.jobId := d]
    requires forall id :: IsLive(w', id) ==> IsLive(w, id) || id == d.jobId
    ensures LogInv(ck, w')
  {
    hide Holds, AllClean, IsLive;
  }

  lemma LogKeepsInv(ck: Checksum, w: World, j: Job, w': World)
    requires Inv(ck, w) && LogEvent(ck, w, j, w')
    ensures Inv(ck, w')
  {
    hide HistInv, QueuesInv, LogInv, LogEvent;
    LoggedQueues(ck, w, j, w');
    LoggedHist(ck, w, j, w');
    LoggedLog(ck, w, j, w');
  }

  /** A lookup changes nothing but what the call knows. */
  lemma LookUpKeepsInv(ck: Checksum, w: World, id: Bytes, key: Bytes, found: Option<Bytes>, w': World)
    requires Inv(ck, w) && LookUpEvent(w, id, key, found, w')
    ensures Inv(ck, w')
  {
    hide QueueInv, Holds, Healthy, IsOrigin;
    assert forall x :: IsLive(w', x) <==> IsLive(w, x);
    assert forall x :: x in w'.pending ==> PendingAt(w, x, w.pending[x]);
  }

  lemma KeyKeepsInv(ck: Checksum, w: World, key: Bytes, id: Bytes, w': World)
    requires Inv(ck, w) && KeyEvent(w, key, id, w')
    ensures Inv(ck, w')
  {
    hide QueueInv, Holds, Healthy;
    assert forall x :: IsLive(w', x) <==> IsLive(w, x);
    assert PendingAt(w, id, w.pending[id]);
    assert forall x :: x in w'.pending ==> PendingAt(w, x, w.pending[x]);
  }

  /** The duplicate guard of Push never drops a job that Enqueue pushes. */
  lemma PushedQueues(w: World, id: Bytes, w': World)
    requires HistInv(w) && QueuesInv(w.hist, w.st.queues) && PushEvent(w, id, w')
    ensures QueuesInv(w'.hist, w'.st.queues) && id !in w.st.queues[w.pending[id].queue].ready
  {
    hide QueueInv, AddReady;
    var j := w.pending[id];
    var n := j.queue;
    assert PendingAt(w, id, j);
    PushKeeps(w.hist, w'.hist, n, w.st.queues[n], j);
    QueuesMoveOn(w.hist, w'.hist, w.st.queues, n, AddReady(w.st.queues[n], j));
  }

  lemma PushedHist(w: World, id: Bytes, w': World)
    requires HistInv(w) && PushEvent(w, id, w')
    ensures HistInv(w') && forall x :: IsLive(w', x) ==> IsLive(w, x)
  {
    hide AddReady;
    assert PendingAt(w, id, w.pending[id]);
    forall x | x in w'.pending ensures PendingAt(w', x, w'.pending[x]) {
      assert PendingAt(w, x, w.pending[x]);
    }
  }

  /** Nothing was written, and nothing came to life. */
  lemma LogUntouched(ck: Checksum, w: World, w': World)
    requires LogInv(ck, w) && w'.st.log == w.st.log && w'.hist.origin == w.hist.origin
    requires forall id :: IsLive(w', id) ==> IsLive(w, id)
    ensures LogInv(ck, w')
  {
    hide Holds, Healthy, IsLive;
  }

  lemma PushKeepsInv(ck: Checksum, w: World, id: Bytes, w': World)
    requires Inv(ck, w) && PushEvent(w, id, w')
    ensures Inv(ck, w')
  {
    PushedQueues(w, id, w');
    PushedHist(w, id, w');
    hide HistInv, QueuesInv, LogInv, IsLive;
    LogUntouched(ck, w, w');
  }

  // ---------- Lease ----------

  lemma LeasedQueues(w: World, n: Bytes, now: Time, maxJobs: int, visibilityMs: int, ids: nat -> Bytes,
                     picked: seq<Job>, w': World)
    requires HistInv(w) && QueuesInv(w.hist, w.st.queues)
    requires LeaseEvent(w, n, now, maxJobs, visibilityMs, ids, picked, w')
    ensures QueuesInv(w'.hist, w'.st.queues)
  {
    hide QueueInv, TakeLeases, Picked, Agree, FreshIds, HoldersWith, CountUp;
    var q := w.st.queues[n];
    PickedFromReady(picked, q, now, LeaseLimit(maxJobs));
    LeaseKeeps(w.hist, n, q, picked, ids, now + Millis(visibilityMs));
    forall x | x in w.hist.origin && w.hist.origin[x].queue != n ensures Agree(w.hist, w'.hist, x) {
      ReadyBelongs(w.hist, n, q, picked, x);
      LeaseAgrees(w.hist, picked, ids, x);
    }
    QueuesMoveOn(w.hist, w'.hist, w.st.queues, n, TakeLeases(q, picked, ids, now + Millis(visibilityMs)));
  }

  lemma ReadyBelongs(h: Hist, n: Bytes, q: QState, picked: seq<Job>, x: Bytes)
    requires QueueInv(h, n, q) && FromReady(picked, q) && x in h.origin && h.origin[x].queue != n
    ensures x !in IdSet(picked)
  {
    assert Local(h, n, q, x);
  }

  lemma LeasedHist(w: World, n: Bytes, now: Time, maxJobs: int, visibilityMs: int, ids: nat -> Bytes,
                   picked: seq<Job>, w': World)
    requires HistInv(w) && QueuesInv(w.hist, w.st.queues)
    requires LeaseEvent(w, n, now, maxJobs, visibilityMs, ids, picked, w')
    ensures HistInv(w') && forall x :: IsLive(w', x) ==> IsLive(w, x)
  {
    forall x | x in w'.pending ensures PendingAt(w', x, w'.pending[x]) {
      assert PendingAt(w, x, w.pending[x]);
    }
    LeasedCounts(w, n, now, maxJobs, picked);
    forall l | l in w.hist.holder ensures l in w'.hist.holder {
      HoldersAt(w.hist.holder, picked, ids, l);
    }
    hide QueuesInv, TakeLeases, Picked, FreshIds, HoldersWith, PendingAt, IsOrigin, CountUp;
  }

  /** A lease counts known jobs only, and none that was acknowledged. */
  lemma LeasedCounts(w: World, n: Bytes, now: Time, maxJobs: int, picked: seq<Job>)
    requires HistInv(w) && QueuesInv(w.hist, w.st.queues)
    requires n in w.st.queues && Picked(picked, w.st.queues[n].ready, now, LeaseLimit(maxJobs))
    ensures var counts := CountUp(w.hist.counts, IdSet(picked));
            counts.Keys == w.hist.counts.Keys && forall x :: x in w.hist.acked ==> counts[x] == w.hist.counts[x]
  {
    var q := w.st.queues[n];
    PickedFromReady(picked, q, now, LeaseLimit(maxJobs));
    hide Picked;
    forall x | x in w.hist.acked ensures x !in IdSet(picked) {
      assert QueueInv(w.hist, n, q);
      assert Local(w.hist, n, q, x);
    }
  }

  lemma LeaseKeepsInv(ck: Checksum, w: World, n: Bytes, now: Time, maxJobs: int, visibilityMs: int, ids: nat -> Bytes,
                      picked: seq<Job>, w': World)
    requires Inv(ck, w) && LeaseEvent(w, n, now, maxJobs, visibilityMs, ids, picked, w')
    ensures Inv(ck, w')
  {
    LeasedQueues(w, n, now, maxJobs, visibilityMs, ids, picked, w');
    LeasedHist(w, n, now, maxJobs, visibilityMs, ids, picked, w');
    hide HistInv, QueuesInv, LogInv, IsLive;
    LogUntouched(ck, w, w');
  }

  // ---------- Ack and Nack ----------

  /** Every step that leaves origins, known jobs and pending jobs alone leaves the history consistent. */
  lemma HistUntouched(w: World, w': World)
    requires HistInv(w) && w'.pending == w.pending && w'.st.keys == w.st.keys
    requires w'.hist.origin == w.hist.origin && w'.hist.known == w.hist.known && w'.hist.counts == w.hist.counts
    requires w'.hist.holder == w.hist.holder && w'.hist.spent <= w'.hist.holder.Keys
    requires w.hist.acked <= w'.hist.acked && w'.hist.acked <= w'.hist.known
    requires forall id :: id in w'.hist.acked && id !in w.hist.acked ==> w.hist.counts[id] <= Budget(w.hist.origin[id].maxRetries)
    requires w'.st.queues.Keys == w.st.queues.Keys
    ensures HistInv(w') && forall x :: IsLive(w', x) ==> IsLive(w, x)
  {
    hide SameJob, IsOrigin;
    forall x | x in w'.pending ensures PendingAt(w', x, w'.pending[x]) {
      assert PendingAt(w, x, w.pending[x]);
    }
  }

  /** A lease held in queue `n`: what the invariant says of it. */
  lemma HeldLease(w: World, n: Bytes, id: Bytes, leaseId: Bytes)
    requires QueuesInv(w.hist, w.st.queues) && HoldsLease(w.st, n, id, leaseId)
    ensures InflightAt(w.hist, n, id, w.st.queues[n].inflight[id])
    ensures id in w.hist.known && id !in w.hist.acked && id in w.hist.origin && w.hist.origin[id].queue == n
    ensures leaseId in w.hist.holder && w.hist.holder[leaseId] == id && leaseId !in w.hist.spent && IsId(leaseId)
  {
    assert QueueInv(w.hist, n, w.st.queues[n]);
    assert Local(w.hist, n, w.st.queues[n], id);
  }

  /** A lease given up: nothing changes for the jobs of other queues. */
  lemma OthersAgree(h: Hist, h': Hist, n: Bytes, id: Bytes, leaseId: Bytes, x: Bytes)
    requires h' == h.(spent := h.spent + {leaseId}) || h' == h.(acked := h.acked + {id}, spent := h.spent + {leaseId})
    requires leaseId in h.holder && h.holder[leaseId] == id && id in h.origin && h.origin[id].queue == n
    requires x in h.origin && h.origin[x].queue != n
    ensures Agree(h, h', x)
  {
  }

  lemma AckedQueues(ck: Checksum, w: World, n: Bytes, id: Bytes, leaseId: Bytes, w': World)
    requires HistInv(w) && QueuesInv(w.hist, w.st.queues) && AckEvent(ck, w, n, id, leaseId, w')
    ensures QueuesInv(w'.hist, w'.st.queues)
  {
    hide QueueInv, Wrote, DropLease, Agree, InflightAt;
    var q := w.st.queues[n];
    HeldLease(w, n, id, leaseId);
    AckKeeps(w.hist, w'.hist, n, q, id);
    forall x | x in w.hist.origin && w.hist.origin[x].queue != n ensures Agree(w.hist, w'.hist, x) {
      OthersAgree(w.hist, w'.hist, n, id, leaseId, x);
    }
    QueuesMoveOn(w.hist, w'.hist, w.st.queues, n, DropLease(q, id));
  }

  lemma AckedHist(ck: Checksum, w: World, n: Bytes, id: Bytes, leaseId: Bytes, w': World)
    requires HistInv(w) && QueuesInv(w.hist, w.st.queues) && AckEvent(ck, w, n, id, leaseId, w')
    ensures HistInv(w') && forall x :: IsLive(w', x) ==> IsLive(w, x)
  {
    hide QueuesInv, Wrote, DropLease, IsLive;
    HeldLease(w, n, id, leaseId);
    HistUntouched(w, w');
  }

  lemma AckStorable(w: World, n: Bytes, id: Bytes, leaseId: Bytes)
    requires HistInv(w) && QueuesInv(w.hist, w.st.queues) && HoldsLease(w.st, n, id, leaseId)
    ensures Storable(AckRecord(w.st.queues[n].inflight[id], id, leaseId))
  {
    hide QueuesInv, Storable;
    HeldLease(w, n, id, leaseId);
    assert IsOrigin(id, w.hist.origin[id]);
    ZeroTimeInRange();
    SmallRecord(AckRecord(w.st.queues[n].inflight[id], id, leaseId));
  }

  lemma AckKeepsInv(ck: Checksum, w: World, n: Bytes, id: Bytes, leaseId: Bytes, w': World)
    requires Inv(ck, w) && AckEvent(ck, w, n, id, leaseId, w')
    ensures Inv(ck, w')
  {
    hide HistInv, QueuesInv, LogInv, IsLive, Wrote, DropLease, Storable;
    AckedQueues(ck, w, n, id, leaseId, w');
    AckedHist(ck, w, n, id, leaseId, w');
    AckStorable(w, n, id, leaseId);
    OtherRecordWritten(ck, w, w', AckRecord(w.st.queues[n].inflight[id], id, leaseId));
  }

  lemma NackedQueues(ck: Checksum, w: World, n: Bytes, id: Bytes, leaseId: Bytes, reason: Bytes, now: Time, delay: nat, w': World)
    requires HistInv(w) && QueuesInv(w.hist, w.st.queues) && NackEvent(ck, w, n, id, leaseId, reason, now, delay, w')
    ensures QueuesInv(w'.hist, w'.st.queues)
  {
    hide QueueInv, Wrote, GiveBack, Tried, Agree, InflightAt;
    var q := w.st.queues[n];
    HeldLease(w, n, id, leaseId);
    NackKeeps(w.hist, w'.hist, n, q, id, now + delay);
    forall x | x in w.hist.origin && w.hist.origin[x].queue != n ensures Agree(w.hist, w'.hist, x) {
      OthersAgree(w.hist, w'.hist, n, id, leaseId, x);
    }
    QueuesMoveOn(w.hist, w'.hist, w.st.queues, n, GiveBack(q, id, Tried(q.inflight[id], now + delay)));
  }

  lemma NackedHist(ck: Checksum, w: World, n: Bytes, id: Bytes, leaseId: Bytes, reason: Bytes, now: Time, delay: nat, w': World)
    requires HistInv(w) && QueuesInv(w.hist, w.st.queues) && NackEvent(ck, w, n, id, leaseId, reason, now, delay, w')
    ensures HistInv(w') && forall x :: IsLive(w', x) ==> IsLive(w, x)
  {
    hide QueuesInv, Wrote, GiveBack, Tried, IsLive;
    HeldLease(w, n, id, leaseId);
    HistUntouched(w, w');
  }

  lemma NackStorable(w: World, n: Bytes, id: Bytes, leaseId: Bytes, reason: Bytes, eta: Time)
    requires HistInv(w) && QueuesInv(w.hist, w.st.queues) && HoldsLease(w.st, n, id, leaseId)
    requires InRange(eta) && |reason| < 0x8000_0000
    ensures Storable(NackRecord(Tried(w.st.queues[n].inflight[id], eta), id, leaseId, reason))
  {
    hide QueuesInv, Storable, InRange;
    HeldLease(w, n, id, leaseId);
    assert IsOrigin(id, w.hist.origin[id]);
    ZeroTimeInRange();
    SmallRecord(NackRecord(Tried(w.st.queues[n].inflight[id], eta), id, leaseId, reason));
  }

  lemma NackKeepsInv(ck: Checksum, w: World, n: Bytes, id: Bytes, leaseId: Bytes, reason: Bytes, now: Time, delay: nat, w': World)
    requires Inv(ck, w) && NackEvent(ck, w, n, id, leaseId, reason, now, delay, w')
    ensures Inv(ck, w')
  {
    hide HistInv, QueuesInv, LogInv, IsLive, Wrote, GiveBack, Tried, Storable, InRange;
    NackedQueues(ck, w, n, id, leaseId, reason, now, delay, w');
    NackedHist(ck, w, n, id, leaseId, reason, now, delay, w');
    NackStorable(w, n, id, leaseId, reason, now + delay);
    OtherRecordWritten(ck, w, w', NackRecord(Tried(w.st.queues[n].inflight[id], now + delay), id, leaseId, reason));
  }

  // ---------- Sweep ----------

  lemma SweptQueues(ck: Checksum, w: World, n: Bytes, now: Time, delay: Bytes -> nat, w': World)
    requires HistInv(w) && QueuesInv(w.hist, w.st.queues) && SweepEvent(ck, w, n, now, delay, w')
    ensures QueuesInv(w'.hist, w'.st.queues)
  {
    hide QueueInv, Swept, SweepLogged, LateLeases, Agree;
    var q := w.st.queues[n];
    SweepKeeps(w.hist, w'.hist, n, q, now, delay);
    forall x | x in w.hist.origin && w.hist.origin[x].queue != n ensures Agree(w.hist, w'.hist, x) {
      InflightBelongs(w.hist, n, q, x);
      SweepAgrees(w.hist, w'.hist, n, q, now, x);
    }
    QueuesMoveOn(w.hist, w'.hist, w.st.queues, n, Swept(q, now, delay));
  }

  lemma InflightBelongs(h: Hist, n: Bytes, q: QState, x: Bytes)
    requires QueueInv(h, n, q) && x in h.origin && h.origin[x].queue != n
    ensures x !in q.inflight
  {
    assert Local(h, n, q, x);
  }

  lemma SweptHist(ck: Checksum, w: World, n: Bytes, now: Time, delay: Bytes -> nat, w': World)
    requires HistInv(w) && QueuesInv(w.hist, w.st.queues) && SweepEvent(ck, w, n, now, delay, w')
    ensures HistInv(w') && forall x :: IsLive(w', x) ==> IsLive(w, x)
  {
    hide QueueInv, Swept, SweepLogged, IsLive, LateLeases;
    var q := w.st.queues[n];
    forall l | l in LateLeases(q, now) ensures l in w.hist.holder {
      LateHolders(w.hist, n, q, now, l);
    }
    HistUntouched(w, w');
  }

  lemma RequeueStorable(h: Hist, n: Bytes, q: QState, now: Time, delay: Bytes -> nat, id: Bytes)
    requires QueueInv(h, n, q) && id in ToRetry(ExpiredJobs(q, now, delay)) && InRange(now + delay(id))
    requires forall x :: x in h.origin ==> IsOrigin(x, h.origin[x])
    ensures Storable(RequeueRecord(ToRetry(ExpiredJobs(q, now, delay))[id]))
  {
    RetriedWasInflight(q, now, delay, id);
    hide Storable, InRange, ToRetry, ExpiredJobs;
    assert Local(h, n, q, id);
    assert IsOrigin(id, h.origin[id]);
    SmallRecord(RequeueRecord(ToRetry(ExpiredJobs(q, now, delay))[id]));
  }

  /** A sweep writes only requeue records, all of which can be read again. */
  lemma SweepWrites(ck: Checksum, w: World, n: Bytes, now: Time, delay: Bytes -> nat, w': World)
    returns (rs: seq<Record>, order: seq<Bytes>)
    requires HistInv(w) && QueuesInv(w.hist, w.st.queues) && LogInv(ck, w) && SweepEvent(ck, w, n, now, delay, w')
    ensures AllStorable(rs) && WroteAll(ck, w.st.log, rs, w'.st.log)
    ensures RequeuesOf(rs, order, ToRetry(ExpiredJobs(w.st.queues[n], now, delay)))
    ensures forall i :: 0 <= i < |rs| ==> rs[i].kind != ENQUEUE
  {
    hide QueueInv, Swept, WroteAll, IsLive, ToRetry, ExpiredJobs, Storable, Holds, AllClean;
    var q := w.st.queues[n];
    var m := ToRetry(ExpiredJobs(q, now, delay));
    var records: seq<Record>, ids: seq<Bytes> :| RequeuesOf(records, ids, m) && WroteAll(ck, w.st.log, records, w'.st.log);
    rs, order := records, ids;
    forall i | 0 <= i < |rs| ensures Storable(rs[i]) && rs[i].kind != ENQUEUE {
      RetriedWasInflight(q, now, delay, order[i]);
      RequeueStorable(w.hist, n, q, now, delay, order[i]);
    }
  }

  lemma SweptLog(ck: Checksum, w: World, n: Bytes, now: Time, delay: Bytes -> nat, w': World)
    requires HistInv(w) && QueuesInv(w.hist, w.st.queues) && LogInv(ck, w) && SweepEvent(ck, w, n, now, delay, w')
    requires forall x :: IsLive(w', x) ==> IsLive(w, x)
    ensures LogInv(ck, w')
  {
    hide HistInv, QueuesInv, Swept, WroteAll, IsLive, Storable, Holds, AllClean;
    var rs, _ := SweepWrites(ck, w, n, now, delay, w');
    OtherRecordsWritten(ck, w, w', rs);
  }

  lemma RetriedWasInflight(q: QState, now: Time, delay: Bytes -> nat, id: Bytes)
    requires id in ToRetry(ExpiredJobs(q, now, delay))
    ensures id in q.inflight
    ensures ToRetry(ExpiredJobs(q, now, delay))[id] == Tried(q.inflight[id], now + delay(id)).(status := Ready)
  {
  }

  lemma OtherRecordsWritten(ck: Checksum, w: World, w': World, rs: seq<Record>)
    requires LogInv(ck, w) && AllStorable(rs) && WroteAll(ck, w.st.log, rs, w'.st.log)
    requires forall i :: 0 <= i < |rs| ==> rs[i].kind != ENQUEUE
    requires w'.hist.origin == w.hist.origin && forall id :: IsLive(w', id) ==> IsLive(w, id)
    ensures LogInv(ck, w')
  {
    hide Holds, WroteAll, AllStorable, IsLive, AllClean;
    var any: Record :| true;
    WriteAllHolds(ck, w.st.log, rs, w'.st.log, any);
    forall x ensures Holds(ck, w'.st.log, x) <==> Holds(ck, w.st.log, x) || exists i :: 0 <= i < |rs| && x == Cut(rs[i]) {
      WriteAllHolds(ck, w.st.log, rs, w'.st.log, x);
    }
  }

  lemma SweepKeepsInv(ck: Checksum, w: World, n: Bytes, now: Time, delay: Bytes -> nat, w': World)
    requires Inv(ck, w) && SweepEvent(ck, w, n, now, delay, w')
    ensures Inv(ck, w')
  {
    hide HistInv, QueuesInv, LogInv, SweepEvent, IsLive;
    SweptQueues(ck, w, n, now, delay, w');
    SweptHist(ck, w, n, now, delay, w');
    SweptLog(ck, w, n, now, delay, w');
  }

  // ---------- Compaction ----------

  lemma CompactKeepsInv(ck: Checksum, w: World, active: set<Bytes>, ok: bool, w': World)
    requires Inv(ck, w) && CompactEvent(ck, w, active, ok, w')
    ensures Inv(ck, w') && ok
  {
    hide QueuesInv, Holds, CompactStep, AllClean;
    assert HistInv(w') by {
      hide SameJob, IsOrigin;
      assert forall x :: x in w.pending ==> PendingAt(w, x, w.pending[x]);
    }
    assert forall id :: IsLive(w', id) <==> IsLive(w, id);
    var any: Record :| true;
    CompactHolds(ck, w.st.log, active, ok, w'.st.log, any);
    hide IsLive;
    forall r | Holds(ck, w'.st.log, r) ensures Holds(ck, w.st.log, r) {
      CompactHolds(ck, w.st.log, active, ok, w'.st.log, r);
    }
    forall id | IsLive(w', id) ensures id in w.hist.origin && Holds(ck, w'.st.log, w.hist.origin[id]) {
      assert IsOrigin(id, w.hist.origin[id]);
      CompactHolds(ck, w.st.log, active, ok, w'.st.log, w.hist.origin[id]);
    }
  }

  // ---------- A crash and a new start ----------

  lemma CrashRebuilds(ck: Checksum, w: World, configured: int, clock: nat -> Time, w': World)
    requires Healthy(ck, w.st.log) && RestartEvent(ck, w, configured, clock, w')
    ensures Healthy(ck, w'.st.log) && Rebuilds(w'.st.queues, Replay(ck, w'.st.log).records)
    ensures forall r :: Holds(ck, w'.st.log, r) <==> Holds(ck, w.st.log, r)
  {
    hide AllClean, Rebuilds, Reopened, Replay, ReadyIds;
    var any: Record :| true;
    ReopenHolds(ck, w.st.log, configured, any);
    ReplayRebuilds(Replay(ck, w'.st.log).records, clock);
    forall r ensures Holds(ck, w'.st.log, r) <==> Holds(ck, w.st.log, r) {
      ReopenHolds(ck, w.st.log, configured, r);
    }
  }

  /** Whatever is ready after a start was enqueued once, and is as its enqueue record has it. */
  lemma RecoveredIsOrigin(ck: Checksum, w: World, configured: int, clock: nat -> Time, w': World, n: Bytes, id: Bytes)
    requires LogInv(ck, w) && RestartEvent(ck, w, configured, clock, w')
    requires n in w'.st.queues && id in w'.st.queues[n].ready
    ensures id in w.hist.origin && w.hist.origin[id].queue == n && Holds(ck, w.st.log, w.hist.origin[id])
    ensures w'.st.queues[n].ready[id] == Revived(w.hist.origin[id], w'.st.queues[n].ready[id].enqueuedAt)
  {
    hide AllClean, RestartStep, Replay, Find, ReadyIds;
    CrashRebuilds(ck, w, configured, clock, w');
    var rs := Replay(ck, w'.st.log).records;
    assert RebuildsAt(w'.st.queues, rs, n, id);
    FoundIsHeld(rs, n, id);
    var r := Find(rs, n, id).value;
    assert Holds(ck, w'.st.log, r);
  }

  /** Whatever has its enqueue record in the log is ready after a start. */
  lemma HeldIsRecovered(ck: Checksum, w: World, configured: int, clock: nat -> Time, w': World, id: Bytes)
    requires HistInv(w) && LogInv(ck, w) && RestartEvent(ck, w, configured, clock, w')
    requires id in w.hist.origin && Holds(ck, w.st.log, w.hist.origin[id])
    ensures w.hist.origin[id].queue in w'.st.queues && id in w'.st.queues[w.hist.origin[id].queue].ready
  {
    hide AllClean, RestartStep, Replay, Find, ReadyIds;
    CrashRebuilds(ck, w, configured, clock, w');
    var rs, r := Replay(ck, w'.st.log).records, w.hist.origin[id];
    assert IsOrigin(id, r);
    assert Holds(ck, w'.st.log, r);
    FoundIsHeld(rs, r.queue, id);
    assert RebuildsAt(w'.st.queues, rs, r.queue, id);
  }

  lemma CrashedQueues(ck: Checksum, w: World, configured: int, clock: nat -> Time, w': World)
    requires HistInv(w) && LogInv(ck, w) && RestartEvent(ck, w, configured, clock, w')
    ensures QueuesInv(w'.hist, w'.st.queues)
  {
    CrashRebuilds(ck, w, configured, clock, w');
    hide LogInv, RestartStep, Holds, Healthy, RebuildsAt, Revived;
    forall n, id | n in w'.st.queues ensures Local(w'.hist, n, w'.st.queues[n], id) {
      if id in w'.st.queues[n].ready {
        RecoveredIsOrigin(ck, w, configured, clock, w', n, id);
        RevivedIsReady(w'.hist, n, w.hist.origin[id], w'.st.queues[n].ready[id].enqueuedAt);
      } else if id in w'.hist.known {
        var m :| m in w'.st.queues && id in w'.st.queues[m].ready;
        RecoveredIsOrigin(ck, w, configured, clock, w', m, id);
      }
    }
  }

  lemma RevivedIsReady(h: Hist, n: Bytes, r: Record, at: Time)
    requires IsOrigin(r.jobId, r) && r.jobId in h.origin && h.origin[r.jobId] == r && r.queue == n
    requires r.jobId in h.known && r.jobId !in h.acked && r.jobId in h.counts && h.counts[r.jobId] == 0
    ensures ReadyAt(h, n, r.jobId, Revived(r, at))
  {
  }

  lemma CrashedHist(ck: Checksum, w: World, configured: int, clock: nat -> Time, w': World)
    requires HistInv(w) && LogInv(ck, w) && RestartEvent(ck, w, configured, clock, w')
    ensures HistInv(w')
  {
    hide LogInv, IsOrigin, Revived, Replay, AppliedAll, Reopened;
    forall id | id in w'.hist.known ensures id in w.hist.origin && w.hist.origin[id].queue in w'.st.queues {
      var m :| m in w'.st.queues && id in w'.st.queues[m].ready;
      RecoveredIsOrigin(ck, w, configured, clock, w', m, id);
    }
  }

  lemma CrashedLog(ck: Checksum, w: World, configured: int, clock: nat -> Time, w': World)
    requires HistInv(w) && LogInv(ck, w) && RestartEvent(ck, w, configured, clock, w')
    ensures LogInv(ck, w')
  {
    CrashRebuilds(ck, w, configured, clock, w');
    hide Holds, AllClean, Revived, Replay, Rebuilds, AppliedAll, Reopened;
    forall id | IsLive(w', id) ensures id in w.hist.origin && Holds(ck, w.st.log, w.hist.origin[id]) {
      var m :| m in w'.st.queues && id in w'.st.queues[m].ready;
      RecoveredIsOrigin(ck, w, configured, clock, w', m, id);
    }
  }

  lemma CrashKeepsInv(ck: Checksum, w: World, configured: int, clock: nat -> Time, w': World)
    requires Inv(ck, w) && RestartEvent(ck, w, configured, clock, w')
    ensures Inv(ck, w')
  {
    hide HistInv, QueuesInv, LogInv, RestartEvent;
    CrashedQueues(ck, w, configured, clock, w');
    CrashedHist(ck, w, configured, clock, w');
    CrashedLog(ck, w, configured, clock, w');
  }

  // ---------- Whole runs ----------

  lemma InitialInv(ck: Checksum, w: World)
    requires Initial(w)
    ensures Inv(ck, w)
  {
    var configured :| w.st == State(map[], Reopened(map[], configured), map[]);
    EmptyLog(ck, configured);
  }

  /** Every step keeps the invariant. */
  lemma NextKeepsInv(ck: Checksum, w: World, e: Event, w': World)
    requires Inv(ck, w) && Happens(ck, w, e, w')
    ensures Inv(ck, w')
  {
    hide Inv, LookUpEvent, LogEvent, KeyEvent, PushEvent, LeaseEvent, AckEvent, NackEvent, SweepEvent, CompactEvent, RestartEvent;
    match e {
      case LookUp(id, key, found) => LookUpKeepsInv(ck, w, id, key, found, w');
      case WriteEnqueue(j) => LogKeepsInv(ck, w, j, w');
      case StoreKey(key, id) => KeyKeepsInv(ck, w, key, id, w');
      case PushJob(id) => PushKeepsInv(ck, w, id, w');
      case LeaseJobs(n, now, maxJobs, visibilityMs, ids, picked) =>
        LeaseKeepsInv(ck, w, n, now, maxJobs, visibilityMs, ids, picked, w');
      case AckJob(n, id, leaseId) => AckKeepsInv(ck, w, n, id, leaseId, w');
      case NackJob(n, id, leaseId, reason, now, delay) => NackKeepsInv(ck, w, n, id, leaseId, reason, now, delay, w');
      case SweepQueue(n, now, delay) => SweepKeepsInv(ck, w, n, now, delay, w');
      case CompactLog(active, ok) => CompactKeepsInv(ck, w, active, ok, w');
      case Crash(configured, clock) => CrashKeepsInv(ck, w, configured, clock, w');
    }
  }

  /** The invariant holds in every state of every run. */
  lemma {:induction false} RunKeepsInv(ck: Checksum, ws: seq<World>, es: seq<Event>, i: nat)
    requires Run(ck, ws, es) && i <= |es|
    ensures Inv(ck, ws[i])
    decreases i
  {
    hide Inv, Happens;
    if i == 0 {
      InitialInv(ck, ws[0]);
    } else {
      RunKeepsInv(ck, ws, es, i - 1);
      NextKeepsInv(ck, ws[i - 1], es[i - 1], ws[i]);
    }
  }
}
