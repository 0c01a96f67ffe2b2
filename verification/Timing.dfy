/** What the clock decides, for every run: who is handed out when, how long a lease lasts, and how long a job waits
    (internal/queue/queue.go). */
module Timing {
  import opened Binary
  import opened Codec
  import opened Framing
  import opened Logs
  import opened Compaction
  import opened Jobs
  import opened States
  import opened Serving
  import opened Sweeping
  import opened Steps
  import opened Histories
  import opened Invariants
  import opened Runs
  import Theorems

  // ---------- One step of one queue ----------

  /** What an event other than a crash makes of queue `n`. */
  ghost predicate Turns(w: World, e: Event, n: Bytes, q: QState, q': QState) {
    match e
    case PushJob(id) => id in w.pending && q' == if w.pending[id].queue == n then AddReady(q, w.pending[id]) else q
    case LeaseJobs(m, now, maxJobs, visibilityMs, ids, picked) =>
      if m != n then q' == q
      else Picked(picked, q.ready, now, LeaseLimit(maxJobs)) && q' == TakeLeases(q, picked, ids, now + Millis(visibilityMs))
    case AckJob(m, id, _) => q' == if m == n then DropLease(q, id) else q
    case NackJob(m, id, _, _, now, delay) =>
      if m != n then q' == q else id in q.inflight && q' == GiveBack(q, id, Tried(q.inflight[id], now + delay))
    case SweepQueue(m, now, delays) => q' == if m == n then Swept(q, now, delays) else q
    case _ => q' == q
  }

  lemma QueueTurns(ck: Checksum, w: World, e: Event, w': World, n: Bytes)
    requires Happens(ck, w, e, w') && !e.Crash? && n in w.st.queues
    ensures n in w'.st.queues && Turns(w, e, n, w.st.queues[n], w'.st.queues[n])
  {
    hide AddReady, TakeLeases, GiveBack, DropLease, Swept, Tried, Picked, Wrote, SweepLogged, CompactStep, FreshIds, IsOpen,
      Storable, Durable, IsNew, EnqueueRecord, NackRecord, AckRecord, CountUp, HoldersWith, LateLeases, Millis;
  }

  lemma KeyedByInv(w: World, n: Bytes)
    requires QueuesInv(w.hist, w.st.queues) && n in w.st.queues
    ensures Keyed(w.st.queues[n].ready) && Keyed(w.st.queues[n].inflight)
    ensures forall id :: id in w.st.queues[n].ready ==> w.st.queues[n].ready[id].queue == n && w.st.queues[n].ready[id].status == Ready
    ensures forall id :: id in w.st.queues[n].ready ==> id !in w.st.queues[n].dlq
    ensures forall id :: id in w.st.queues[n].inflight ==> id !in w.st.queues[n].ready && id !in w.st.queues[n].dlq
  {
    var q := w.st.queues[n];
    assert QueueInv(w.hist, n, q);
    forall id
      ensures id in q.ready ==> q.ready[id].id == id && q.ready[id].queue == n && q.ready[id].status == Ready && id !in q.dlq
      ensures id in q.inflight ==> q.inflight[id].id == id && id !in q.ready && id !in q.dlq
    {
      assert Local(w.hist, n, q, id);
    }
  }

  lemma SameIds(picked: seq<Job>, ids: nat -> Bytes, deadline: Time)
    ensures IdSet(LeasedAll(picked, ids, deadline)) == IdSet(picked)
  {
    var jobs := LeasedAll(picked, ids, deadline);
    assert forall k :: 0 <= k < |picked| ==> jobs[k].id == picked[k].id;
  }

  // ---------- What each event does, in every run ----------

  /** The job first in line is not due yet. */
  ghost predicate FirstIsDueLater(m: map<Bytes, Job>, now: Time) {
    exists id :: id in m && IsFirst(m[id], m) && m[id].eta != ZERO_TIME && now < m[id].eta
  }

  /** Every lease of every run hands out due jobs only, at most as many as asked for; if it hands out fewer although jobs
      are left, the first of these is not due. */
  lemma EveryLease(ck: Checksum, ws: seq<World>, es: seq<Event>, i: nat) returns (jobs: seq<Job>)
    requires Run(ck, ws, es) && i < |es| && es[i].LeaseJobs?
    ensures es[i].queue in ws[i].st.queues && es[i].queue in ws[i + 1].st.queues
    ensures |jobs| == |es[i].picked| && forall k :: 0 <= k < |jobs| ==> jobs[k].id == es[i].picked[k].id
    ensures var e, q, s := es[i], ws[i].st.queues[es[i].queue], ws[i + 1].st.queues[es[i].queue];
            && HandsOut(q, s, jobs, e.now, e.maxJobs, e.visibilityMs, e.ids)
            && (|jobs| < (if e.maxJobs <= 0 then 1 else e.maxJobs) && s.ready != map[] ==> FirstIsDueLater(s.ready, e.now))
  {
    hide Happens, QueuesInv, LogInv, HistInv, HandedOut, Unmoved, IsFirst, IdSet;
    RunKeepsInv(ck, ws, es, i);
    RunKeepsInv(ck, ws, es, i + 1);
    assert Happens(ck, ws[i], es[i], ws[i + 1]);
    jobs := LeaseOfRun(ck, ws[i], es[i], ws[i + 1]);
    KeyedByInv(ws[i + 1], es[i].queue);
  }

  lemma LeaseOfRun(ck: Checksum, w: World, e: Event, w': World) returns (jobs: seq<Job>)
    requires Inv(ck, w) && Happens(ck, w, e, w') && e.LeaseJobs?
    ensures e.queue in w.st.queues && e.queue in w'.st.queues
    ensures |jobs| == |e.picked| && forall k :: 0 <= k < |jobs| ==> jobs[k].id == e.picked[k].id
    ensures IdSet(jobs) == IdSet(e.picked)
    ensures HandsOut(w.st.queues[e.queue], w'.st.queues[e.queue], jobs, e.now, e.maxJobs, e.visibilityMs, e.ids)
  {
    hide QueuesInv, LogInv, HistInv, HandsOut, TakeLeases, Picked, Millis, HoldersWith, CountUp, FreshIds, IdSet;
    QueueTurns(ck, w, e, w', e.queue);
    KeyedByInv(w, e.queue);
    var deadline := e.now + Millis(e.visibilityMs);
    jobs := LeasedAll(e.picked, e.ids, deadline);
    SameIds(e.picked, e.ids, deadline);
    PickedAreHandedOut(w.st.queues[e.queue], e.picked, e.ids, e.now, e.maxJobs, e.visibilityMs);
  }

  /** Every nack of every run: if the job is ready afterwards, it is due after the delay drawn for it. */
  lemma EveryNack(ck: Checksum, ws: seq<World>, es: seq<Event>, i: nat)
    requires Run(ck, ws, es) && i < |es| && es[i].NackJob?
    ensures es[i].queue in ws[i].st.queues && es[i].queue in ws[i + 1].st.queues
    ensures var e, q, s := es[i], ws[i].st.queues[es[i].queue], ws[i + 1].st.queues[es[i].queue];
            && GivenBack(q, e.id, e.now + e.delay, s) && e.id !in q.ready
            && (e.id in s.ready || e.id in s.dlq) && (e.id in s.ready ==> s.ready[e.id].eta == e.now + e.delay)
  {
    hide Inv, Happens, GivenBack;
    RunKeepsInv(ck, ws, es, i);
    assert Happens(ck, ws[i], es[i], ws[i + 1]);
    NackOfRun(ck, ws[i], es[i], ws[i + 1]);
  }

  lemma NackOfRun(ck: Checksum, w: World, e: Event, w': World)
    requires Inv(ck, w) && Happens(ck, w, e, w') && e.NackJob?
    ensures e.queue in w.st.queues && e.queue in w'.st.queues && e.id !in w.st.queues[e.queue].ready
    ensures var q, s := w.st.queues[e.queue], w'.st.queues[e.queue];
            && GivenBack(q, e.id, e.now + e.delay, s)
            && (e.id in s.ready || e.id in s.dlq) && (e.id in s.ready ==> s.ready[e.id].eta == e.now + e.delay)
  {
    hide QueuesInv, LogInv, HistInv, GivenBack, GiveBack, Tried, Wrote, NackRecord, IsOpen;
    QueueTurns(ck, w, e, w', e.queue);
    KeyedByInv(w, e.queue);
    GiveBackGivesBack(w.st.queues[e.queue], e.id, e.now + e.delay);
    DueAgain(w.st.queues[e.queue], e.id, e.now + e.delay, w'.st.queues[e.queue]);
  }

  lemma DueAgain(q: QState, id: Bytes, eta: Time, s: QState)
    requires GivenBack(q, id, eta, s) && id !in q.ready
    ensures (id in s.ready || id in s.dlq) && (id in s.ready ==> s.ready[id].eta == eta)
  {
  }

  /** The sweep took the lease of `id` back. */
  predicate TakenBack(q: QState, now: Time, id: Bytes) {
    id in q.inflight && q.inflight[id].leaseDeadline != ZERO_TIME && q.inflight[id].leaseDeadline < now
  }

  /** Every sweep of every run takes back the leases whose deadline is past and no others; what it makes ready again is
      due after the delay drawn for it. */
  lemma EverySweep(ck: Checksum, ws: seq<World>, es: seq<Event>, i: nat, id: Bytes)
    requires Run(ck, ws, es) && i < |es| && es[i].SweepQueue?
    ensures es[i].queue in ws[i].st.queues && es[i].queue in ws[i + 1].st.queues
    ensures var e, q, s := es[i], ws[i].st.queues[es[i].queue], ws[i + 1].st.queues[es[i].queue];
            && LeasesKept(q, e.now, s)
            && (TakenBack(q, e.now, id) ==> id in s.ready || id in s.dlq)
            && (id in s.ready && id !in q.ready ==> TakenBack(q, e.now, id) && s.ready[id].eta == e.now + e.delays(id))
            && (id in q.ready ==> id in s.ready && s.ready[id] == q.ready[id])
  {
    hide Inv, Happens, LeasesKept;
    RunKeepsInv(ck, ws, es, i);
    assert Happens(ck, ws[i], es[i], ws[i + 1]);
    SweepOfRun(ck, ws[i], es[i], ws[i + 1], id);
  }

  lemma SweepOfRun(ck: Checksum, w: World, e: Event, w': World, id: Bytes)
    requires Inv(ck, w) && Happens(ck, w, e, w') && e.SweepQueue?
    ensures e.queue in w.st.queues && e.queue in w'.st.queues
    ensures var q, s := w.st.queues[e.queue], w'.st.queues[e.queue];
            && LeasesKept(q, e.now, s)
            && (TakenBack(q, e.now, id) ==> id in s.ready || id in s.dlq)
            && (id in s.ready && id !in q.ready ==> TakenBack(q, e.now, id) && s.ready[id].eta == e.now + e.delays(id))
            && (id in q.ready ==> id in s.ready && s.ready[id] == q.ready[id])
  {
    hide QueuesInv, LogInv, HistInv, LeasesKept, Swept, SweepLogged, IsOpen, LateLeases;
    var q := w.st.queues[e.queue];
    QueueTurns(ck, w, e, w', e.queue);
    KeyedByInv(w, e.queue);
    SweptKeepsLeases(q, e.now, e.delays);
    SweepLeavesNoneExpired(q, e.now, e.delays, id);
    if id in q.inflight {
      SweepIsExact(q, e.now, e.delays, id);
    }
  }

  // ---------- Waiting ----------

  /** A lease that hands out `id` from queue `n`. */
  predicate HandsOutJob(e: Event, n: Bytes, id: Bytes) {
    e.LeaseJobs? && e.queue == n && id in IdSet(e.picked)
  }

  /** The job waits, as it is: its Enqueue is under way or it is ready. */
  predicate Waits(w: World, j: Job) {
    || (j.id in w.pending && w.pending[j.id] == j)
    || (j.queue in w.st.queues && j.id in w.st.queues[j.queue].ready && w.st.queues[j.queue].ready[j.id] == j)
  }

  lemma WaitsOn(ck: Checksum, w: World, e: Event, w': World, j: Job)
    requires Inv(ck, w) && Happens(ck, w, e, w') && Waits(w, j) && !e.Crash? && !HandsOutJob(e, j.queue, j.id)
    ensures Waits(w', j)
  {
    if j.id in w.pending && w.pending[j.id] == j {
      PendingOn(ck, w, e, w', j);
    } else {
      hide Happens, HistInv, QueuesInv, LogInv;
      var n := j.queue;
      QueueTurns(ck, w, e, w', n);
      ReadyOn(ck, w, e, w', j);
    }
  }

  lemma PendingOn(ck: Checksum, w: World, e: Event, w': World, j: Job)
    requires Inv(ck, w) && Happens(ck, w, e, w') && j.id in w.pending && w.pending[j.id] == j && !e.Crash?
    ensures Waits(w', j)
  {
    hide QueuesInv, LogInv;
    assert PendingAt(w, j.id, j) && j.id in w.hist.origin;
    hide HistInv, PendingAt;
    if e.PushJob? && e.id == j.id {
      NotReadyYet(w, j);
    } else {
      PendingStays(ck, w, e, w', j.id);
    }
  }

  lemma NotReadyYet(w: World, j: Job)
    requires QueuesInv(w.hist, w.st.queues) && PendingAt(w, j.id, j)
    ensures j.queue in w.st.queues && j.id !in w.st.queues[j.queue].ready
  {
    assert QueueInv(w.hist, j.queue, w.st.queues[j.queue]);
    assert Local(w.hist, j.queue, w.st.queues[j.queue], j.id);
  }

  lemma PendingStays(ck: Checksum, w: World, e: Event, w': World, id: Bytes)
    requires Happens(ck, w, e, w') && id in w.pending && !e.Crash? && !(e.PushJob? && e.id == id)
    requires id in w.hist.origin
    ensures id in w'.pending && w'.pending[id] == w.pending[id]
  {
    hide Logged, LeaseStep, AckStep, NackStep, SweepStep, CompactStep, Storable, Durable, HoldersWith, CountUp, LateLeases,
      FreshIds, IsNew;
  }

  lemma ReadyOn(ck: Checksum, w: World, e: Event, w': World, j: Job)
    requires Inv(ck, w) && Happens(ck, w, e, w') && !e.Crash? && !HandsOutJob(e, j.queue, j.id)
    requires j.queue in w.st.queues && j.id in w.st.queues[j.queue].ready && w.st.queues[j.queue].ready[j.id] == j
    requires j.queue in w'.st.queues && Turns(w, e, j.queue, w.st.queues[j.queue], w'.st.queues[j.queue])
    ensures j.id in w'.st.queues[j.queue].ready && w'.st.queues[j.queue].ready[j.id] == j
  {
    hide Happens, Inv, Tried, TakeLeases, Picked, Swept, Turns;
    var q, q' := w.st.queues[j.queue], w'.st.queues[j.queue];
    match e {
      case LeaseJobs(n, now, maxJobs, visibilityMs, ids, picked) =>
        if n == j.queue {
          var jobs := LeaseOfRun(ck, w, e, w');
          assert j.id !in IdSet(jobs);
          assert Unmoved(q, q', j.id);
        } else {
          assert q' == q by { TurnsElsewhere(w, e, j.queue, q, q'); }
        }
      case SweepQueue(n, now, delays) =>
        if n == j.queue {
          SweepOfRun(ck, w, e, w', j.id);
        } else {
          assert q' == q by { TurnsElsewhere(w, e, j.queue, q, q'); }
        }
      case _ => ReadyStays(w, e, j.queue, q, q', j.id);
    }
  }

  lemma TurnsElsewhere(w: World, e: Event, n: Bytes, q: QState, q': QState)
    requires Turns(w, e, n, q, q') && (e.LeaseJobs? || e.SweepQueue?) && e.queue != n
    ensures q' == q
  {
  }

  lemma ReadyStays(w: World, e: Event, n: Bytes, q: QState, q': QState, id: Bytes)
    requires Turns(w, e, n, q, q') && !e.LeaseJobs? && !e.SweepQueue? && id in q.ready
    ensures id in q'.ready && q'.ready[id] == q.ready[id]
  {
    hide Tried;
  }

  /** From `i` up to `j` the process does not crash, and no lease hands out `id` from queue `n`. */
  ghost predicate Undisturbed(es: seq<Event>, i: int, j: int, n: Bytes, id: Bytes) {
    forall k :: 0 <= i <= k < j <= |es| ==> !es[k].Crash? && !HandsOutJob(es[k], n, id)
  }

  lemma {:induction false} StillWaits(ck: Checksum, ws: seq<World>, es: seq<Event>, i: nat, j: nat, job: Job)
    requires Run(ck, ws, es) && i <= j <= |es| && Waits(ws[i], job) && Undisturbed(es, i, j, job.queue, job.id)
    ensures Waits(ws[j], job)
    decreases j
  {
    hide Happens, Inv, Waits, HandsOutJob;
    if i < j {
      StillWaits(ck, ws, es, i, j - 1, job);
      RunKeepsInv(ck, ws, es, j - 1);
      assert Happens(ck, ws[j - 1], es[j - 1], ws[j]);
      WaitsOn(ck, ws[j - 1], es[j - 1], ws[j], job);
    }
  }

  lemma HandedOutIsDue(ck: Checksum, w: World, e: Event, w': World, j: Job)
    requires Inv(ck, w) && Happens(ck, w, e, w') && Waits(w, j) && HandsOutJob(e, j.queue, j.id)
    ensures j.eta == ZERO_TIME || j.eta <= e.now
  {
    hide QueuesInv, LogInv, HistInv, Happens, HandsOut, Unmoved;
    var jobs := LeaseOfRun(ck, w, e, w');
    var q := w.st.queues[j.queue];
    OneOfThose(q, w'.st.queues[j.queue], jobs, e, j.id);
    if j.id in w.pending && w.pending[j.id] == j {
      PendingIsNotReady(w, j);
    }
  }

  lemma OneOfThose(q: QState, s: QState, jobs: seq<Job>, e: Event, id: Bytes)
    requires e.LeaseJobs? && HandsOut(q, s, jobs, e.now, e.maxJobs, e.visibilityMs, e.ids) && id in IdSet(jobs)
    ensures id in q.ready && (q.ready[id].eta == ZERO_TIME || q.ready[id].eta <= e.now)
  {
    hide Unmoved, OutOnLease, HeldBack;
    var k :| 0 <= k < |jobs| && jobs[k].id == id;
    assert HandedOut(q, s, jobs[k], e.ids(k), e.now, e.visibilityMs);
  }

  lemma PendingIsNotReady(w: World, j: Job)
    requires HistInv(w) && QueuesInv(w.hist, w.st.queues) && j.id in w.pending && w.pending[j.id] == j
    ensures j.queue in w.st.queues && j.id !in w.st.queues[j.queue].ready
  {
    hide QueuesInv;
    assert PendingAt(w, j.id, j);
    hide HistInv;
    NotReadyYet(w, j);
  }

  /** A job is not handed out before its time, however long it waits and whatever else goes on. */
  lemma WaitsForItsTime(ck: Checksum, ws: seq<World>, es: seq<Event>, i: nat, j: nat, job: Job)
    requires Run(ck, ws, es) && i <= j < |es| && Waits(ws[i], job) && Undisturbed(es, i, j, job.queue, job.id)
    requires HandsOutJob(es[j], job.queue, job.id)
    ensures job.eta == ZERO_TIME || job.eta <= es[j].now
  {
    hide Happens, Inv, Waits, HandsOutJob;
    StillWaits(ck, ws, es, i, j, job);
    RunKeepsInv(ck, ws, es, j);
    assert Happens(ck, ws[j], es[j], ws[j + 1]);
    HandedOutIsDue(ck, ws[j], es[j], ws[j + 1], job);
  }

  /** A delayed job: from the moment its Enqueue has written the log, no lease hands it out before its time. */
  lemma EnqueuedWaits(ck: Checksum, ws: seq<World>, es: seq<Event>, i: nat, j: nat)
    requires Run(ck, ws, es) && i < j < |es| && es[i].WriteEnqueue?
    requires Undisturbed(es, i + 1, j, es[i].job.queue, es[i].job.id) && HandsOutJob(es[j], es[i].job.queue, es[i].job.id)
    ensures es[i].job.eta == ZERO_TIME || es[i].job.eta <= es[j].now
  {
    assert Happens(ck, ws[i], es[i], ws[i + 1]);
    assert Waits(ws[i + 1], es[i].job) by { PendingOnceLogged(ck, ws[i], es[i].job, ws[i + 1]); }
    hide Run, Undisturbed, HandsOutJob, Waits;
    WaitsForItsTime(ck, ws, es, i + 1, j, es[i].job);
  }

  lemma PendingOnceLogged(ck: Checksum, w: World, j: Job, w': World)
    requires LogEvent(ck, w, j, w')
    ensures Waits(w', j)
  {
    hide Logged, Storable, Durable;
  }

  // ---------- Leases ----------

  /** The event ends the lease `l` from queue `n`: it settles it, or sweeps the queue after the deadline, or is a crash. */
  predicate Ends(e: Event, n: Bytes, l: Bytes, deadline: Time) {
    match e
    case AckJob(_, _, leaseId) => leaseId == l
    case NackJob(_, _, leaseId, _, _, _) => leaseId == l
    case SweepQueue(m, now, _) => m == n && deadline != ZERO_TIME && deadline < now
    case Crash(_, _) => true
    case _ => false
  }

  /** The job is out on this lease, until the deadline. */
  predicate OutUntil(w: World, n: Bytes, id: Bytes, l: Bytes, deadline: Time) {
    HoldsLease(w.st, n, id, l) && w.st.queues[n].inflight[id].leaseDeadline == deadline
  }

  lemma LeaseLastsOn(ck: Checksum, w: World, e: Event, w': World, n: Bytes, id: Bytes, l: Bytes, deadline: Time)
    requires Inv(ck, w) && Happens(ck, w, e, w') && OutUntil(w, n, id, l, deadline) && !Ends(e, n, l, deadline)
    ensures OutUntil(w', n, id, l, deadline)
  {
    hide Inv, Happens, Tried, TakeLeases, Picked, Swept, Turns;
    var q := w.st.queues[n];
    QueueTurns(ck, w, e, w', n);
    var q' := w'.st.queues[n];
    match e {
      case LeaseJobs(m, now, maxJobs, visibilityMs, ids, picked) =>
        if m == n {
          OtherLeases(ck, w, e, w', id);
        } else {
          TurnsElsewhere(w, e, n, q, q');
        }
      case SweepQueue(m, now, delays) =>
        if m == n {
          SweepOfRun(ck, w, e, w', id);
        } else {
          TurnsElsewhere(w, e, n, q, q');
        }
      case _ =>
        OtherJob(ck, w, e, w', n, id, l);
        InflightStays(w, e, n, q, q', id);
    }
  }

  /** A lease of other jobs. */
  lemma OtherLeases(ck: Checksum, w: World, e: Event, w': World, id: Bytes)
    requires Inv(ck, w) && Happens(ck, w, e, w') && e.LeaseJobs? && e.queue in w.st.queues && id in w.st.queues[e.queue].inflight
    ensures e.queue in w'.st.queues && id in w'.st.queues[e.queue].inflight
    ensures w'.st.queues[e.queue].inflight[id] == w.st.queues[e.queue].inflight[id]
  {
    hide QueuesInv, HistInv, LogInv, Happens, HandedOut, OutOnLease, HeldBack, IdSet;
    var jobs := LeaseOfRun(ck, w, e, w');
    var q, q' := w.st.queues[e.queue], w'.st.queues[e.queue];
    KeyedByInv(w, e.queue);
    if id in IdSet(jobs) {
      OneOfThose(q, q', jobs, e, id);
    } else {
      assert Unmoved(q, q', id);
    }
  }

  /** Acks and nacks with other leases are for other jobs. */
  lemma OtherJob(ck: Checksum, w: World, e: Event, w': World, n: Bytes, id: Bytes, l: Bytes)
    requires Inv(ck, w) && Happens(ck, w, e, w') && HoldsLease(w.st, n, id, l)
    requires (e.AckJob? || e.NackJob?) ==> e.leaseId != l
    ensures (e.AckJob? || e.NackJob?) && e.queue == n ==> e.id != id
  {
    hide Inv, Wrote, IsOpen;
    Theorems.UsedIsHeld(ck, w, e, w');
  }

  lemma InflightStays(w: World, e: Event, n: Bytes, q: QState, q': QState, id: Bytes)
    requires Turns(w, e, n, q, q') && !e.LeaseJobs? && !e.SweepQueue? && id in q.inflight
    requires (e.AckJob? || e.NackJob?) && e.queue == n ==> e.id != id
    ensures id in q'.inflight && q'.inflight[id] == q.inflight[id]
  {
    hide Tried;
  }

  lemma EndsForGood(ck: Checksum, w: World, e: Event, w': World, n: Bytes, id: Bytes, l: Bytes, deadline: Time)
    requires Inv(ck, w) && Happens(ck, w, e, w') && OutUntil(w, n, id, l, deadline) && Ends(e, n, l, deadline)
    ensures l in w'.hist.spent
  {
    hide Happens, HistInv, LogInv, QueuesInv;
    HeldLease(w, n, id, l);
    assert Theorems.Settles(w, e, l);
    Theorems.SettledIsSpent(ck, w, e, w', l);
  }

  lemma {:induction false} OutOrSpent(ck: Checksum, ws: seq<World>, es: seq<Event>, i: nat, j: nat,
                                      n: Bytes, id: Bytes, l: Bytes, deadline: Time)
    requires Run(ck, ws, es) && i <= j <= |es| && OutUntil(ws[i], n, id, l, deadline)
    ensures (forall k :: i <= k < j ==> !Ends(es[k], n, l, deadline)) ==> OutUntil(ws[j], n, id, l, deadline)
    ensures !(forall k :: i <= k < j ==> !Ends(es[k], n, l, deadline)) ==> l in ws[j].hist.spent
    decreases j
  {
    hide Happens, Inv, OutUntil, Ends;
    if i < j {
      OutOrSpent(ck, ws, es, i, j - 1, n, id, l, deadline);
      RunKeepsInv(ck, ws, es, j - 1);
      var w, e, w' := ws[j - 1], es[j - 1], ws[j];
      assert Happens(ck, w, e, w');
      if forall k :: i <= k < j - 1 ==> !Ends(es[k], n, l, deadline) {
        if Ends(e, n, l, deadline) {
          EndsForGood(ck, w, e, w', n, id, l, deadline);
        } else {
          LeaseLastsOn(ck, w, e, w', n, id, l, deadline);
        }
      } else {
        Theorems.SpentGrows(ck, w, e, w');
      }
    }
  }

  /** How long a lease lasts, exactly: one taken at `t` for `v` milliseconds is held as long as no Ack or Nack settles it,
      no sweep of its queue comes after `t + v`, and the process does not crash. */
  lemma LeaseLastsExactly(ck: Checksum, ws: seq<World>, es: seq<Event>, i: nat, k: nat, j: nat)
    requires Run(ck, ws, es) && i < j <= |es| && es[i].LeaseJobs? && k < |es[i].picked|
    requires -0x8000_0000_0000_0000 <= es[i].visibilityMs * 1_000_000 < 0x8000_0000_0000_0000
    ensures var e := es[i];
            var n, id, l, deadline := e.queue, e.picked[k].id, e.ids(k), e.now + e.visibilityMs * 1_000_000;
            HoldsLease(ws[j].st, n, id, l) <==> forall m :: i < m < j ==> !Ends(es[m], n, l, deadline)
  {
    var e := es[i];
    var n, id, l, deadline := e.queue, e.picked[k].id, e.ids(k), e.now + e.visibilityMs * 1_000_000;
    hide Happens, Ends, Inv, HoldsLease;
    OutOnceLeased(ck, ws, es, i, k, deadline);
    OutOrSpent(ck, ws, es, i + 1, j, n, id, l, deadline);
    RunKeepsInv(ck, ws, es, j);
    if l in ws[j].hist.spent {
      SpentInRun(ck, ws[j], n, id, l);
    }
  }

  lemma SpentInRun(ck: Checksum, w: World, n: Bytes, id: Bytes, l: Bytes)
    requires Inv(ck, w) && l in w.hist.spent
    ensures !HoldsLease(w.st, n, id, l)
  {
    hide QueuesInv, HistInv, LogInv, HoldsLease;
    Theorems.SpentIsNotHeld(w, l);
  }

  lemma OutOnceLeased(ck: Checksum, ws: seq<World>, es: seq<Event>, i: nat, k: nat, deadline: Time)
    requires Run(ck, ws, es) && i < |es| && es[i].LeaseJobs? && k < |es[i].picked|
    requires -0x8000_0000_0000_0000 <= es[i].visibilityMs * 1_000_000 < 0x8000_0000_0000_0000
    requires deadline == es[i].now + es[i].visibilityMs * 1_000_000
    ensures OutUntil(ws[i + 1], es[i].queue, es[i].picked[k].id, es[i].ids(k), deadline)
  {
    hide Happens, Unmoved, HeldBack, FirstIsDueLater;
    var jobs := EveryLease(ck, ws, es, i);
    var e := es[i];
    assert HandedOut(ws[i].st.queues[e.queue], ws[i + 1].st.queues[e.queue], jobs[k], e.ids(k), e.now, e.visibilityMs);
  }

  // ---------- Waiting for a retry ----------

  lemma DeadStays(w: World, e: Event, n: Bytes, q: QState, q': QState, id: Bytes)
    requires Turns(w, e, n, q, q') && id in q.dlq
    ensures id in q'.dlq
  {
    hide Tried, Picked, PutAll, ExpiredJobs, ToRetry, ToBury;
  }

  lemma {:induction false} DeadForNow(ck: Checksum, ws: seq<World>, es: seq<Event>, i: nat, j: nat, n: Bytes, id: Bytes)
    requires Run(ck, ws, es) && i <= j <= |es| && Undisturbed(es, i, j, n, id)
    requires n in ws[i].st.queues && id in ws[i].st.queues[n].dlq
    ensures n in ws[j].st.queues && id in ws[j].st.queues[n].dlq
    decreases j
  {
    hide Happens, Turns, HandsOutJob;
    if i < j {
      DeadForNow(ck, ws, es, i, j - 1, n, id);
      assert Happens(ck, ws[j - 1], es[j - 1], ws[j]);
      QueueTurns(ck, ws[j - 1], es[j - 1], ws[j], n);
      DeadStays(ws[j - 1], es[j - 1], n, ws[j - 1].st.queues[n], ws[j].st.queues[n], id);
    }
  }

  lemma HandedOutIsNotDead(ck: Checksum, w: World, e: Event, w': World, n: Bytes, id: Bytes)
    requires Inv(ck, w) && Happens(ck, w, e, w') && HandsOutJob(e, n, id)
    ensures n in w.st.queues && id in w.st.queues[n].ready && id !in w.st.queues[n].dlq
  {
    hide QueuesInv, LogInv, HistInv, Happens, HandsOut, Unmoved;
    var jobs := LeaseOfRun(ck, w, e, w');
    OneOfThose(w.st.queues[n], w'.st.queues[n], jobs, e, id);
    KeyedByInv(w, n);
  }

  /** A job that came back from a lease, and is handed out again: it was not dead, and it has waited. */
  lemma BackAndOut(ck: Checksum, ws: seq<World>, es: seq<Event>, i: nat, j: nat, n: Bytes, id: Bytes)
    requires Run(ck, ws, es) && i <= j < |es| && n in ws[i].st.queues
    requires id in ws[i].st.queues[n].ready || id in ws[i].st.queues[n].dlq
    requires Undisturbed(es, i, j, n, id) && HandsOutJob(es[j], n, id)
    ensures id in ws[i].st.queues[n].ready
    ensures var eta := ws[i].st.queues[n].ready[id].eta; eta == ZERO_TIME || eta <= es[j].now
  {
    hide Happens, HandsOutJob, QueuesInv, LogInv, HistInv, Undisturbed;
    RunKeepsInv(ck, ws, es, i);
    RunKeepsInv(ck, ws, es, j);
    assert Happens(ck, ws[j], es[j], ws[j + 1]);
    HandedOutIsNotDead(ck, ws[j], es[j], ws[j + 1], n, id);
    if id in ws[i].st.queues[n].dlq {
      DeadForNow(ck, ws, es, i, j, n, id);
    } else {
      KeyedByInv(ws[i], n);
      WaitsForItsTime(ck, ws, es, i, j, ws[i].st.queues[n].ready[id]);
    }
  }

  /** A nacked job is not handed out again before its delay is over, unless a crash comes between. */
  lemma NackedWaits(ck: Checksum, ws: seq<World>, es: seq<Event>, i: nat, j: nat)
    requires Run(ck, ws, es) && i < j < |es| && es[i].NackJob?
    requires Undisturbed(es, i + 1, j, es[i].queue, es[i].id) && HandsOutJob(es[j], es[i].queue, es[i].id)
    ensures es[i].now + es[i].delay == ZERO_TIME || es[i].now + es[i].delay <= es[j].now
  {
    hide HandsOutJob, GivenBack, Undisturbed, Run;
    EveryNack(ck, ws, es, i);
    BackAndOut(ck, ws, es, i + 1, j, es[i].queue, es[i].id);
  }

  /** Nor is a job that a sweep has taken back. */
  lemma SweptWaits(ck: Checksum, ws: seq<World>, es: seq<Event>, i: nat, j: nat, id: Bytes)
    requires Run(ck, ws, es) && i < j < |es| && es[i].SweepQueue? && es[i].queue in ws[i].st.queues
    requires TakenBack(ws[i].st.queues[es[i].queue], es[i].now, id)
    requires Undisturbed(es, i + 1, j, es[i].queue, id) && HandsOutJob(es[j], es[i].queue, id)
    ensures es[i].now + es[i].delays(id) == ZERO_TIME || es[i].now + es[i].delays(id) <= es[j].now
  {
    hide Happens, HandsOutJob, LeasesKept, Undisturbed, QueuesInv, HistInv, LogInv;
    RunKeepsInv(ck, ws, es, i);
    KeyedByInv(ws[i], es[i].queue);
    EverySweep(ck, ws, es, i, id);
    BackAndOut(ck, ws, es, i + 1, j, es[i].queue, id);
  }
}
