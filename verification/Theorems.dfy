/** The main results about the queue manager, for every run: nothing is lost, nothing is in two places, no budget is
    overdrawn, no lease is honoured twice (internal/queue/queue.go). */
module Theorems {
  import opened Binary
  import opened Seqs
  import opened Sums
  import opened Codec
  import opened Framing
  import opened Logs
  import opened Damage
  import opened Compaction
  import opened Interruption
  import opened Jobs
  import opened States
  import opened Sweeping
  import opened Steps
  import opened Histories
  import opened Invariants
  import opened Recovery
  import opened Runs

  // ---------- Partition and conservation ----------

  predicate InQueue(q: QState, id: Bytes) {
    id in q.ready || id in q.inflight || id in q.dlq
  }

  /** What EachJobInOnePlace says of one queue. */
  predicate InOnePlace(h: Hist, n: Bytes, q: QState, id: Bytes) {
    && (InQueue(q, id) <==> id in h.known && id !in h.acked && id in h.origin && h.origin[id].queue == n)
    && !(id in q.ready && id in q.inflight) && !(id in q.ready && id in q.dlq) && !(id in q.inflight && id in q.dlq)
    && (id in q.ready ==> ReadyAt(h, n, id, q.ready[id]))
    && (id in q.inflight ==> InflightAt(h, n, id, q.inflight[id]))
    && (id in q.dlq ==> DeadAt(h, n, id, q.dlq[id]))
  }

  lemma LocalInOnePlace(h: Hist, n: Bytes, q: QState, id: Bytes)
    requires Local(h, n, q, id)
    ensures InOnePlace(h, n, q, id)
  {
  }

  /** In every state of every run a known job that was not acknowledged is in exactly one of ready, inflight and
      dead letters of its own queue, in good order there, and in no other queue. */
  lemma EachJobInOnePlace(ck: Checksum, ws: seq<World>, es: seq<Event>, i: nat, n: Bytes, id: Bytes)
    requires Run(ck, ws, es) && i <= |es| && n in ws[i].st.queues
    ensures InOnePlace(ws[i].hist, n, ws[i].st.queues[n], id)
  {
    RunKeepsInv(ck, ws, es, i);
    var h, q := ws[i].hist, ws[i].st.queues[n];
    hide LogInv, Local, Happens, InOnePlace;
    assert QueueInv(h, n, q);
    assert Local(h, n, q, id);
    LocalInOnePlace(h, n, q, id);
  }

  /** A job that is pushed back, or in, is never one that is ready already: the duplicate guard of the ready queue
      drops nothing. */
  lemma GuardDropsNothing(ck: Checksum, ws: seq<World>, es: seq<Event>, i: nat)
    requires Run(ck, ws, es) && i < |es|
    ensures var w := ws[i];
            match es[i]
            case PushJob(id) =>
              && id in w.pending && w.pending[id].queue in w.st.queues
              && id !in w.st.queues[w.pending[id].queue].ready
            case NackJob(n, id, _, _, _, _) => n in w.st.queues && id !in w.st.queues[n].ready
            case SweepQueue(n, _, _) =>
              n in w.st.queues && forall id :: id in w.st.queues[n].inflight ==> id !in w.st.queues[n].ready
            case _ => true
  {
    RunKeepsInv(ck, ws, es, i);
    var w, e, w' := ws[i], es[i], ws[i + 1];
    assert Happens(ck, w, e, w');
    hide Run, LogInv, HistInv, QueuesInv, Wrote, Swept, Tried;
    match e {
      case PushJob(id) => PushedQueues(w, id, w');
      case NackJob(n, id, _, _, _, _) => InflightIsNotReady(w, n, id);
      case SweepQueue(n, _, _) =>
        forall id | id in w.st.queues[n].inflight ensures id !in w.st.queues[n].ready {
          InflightIsNotReady(w, n, id);
        }
      case _ =>
    }
  }

  lemma InflightIsNotReady(w: World, n: Bytes, id: Bytes)
    requires QueuesInv(w.hist, w.st.queues) && n in w.st.queues && id in w.st.queues[n].inflight
    ensures id !in w.st.queues[n].ready
  {
    assert QueueInv(w.hist, n, w.st.queues[n]);
    assert Local(w.hist, n, w.st.queues[n], id);
  }

  function KnownIn(h: Hist, n: Bytes): set<Bytes> {
    set id | id in h.known && id in h.origin && h.origin[id].queue == n
  }

  function AckedIn(h: Hist, n: Bytes): set<Bytes> {
    set id | id in h.acked && id in h.origin && h.origin[id].queue == n
  }

  lemma FourParts(k: set<Bytes>, a: set<Bytes>, b: set<Bytes>, c: set<Bytes>, d: set<Bytes>)
    requires a !! b && a !! c && a !! d && b !! c && b !! d && c !! d && k == a + b + c + d
    ensures |k| == |a| + |b| + |c| + |d|
  {
    assert (a + b) !! c && (a + b + c) !! d;
  }

  lemma QueueConserves(h: Hist, n: Bytes, q: QState)
    requires QueueInv(h, n, q) && h.acked <= h.known
    ensures |KnownIn(h, n)| == |q.ready| + |q.inflight| + |q.dlq| + |AckedIn(h, n)|
  {
    hide *;
    AllInOnePlace(h, n, q);
    PartsOfQueue(h, n, q);
    KnownParts(h, n, q);
    FourParts(KnownIn(h, n), q.ready.Keys, q.inflight.Keys, q.dlq.Keys, AckedIn(h, n));
  }

  lemma KnownParts(h: Hist, n: Bytes, q: QState)
    requires h.acked <= h.known && forall id :: InOnePlace(h, n, q, id)
    ensures KnownIn(h, n) == q.ready.Keys + q.inflight.Keys + q.dlq.Keys + AckedIn(h, n)
    ensures AckedIn(h, n) !! q.ready.Keys && AckedIn(h, n) !! q.inflight.Keys && AckedIn(h, n) !! q.dlq.Keys
  {
    var known, acked := KnownIn(h, n), AckedIn(h, n);
    hide *;
    forall id ensures id in known <==> id in q.ready.Keys + q.inflight.Keys + q.dlq.Keys + acked {
      KnownOrAcked(h, n, q, id);
    }
    forall id | id in acked ensures id !in q.ready && id !in q.inflight && id !in q.dlq {
      KnownOrAcked(h, n, q, id);
    }
  }

  lemma AllInOnePlace(h: Hist, n: Bytes, q: QState)
    requires QueueInv(h, n, q)
    ensures forall id :: InOnePlace(h, n, q, id)
  {
    hide Local, InOnePlace;
    forall id ensures InOnePlace(h, n, q, id) {
      assert Local(h, n, q, id);
      LocalInOnePlace(h, n, q, id);
    }
  }

  lemma KnownOrAcked(h: Hist, n: Bytes, q: QState, id: Bytes)
    requires InOnePlace(h, n, q, id) && h.acked <= h.known
    ensures id in KnownIn(h, n) <==> InQueue(q, id) || id in AckedIn(h, n)
    ensures id in AckedIn(h, n) ==> id !in q.ready && id !in q.inflight && id !in q.dlq
    ensures InQueue(q, id) <==> id in q.ready || id in q.inflight || id in q.dlq
  {
    hide ReadyAt, InflightAt, DeadAt;
  }

  lemma PartsOfQueue(h: Hist, n: Bytes, q: QState)
    requires forall id :: InOnePlace(h, n, q, id)
    ensures q.ready.Keys !! q.inflight.Keys && q.ready.Keys !! q.dlq.Keys && q.inflight.Keys !! q.dlq.Keys
  {
    hide ReadyAt, InflightAt, DeadAt;
    forall id ensures !(id in q.ready && id in q.inflight) && !(id in q.ready && id in q.dlq)
      && !(id in q.inflight && id in q.dlq)
    {
      assert InOnePlace(h, n, q, id);
    }
  }

  /** Conservation: since the process started, jobs that entered a queue are ready, inflight, dead or acknowledged. */
  lemma Conservation(ck: Checksum, ws: seq<World>, es: seq<Event>, i: nat, n: Bytes)
    requires Run(ck, ws, es) && i <= |es| && n in ws[i].st.queues
    ensures var h, q := ws[i].hist, ws[i].st.queues[n];
            |KnownIn(h, n)| == |q.ready| + |q.inflight| + |q.dlq| + |AckedIn(h, n)|
  {
    RunKeepsInv(ck, ws, es, i);
    hide LogInv, QueueInv, Happens;
    QueueConserves(ws[i].hist, n, ws[i].st.queues[n]);
  }

  // ---------- Retry budget ----------

  /** A job's leases since the process started: one for each try counted, and one more while it is out. There are
      never more than its budget, and it is dead exactly when they are used up and the last one came to nothing. */
  lemma RetryBudget(ck: Checksum, ws: seq<World>, es: seq<Event>, i: nat, id: Bytes)
    requires Run(ck, ws, es) && i <= |es| && id in ws[i].hist.known
    ensures var h := ws[i].hist;
            && id in h.origin && id in h.counts && h.origin[id].queue in ws[i].st.queues
            && h.counts[id] <= Budget(h.origin[id].maxRetries)
            && var q := ws[i].st.queues[h.origin[id].queue];
               && (id in q.ready ==> h.counts[id] == q.ready[id].tries < Budget(q.ready[id].maxRetries))
               && (id in q.inflight ==> h.counts[id] == q.inflight[id].tries + 1)
               && (id in q.dlq ==> h.counts[id] == q.dlq[id].tries == Budget(q.dlq[id].maxRetries))
  {
    RunKeepsInv(ck, ws, es, i);
    hide LogInv, Happens;
    EachJobInOnePlace(ck, ws, es, i, ws[i].hist.origin[id].queue, id);
  }

  lemma {:induction false} TotalCountUp(m: map<Bytes, nat>, ids: set<Bytes>)
    requires ids <= m.Keys
    ensures Total(CountUp(m, ids)) == Total(m) + |ids|
    decreases |ids|
  {
    if ids == {} {
      assert CountUp(m, ids) == m;
    } else {
      var id :| id in ids;
      var rest := ids - {id};
      var a, b := CountUp(m, ids), CountUp(m, rest);
      TotalCountUp(m, rest);
      TotalWithout(a, id);
      TotalWithout(b, id);
      assert a - {id} == b - {id};
      assert |ids| == |rest| + 1;
    }
  }

  /** How many jobs were handed out since the last start of the process. */
  function HandedOut(es: seq<Event>): nat {
    if es == [] then 0
    else
      var n := |es| - 1;
      match es[n]
      case LeaseJobs(_, _, _, _, _, picked) => HandedOut(es[..n]) + |picked|
      case Crash(_, _) => 0
      case _ => HandedOut(es[..n])
  }

  lemma {:induction false} HandedOutIsCounted(ck: Checksum, ws: seq<World>, es: seq<Event>, i: nat)
    requires Run(ck, ws, es) && i <= |es|
    ensures HandedOut(es[..i]) == Total(ws[i].hist.counts)
    decreases i
  {
    hide Happens, Total, Inv;
    if i == 0 {
      TotalZero(ws[0].hist.counts);
    } else {
      HandedOutIsCounted(ck, ws, es, i - 1);
      RunKeepsInv(ck, ws, es, i - 1);
      assert es[..i][..i - 1] == es[..i - 1];
      assert Happens(ck, ws[i - 1], es[i - 1], ws[i]);
      StepCounts(ck, ws[i - 1], es[i - 1], ws[i]);
    }
  }

  lemma StepCounts(ck: Checksum, w: World, e: Event, w': World)
    requires Inv(ck, w) && Happens(ck, w, e, w')
    ensures match e
            case LeaseJobs(_, _, _, _, _, picked) => Total(w'.hist.counts) == Total(w.hist.counts) + |picked|
            case Crash(_, _) => Total(w'.hist.counts) == 0
            case _ => Total(w'.hist.counts) == Total(w.hist.counts)
  {
    hide Total, QueuesInv, LogInv;
    match e {
      case LeaseJobs(n, now, maxJobs, visibilityMs, ids, picked) =>
        PickedAreCounted(ck, w, n, now, maxJobs, picked);
        TotalCountUp(w.hist.counts, IdSet(picked));
      case Crash(_, _) => TotalZero(w'.hist.counts);
      case PushJob(id) =>
        assert PendingAt(w, id, w.pending[id]);
        TotalNewKey(w.hist.counts, id);
      case _ =>
    }
  }

  lemma PickedAreCounted(ck: Checksum, w: World, n: Bytes, now: Time, maxJobs: int, picked: seq<Job>)
    requires Inv(ck, w) && n in w.st.queues && Picked(picked, w.st.queues[n].ready, now, LeaseLimit(maxJobs))
    ensures IdSet(picked) <= w.hist.counts.Keys && |IdSet(picked)| == |picked|
  {
    var q := w.st.queues[n];
    PickedFromReady(picked, q, now, LeaseLimit(maxJobs));
    hide LogInv, HistInv, Picked;
    assert QueueInv(w.hist, n, q);
    forall id | id in IdSet(picked) ensures id in w.hist.counts {
      assert Local(w.hist, n, q, id);
    }
    var ids := seq(|picked|, i requires 0 <= i < |picked| => picked[i].id);
    DistinctLength(ids);
    assert Elems(ids) == IdSet(picked) by {
      assert forall i :: 0 <= i < |picked| ==> ids[i] == picked[i].id;
    }
  }

  function Budgets(h: Hist): map<Bytes, nat>
    requires h.known <= h.origin.Keys
  {
    map id | id in h.known :: Budget(h.origin[id].maxRetries)
  }

  /** All leases since the process started stay within the sum of the jobs' budgets. */
  lemma TotalLeases(ck: Checksum, ws: seq<World>, es: seq<Event>, i: nat)
    requires Run(ck, ws, es) && i <= |es|
    ensures ws[i].hist.known <= ws[i].hist.origin.Keys && HandedOut(es[..i]) <= Total(Budgets(ws[i].hist))
  {
    RunKeepsInv(ck, ws, es, i);
    HandedOutIsCounted(ck, ws, es, i);
    var h := ws[i].hist;
    forall id | id in h.counts ensures h.counts[id] <= Budgets(h)[id] {
      RetryBudget(ck, ws, es, i, id);
    }
    TotalAtMost(h.counts, Budgets(h));
  }

  // ---------- Leases ----------

  /** At any time a job is out on at most one lease, from one queue, and a lease is for one job. */
  lemma LeaseIsExclusive(ck: Checksum, ws: seq<World>, es: seq<Event>, i: nat,
                         n: Bytes, id: Bytes, l: Bytes, n': Bytes, id': Bytes, l': Bytes)
    requires Run(ck, ws, es) && i <= |es| && HoldsLease(ws[i].st, n, id, l) && HoldsLease(ws[i].st, n', id', l')
    ensures id == id' <==> l == l'
    ensures id == id' ==> n == n'
  {
    RunKeepsInv(ck, ws, es, i);
    var w := ws[i];
    hide Run;
    HeldLease(w, n, id, l);
    HeldLease(w, n', id', l');
    assert w.st.queues[n].inflight[id].leaseId == l;
  }

  /** Spent leases stay spent. */
  lemma SpentGrows(ck: Checksum, w: World, e: Event, w': World)
    requires Inv(ck, w) && Happens(ck, w, e, w')
    ensures w.hist.spent <= w'.hist.spent
  {
    hide QueuesInv, LogInv;
  }

  lemma {:induction false} SpentForGood(ck: Checksum, ws: seq<World>, es: seq<Event>, i: nat, j: nat)
    requires Run(ck, ws, es) && i <= j <= |es|
    ensures ws[i].hist.spent <= ws[j].hist.spent
    decreases j
  {
    hide Happens, Inv;
    if i < j {
      SpentForGood(ck, ws, es, i, j - 1);
      RunKeepsInv(ck, ws, es, j - 1);
      SpentGrows(ck, ws[j - 1], es[j - 1], ws[j]);
    }
  }

  /** The event settles the lease `l`: acknowledges or refuses it, takes it back, or loses it with the process. */
  predicate Settles(w: World, e: Event, l: Bytes) {
    match e
    case AckJob(_, _, leaseId) => leaseId == l
    case NackJob(_, _, leaseId, _, _, _) => leaseId == l
    case SweepQueue(n, now, _) => n in w.st.queues && l in LateLeases(w.st.queues[n], now)
    case Crash(_, _) => l in w.hist.holder
    case _ => false
  }

  lemma SettledIsSpent(ck: Checksum, w: World, e: Event, w': World, l: Bytes)
    requires Inv(ck, w) && Happens(ck, w, e, w') && Settles(w, e, l)
    ensures l in w'.hist.spent
  {
    hide QueuesInv, LogInv;
  }

  /** Once a lease was acked, nacked, taken back or lost, no Ack or Nack with it ever succeeds again, also not after
      the job was leased anew or the process started anew. */
  lemma NoLeaseHonouredTwice(ck: Checksum, ws: seq<World>, es: seq<Event>, i: nat, j: nat, l: Bytes, n: Bytes, id: Bytes)
    requires Run(ck, ws, es) && i < j <= |es| && Settles(ws[i], es[i], l)
    ensures !HoldsLease(ws[j].st, n, id, l)
    ensures j < |es| ==> !(es[j].AckJob? && es[j].leaseId == l) && !(es[j].NackJob? && es[j].leaseId == l)
  {
    RunKeepsInv(ck, ws, es, i);
    RunKeepsInv(ck, ws, es, j);
    hide LogInv, HistInv, QueuesInv, Happens, Settles, HoldsLease;
    SettledIsSpent(ck, ws[i], es[i], ws[i + 1], l);
    SpentForGood(ck, ws, es, i + 1, j);
    SpentIsNotHeld(ws[j], l);
    if j < |es| {
      UsedIsHeld(ck, ws[j], es[j], ws[j + 1]);
    }
  }

  lemma UsedIsHeld(ck: Checksum, w: World, e: Event, w': World)
    requires Happens(ck, w, e, w')
    ensures e.AckJob? || e.NackJob? ==> HoldsLease(w.st, e.queue, e.id, e.leaseId)
  {
  }

  lemma SpentIsNotHeld(w: World, l: Bytes)
    requires QueuesInv(w.hist, w.st.queues) && l in w.hist.spent
    ensures forall n, id :: !HoldsLease(w.st, n, id, l)
  {
    forall n, id ensures !HoldsLease(w.st, n, id, l) {
      if HoldsLease(w.st, n, id, l) {
        HeldLease(w, n, id, l);
      }
    }
  }

  // ---------- Recovery ----------

  /** What is ready under `id` after a start, given the record it was enqueued with. */
  predicate RecoveredAs(queues: map<Bytes, QState>, id: Bytes, r: Record) {
    && r.queue in queues && id in queues[r.queue].ready
    && var j := queues[r.queue].ready[id];
       && SameJob(j, r) && j.eta == r.eta && j.tries == 0 && j.status == Ready && j.leaseId == []
  }

  /** The process dies in the middle of a sweep of queue `n`, with `k` of its requeue records written. */
  ghost predicate MidSweep(ck: Checksum, w: World, n: Bytes, now: Time, delay: Bytes -> nat, rs: seq<Record>,
                           order: seq<Bytes>, k: nat, l: Log)
  {
    && n in w.st.queues && (forall id :: id in w.st.queues[n].inflight ==> InRange(now + delay(id)))
    && RequeuesOf(rs, order, ToRetry(ExpiredJobs(w.st.queues[n], now, delay)))
    && k <= |rs| && IsOpen(w.st.log) && WroteAll(ck, w.st.log, rs[..k], l)
  }

  /** The log that a process leaves which dies after `w`: between two steps, or between two writes of a sweep. */
  ghost predicate LeavesLog(ck: Checksum, w: World, l: Log) {
    l == w.st.log || exists n, now, delay, rs, order, k: nat :: MidSweep(ck, w, n, now, delay, rs, order, k, l)
  }

  function WithLog(w: World, l: Log): World {
    w.(st := w.st.(log := l))
  }

  lemma MidSweepInv(ck: Checksum, w: World, n: Bytes, now: Time, delay: Bytes -> nat, rs: seq<Record>, order: seq<Bytes>,
                    k: nat, l: Log)
    requires Inv(ck, w) && MidSweep(ck, w, n, now, delay, rs, order, k, l)
    ensures Inv(ck, WithLog(w, l))
  {
    HistoryStays(w, l);
    MidSweepLog(ck, w, n, now, delay, rs, order, k, l);
    hide MidSweep, HistInv, LogInv;
  }

  lemma MidSweepLog(ck: Checksum, w: World, n: Bytes, now: Time, delay: Bytes -> nat, rs: seq<Record>, order: seq<Bytes>,
                    k: nat, l: Log)
    requires Inv(ck, w) && MidSweep(ck, w, n, now, delay, rs, order, k, l)
    ensures LogInv(ck, WithLog(w, l))
  {
    hide QueueInv, WroteAll, IsLive, ToRetry, ExpiredJobs, Storable, LogInv, Holds, AllClean;
    forall i | 0 <= i < k ensures Storable(rs[..k][i]) && rs[..k][i].kind != ENQUEUE {
      RetriedWasInflight(w.st.queues[n], now, delay, order[i]);
      RequeueStorable(w.hist, n, w.st.queues[n], now, delay, order[i]);
    }
    LiveWithLog(w, l);
    OtherRecordsWritten(ck, w, WithLog(w, l), rs[..k]);
  }

  lemma LiveWithLog(w: World, l: Log)
    ensures forall id :: IsLive(WithLog(w, l), id) <==> IsLive(w, id)
  {
  }

  lemma LeftLogInv(ck: Checksum, w: World, l: Log)
    requires Inv(ck, w) && LeavesLog(ck, w, l)
    ensures Inv(ck, WithLog(w, l))
  {
    hide Inv, MidSweep;
    if l == w.st.log {
      assert WithLog(w, l) == w;
    } else {
      var n, now, delay, rs, order, k: nat :| MidSweep(ck, w, n, now, delay, rs, order, k, l);
      MidSweepInv(ck, w, n, now, delay, rs, order, k, l);
    }
  }

  /** Every live job of `w` is ready in `queues`, as it was enqueued, and nothing is inflight or dead. */
  ghost predicate AllRecovered(w: World, queues: map<Bytes, QState>) {
    && (forall id :: IsLive(w, id) ==> id in w.hist.origin && RecoveredAs(queues, id, w.hist.origin[id]))
    && (forall n :: n in queues ==> queues[n].inflight == map[] && queues[n].dlq == map[])
  }

  lemma RestartRecovers(ck: Checksum, w: World, configured: int, clock: nat -> Time, s': State)
    requires Inv(ck, w)
    ensures Replay(ck, Reopened(w.st.log.files, configured)).ok
    ensures RestartStep(ck, w.st, configured, clock, s') ==> AllRecovered(w, s'.queues)
  {
    hide HistInv, QueuesInv, AllClean, Reopened, RecoveredAs, RebuildsAt;
    var any: Record :| true;
    ReopenHolds(ck, w.st.log, configured, any);
    if RestartStep(ck, w.st, configured, clock, s') {
      CrashRebuilds(ck, w, configured, clock, AfterCrash(w, s'));
      hide RestartStep, Holds, Replay, IsLive, Inv;
      forall id | IsLive(w, id) ensures id in w.hist.origin && RecoveredAs(s'.queues, id, w.hist.origin[id]) {
        LiveIsRecovered(ck, w, configured, clock, s', id);
      }
    }
  }

  /** No live job is lost: wherever in a run the process dies, also between two steps of an Enqueue or two writes of a
      sweep, and however the log was rotated or compacted before, a new process finds the log readable, and has ready
      every job that was ready, inflight, dead or on its way in, as it was enqueued; and it has nothing inflight or
      dead. */
  lemma NoLiveJobLost(ck: Checksum, ws: seq<World>, es: seq<Event>, l: Log, configured: int, clock: nat -> Time, s': State)
    requires Run(ck, ws, es) && LeavesLog(ck, ws[|es|], l)
    ensures Replay(ck, Reopened(l.files, configured)).ok
    ensures RestartStep(ck, ws[|es|].st.(log := l), configured, clock, s') ==> AllRecovered(ws[|es|], s'.queues)
  {
    hide Inv, LeavesLog, RestartStep, Replay, Reopened, AllRecovered, Happens, Initial;
    RunKeepsInv(ck, ws, es, |es|);
    LeftLogInv(ck, ws[|es|], l);
    RestartRecovers(ck, WithLog(ws[|es|], l), configured, clock, s');
    RecoveredWithLog(ws[|es|], l, s'.queues);
  }

  lemma RecoveredWithLog(w: World, l: Log, queues: map<Bytes, QState>)
    ensures AllRecovered(WithLog(w, l), queues) ==> AllRecovered(w, queues)
  {
    LiveWithLog(w, l);
    hide IsLive, RecoveredAs;
  }

  /** The job `j` is in queue `n`, in whatever place, or on its way into it. */
  predicate HasJob(w: World, n: Bytes, j: Job) {
    || (n in w.st.queues && InQueue(w.st.queues[n], j.id) && j == FindJob(w.st.queues[n], j.id))
    || (j.id in w.pending && j == w.pending[j.id] && n == j.queue)
  }

  function FindJob(q: QState, id: Bytes): Job
    requires InQueue(q, id)
  {
    if id in q.ready then q.ready[id] else if id in q.inflight then q.inflight[id] else q.dlq[id]
  }

  /** The same, said of the jobs: each comes back in its queue with its id, payload, headers, priority and limit of
      retries, and with its tries at zero. */
  lemma LiveJobComesBack(ck: Checksum, ws: seq<World>, es: seq<Event>, configured: int, clock: nat -> Time, s': State,
                         n: Bytes, j: Job)
    requires Run(ck, ws, es) && RestartStep(ck, ws[|es|].st, configured, clock, s') && HasJob(ws[|es|], n, j)
    ensures n in s'.queues && j.id in s'.queues[n].ready
    ensures var j' := s'.queues[n].ready[j.id];
            && j'.id == j.id && j'.queue == j.queue == n && j'.payload == j.payload && j'.headers == j.headers
            && j'.priority == j.priority && j'.maxRetries == j.maxRetries && j'.tries == 0 && j'.status == Ready
  {
    var w := ws[|es|];
    NoLiveJobLost(ck, ws, es, w.st.log, configured, clock, s');
    RunKeepsInv(ck, ws, es, |es|);
    hide Run, RestartStep, LogInv;
    JobIsItsOrigin(ck, w, n, j);
    assert RecoveredAs(s'.queues, j.id, w.hist.origin[j.id]);
  }

  lemma JobIsItsOrigin(ck: Checksum, w: World, n: Bytes, j: Job)
    requires HistInv(w) && QueuesInv(w.hist, w.st.queues) && HasJob(w, n, j)
    ensures IsLive(w, j.id) && j.id in w.hist.origin && SameJob(j, w.hist.origin[j.id]) && w.hist.origin[j.id].queue == n
  {
    if n in w.st.queues && InQueue(w.st.queues[n], j.id) && j == FindJob(w.st.queues[n], j.id) {
      assert QueueInv(w.hist, n, w.st.queues[n]);
      assert Local(w.hist, n, w.st.queues[n], j.id);
    } else {
      assert PendingAt(w, j.id, w.pending[j.id]);
    }
  }

  function AfterCrash(w: World, s': State): World {
    var ids := ReadyIds(s'.queues);
    World(s', map[], Hist(w.hist.origin, ids, {}, map id | id in ids :: 0, w.hist.holder, w.hist.holder.Keys),
          w.calls.(asked := map[]))
  }

  lemma HeldIsRecoveredAs(ck: Checksum, w: World, configured: int, clock: nat -> Time, w': World, id: Bytes)
    requires Inv(ck, w) && RestartEvent(ck, w, configured, clock, w')
    requires id in w.hist.origin && Holds(ck, w.st.log, w.hist.origin[id])
    ensures RecoveredAs(w'.st.queues, id, w.hist.origin[id])
  {
    var n := w.hist.origin[id].queue;
    assert IsOrigin(id, w.hist.origin[id]);
    hide HistInv, QueuesInv, LogInv, RestartEvent;
    HeldIsRecovered(ck, w, configured, clock, w', id);
    RecoveredIsOrigin(ck, w, configured, clock, w', n, id);
  }

  /** Exactly the jobs whose enqueue record is still in the log come back, acknowledged or not. */
  lemma RecoveredExactly(ck: Checksum, ws: seq<World>, es: seq<Event>, configured: int, clock: nat -> Time, s': State,
                         n: Bytes, id: Bytes)
    requires Run(ck, ws, es) && RestartStep(ck, ws[|es|].st, configured, clock, s')
    ensures (n in s'.queues && id in s'.queues[n].ready)
       <==> (id in ws[|es|].hist.origin && ws[|es|].hist.origin[id].queue == n
             && IsOpen(ws[|es|].st.log) && Holds(ck, ws[|es|].st.log, ws[|es|].hist.origin[id]))
  {
    var w := ws[|es|];
    RunKeepsInv(ck, ws, es, |es|);
    var w' := AfterCrash(w, s');
    hide HistInv, QueuesInv, Holds, AllClean;
    if n in s'.queues && id in s'.queues[n].ready {
      RecoveredIsOrigin(ck, w, configured, clock, w', n, id);
    }
    if id in w.hist.origin && w.hist.origin[id].queue == n && Holds(ck, w.st.log, w.hist.origin[id]) {
      HeldIsRecovered(ck, w, configured, clock, w', id);
    }
  }

  /** What a crash between writes cannot do, one inside a write can: a new process finds the log unreadable exactly
      when the frame being written reached the file in part. */
  lemma CrashInsideWrite(ck: Checksum, ws: seq<World>, es: seq<Event>, r: Record, e: Bytes, k: nat, configured: int)
    requires Run(ck, ws, es) && Encodes(e, r) && Storable(r) && k <= |Frame(ck, e)|
    ensures IsOpen(ws[|es|].st.log)
    ensures Replay(ck, Reopened(Torn(ws[|es|].st.log, Frame(ck, e), k).files, configured)).ok
       <==> k == 0 || k == |Frame(ck, e)|
  {
    var l := ws[|es|].st.log;
    RunKeepsInv(ck, ws, es, |es|);
    hide HistInv, QueuesInv, Encodes, Storable, Frame, Torn, Reopened, Scan;
    CleanReplays(ck, l.files, l.segments);
    RestartAfterTornWrite(ck, l, r, e, k, configured);
  }

  /** A crash inside a compaction, at any byte of its copy and between any two of its removals: a new process can be
      started exactly when the copy ends between two frames, and then it has every live job ready as it was enqueued. */
  lemma CrashInsideCompact(ck: Checksum, ws: seq<World>, es: seq<Event>, active: set<Bytes>, frames: seq<Bytes>, k: nat,
                           i: nat, configured: int, clock: nat -> Time, s': State, id: Bytes)
    requires Run(ck, ws, es) && IsOpen(ws[|es|].st.log) && InsideCompact(ck, ws[|es|].st.log, active, frames, k, i)
    requires forall x :: IsLive(ws[|es|], x) ==> x in active
    ensures var o := Reopened(Midway(ck, ws[|es|].st.log, frames, k, i), configured);
            && (Replay(ck, o).ok <==> AtBoundary(ck, frames, k))
            && (RestartStep(ck, ws[|es|].st.(log := o), configured, clock, s') && IsLive(ws[|es|], id) ==>
                  id in ws[|es|].hist.origin && RecoveredAs(s'.queues, id, ws[|es|].hist.origin[id]))
  {
    RunKeepsInv(ck, ws, es, |es|);
    var w := ws[|es|];
    hide Run, InsideCompact, AtBoundary, Midway, Reopened, HistInv, QueuesInv, AllClean, Holds, RestartStep, RecoveredAs;
    MidwayOkExactlyWhen(ck, w.st.log, active, frames, k, i, configured);
    if RestartStep(ck, w.st.(log := Reopened(Midway(ck, w.st.log, frames, k, i), configured)), configured, clock, s') && IsLive(w, id) {
      RecoveredMidway(ck, w, active, frames, k, i, configured, clock, s', id);
    }
  }

  lemma RecoveredMidway(ck: Checksum, w: World, active: set<Bytes>, frames: seq<Bytes>, k: nat, i: nat, configured: int,
                        clock: nat -> Time, s': State, id: Bytes)
    requires Inv(ck, w) && InsideCompact(ck, w.st.log, active, frames, k, i) && IsLive(w, id)
    requires forall x :: IsLive(w, x) ==> x in active
    requires RestartStep(ck, w.st.(log := Reopened(Midway(ck, w.st.log, frames, k, i), configured)), configured, clock, s')
    ensures id in w.hist.origin && RecoveredAs(s'.queues, id, w.hist.origin[id])
  {
    var files := Midway(ck, w.st.log, frames, k, i);
    var v := w.(st := w.st.(log := Reopened(files, configured)));
    MidwayBoundary(ck, w.st.log, active, frames, k, i, configured);
    assert Replay(ck, Reopened(v.st.log.files, configured)).ok;
    assert IsLive(v, id);
    hide AtBoundary, Midway, HistInv, QueuesInv, LogInv, InsideCompact, RecoveredAs, Reopened, RestartStep, Replay;
    MidwayInv(ck, w, active, frames, k, i, configured);
    LiveIsRecovered(ck, v, configured, clock, s', id);
  }

  lemma MidwayBoundary(ck: Checksum, l: Log, active: set<Bytes>, frames: seq<Bytes>, k: nat, i: nat, configured: int)
    requires Healthy(ck, l) && InsideCompact(ck, l, active, frames, k, i)
    ensures var o := Reopened(Midway(ck, l, frames, k, i), configured);
            Replay(ck, Reopened(o.files, configured)).ok ==> AtBoundary(ck, frames, k)
  {
    hide AtBoundary, Midway, AllClean, EncodesAll, Keep, Frames, Reopened, Replay;
    MidwayClean(ck, l, active, frames, k, i);
    ReopenedFiles(Midway(ck, l, frames, k, i), configured);
    MidwayOkExactlyWhen(ck, l, active, frames, k, i, configured);
  }

  /** A restart from any state that meets the invariant has every live job ready. */
  lemma LiveIsRecovered(ck: Checksum, w: World, configured: int, clock: nat -> Time, s': State, id: Bytes)
    requires Inv(ck, w) && RestartStep(ck, w.st, configured, clock, s') && IsLive(w, id)
    ensures id in w.hist.origin && RecoveredAs(s'.queues, id, w.hist.origin[id])
  {
    hide HistInv, QueuesInv, AllClean, Holds, RecoveredAs, Reopened, RestartStep;
    HeldIsRecoveredAs(ck, w, configured, clock, AfterCrash(w, s'), id);
  }

  lemma MidwayInv(ck: Checksum, w: World, active: set<Bytes>, frames: seq<Bytes>, k: nat, i: nat, configured: int)
    requires Inv(ck, w) && InsideCompact(ck, w.st.log, active, frames, k, i) && AtBoundary(ck, frames, k)
    requires forall x :: IsLive(w, x) ==> x in active
    ensures Inv(ck, w.(st := w.st.(log := Reopened(Midway(ck, w.st.log, frames, k, i), configured))))
  {
    var o := Reopened(Midway(ck, w.st.log, frames, k, i), configured);
    HistoryStays(w, o);
    assert forall x :: x in w.hist.origin ==> IsOrigin(x, w.hist.origin[x]);
    hide InsideCompact, AtBoundary, Midway, Reopened, Holds, AllClean, IsLive, HistInv, QueuesInv;
    forall r ensures Healthy(ck, o) && (Holds(ck, o, r) ==> Holds(ck, w.st.log, r)) {
      CrashInsideCompactHolds(ck, w.st.log, active, frames, k, i, configured, r);
    }
    var any: Record :| true;
    CrashInsideCompactHolds(ck, w.st.log, active, frames, k, i, configured, any);
    forall x | IsLive(w, x) ensures x in w.hist.origin && Holds(ck, o, w.hist.origin[x]) {
      assert IsOrigin(x, w.hist.origin[x]);
      CrashInsideCompactHolds(ck, w.st.log, active, frames, k, i, configured, w.hist.origin[x]);
    }
    LogReplaced(ck, w, o);
  }

  lemma LogReplaced(ck: Checksum, w: World, o: Log)
    requires LogInv(ck, w) && Healthy(ck, o) && forall r :: Holds(ck, o, r) ==> Holds(ck, w.st.log, r)
    requires forall x :: IsLive(w, x) ==> x in w.hist.origin && Holds(ck, o, w.hist.origin[x])
    ensures LogInv(ck, w.(st := w.st.(log := o)))
  {
    var v := w.(st := w.st.(log := o));
    assert forall x :: IsLive(v, x) <==> IsLive(w, x);
    hide Holds, AllClean, IsLive;
  }

  lemma HistoryStays(w: World, o: Log)
    requires HistInv(w)
    ensures HistInv(w.(st := w.st.(log := o)))
  {
    forall id | id in w.pending ensures PendingAt(w.(st := w.st.(log := o)), id, w.pending[id]) {
      assert PendingAt(w, id, w.pending[id]);
    }
  }

  // ---------- What is never forgotten ----------

  /** Only a compaction takes a record out of the log. */
  lemma RecordStays(ck: Checksum, w: World, e: Event, w': World, r: Record)
    requires Inv(ck, w) && Happens(ck, w, e, w') && !e.CompactLog? && Holds(ck, w.st.log, r)
    ensures IsOpen(w'.st.log) && Holds(ck, w'.st.log, r)
  {
    hide HistInv, QueuesInv, AllClean, Holds, Wrote, WroteAll, Storable, Tried, GiveBack, DropLease, Swept, InRange;
    match e {
      case WriteEnqueue(j) => WriteHolds(ck, w.st.log, EnqueueRecord(j), w'.st.log, r);
      case AckJob(n, id, leaseId) =>
        AckStorable(w, n, id, leaseId);
        WriteHolds(ck, w.st.log, AckRecord(w.st.queues[n].inflight[id], id, leaseId), w'.st.log, r);
      case NackJob(n, id, leaseId, reason, now, delay) =>
        NackStorable(w, n, id, leaseId, reason, now + delay);
        var j := Tried(w.st.queues[n].inflight[id], now + delay);
        WriteHolds(ck, w.st.log, NackRecord(j, id, leaseId, reason), w'.st.log, r);
      case SweepQueue(n, now, delay) => SweepStays(ck, w, n, now, delay, w', r);
      case Crash(configured, clock) => ReopenHolds(ck, w.st.log, configured, r);
      case _ =>
    }
  }

  lemma SweepStays(ck: Checksum, w: World, n: Bytes, now: Time, delay: Bytes -> nat, w': World, r: Record)
    requires Inv(ck, w) && SweepEvent(ck, w, n, now, delay, w') && Holds(ck, w.st.log, r)
    ensures IsOpen(w'.st.log) && Holds(ck, w'.st.log, r)
  {
    hide HistInv, QueuesInv, AllClean, Holds, WroteAll, Storable, Swept;
    var rs, _ := SweepWrites(ck, w, n, now, delay, w');
    WriteAllHolds(ck, w.st.log, rs, w'.st.log, r);
  }

  /** Every job ever logged still has its enqueue record. */
  ghost predicate NothingForgotten(ck: Checksum, w: World) {
    IsOpen(w.st.log) && forall id :: id in w.hist.origin ==> Holds(ck, w.st.log, w.hist.origin[id])
  }

  lemma StepForgetsNothing(ck: Checksum, w: World, e: Event, w': World)
    requires Inv(ck, w) && Happens(ck, w, e, w') && !e.CompactLog? && NothingForgotten(ck, w)
    ensures NothingForgotten(ck, w')
  {
    forall id | id in w.hist.origin
      ensures IsOpen(w'.st.log) && Holds(ck, w'.st.log, w.hist.origin[id])
    {
      hide Inv, Happens, Holds;
      RecordStays(ck, w, e, w', w.hist.origin[id]);
    }
    hide HistInv, QueuesInv, AllClean, Holds, Wrote, WroteAll, Storable, Tried, GiveBack, DropLease, Swept, InRange;
    if e.WriteEnqueue? {
      FitsForOrigin(e.job);
      WriteHolds(ck, w.st.log, EnqueueRecord(e.job), w'.st.log, Durable(EnqueueRecord(e.job)));
    } else {
      NextKeepsInv(ck, w, e, w');
      SameOrigins(ck, w, e, w');
    }
  }

  lemma SameOrigins(ck: Checksum, w: World, e: Event, w': World)
    requires Happens(ck, w, e, w') && !e.WriteEnqueue?
    ensures w'.hist.origin == w.hist.origin
  {
  }

  lemma {:induction false} RunForgetsNothing(ck: Checksum, ws: seq<World>, es: seq<Event>, i: nat)
    requires Run(ck, ws, es) && i <= |es| && forall k :: 0 <= k < i ==> !es[k].CompactLog?
    ensures NothingForgotten(ck, ws[i])
    decreases i
  {
    hide Happens, NothingForgotten, Inv, Initial;
    if i == 0 {
      RunKeepsInv(ck, ws, es, 0);
      StartForgetsNothing(ck, ws[0]);
    } else {
      RunKeepsInv(ck, ws, es, i - 1);
      RunForgetsNothing(ck, ws, es, i - 1);
      StepForgetsNothing(ck, ws[i - 1], es[i - 1], ws[i]);
    }
  }

  lemma StartForgetsNothing(ck: Checksum, w: World)
    requires Inv(ck, w) && Initial(w)
    ensures NothingForgotten(ck, w)
  {
    hide HistInv, QueuesInv, Holds, AllClean;
  }

  /** Acknowledgements do not survive. Unless the log is compacted, which the server never does, a process that starts
      has ready every job that was ever enqueued, acknowledged or not. */
  lemma EverythingComesBack(ck: Checksum, ws: seq<World>, es: seq<Event>, configured: int, clock: nat -> Time, s': State,
                            id: Bytes)
    requires Run(ck, ws, es) && RestartStep(ck, ws[|es|].st, configured, clock, s')
    requires forall k :: 0 <= k < |es| ==> !es[k].CompactLog?
    requires id in ws[|es|].hist.origin
    ensures RecoveredAs(s'.queues, id, ws[|es|].hist.origin[id])
  {
    var w := ws[|es|];
    RunKeepsInv(ck, ws, es, |es|);
    RunForgetsNothing(ck, ws, es, |es|);
    hide HistInv, QueuesInv, Holds, AllClean;
    HeldIsRecoveredAs(ck, w, configured, clock, AfterCrash(w, s'), id);
  }
}
