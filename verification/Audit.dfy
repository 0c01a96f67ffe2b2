/** What the log tells of a run: which records each step adds to it (internal/queue/queue.go). */
module Audit {
  import opened Binary
  import opened Seqs
  import opened Codec
  import opened Framing
  import opened Logs
  import opened Jobs
  import opened States
  import opened Sweeping
  import opened Steps
  import opened Histories
  import opened Invariants
  import opened Runs
  import opened Theorems

  lemma OneMoreCut(before: seq<Record>, rs: seq<Record>)
    requires rs != []
    ensures before + Cuts(rs) == (before + Cuts(rs[..|rs| - 1])) + [Cut(rs[|rs| - 1])]
  {
    hide Cut, Cuts;
    var front, last := rs[..|rs| - 1], rs[|rs| - 1];
    SplitLast(rs);
    CutsAppend(front, last);
    Associative(before, Cuts(front), [Cut(last)]);
  }

  lemma {:induction false} AllWritten(ck: Checksum, l: Log, rs: seq<Record>, w: Log)
    requires Healthy(ck, l) && AllStorable(rs) && WroteAll(ck, l, rs, w)
    ensures Healthy(ck, w) && Replay(ck, w).records == Replay(ck, l).records + Cuts(rs)
    decreases |rs|
  {
    hide Replay, AllClean, Wrote, Storable, Cut;
    if rs == [] {
      assert Replay(ck, l).records + [] == Replay(ck, l).records;
    } else {
      var n := |rs| - 1;
      var m :| IsOpen(m) && WroteAll(ck, l, rs[..n], m) && Wrote(ck, m, rs[n], w);
      AllWritten(ck, l, rs[..n], m);
      WriteExtendsReplay(ck, m, rs[n], w);
      hide Cuts, WroteAll, IsOpen, Elems;
      OneMoreCut(Replay(ck, l).records, rs);
    }
  }

  /** `t` is the millisecond that `eta` falls in. */
  predicate ToTheMillisecond(t: Time, eta: Time) {
    t <= eta < t + 1_000_000 && t % 1_000_000 == 0
  }

  lemma KeptToTheMillisecond(eta: Time)
    ensures ToTheMillisecond(UnixMilli(eta) * NS_PER_MS, eta)
  {
  }

  lemma ZeroTimeIsKept()
    ensures UnixMilli(ZERO_TIME) * NS_PER_MS == ZERO_TIME == -62_135_596_800_000_000_000
  {
  }

  /** The log says of an enqueue all that was asked for, the ETA to the millisecond. */
  predicate TellsEnqueue(r: Record, j: Job) {
    && r.kind == 1 && SameJob(j, r) && r.tries == 0 && ToTheMillisecond(r.eta, j.eta)
    && r.leaseId == [] && r.reason == []
  }

  predicate TellsAck(r: Record, n: Bytes, id: Bytes, leaseId: Bytes) {
    && r.kind == 2 && r.queue == n && r.jobId == id && r.leaseId == leaseId && r.reason == []
    && r.payload == [] && r.headers == map[] && r.tries == 0 && ForNoRetry(r)
  }

  /** The fields that only a retry has are at their zero values; the zero time is the start of the year 1. */
  predicate ForNoRetry(r: Record) {
    r.priority == 0 && r.maxRetries == 0 && r.eta == -62_135_596_800_000_000_000
  }

  /** The log says of a nack which try it was, why, and when the next one is due, if there is one. */
  predicate TellsNack(r: Record, w: World, w': World, n: Bytes, id: Bytes, leaseId: Bytes, reason: Bytes) {
    && r.kind == 3 && r.queue == n && r.jobId == id && r.leaseId == leaseId
    && r.reason == reason[..|reason| % 0x1_0000] && r.payload == [] && r.headers == map[]
    && n in w.st.queues && id in w.st.queues[n].inflight && r.tries == w.st.queues[n].inflight[id].tries + 1
    && n in w'.st.queues
    && (id in w'.st.queues[n].ready ==>
          var j := w'.st.queues[n].ready[id];
          r.priority == j.priority && r.maxRetries == j.maxRetries && ToTheMillisecond(r.eta, j.eta))
    && (id !in w'.st.queues[n].ready ==> ForNoRetry(r))
  }

  /** One record more in the log. */
  ghost predicate Adds(ck: Checksum, w: World, w': World, r: Record) {
    IsOpen(w.st.log) && IsOpen(w'.st.log) && Replay(ck, w'.st.log).records == Replay(ck, w.st.log).records + [r]
  }

  lemma EnqueueIsTold(ck: Checksum, w: World, j: Job, w': World)
    requires Inv(ck, w) && LogEvent(ck, w, j, w')
    ensures exists r :: Adds(ck, w, w', r) && TellsEnqueue(r, j)
  {
    var r := EnqueueRecord(j);
    FitsForOrigin(j);
    KeptToTheMillisecond(j.eta);
    hide UnixMilli, ToTheMillisecond;
    assert TellsEnqueue(Cut(r), j);
    hide HistInv, QueuesInv, AllClean, Replay, Wrote, Storable, Cut, TellsEnqueue;
    WriteExtendsReplay(ck, w.st.log, r, w'.st.log);
    assert Adds(ck, w, w', Cut(r));
  }

  lemma AckIsTold(ck: Checksum, w: World, n: Bytes, id: Bytes, leaseId: Bytes, w': World)
    requires Inv(ck, w) && AckEvent(ck, w, n, id, leaseId, w')
    ensures exists r :: Adds(ck, w, w', r) && TellsAck(r, n, id, leaseId)
  {
    var r := AckRecord(w.st.queues[n].inflight[id], id, leaseId);
    HeldLease(w, n, id, leaseId);
    ZeroTimeIsKept();
    hide UnixMilli;
    assert TellsAck(Cut(r), n, id, leaseId);
    hide HistInv, QueuesInv, AllClean, Replay, Wrote, Storable, Cut, TellsAck;
    AckStorable(w, n, id, leaseId);
    WriteExtendsReplay(ck, w.st.log, r, w'.st.log);
    assert Adds(ck, w, w', Cut(r));
  }

  lemma NackRecordTells(w: World, n: Bytes, id: Bytes, leaseId: Bytes, reason: Bytes, eta: Time, w': World)
    requires HoldsLease(w.st, n, id, leaseId) && InflightAt(w.hist, n, id, w.st.queues[n].inflight[id])
    requires id !in w.st.queues[n].ready
    requires w'.st.queues == w.st.queues[n := GiveBack(w.st.queues[n], id, Tried(w.st.queues[n].inflight[id], eta))]
    ensures var j := Tried(w.st.queues[n].inflight[id], eta);
            TellsNack(Cut(NackRecord(j, id, leaseId, reason)), w, w', n, id, leaseId, reason)
  {
    TriesDoNotWrap(w.hist, n, id, w.st.queues[n].inflight[id], eta);
    KeptToTheMillisecond(eta);
    ZeroTimeIsKept();
    hide UnixMilli, ToTheMillisecond;
  }

  lemma NackIsTold(ck: Checksum, w: World, n: Bytes, id: Bytes, leaseId: Bytes, reason: Bytes, now: Time, delay: nat, w': World)
    requires Inv(ck, w) && NackEvent(ck, w, n, id, leaseId, reason, now, delay, w')
    ensures exists r :: Adds(ck, w, w', r) && TellsNack(r, w, w', n, id, leaseId, reason)
  {
    hide HistInv, QueuesInv, AllClean, Replay, Wrote, Storable, Cut, TellsNack, Tried, NackRecord, GiveBack, InflightAt;
    var r := NackRecord(Tried(w.st.queues[n].inflight[id], now + delay), id, leaseId, reason);
    HeldLease(w, n, id, leaseId);
    InflightIsNotReady(w, n, id);
    NackRecordTells(w, n, id, leaseId, reason, now + delay, w');
    NackStorable(w, n, id, leaseId, reason, now + delay);
    WriteExtendsReplay(ck, w.st.log, r, w'.st.log);
    assert Adds(ck, w, w', Cut(r));
  }

  /** What each step of a run adds to the log, in terms of the step alone: an enqueue, an ack and a nack one record
      each that tells them; a key, a push and a lease nothing. */
  lemma LogTellsEachStep(ck: Checksum, ws: seq<World>, es: seq<Event>, i: nat)
    requires Run(ck, ws, es) && i < |es|
    ensures var w, w' := ws[i], ws[i + 1];
            match es[i]
            case WriteEnqueue(j) => exists r :: Adds(ck, w, w', r) && TellsEnqueue(r, j)
            case AckJob(n, id, leaseId) => exists r :: Adds(ck, w, w', r) && TellsAck(r, n, id, leaseId)
            case NackJob(n, id, leaseId, reason, _, _) =>
              exists r :: Adds(ck, w, w', r) && TellsNack(r, w, w', n, id, leaseId, reason)
            case LookUp(_, _, _) => w'.st.log == w.st.log
            case StoreKey(_, _) => w'.st.log == w.st.log
            case PushJob(_) => w'.st.log == w.st.log
            case LeaseJobs(_, _, _, _, _, _) => w'.st.log == w.st.log
            case _ => true
  {
    RunKeepsInv(ck, ws, es, i);
    var w, e, w' := ws[i], es[i], ws[i + 1];
    assert Happens(ck, w, e, w');
    hide Run, Inv, Adds, TellsEnqueue, TellsAck, TellsNack, AckEvent, NackEvent, LogEvent;
    match e {
      case WriteEnqueue(j) => EnqueueIsTold(ck, w, j, w');
      case AckJob(n, id, leaseId) => AckIsTold(ck, w, n, id, leaseId, w');
      case NackJob(n, id, leaseId, reason, now, delay) => NackIsTold(ck, w, n, id, leaseId, reason, now, delay, w');
      case _ =>
    }
  }

  /** The log says of an expired job which try it was and when the next one is due. */
  predicate TellsRequeue(r: Record, n: Bytes, j: Job) {
    && r.kind == 4 && r.queue == n && r.jobId == j.id && r.tries == j.tries && r.maxRetries == j.maxRetries
    && r.priority == j.priority && ToTheMillisecond(r.eta, j.eta)
    && r.payload == [] && r.headers == map[] && r.leaseId == [] && r.reason == []
  }

  /** `rs` tell each job of `m` once, and nothing else. */
  ghost predicate TellsEach(rs: seq<Record>, n: Bytes, m: map<Bytes, Job>) {
    && (forall i, k :: 0 <= i < k < |rs| ==> rs[i].jobId != rs[k].jobId)
    && (forall i :: 0 <= i < |rs| ==> rs[i].jobId in m && TellsRequeue(rs[i], n, m[rs[i].jobId]))
    && (forall id :: id in m ==> exists i :: 0 <= i < |rs| && rs[i].jobId == id)
  }

  /** The jobs that are ready in `s` and were not in `q`. */
  function Returned(q: QState, s: QState): map<Bytes, Job> {
    map id | id in s.ready && id !in q.ready :: s.ready[id]
  }

  /** A sweep adds one requeue record for each job that it makes ready again, and none for the others. */
  lemma SweepIsTold(ck: Checksum, ws: seq<World>, es: seq<Event>, i: nat) returns (rs: seq<Record>)
    requires Run(ck, ws, es) && i < |es| && es[i].SweepQueue?
    ensures IsOpen(ws[i].st.log) && IsOpen(ws[i + 1].st.log)
    ensures es[i].queue in ws[i].st.queues && es[i].queue in ws[i + 1].st.queues
    ensures Replay(ck, ws[i + 1].st.log).records == Replay(ck, ws[i].st.log).records + rs
    ensures TellsEach(rs, es[i].queue, Returned(ws[i].st.queues[es[i].queue], ws[i + 1].st.queues[es[i].queue]))
  {
    RunKeepsInv(ck, ws, es, i);
    var w, e, w' := ws[i], es[i], ws[i + 1];
    assert Happens(ck, w, e, w');
    hide Run, TellsEach, ToRetry, ExpiredJobs, Returned, Swept, SweepLogged, QueuesInv, HistInv, LogInv;
    rs := RequeuesTold(ck, w, e.queue, e.now, e.delays, w');
    ReturnedAreRetried(w, e.queue, e.now, e.delays);
  }

  lemma RequeuesTold(ck: Checksum, w: World, n: Bytes, now: Time, delay: Bytes -> nat, w': World) returns (told: seq<Record>)
    requires Inv(ck, w) && SweepEvent(ck, w, n, now, delay, w')
    ensures IsOpen(w'.st.log) && Replay(ck, w'.st.log).records == Replay(ck, w.st.log).records + told
    ensures TellsEach(told, n, ToRetry(ExpiredJobs(w.st.queues[n], now, delay)))
  {
    hide HistInv, QueuesInv, AllClean, Replay, WroteAll, Storable, Swept, ToRetry, ExpiredJobs, Cut, Distinct, InRange;
    var rs, order := SweepWrites(ck, w, n, now, delay, w');
    AllWritten(ck, w.st.log, rs, w'.st.log);
    told := Cuts(rs);
    hide TellsRequeue, TellsEach;
    var m := ToRetry(ExpiredJobs(w.st.queues[n], now, delay));
    forall id | id in m ensures m[id].id == id && TellsRequeue(Cut(RequeueRecord(m[id])), n, m[id]) {
      RequeueTells(w, n, now, delay, id);
    }
    EachIsTold(told, rs, order, n, m);
  }

  lemma EachIsTold(told: seq<Record>, rs: seq<Record>, order: seq<Bytes>, n: Bytes, m: map<Bytes, Job>)
    requires told == Cuts(rs) && RequeuesOf(rs, order, m)
    requires forall id :: id in m ==> m[id].id == id && TellsRequeue(Cut(RequeueRecord(m[id])), n, m[id])
    ensures TellsEach(told, n, m)
  {
    forall i | 0 <= i < |told| ensures told[i].jobId == order[i] && order[i] in m && TellsRequeue(told[i], n, m[order[i]]) {
      hide Cuts;
      assert TellsRequeue(told[i], n, m[order[i]]);
    }
    assert |told| == |order| && Distinct(order) && Elems(order) == m.Keys;
    hide TellsRequeue, Cuts, RequeuesOf, Distinct, Elems;
    InOrderTold(told, order, n, m);
  }

  lemma InOrderTold(told: seq<Record>, order: seq<Bytes>, n: Bytes, m: map<Bytes, Job>)
    requires |told| == |order| && Distinct(order) && Elems(order) == m.Keys
    requires forall i :: 0 <= i < |told| ==> told[i].jobId == order[i] && order[i] in m && TellsRequeue(told[i], n, m[order[i]])
    ensures TellsEach(told, n, m)
  {
    hide TellsRequeue;
    forall id | id in m ensures exists i :: 0 <= i < |told| && told[i].jobId == id {
      assert id in Elems(order);
      var i :| 0 <= i < |order| && order[i] == id;
      assert told[i].jobId == id;
    }
  }

  lemma RequeueTells(w: World, n: Bytes, now: Time, delay: Bytes -> nat, id: Bytes)
    requires QueuesInv(w.hist, w.st.queues) && n in w.st.queues
    requires id in ToRetry(ExpiredJobs(w.st.queues[n], now, delay))
    ensures var j := ToRetry(ExpiredJobs(w.st.queues[n], now, delay))[id];
            j.id == id && TellsRequeue(Cut(RequeueRecord(j)), n, j)
  {
    RetriedWasInflight(w.st.queues[n], now, delay, id);
    assert QueueInv(w.hist, n, w.st.queues[n]);
    assert Local(w.hist, n, w.st.queues[n], id);
    KeptToTheMillisecond(ToRetry(ExpiredJobs(w.st.queues[n], now, delay))[id].eta);
    hide ToRetry, ExpiredJobs, QueuesInv, QueueInv, UnixMilli, ToTheMillisecond;
  }

  lemma ReturnedAreRetried(w: World, n: Bytes, now: Time, delay: Bytes -> nat)
    requires QueuesInv(w.hist, w.st.queues) && n in w.st.queues
    ensures Returned(w.st.queues[n], Swept(w.st.queues[n], now, delay)) == ToRetry(ExpiredJobs(w.st.queues[n], now, delay))
  {
    var q := w.st.queues[n];
    var back := ToRetry(ExpiredJobs(q, now, delay));
    assert Swept(q, now, delay).ready == back + q.ready;
    hide QueuesInv, Swept, ToRetry;
    forall id | id in back ensures id !in q.ready {
      RetriedWasInflight(q, now, delay, id);
      InflightIsNotReady(w, n, id);
    }
    hide ExpiredJobs;
    assert Returned(q, Swept(q, now, delay)) == back;
  }
}
