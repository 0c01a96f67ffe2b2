/** One run from start to crash, for any job: enqueued, leased, acknowledged, and ready again after the restart. It
    shows that acknowledgements are not recovered, and that runs with all these steps exist
    (internal/queue/queue.go). */
module Scenario {
  import opened Binary
  import opened Sorting
  import opened Codec
  import opened Framing
  import opened Logs
  import opened Jobs
  import opened States
  import opened Steps
  import opened Histories
  import opened Theorems

  lemma SomeWrite(ck: Checksum, l: Log, r: Record) returns (w: Log)
    requires IsOpen(l)
    ensures IsOpen(w) && Wrote(ck, l, r, w)
  {
    var order := Listing(r.headers.Keys);
    assert Encodes(Encode(r, order), r);
    w := Appended(l, Frame(ck, Encode(r, order)));
  }

  ghost function Start(configured: int): World {
    World(State(map[], Reopened(map[], configured), map[]), map[], Hist(map[], {}, {}, map[], map[], {}),
          Calls(map[], map[], {}))
  }

  ghost function AfterWrite(w: World, j: Job, l: Log): World {
    World(State(WithQueue(w.st.queues, j.queue), l, w.st.keys), w.pending[j.id := j],
          w.hist.(origin := w.hist.origin[j.id := Durable(EnqueueRecord(j))]), KeyLogged(w.calls, j.id))
  }

  ghost function AfterPush(w: World, id: Bytes): World
    requires id in w.pending && w.pending[id].queue in w.st.queues
  {
    World(Pushed(w.st, w.pending[id]), w.pending - {id},
          w.hist.(known := w.hist.known + {id}, counts := w.hist.counts[id := 0]), w.calls)
  }

  ghost function AfterLease(w: World, n: Bytes, picked: seq<Job>, ids: nat -> Bytes, deadline: Time): World
    requires n in w.st.queues
  {
    World(w.st.(queues := w.st.queues[n := TakeLeases(w.st.queues[n], picked, ids, deadline)]), w.pending,
          w.hist.(counts := CountUp(w.hist.counts, IdSet(picked)), holder := HoldersWith(w.hist.holder, picked, ids)),
          w.calls)
  }

  ghost function AfterAck(w: World, n: Bytes, id: Bytes, lease: Bytes, l: Log): World
    requires n in w.st.queues
  {
    World(State(w.st.queues[n := DropLease(w.st.queues[n], id)], l, w.st.keys), w.pending,
          w.hist.(acked := w.hist.acked + {id}, spent := w.hist.spent + {lease}), w.calls)
  }

  lemma OnlyJobIsPicked(j: Job, m: map<Bytes, Job>, now: Time)
    requires m == map[j.id := j] && IsReady(j, now)
    ensures Picked([j], m, now, 1)
  {
    assert ServingOrder([j], m);
    assert PickedFrom([j], [j], m, now, 1);
  }

  /** A queue with one ready job, which is then out on a lease. */
  lemma LeasedOnly(j: Job, ids: nat -> Bytes, deadline: Time)
    ensures TakeLeases(QState(map[j.id := j], map[], map[]), [j], ids, deadline)
         == QState(map[], map[j.id := Leased(j, ids(0), deadline)], map[])
  {
    assert IdSet([j]) == {j.id} by {
      assert [j][0] == j;
    }
    var ls := LeasedAll([j], ids, deadline);
    assert ls == [Leased(j, ids(0), deadline)];
    assert ls[..0] == [];
    assert PutAll(map[], ls) == map[j.id := ls[0]];
    assert map[j.id := j] - {j.id} == map[];
  }

  /** From the start to the lease. */
  lemma EnqueueAndLease(ck: Checksum, j: Job, lease: Bytes, now: Time, configured: int) returns (ws: seq<World>, es: seq<Event>)
    requires IsNew(j) && IsId(j.id) && Storable(EnqueueRecord(j)) && j.eta <= now && IsId(lease)
    ensures Run(ck, ws, es) && |es| == 3 && forall k :: 0 <= k < |es| ==> !es[k].CompactLog?
    ensures |ws| == 4 && IsOpen(ws[3].st.log) && HoldsLease(ws[3].st, j.queue, j.id, lease) && j.id in ws[3].hist.origin
  {
    hide Storable, Reopened, Durable, EnqueueRecord, Wrote;
    var w0 := Start(configured);
    var l := SomeWrite(ck, w0.st.log, EnqueueRecord(j));
    var w1 := AfterWrite(w0, j, l);
    var w2 := AfterPush(w1, j.id);
    var ids: nat -> Bytes := _ => lease;
    var w3 := AfterLease(w2, j.queue, [j], ids, now + Millis(0));
    var q := w2.st.queues[j.queue];
    assert q == QState(map[j.id := j], map[], map[]);
    OnlyJobIsPicked(j, q.ready, now);
    LeasedOnly(j, ids, now + Millis(0));
    assert Initial(w0);
    WriteHappens(ck, w0, j, l);
    PushHappens(ck, w1, j.id);
    LeaseHappens(ck, w2, j.queue, j, ids, now);
    hide Picked, TakeLeases, HoldersWith, CountUp, Happens, Initial;
    ws := [w0, w1, w2, w3];
    es := [WriteEnqueue(j), PushJob(j.id), LeaseJobs(j.queue, now, 1, 0, ids, [j])];
  }

  lemma WriteHappens(ck: Checksum, v: World, j: Job, l: Log)
    requires IsNew(j) && IsId(j.id) && Storable(EnqueueRecord(j))
    requires j.id !in v.hist.origin && (j.id in v.calls.asked || j.id !in v.calls.called)
    requires IsOpen(v.st.log) && Wrote(ck, v.st.log, EnqueueRecord(j), l)
    ensures Happens(ck, v, WriteEnqueue(j), AfterWrite(v, j, l))
  {
    hide Storable, Durable, EnqueueRecord, Wrote, KeyLogged, IsOpen;
  }

  lemma PushHappens(ck: Checksum, v: World, id: Bytes)
    requires id in v.pending && v.pending[id].queue in v.st.queues
    ensures Happens(ck, v, PushJob(id), AfterPush(v, id))
  {
    hide Pushed;
  }

  lemma LeaseHappens(ck: Checksum, v: World, n: Bytes, j: Job, ids: nat -> Bytes, now: Time)
    requires n in v.st.queues && Picked([j], v.st.queues[n].ready, now, 1) && IsId(ids(0)) && ids(0) !in v.hist.holder
    ensures Happens(ck, v, LeaseJobs(n, now, 1, 0, ids, [j]), AfterLease(v, n, [j], ids, now + Millis(0)))
  {
    hide Picked, TakeLeases, HoldersWith, CountUp;
  }

  /** The run goes on with the acknowledgement. */
  lemma AckOnRun(ck: Checksum, ws: seq<World>, es: seq<Event>, n: Bytes, id: Bytes, lease: Bytes) returns (w: World)
    requires Run(ck, ws, es) && IsOpen(ws[|es|].st.log) && HoldsLease(ws[|es|].st, n, id, lease)
    ensures Run(ck, ws + [w], es + [AckJob(n, id, lease)])
    ensures id in w.hist.acked && w.hist.origin == ws[|es|].hist.origin
  {
    hide Happens, Initial, Wrote, DropLease, AckRecord;
    var v := ws[|es|];
    var l := SomeWrite(ck, v.st.log, AckRecord(v.st.queues[n].inflight[id], id, lease));
    w := AfterAck(v, n, id, lease, l);
    AckHappens(ck, v, n, id, lease, l);
    OneMoreStep(ck, ws, es, AckJob(n, id, lease), w);
  }

  lemma AckHappens(ck: Checksum, v: World, n: Bytes, id: Bytes, lease: Bytes, l: Log)
    requires IsOpen(v.st.log) && HoldsLease(v.st, n, id, lease)
    requires Wrote(ck, v.st.log, AckRecord(v.st.queues[n].inflight[id], id, lease), l)
    ensures Happens(ck, v, AckJob(n, id, lease), AfterAck(v, n, id, lease, l))
  {
    hide Wrote, DropLease, AckRecord;
  }

  lemma OneMoreStep(ck: Checksum, ws: seq<World>, es: seq<Event>, e: Event, w: World)
    requires Run(ck, ws, es) && Happens(ck, ws[|es|], e, w)
    ensures Run(ck, ws + [w], es + [e])
  {
    hide Happens, Initial;
    forall i | 0 <= i < |es + [e]| ensures Happens(ck, (ws + [w])[i], (es + [e])[i], (ws + [w])[i + 1]) {
      if i < |es| {
        assert Happens(ck, ws[i], es[i], ws[i + 1]);
      }
    }
  }

  /** For every job that can be logged: it can be enqueued, leased and acknowledged, and then a crash brings it back. */
  lemma AckedJobComesBack(ck: Checksum, j: Job, lease: Bytes, now: Time, configured: int, clock: nat -> Time)
    returns (ws: seq<World>, es: seq<Event>, s': State)
    requires IsNew(j) && IsId(j.id) && Storable(EnqueueRecord(j)) && j.eta <= now && IsId(lease)
    ensures Run(ck, ws, es) && es != [] && es[|es| - 1] == AckJob(j.queue, j.id, lease)
    ensures j.id in ws[|es|].hist.acked && j.id in ws[|es|].hist.origin
    ensures RestartStep(ck, ws[|es|].st, configured, clock, s') && RecoveredAs(s'.queues, j.id, ws[|es|].hist.origin[j.id])
  {
    hide Storable, HoldsLease, Happens, IsOpen, Reopened, Replay;
    var front, events := EnqueueAndLease(ck, j, lease, now, configured);
    var w := AckOnRun(ck, front, events, j.queue, j.id, lease);
    ws, es := front + [w], events + [AckJob(j.queue, j.id, lease)];
    var o := Reopened(w.st.log.files, configured);
    s' := State(AppliedAll(map[], Replay(ck, o).records, clock), o, w.st.keys);
    NoLiveJobLost(ck, ws, es, ws[|es|].st.log, configured, clock, s');
    EverythingComesBack(ck, ws, es, configured, clock, s', j.id);
  }
}
