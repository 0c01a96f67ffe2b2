/** Runs in which two jobs are enqueued under one idempotency key: by calls that overlap, after a store that failed, and
    after a crash between logging the job and storing the key (internal/queue/queue.go). */
module Duplicates {
  import opened Binary
  import opened Seqs
  import opened Codec
  import opened Framing
  import opened Logs
  import opened Jobs
  import opened States
  import opened Steps
  import opened Histories
  import opened Invariants
  import opened Runs
  import opened Theorems
  import opened Keys
  import opened Scenario

  /** A job as an Enqueue makes it, of which the log can keep everything. */
  ghost predicate Enqueueable(j: Job) {
    IsNew(j) && IsId(j.id) && Storable(EnqueueRecord(j))
  }

  /** Where a run has got to. */
  function Last(ws: seq<World>): World
    requires ws != []
  {
    ws[|ws| - 1]
  }

  // ---------- One step more ----------

  lemma GoLookUp(ck: Checksum, ws: seq<World>, es: seq<Event>, id: Bytes, key: Bytes) returns (w: World)
    requires Run(ck, ws, es) && key != [] && IsId(id) && id !in Last(ws).hist.origin && id !in Last(ws).calls.called
    requires key !in Last(ws).st.keys
    ensures Run(ck, ws + [w], es + [LookUp(id, key, None)])
    ensures w.st == Last(ws).st && w.pending == Last(ws).pending && w.hist == Last(ws).hist
    ensures var c := Last(ws).calls; w.calls == c.(asked := c.asked[id := key], called := c.called + {id})
  {
    var v := Last(ws);
    w := v.(calls := v.calls.(asked := v.calls.asked[id := key], called := v.calls.called + {id}));
    assert Happens(ck, v, LookUp(id, key, None), w);
    hide Happens, Initial;
    OneMoreStep(ck, ws, es, LookUp(id, key, None), w);
  }

  lemma GoWrite(ck: Checksum, ws: seq<World>, es: seq<Event>, j: Job) returns (w: World)
    requires Run(ck, ws, es) && Enqueueable(j) && j.id !in Last(ws).hist.origin && j.id in Last(ws).calls.asked
    ensures Run(ck, ws + [w], es + [WriteEnqueue(j)])
    ensures w.pending == Last(ws).pending[j.id := j] && w.calls == KeyLogged(Last(ws).calls, j.id) && w.st.keys == Last(ws).st.keys
    ensures w.hist.known == Last(ws).hist.known && w.hist.origin.Keys == Last(ws).hist.origin.Keys + {j.id}
    ensures forall n :: n in Last(ws).st.queues ==> n in w.st.queues
    ensures j.queue in w.st.queues
  {
    hide Happens, Initial, Inv, Enqueueable, KeyLogged;
    RunKeepsInv(ck, ws, es, |es|);
    w := WriteFrom(ck, Last(ws), j);
    OneMoreStep(ck, ws, es, WriteEnqueue(j), w);
  }

  lemma WriteFrom(ck: Checksum, v: World, j: Job) returns (w: World)
    requires Inv(ck, v) && Enqueueable(j) && j.id !in v.hist.origin && j.id in v.calls.asked
    ensures Happens(ck, v, WriteEnqueue(j), w)
    ensures w.pending == v.pending[j.id := j] && w.calls == KeyLogged(v.calls, j.id) && w.st.keys == v.st.keys
    ensures w.hist.known == v.hist.known && w.hist.origin.Keys == v.hist.origin.Keys + {j.id}
    ensures forall n :: n in v.st.queues ==> n in w.st.queues
    ensures j.queue in w.st.queues
  {
    hide Storable, Durable, EnqueueRecord, Wrote, KeyLogged, IsOpen, Happens, Inv;
    LogIsOpen(ck, v);
    var l := SomeWrite(ck, v.st.log, EnqueueRecord(j));
    w := AfterWrite(v, j, l);
    WriteHappens(ck, v, j, l);
  }

  lemma LogIsOpen(ck: Checksum, w: World)
    requires Inv(ck, w)
    ensures IsOpen(w.st.log)
  {
    hide HistInv, QueuesInv;
  }

  lemma GoStore(ck: Checksum, ws: seq<World>, es: seq<Event>, key: Bytes, id: Bytes) returns (w: World)
    requires Run(ck, ws, es) && id in Last(ws).pending && Carries(Last(ws), id, key)
    ensures Run(ck, ws + [w], es + [StoreKey(key, id)])
    ensures w.pending == Last(ws).pending && w.calls == Last(ws).calls && w.hist == Last(ws).hist
    ensures w.st == Last(ws).st.(keys := Last(ws).st.keys[key := id])
  {
    var v := Last(ws);
    w := v.(st := KeyStored(v.st, key, id));
    assert Happens(ck, v, StoreKey(key, id), w);
    hide Happens, Initial;
    OneMoreStep(ck, ws, es, StoreKey(key, id), w);
  }

  lemma GoPush(ck: Checksum, ws: seq<World>, es: seq<Event>, id: Bytes) returns (w: World)
    requires Run(ck, ws, es) && id in Last(ws).pending && Last(ws).pending[id].queue in Last(ws).st.queues
    ensures Run(ck, ws + [w], es + [PushJob(id)])
    ensures w.pending == Last(ws).pending - {id} && w.calls == Last(ws).calls && w.st.keys == Last(ws).st.keys
    ensures w.hist.known == Last(ws).hist.known + {id} && w.hist.origin == Last(ws).hist.origin
    ensures w.st.queues.Keys == Last(ws).st.queues.Keys
  {
    var v := Last(ws);
    hide AddReady;
    w := AfterPush(v, id);
    hide Happens, Initial;
    PushHappens(ck, v, id);
    OneMoreStep(ck, ws, es, PushJob(id), w);
  }

  /** A crash and a restart, after which every live job is there. */
  lemma GoCrash(ck: Checksum, ws: seq<World>, es: seq<Event>, configured: int, clock: nat -> Time, id: Bytes) returns (w: World)
    requires Run(ck, ws, es) && id in Last(ws).pending
    ensures Run(ck, ws + [w], es + [Crash(configured, clock)])
    ensures w.pending == map[] && w.calls == Last(ws).calls.(asked := map[]) && w.st.keys == Last(ws).st.keys
    ensures w.hist.origin == Last(ws).hist.origin && id in w.hist.known
  {
    var v := Last(ws);
    hide Run, RecoveredAs, Happens, RestartStep;
    var s' := SomeRestart(ck, ws, es, configured, clock);
    NoLiveJobLost(ck, ws, es, ws[|es|].st.log, configured, clock, s');
    w := AfterCrash(v, s');
    assert IsLive(v, id);
    ReadyIsKnown(s'.queues, id, v.hist.origin[id]);
    CrashHappens(ck, v, configured, clock, s');
    OneMoreStep(ck, ws, es, Crash(configured, clock), w);
  }

  lemma SomeRestart(ck: Checksum, ws: seq<World>, es: seq<Event>, configured: int, clock: nat -> Time) returns (s': State)
    requires Run(ck, ws, es)
    ensures ws != [] && |ws| == |es| + 1 && RestartStep(ck, Last(ws).st, configured, clock, s') && s'.keys == Last(ws).st.keys
  {
    hide Reopened, Replay, AppliedAll, Happens, Initial;
    var v := Last(ws);
    var o := Reopened(v.st.log.files, configured);
    s' := State(AppliedAll(map[], Replay(ck, o).records, clock), o, v.st.keys);
    NoLiveJobLost(ck, ws, es, ws[|es|].st.log, configured, clock, s');
  }

  lemma CrashHappens(ck: Checksum, v: World, configured: int, clock: nat -> Time, s': State)
    requires RestartStep(ck, v.st, configured, clock, s')
    ensures Happens(ck, v, Crash(configured, clock), AfterCrash(v, s'))
  {
    hide RestartStep;
  }

  lemma ReadyIsKnown(queues: map<Bytes, QState>, id: Bytes, r: Record)
    requires RecoveredAs(queues, id, r)
    ensures id in ReadyIds(queues)
  {
  }

  // ---------- The runs ----------

  /** Both jobs carry the key, and both have entered their queues. */
  predicate BothEnqueued(w: World, a: Bytes, b: Bytes, key: Bytes) {
    Carries(w, a, key) && Carries(w, b, key) && a in w.hist.known && b in w.hist.known
  }

  lemma Beginning(ck: Checksum, configured: int) returns (ws: seq<World>)
    ensures Run(ck, ws, []) && Last(ws).pending == map[] && Last(ws).st.keys == map[] && Last(ws).calls == Calls(map[], map[], {})
    ensures Last(ws).hist.origin == map[] && Last(ws).hist.known == {}
  {
    hide Reopened;
    ws := [Start(configured)];
  }

  /** Two calls overlap: both look the key up before either has stored it. */
  lemma DuplicateByOverlap(ck: Checksum, a: Job, b: Job, key: Bytes, configured: int) returns (ws: seq<World>, es: seq<Event>)
    requires Enqueueable(a) && Enqueueable(b) && a.id != b.id && key != []
    ensures Run(ck, ws, es) && BothEnqueued(Last(ws), a.id, b.id, key)
    ensures es == [LookUp(a.id, key, None), LookUp(b.id, key, None), WriteEnqueue(a), StoreKey(key, a.id), PushJob(a.id),
                   WriteEnqueue(b), StoreKey(key, b.id), PushJob(b.id)]
  {
    hide Run, Enqueueable;
    ws := Beginning(ck, configured);
    assert IsId(a.id) && IsId(b.id) by { IdsAreIds(a, b); }
    var w1 := GoLookUp(ck, ws, [], a.id, key);
    var e1 := [] + [LookUp(a.id, key, None)];
    var w2 := GoLookUp(ck, ws + [w1], e1, b.id, key);
    var ws2, e2 := ws + [w1] + [w2], e1 + [LookUp(b.id, key, None)];
    var w3 := GoWrite(ck, ws2, e2, a);
    var w4 := GoStore(ck, ws2 + [w3], e2 + [WriteEnqueue(a)], key, a.id);
    var ws4, e4 := ws2 + [w3] + [w4], e2 + [WriteEnqueue(a)] + [StoreKey(key, a.id)];
    var w5 := GoPush(ck, ws4, e4, a.id);
    var w6 := GoWrite(ck, ws4 + [w5], e4 + [PushJob(a.id)], b);
    var ws6, e6 := ws4 + [w5] + [w6], e4 + [PushJob(a.id)] + [WriteEnqueue(b)];
    var w7 := GoStore(ck, ws6, e6, key, b.id);
    var w8 := GoPush(ck, ws6 + [w7], e6 + [StoreKey(key, b.id)], b.id);
    ws, es := ws6 + [w7] + [w8], e6 + [StoreKey(key, b.id)] + [PushJob(b.id)];
  }

  lemma IdsAreIds(a: Job, b: Job)
    requires Enqueueable(a) && Enqueueable(b)
    ensures IsId(a.id) && IsId(b.id)
  {
  }

  /** The store of the key fails, which Enqueue only notes in its own log: the next call does not find it. */
  lemma DuplicateByFailedStore(ck: Checksum, a: Job, b: Job, key: Bytes, configured: int) returns (ws: seq<World>, es: seq<Event>)
    requires Enqueueable(a) && Enqueueable(b) && a.id != b.id && key != []
    ensures Run(ck, ws, es) && BothEnqueued(Last(ws), a.id, b.id, key)
    ensures es == [LookUp(a.id, key, None), WriteEnqueue(a), PushJob(a.id), LookUp(b.id, key, None), WriteEnqueue(b), PushJob(b.id)]
  {
    hide Run, Enqueueable;
    ws := Beginning(ck, configured);
    assert IsId(a.id) && IsId(b.id) by { IdsAreIds(a, b); }
    var w1 := GoLookUp(ck, ws, [], a.id, key);
    var e1 := [] + [LookUp(a.id, key, None)];
    var w2 := GoWrite(ck, ws + [w1], e1, a);
    var ws2, e2 := ws + [w1] + [w2], e1 + [WriteEnqueue(a)];
    var w3 := GoPush(ck, ws2, e2, a.id);
    var ws3, e3 := ws2 + [w3], e2 + [PushJob(a.id)];
    ws, es := SecondCall(ck, ws3, e3, b, key);
  }

  /** The process dies between logging the job and storing its key: the next one has the job, but not the key. */
  lemma DuplicateByCrash(ck: Checksum, a: Job, b: Job, key: Bytes, configured: int, clock: nat -> Time)
    returns (ws: seq<World>, es: seq<Event>)
    requires Enqueueable(a) && Enqueueable(b) && a.id != b.id && key != []
    ensures Run(ck, ws, es) && BothEnqueued(Last(ws), a.id, b.id, key)
    ensures es == [LookUp(a.id, key, None), WriteEnqueue(a), Crash(configured, clock), LookUp(b.id, key, None), WriteEnqueue(b),
                   PushJob(b.id)]
  {
    hide Run, Enqueueable;
    ws := Beginning(ck, configured);
    assert IsId(a.id) && IsId(b.id) by { IdsAreIds(a, b); }
    var w1 := GoLookUp(ck, ws, [], a.id, key);
    var e1 := [] + [LookUp(a.id, key, None)];
    var w2 := GoWrite(ck, ws + [w1], e1, a);
    var ws2, e2 := ws + [w1] + [w2], e1 + [WriteEnqueue(a)];
    var w3 := GoCrash(ck, ws2, e2, configured, clock, a.id);
    var ws3, e3 := ws2 + [w3], e2 + [Crash(configured, clock)];
    ws, es := SecondCall(ck, ws3, e3, b, key);
  }

  /** A whole call that does not find the key. */
  lemma SecondCall(ck: Checksum, ws: seq<World>, es: seq<Event>, b: Job, key: Bytes) returns (ws': seq<World>, es': seq<Event>)
    requires Run(ck, ws, es) && ws != [] && Enqueueable(b) && key != [] && key !in Last(ws).st.keys
    requires b.id !in Last(ws).hist.origin && b.id !in Last(ws).calls.called
    ensures Run(ck, ws', es') && es' == es + [LookUp(b.id, key, None), WriteEnqueue(b), PushJob(b.id)] && ws' != []
    ensures Carries(Last(ws'), b.id, key) && Last(ws').hist.known == Last(ws).hist.known + {b.id}
    ensures forall id :: id in Last(ws).calls.keyOf && id != b.id ==>
              id in Last(ws').calls.keyOf && Last(ws').calls.keyOf[id] == Last(ws).calls.keyOf[id]
  {
    hide Run, Enqueueable;
    assert IsId(b.id) by { IdsAreIds(b, b); }
    var w1 := GoLookUp(ck, ws, es, b.id, key);
    var w2 := GoWrite(ck, ws + [w1], es + [LookUp(b.id, key, None)], b);
    var ws2, es2 := ws + [w1] + [w2], es + [LookUp(b.id, key, None)] + [WriteEnqueue(b)];
    var w3 := GoPush(ck, ws2, es2, b.id);
    ws', es' := ws2 + [w3], es2 + [PushJob(b.id)];
  }
}
