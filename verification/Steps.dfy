/** The atomic steps of the queue manager as relations between states. Methods of the program's manager establish
    them; runs are made of them (internal/queue/queue.go). */
module Steps {
  import opened Binary
  import opened Seqs
  import opened Codec
  import opened Framing
  import opened Logs
  import opened Jobs
  import opened States
  import opened Sweeping

  /** Enqueue up to and including its log record. */
  ghost predicate Logged(ck: Checksum, s: State, j: Job, s': State) {
    && IsOpen(s.log)
    && s'.queues == WithQueue(s.queues, j.queue)
    && Wrote(ck, s.log, EnqueueRecord(j), s'.log)
    && s'.keys == s.keys
  }

  function KeyStored(s: State, key: Bytes, id: Bytes): State {
    s.(keys := s.keys[key := id])
  }

  function Pushed(s: State, j: Job): State
    requires j.queue in s.queues
  {
    s.(queues := s.queues[j.queue := AddReady(s.queues[j.queue], j)])
  }

  ghost predicate LeaseStep(s: State, n: Bytes, now: Time, maxJobs: int, visibilityMs: int, ids: nat -> Bytes,
                            picked: seq<Job>, s': State)
  {
    && n in s.queues
    && Picked(picked, s.queues[n].ready, now, LeaseLimit(maxJobs))
    && s' == s.(queues := s.queues[n := TakeLeases(s.queues[n], picked, ids, now + Millis(visibilityMs))])
  }

  /** The job `id` is out on the lease `leaseId` from queue `n`. */
  predicate HoldsLease(s: State, n: Bytes, id: Bytes, leaseId: Bytes) {
    n in s.queues && id in s.queues[n].inflight && s.queues[n].inflight[id].leaseId == leaseId
  }

  ghost predicate AckStep(ck: Checksum, s: State, n: Bytes, id: Bytes, leaseId: Bytes, s': State) {
    && IsOpen(s.log) && HoldsLease(s, n, id, leaseId)
    && s'.queues == s.queues[n := DropLease(s.queues[n], id)]
    && Wrote(ck, s.log, AckRecord(s.queues[n].inflight[id], id, leaseId), s'.log)
    && s'.keys == s.keys
  }

  ghost predicate NackStep(ck: Checksum, s: State, n: Bytes, id: Bytes, leaseId: Bytes, reason: Bytes, now: Time,
                           delay: nat, s': State)
  {
    && IsOpen(s.log) && HoldsLease(s, n, id, leaseId)
    && var j := Tried(s.queues[n].inflight[id], now + delay);
       && s'.queues == s.queues[n := GiveBack(s.queues[n], id, j)]
       && Wrote(ck, s.log, NackRecord(j, id, leaseId, reason), s'.log)
       && s'.keys == s.keys
  }

  ghost predicate SweepStep(ck: Checksum, s: State, n: Bytes, now: Time, delay: Bytes -> nat, s': State) {
    && IsOpen(s.log) && n in s.queues
    && s'.queues == s.queues[n := Swept(s.queues[n], now, delay)]
    && SweepLogged(ck, s.queues[n], s.log, now, delay, s'.log)
    && s'.keys == s.keys
  }

  /** The process is gone and a new one starts: the log is opened from its files and replayed into no queues. */
  ghost predicate RestartStep(ck: Checksum, s: State, configured: int, clock: nat -> Time, s': State) {
    && s'.log == Reopened(s.log.files, configured)
    && Replay(ck, s'.log).ok
    && s'.queues == AppliedAll(map[], Replay(ck, s'.log).records, clock)
    && s'.keys == s.keys
  }

  /** What one record does to the queues when it is replayed. */
  ghost predicate Replays(queues: map<Bytes, QState>, r: Record, at: Time, queues': map<Bytes, QState>) {
    if r.kind == 1 then
      var q := if r.queue in queues then queues[r.queue] else QState(map[], map[], map[]);
      var j := Job(r.jobId, r.queue, r.payload, r.headers, r.priority, r.tries, r.maxRetries, r.eta, [], ZERO_TIME, Ready, at);
      OnlyQueue(queues, r.queue, QState(if r.jobId in q.ready then q.ready else q.ready[r.jobId := j], q.inflight, q.dlq), queues')
    else if r.queue !in queues || r.kind < 2 || r.kind > 5 then queues' == queues
    else
      var q := queues[r.queue];
      var rest := q.inflight - {r.jobId};
      if r.kind == 2 then OnlyQueue(queues, r.queue, QState(q.ready, rest, q.dlq), queues')
      else if r.kind == 5 then OnlyQueue(queues, r.queue, QState(q.ready, rest, q.dlq - {r.jobId}), queues')
      else if r.jobId !in q.inflight then queues' == queues
      else
        var j := q.inflight[r.jobId].(tries := r.tries, eta := r.eta, leaseId := [], leaseDeadline := ZERO_TIME);
        if r.tries < j.maxRetries then
          var ready := if j.id in q.ready then q.ready else q.ready[j.id := j.(status := Ready)];
          OnlyQueue(queues, r.queue, QState(ready, rest, q.dlq), queues')
        else OnlyQueue(queues, r.queue, QState(q.ready, rest, q.dlq[r.jobId := j.(status := Dead)]), queues')
  }

  /** Queue `n` is now `q`, and all others are as they were. */
  predicate OnlyQueue(queues: map<Bytes, QState>, n: Bytes, q: QState, queues': map<Bytes, QState>) {
    queues' == queues[n := q]
  }

  lemma AppliedReplays(queues: map<Bytes, QState>, r: Record, at: Time)
    ensures Replays(queues, r, at, Applied(queues, r, at))
  {
  }

  // ---------- A sweep of several queues ----------

  function SweptAll(queues: map<Bytes, QState>, now: Time, delay: Bytes -> nat): map<Bytes, QState> {
    map n | n in queues :: Swept(queues[n], now, delay)
  }

  lemma SweptAllIs(queues: map<Bytes, QState>, now: Time, delay: Bytes -> nat)
    ensures SweptAll(queues, now, delay).Keys == queues.Keys
    ensures forall n :: n in queues ==> SweptAll(queues, now, delay)[n] == Swept(queues[n], now, delay)
  {
    hide Swept;
  }

  /** The queues `names`, all different, were swept one after another, passing through `trace` from `s` to `s'`. */
  ghost predicate SweepTrace(ck: Checksum, s: State, now: Time, delay: Bytes -> nat, names: seq<Bytes>,
                             trace: seq<State>, s': State)
  {
    && Distinct(names) && |trace| == |names| + 1 && trace[0] == s && trace[|names|] == s'
    && forall i :: 0 <= i < |names| ==> SweepStep(ck, trace[i], names[i], now, delay, trace[i + 1])
  }

  lemma TraceStarts(ck: Checksum, s: State, now: Time, delay: Bytes -> nat)
    ensures SweepTrace(ck, s, now, delay, [], [s], s)
  {
  }

  lemma TraceGoesOn(ck: Checksum, s: State, now: Time, delay: Bytes -> nat, names: seq<Bytes>, trace: seq<State>,
                    s': State, n: Bytes, s'': State)
    requires SweepTrace(ck, s, now, delay, names, trace, s') && n !in Elems(names)
    requires SweepStep(ck, s', n, now, delay, s'')
    ensures SweepTrace(ck, s, now, delay, names + [n], trace + [s''], s'')
  {
    hide SweepStep;
    forall i | 0 <= i < |names| ensures names[i] != n {
      IsElem(names, i);
    }
  }

  lemma TraceOneMore(ck: Checksum, s: State, now: Time, delay: Bytes -> nat, listed: seq<Bytes>, i: nat, trace: seq<State>,
                     s': State, s'': State)
    requires Distinct(listed) && i < |listed| && SweepTrace(ck, s, now, delay, listed[..i], trace, s')
    requires SweepStep(ck, s', listed[i], now, delay, s'')
    ensures SweepTrace(ck, s, now, delay, listed[..i + 1], trace + [s''], s'')
  {
    hide SweepTrace, SweepStep, Elems;
    NextElem(listed, i);
    TraceGoesOn(ck, s, now, delay, listed[..i], trace, s', listed[i], s'');
    assert listed[..i + 1] == listed[..i] + [listed[i]];
  }

  /** The queues after the first `k` sweeps: those named so far are swept, once, and the others are as they were. */
  lemma {:induction false} TraceReaches(ck: Checksum, s: State, now: Time, delay: Bytes -> nat, names: seq<Bytes>,
                                        trace: seq<State>, s': State, k: nat, n: Bytes)
    requires SweepTrace(ck, s, now, delay, names, trace, s') && k <= |names|
    ensures trace[k].queues.Keys == s.queues.Keys
    ensures n in s.queues ==>
              trace[k].queues[n] == if n in names[..k] then Swept(s.queues[n], now, delay) else s.queues[n]
    decreases k
  {
    hide Swept, SweepLogged;
    if k > 0 {
      TraceReaches(ck, s, now, delay, names, trace, s', k - 1, n);
      TraceReaches(ck, s, now, delay, names, trace, s', k - 1, names[k - 1]);
      assert SweepStep(ck, trace[k - 1], names[k - 1], now, delay, trace[k]);
      assert names[..k] == names[..k - 1] + [names[k - 1]];
      assert names[k - 1] !in names[..k - 1];
    }
  }

  /** A trace over all queues sweeps each of them, whatever the order. */
  lemma TraceSweeps(ck: Checksum, s: State, now: Time, delay: Bytes -> nat, names: seq<Bytes>, trace: seq<State>, s': State)
    requires SweepTrace(ck, s, now, delay, names, trace, s') && Elems(names) == s.queues.Keys
    ensures s'.queues == SweptAll(s.queues, now, delay)
  {
    hide Swept, SweepStep;
    assert names[..|names|] == names;
    var any: Bytes :| true;
    TraceReaches(ck, s, now, delay, names, trace, s', |names|, any);
    forall n | n in s.queues ensures s'.queues[n] == Swept(s.queues[n], now, delay) {
      TraceReaches(ck, s, now, delay, names, trace, s', |names|, n);
      assert n in Elems(names);
    }
    SameMap(s'.queues, SweptAll(s.queues, now, delay));
  }
}
