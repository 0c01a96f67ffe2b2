/** The expiry sweep of a queue, job by job and in one stroke; and the log it leaves (internal/queue/queue.go). */
module Sweeping {
  import opened Binary
  import opened Seqs
  import opened Codec
  import opened Framing
  import opened Logs
  import opened Jobs
  import opened States

  function Only(m: map<Bytes, Job>, ids: set<Bytes>): map<Bytes, Job> {
    map id | id in m && id in ids :: m[id]
  }

  /** A sweep that has dealt with the jobs `done` among those that are late. */
  function SweptSome(q: QState, late: map<Bytes, Job>, done: set<Bytes>): QState {
    var m := Only(late, done);
    QState(ToRetry(m) + q.ready, q.inflight - m.Keys, q.dlq + ToBury(m))
  }

  lemma SweptNone(q: QState, late: map<Bytes, Job>)
    ensures SweptSome(q, late, {}) == q
  {
    var m := Only(late, {});
    forall id ensures id !in m && id !in ToRetry(m) && id !in ToBury(m) { }
    NoneMerged(q.ready, ToRetry(m));
    NoneMerged(q.inflight, m);
    NoneMerged(q.dlq, ToBury(m));
  }

  lemma NoneMerged(a: map<Bytes, Job>, b: map<Bytes, Job>)
    requires forall id :: id !in b
    ensures a + b == a && b + a == a && a - b.Keys == a
  {
  }

  lemma SortedOut(m: map<Bytes, Job>, id: Bytes, j: Job)
    requires id !in m
    ensures id !in ToRetry(m) && id !in ToBury(m)
    ensures ToRetry(m[id := j]) == if ShouldRetry(j) then ToRetry(m)[id := j.(status := Ready)] else ToRetry(m)
    ensures ToBury(m[id := j]) == if ShouldRetry(j) then ToBury(m) else ToBury(m)[id := j.(status := Dead)]
  {
  }

  lemma SweptOneMore(q: QState, late: map<Bytes, Job>, done: set<Bytes>, id: Bytes)
    requires id in late && id !in done && late[id].id == id
    ensures GiveBack(SweptSome(q, late, done), id, late[id]) == SweptSome(q, late, done + {id})
  {
    var j, m := late[id], Only(late, done);
    assert Only(late, done + {id}) == m[id := j];
    SortedOut(m, id, j);
    MoreOnTheLeft(ToRetry(m), q.ready, id, j.(status := Ready));
    MoreOnTheRight(q.dlq, ToBury(m), id, j.(status := Dead));
    OneFewer(q.inflight, m, id, j);
    hide ToRetry, ToBury, Only, ShouldRetry;
  }

  lemma MoreOnTheLeft(a: map<Bytes, Job>, b: map<Bytes, Job>, id: Bytes, j: Job)
    requires id !in a
    ensures a[id := j] + b == if id in a + b then a + b else (a + b)[id := j]
  {
  }

  lemma MoreOnTheRight(a: map<Bytes, Job>, b: map<Bytes, Job>, id: Bytes, j: Job)
    ensures a + b[id := j] == (a + b)[id := j]
  {
  }

  lemma OneFewer(a: map<Bytes, Job>, m: map<Bytes, Job>, id: Bytes, j: Job)
    ensures a - m.Keys - {id} == a - m[id := j].Keys
  {
  }

  lemma SweptEvery(q: QState, now: Time, delay: Bytes -> nat)
    ensures var late := ExpiredJobs(q, now, delay);
            SweptSome(q, late, late.Keys) == Swept(q, now, delay)
  {
    var late := ExpiredJobs(q, now, delay);
    assert Only(late, late.Keys) == late;
  }

  // ---------- What the sweep writes ----------

  /** One requeue record for each job of `m`, in some order. */
  ghost predicate RequeuesOf(rs: seq<Record>, order: seq<Bytes>, m: map<Bytes, Job>) {
    && Distinct(order) && Elems(order) == m.Keys && |rs| == |order|
    && forall i :: 0 <= i < |rs| ==> order[i] in m && rs[i] == RequeueRecord(m[order[i]])
  }

  lemma RequeueOneMore(rs: seq<Record>, order: seq<Bytes>, m: map<Bytes, Job>, id: Bytes, j: Job)
    requires RequeuesOf(rs, order, m) && id !in m
    ensures RequeuesOf(rs + [RequeueRecord(j)], order + [id], m[id := j])
  {
    assert Elems(order + [id]) == Elems(order) + {id};
    assert id !in Elems(order);
  }

  /** The sweep of one queue, with the log it writes: nothing is written for a job that is dead-lettered. */
  ghost predicate SweepLogged(ck: Checksum, q: QState, l: Log, now: Time, delay: Bytes -> nat, l': Log)
    requires IsOpen(l)
  {
    exists rs, order :: RequeuesOf(rs, order, ToRetry(ExpiredJobs(q, now, delay))) && WroteAll(ck, l, rs, l')
  }

  // ---------- Job by job ----------

  /** How far a sweep has come: the queue and the records after the jobs `done`. */
  ghost predicate SweepReached(q: QState, late: map<Bytes, Job>, done: set<Bytes>, q': QState,
                               rs: seq<Record>, order: seq<Bytes>)
  {
    q' == SweptSome(q, late, done) && RequeuesOf(rs, order, ToRetry(Only(late, done)))
  }

  lemma SweepStarts(q: QState, late: map<Bytes, Job>)
    ensures SweepReached(q, late, {}, q, [], [])
  {
    SweptNone(q, late);
    assert Only(late, {}) == map[];
  }

  lemma SweepLeaves(q: QState, late: map<Bytes, Job>, done: set<Bytes>, q': QState,
                    rs: seq<Record>, order: seq<Bytes>, id: Bytes)
    requires SweepReached(q, late, done, q', rs, order) && id in q.inflight && id !in done
    ensures id in q'.inflight && q'.inflight[id] == q.inflight[id]
  {
    hide RequeuesOf;
  }

  lemma MoreSwept(late: map<Bytes, Job>, done: set<Bytes>, id: Bytes)
    requires id in late && id !in done
    ensures id !in Only(late, done) && id !in ToRetry(Only(late, done))
    ensures ToRetry(Only(late, done + {id}))
         == if ShouldRetry(late[id]) then ToRetry(Only(late, done))[id := late[id].(status := Ready)]
            else ToRetry(Only(late, done))
  {
    assert Only(late, done + {id}) == Only(late, done)[id := late[id]];
    SortedOut(Only(late, done), id, late[id]);
  }

  lemma SweepGoesOn(q: QState, late: map<Bytes, Job>, done: set<Bytes>, q': QState,
                    rs: seq<Record>, order: seq<Bytes>, id: Bytes)
    requires SweepReached(q, late, done, q', rs, order)
    requires id in late && id !in done && late[id].id == id
    ensures if ShouldRetry(late[id]) then
              SweepReached(q, late, done + {id}, GiveBack(q', id, late[id]), rs + [RequeueRecord(late[id])], order + [id])
            else
              SweepReached(q, late, done + {id}, GiveBack(q', id, late[id]), rs, order)
  {
    hide SweptSome, GiveBack, Only, ToRetry, RequeuesOf, ShouldRetry;
    SweptOneMore(q, late, done, id);
    MoreSwept(late, done, id);
    if ShouldRetry(late[id]) {
      RequeueOneMore(rs, order, ToRetry(Only(late, done)), id, late[id].(status := Ready));
    }
  }

  lemma SweepDone(q: QState, now: Time, delay: Bytes -> nat, q': QState, rs: seq<Record>, order: seq<Bytes>)
    requires SweepReached(q, ExpiredJobs(q, now, delay), ExpiredJobs(q, now, delay).Keys, q', rs, order)
    ensures q' == Swept(q, now, delay) && RequeuesOf(rs, order, ToRetry(ExpiredJobs(q, now, delay)))
  {
    hide RequeuesOf, ToRetry;
    var late := ExpiredJobs(q, now, delay);
    SweptEvery(q, now, delay);
    assert Only(late, late.Keys) == late;
  }

  // ---------- Exactness ----------

  /** `s` has exactly those leases of `q` that have no deadline or one that is not past at `now`, as they were. */
  ghost predicate LeasesKept(q: QState, now: Time, s: QState) {
    && (forall id :: id in s.inflight <==>
          id in q.inflight && (q.inflight[id].leaseDeadline == ZERO_TIME || now <= q.inflight[id].leaseDeadline))
    && (forall id :: id in s.inflight ==> s.inflight[id] == q.inflight[id])
  }

  lemma SweptKeepsLeases(q: QState, now: Time, delay: Bytes -> nat)
    ensures LeasesKept(q, now, Swept(q, now, delay))
  {
  }

  lemma SweptAllKeepsLeases(queues: map<Bytes, QState>, now: Time, delay: Bytes -> nat, queues': map<Bytes, QState>)
    requires queues'.Keys == queues.Keys && forall n :: n in queues ==> queues'[n] == Swept(queues[n], now, delay)
    ensures forall n :: n in queues ==> LeasesKept(queues[n], now, queues'[n])
  {
    hide LeasesKept, Swept;
    forall n | n in queues ensures LeasesKept(queues[n], now, queues'[n]) {
      SweptKeepsLeases(queues[n], now, delay);
    }
  }

  /** What becomes of a job whose lease came to nothing: one more try, due at `eta`, with no lease. */
  function Retried(j: Job, eta: Time, status: Status): Job {
    Job(j.id, j.queue, j.payload, j.headers, j.priority, (j.tries + 1) % 0x1_0000_0000, j.maxRetries, eta, [], ZERO_TIME,
        status, j.enqueuedAt)
  }

  lemma TriedIsRetried(j: Job, eta: Time, status: Status)
    ensures Tried(j, eta).(status := status) == Retried(j, eta, status)
    ensures Tried(j, eta).tries == Retried(j, eta, status).tries && Tried(j, eta).maxRetries == j.maxRetries
  {
  }

  /** After a sweep no lease whose deadline is past is left, every other lease is as it was, and each expired job is
      where its count of tries puts it, due after the delay drawn for it. */
  lemma SweepIsExact(q: QState, now: Time, delay: Bytes -> nat, id: Bytes)
    requires id in q.inflight && id !in q.ready && id !in q.dlq
    ensures var j, s := q.inflight[id], Swept(q, now, delay);
            var t := Retried(j, now + delay(id), Ready);
            if j.leaseDeadline == ZERO_TIME || now <= j.leaseDeadline then
              id in s.inflight && s.inflight[id] == j && id !in s.ready && id !in s.dlq
            else
              && id !in s.inflight
              && (id in s.ready <==> t.tries < j.maxRetries) && (id in s.ready ==> s.ready[id] == t)
              && (id in s.dlq <==> t.tries >= j.maxRetries)
              && (id in s.dlq ==> s.dlq[id] == Retried(j, now + delay(id), Dead))
  {
    TriedIsRetried(q.inflight[id], now + delay(id), Ready);
    TriedIsRetried(q.inflight[id], now + delay(id), Dead);
    hide Tried, Retried;
  }

  /** A job that a failed nack left inflight has no deadline: no sweep takes it back, at any time, and no lease id but the
      empty one is accepted for it. Only a restart brings it back. */
  lemma HalfNackedIsStuck(q: QState, id: Bytes, j: Job, eta: Time, now: Time, delay: Bytes -> nat)
    ensures var h := HalfNacked(q, id, Tried(j, eta));
            && id in h.inflight && h.inflight[id].leaseId == [] && h.inflight[id].leaseDeadline == ZERO_TIME
            && h.inflight[id] == Retried(j, eta, if Retried(j, eta, Ready).tries < j.maxRetries then Ready else Dead)
            && id in Swept(h, now, delay).inflight && Swept(h, now, delay).inflight[id] == h.inflight[id]
  {
    TriedIsRetried(j, eta, Ready);
    TriedIsRetried(j, eta, Dead);
    var h := HalfNacked(q, id, Tried(j, eta));
    assert h.inflight[id].leaseDeadline == ZERO_TIME && h.inflight[id].leaseId == [];
    hide Tried, Retried, Swept;
    SweptKeepsLeases(h, now, delay);
  }

  /** What a sweep leaves, of every job in every place: nothing moves but the leases whose deadline is past. */
  lemma SweepLeavesNoneExpired(q: QState, now: Time, delay: Bytes -> nat, id: Bytes)
    ensures var s := Swept(q, now, delay);
            var late := id in q.inflight && q.inflight[id].leaseDeadline != ZERO_TIME && q.inflight[id].leaseDeadline < now;
            && (id in s.inflight <==> id in q.inflight && !late)
            && (id in q.ready ==> id in s.ready && s.ready[id] == q.ready[id])
            && (id in s.ready ==> id in q.ready || late)
            && (id in s.dlq ==> id in q.dlq || late)
            && (id in q.dlq ==> id in s.dlq)
  {
  }

  /** The one job `id` leaves inflight, by its tries, as after a nack; `eta` is when it is due again. */
  ghost predicate GivenBack(q: QState, id: Bytes, eta: Time, s: QState) {
    && id in q.inflight && s.inflight == q.inflight - {id}
    && var t := Retried(q.inflight[id], eta, Ready);
       if t.tries < t.maxRetries then s.dlq == q.dlq && s.ready == if id in q.ready then q.ready else q.ready[id := t]
       else s.ready == q.ready && s.dlq == q.dlq[id := Retried(q.inflight[id], eta, Dead)]
  }

  lemma GiveBackGivesBack(q: QState, id: Bytes, eta: Time)
    requires id in q.inflight && q.inflight[id].id == id
    ensures GivenBack(q, id, eta, GiveBack(q, id, Tried(q.inflight[id], eta)))
  {
    TriedIsRetried(q.inflight[id], eta, Ready);
    TriedIsRetried(q.inflight[id], eta, Dead);
    assert Retried(q.inflight[id], eta, Ready).maxRetries == q.inflight[id].maxRetries;
    hide Tried, Retried;
  }
}
