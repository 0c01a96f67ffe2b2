/** Which jobs a lease takes: a ready stretch at the head of the serving order (internal/queue/queue.go,
    internal/queue/heap.go). */
module Serving {
  import opened Binary
  import opened Jobs
  import opened States

  /** The time has come, or none was set. */
  predicate DueAt(eta: Time, now: Time) {
    eta == ZERO_TIME || eta <= now
  }

  lemma NotAfterReflexive(j: Job)
    ensures NotAfter(j, j)
  {
  }

  ghost predicate IsFirst(j: Job, m: map<Bytes, Job>) {
    j.id in m && m[j.id] == j && forall id :: id in m ==> NotAfter(j, m[id])
  }

  lemma {:induction false} SomeFirst(m: map<Bytes, Job>) returns (j: Job)
    requires Keyed(m) && m != map[]
    ensures IsFirst(j, m)
    decreases |m|
  {
    var id :| id in m;
    var rest := m - {id};
    assert rest.Keys == m.Keys - {id};
    assert forall x :: x in m ==> x == id || x in rest;
    if rest == map[] {
      j := m[id];
    } else {
      var k := SomeFirst(rest);
      j := if Before(m[id], k) then m[id] else k;
      forall x | x in m ensures NotAfter(j, m[x]) {
        if x != id {
          assert x in rest;
          NotAfterTransitive(j, k, m[x]);
        }
      }
    }
  }

  lemma {:induction false} SomeOrder(m: map<Bytes, Job>) returns (js: seq<Job>)
    requires Keyed(m)
    ensures ServingOrder(js, m)
    decreases |m|
  {
    if m == map[] {
      js := [];
    } else {
      var j := SomeFirst(m);
      js := OrderFrom(j, m);
    }
  }

  /** Any job that no other precedes can head a serving order. */
  lemma {:induction false} OrderFrom(j: Job, m: map<Bytes, Job>) returns (js: seq<Job>)
    requires Keyed(m) && IsFirst(j, m)
    ensures ServingOrder(js, m) && js[0] == j
    decreases |m|, 0
  {
    var rest := m - {j.id};
    assert rest.Keys == m.Keys - {j.id};
    hide ServingOrder, IsFirst;
    var tail := SomeOrder(rest);
    OrderWithHead(j, m, tail);
    js := [j] + tail;
  }

  lemma OrderWithHead(j: Job, m: map<Bytes, Job>, tail: seq<Job>)
    requires IsFirst(j, m) && ServingOrder(tail, m - {j.id})
    ensures ServingOrder([j] + tail, m)
  {
    hide ServingOrder, Taken, IsFirst, Keyed;
    NothingTaken(m);
    TakeFirst([], m, m, j);
    assert [] + [j] == [j];
    JoinOrder([j], m, m - {j.id}, tail);
  }

  /** What a lease has taken so far from `m`, leaving `rest`. */
  ghost predicate Taken(picked: seq<Job>, m: map<Bytes, Job>, rest: map<Bytes, Job>) {
    && rest == m - IdSet(picked)
    && (forall i, j :: 0 <= i < j < |picked| ==> picked[i].id != picked[j].id && NotAfter(picked[i], picked[j]))
    && (forall i :: 0 <= i < |picked| ==> picked[i].id in m && m[picked[i].id] == picked[i])
    && (forall i, id :: 0 <= i < |picked| && id in rest ==> NotAfter(picked[i], rest[id]))
  }

  lemma NothingTaken(m: map<Bytes, Job>)
    ensures Taken([], m, m)
  {
    assert m - IdSet([]) == m;
  }

  lemma TakeFirst(picked: seq<Job>, m: map<Bytes, Job>, rest: map<Bytes, Job>, j: Job)
    requires Taken(picked, m, rest) && IsFirst(j, rest)
    ensures Taken(picked + [j], m, rest - {j.id})
  {
    assert IdSet(picked + [j]) == IdSet(picked) + {j.id} by {
      assert (picked + [j])[|picked|] == j;
      assert forall i :: 0 <= i < |picked| ==> (picked + [j])[i] == picked[i];
    }
    assert forall i :: 0 <= i < |picked| ==> picked[i].id in IdSet(picked);
  }

  lemma JoinOrder(picked: seq<Job>, m: map<Bytes, Job>, rest: map<Bytes, Job>, tail: seq<Job>)
    requires Taken(picked, m, rest) && ServingOrder(tail, rest)
    ensures ServingOrder(picked + tail, m)
  {
    assert forall i :: 0 <= i < |picked| ==> picked[i].id in IdSet(picked);
    forall id | id in m ensures m[id] in picked + tail {
      if id in IdSet(picked) {
        var i :| 0 <= i < |picked| && picked[i].id == id;
        assert (picked + tail)[i] == m[id];
      } else {
        assert id in rest;
      }
    }
  }

  /** A lease that stopped at its limit, at the end, or at a root that must wait took what it should. */
  lemma Stopped(picked: seq<Job>, m: map<Bytes, Job>, rest: map<Bytes, Job>, now: Time, limit: int, next: Job)
    requires Keyed(m) && Taken(picked, m, rest) && AllReady(picked, now) && |picked| <= limit
    requires |picked| == limit || rest == map[] || (IsFirst(next, rest) && !IsReady(next, now))
    ensures Picked(picked, m, now, limit)
  {
    hide ServingOrder, Taken;
    TakenRest(picked, m, rest);
    var tail;
    if rest == map[] {
      tail := [];
      OrderOfNone();
    } else if |picked| == limit {
      tail := SomeOrder(rest);
    } else {
      tail := OrderFrom(next, rest);
    }
    JoinOrder(picked, m, rest, tail);
    assert PickedFrom(picked, picked + tail, m, now, limit);
  }

  lemma TakenRest(picked: seq<Job>, m: map<Bytes, Job>, rest: map<Bytes, Job>)
    requires Taken(picked, m, rest)
    ensures rest == m - IdSet(picked)
  {
  }

  lemma OrderOfNone()
    ensures ServingOrder([], map[])
  {
  }

  /** The order of serving, spelled out: of a job taken and one left behind, the first has the higher priority, or the
      earlier ETA, or was not enqueued later. */
  lemma ServedFirst(picked: seq<Job>, m: map<Bytes, Job>, now: Time, limit: int, i: nat, id: Bytes)
    requires Picked(picked, m, now, limit) && i < |picked| && id in m && m[id] !in picked
    ensures var a, b := picked[i], m[id];
            || a.priority > b.priority
            || (a.priority == b.priority && a.eta < b.eta)
            || (a.priority == b.priority && a.eta == b.eta && a.enqueuedAt <= b.enqueuedAt)
  {
    NothingPassedOver(picked, m, now, limit, id);
  }

  /** A lease may come back empty exactly when nothing is held, or a job that no other precedes has to wait. Ready jobs
      behind it do not matter. */
  lemma EmptyLeaseExactlyWhen(m: map<Bytes, Job>, now: Time, limit: int)
    requires Keyed(m) && limit > 0
    ensures Picked([], m, now, limit)
       <==> m == map[] || exists id :: id in m && IsFirst(m[id], m) && !(m[id].status == Ready && DueAt(m[id].eta, now))
  {
    assert forall id :: id in m ==> (IsReady(m[id], now) <==> m[id].status == Ready && DueAt(m[id].eta, now));
    if m == map[] {
      assert PickedFrom([], [], m, now, limit);
    } else if id :| id in m && IsFirst(m[id], m) && !IsReady(m[id], now) {
      var order := OrderFrom(m[id], m);
      assert PickedFrom([], order, m, now, limit);
    }
    if Picked([], m, now, limit) && m != map[] {
      var order: seq<Job> :| PickedFrom([], order, m, now, limit);
      HeadIsFirst(order, m);
      assert order[0].id in m;
    }
  }

  /** Two jobs, of which the one of lower priority is ready and the other is delayed: every lease comes back empty. */
  lemma DelayedJobHoldsBack(a: Job, b: Job, now: Time, limit: int, picked: seq<Job>)
    requires a.id != b.id && a.priority > b.priority && a.status == b.status == Ready && limit > 0
    requires a.eta != ZERO_TIME && now < a.eta && b.eta <= now
    ensures Picked([], map[a.id := a, b.id := b], now, limit)
    ensures Picked(picked, map[a.id := a, b.id := b], now, limit) ==> picked == []
  {
    var m := map[a.id := a, b.id := b];
    assert m[a.id] == a && IsFirst(m[a.id], m);
    EmptyLeaseExactlyWhen(m, now, limit);
    if Picked(picked, m, now, limit) {
      var order :| PickedFrom(picked, order, m, now, limit);
      HeadIsFirst(order, m);
    }
  }

  lemma HeadIsFirst(order: seq<Job>, m: map<Bytes, Job>)
    requires ServingOrder(order, m) && m != map[]
    ensures order != [] && IsFirst(order[0], m)
  {
    var any :| any in m;
    assert m[any] in order;
    forall id | id in m ensures NotAfter(order[0], m[id]) {
      assert m[id] in order;
      var i :| 0 <= i < |order| && order[i] == m[id];
    }
  }

  /** A lease that comes back empty: no job of the highest priority present is ready, though others may be. */
  lemma EmptyLease(m: map<Bytes, Job>, now: Time, limit: int, id: Bytes)
    requires Picked([], m, now, limit) && limit > 0 && ZERO_TIME <= now
    requires forall x :: x in m ==> m[x].status == Ready
    requires id in m && forall x :: x in m ==> m[x].priority <= m[id].priority
    ensures m[id].eta != ZERO_TIME && now < m[id].eta
  {
    var order :| PickedFrom([], order, m, now, limit);
    var first := order[0];
    assert m[id] in order;
    assert NotAfter(first, m[id]);
  }

  /** Nothing ready is passed over: a job left behind is behind every job taken, and if the lease stopped short of
      its limit, it waits behind a job, perhaps itself, that is not ready. */
  lemma NothingPassedOver(picked: seq<Job>, m: map<Bytes, Job>, now: Time, limit: int, id: Bytes)
    requires Picked(picked, m, now, limit) && id in m && m[id] !in picked
    ensures forall i :: 0 <= i < |picked| ==> NotAfter(picked[i], m[id])
    ensures |picked| < limit ==>
              exists x :: x in m && m[x] !in picked && !(m[x].status == Ready && DueAt(m[x].eta, now)) && NotAfter(m[x], m[id])
  {
    assert forall x :: x in m ==> (IsReady(m[x], now) <==> m[x].status == Ready && DueAt(m[x].eta, now));
    hide NotAfter, IsReady, DueAt;
    var order :| PickedFrom(picked, order, m, now, limit);
    var k :| 0 <= k < |order| && order[k] == m[id];
    assert k >= |picked|;
    if |picked| < limit {
      var w := order[|picked|];
      assert w !in picked;
      assert m[w.id] == w;
      NotAfterReflexive(w);
    }
  }

  // ---------- What a lease hands out ----------

  /** `eta` is `ms` milliseconds after `now`, where so many milliseconds fit Go's 64-bit nanoseconds. */
  predicate After(now: Time, ms: int, eta: Time) {
    -0x8000_0000_0000_0000 <= ms * 1_000_000 < 0x8000_0000_0000_0000 ==> eta == now + ms * 1_000_000
  }

  /** `out` is `j`, out on the lease `leaseId` for `visibilityMs` from `now` on. */
  predicate OutOnLease(j: Job, out: Job, leaseId: Bytes, now: Time, visibilityMs: int) {
    && out == Job(j.id, j.queue, j.payload, j.headers, j.priority, j.tries, j.maxRetries, j.eta, leaseId, out.leaseDeadline,
                  Inflight, j.enqueuedAt)
    && After(now, visibilityMs, out.leaseDeadline)
  }

  /** The job was ready and due in `q`, and is out on a lease in `s`. */
  predicate HandedOut(q: QState, s: QState, out: Job, leaseId: Bytes, now: Time, visibilityMs: int) {
    && out.id in q.ready && out.id !in s.ready && out.id in s.inflight && s.inflight[out.id] == out
    && q.ready[out.id].status == Ready && (q.ready[out.id].eta == ZERO_TIME || q.ready[out.id].eta <= now)
    && OutOnLease(q.ready[out.id], out, leaseId, now, visibilityMs)
  }

  /** `q` and `s` have `id` in the same places, as it was. */
  predicate Unmoved(q: QState, s: QState, id: Bytes) {
    && (id in s.ready <==> id in q.ready) && (id in s.ready ==> s.ready[id] == q.ready[id])
    && (id in s.inflight <==> id in q.inflight) && (id in s.inflight ==> s.inflight[id] == q.inflight[id])
    && (id in s.dlq <==> id in q.dlq) && (id in s.dlq ==> s.dlq[id] == q.dlq[id])
  }

  /** A lease hands out `jobs`, at most `maxJobs` but one at least if any: each was ready and due, is out under an id of
      its own, and is inflight now; nothing else has moved. If it stopped short with jobs left, then at one that no other
      left precedes and that is not due. */
  ghost predicate HandsOut(q: QState, s: QState, jobs: seq<Job>, now: Time, maxJobs: int, visibilityMs: int, ids: nat -> Bytes) {
    && |jobs| <= (if maxJobs <= 0 then 1 else maxJobs)
    && (forall i :: 0 <= i < |jobs| ==> HandedOut(q, s, jobs[i], ids(i), now, visibilityMs))
    && (forall i, k :: 0 <= i < k < |jobs| ==> jobs[i].id != jobs[k].id)
    && (forall id :: id !in IdSet(jobs) ==> Unmoved(q, s, id))
    && (|jobs| < (if maxJobs <= 0 then 1 else maxJobs) && s.ready != map[] ==> HeldBack(s.ready, now))
  }

  /** Some job that no other of them precedes is not due. */
  ghost predicate HeldBack(m: map<Bytes, Job>, now: Time) {
    exists id :: id in m && IsFirst(m[id], m) && (m[id].status != Ready || (m[id].eta != ZERO_TIME && now < m[id].eta))
  }

  lemma {:induction false} PutAllIs(m: map<Bytes, Job>, js: seq<Job>, id: Bytes)
    requires forall i, k :: 0 <= i < k < |js| ==> js[i].id != js[k].id
    ensures id !in IdSet(js) ==> (id in PutAll(m, js) <==> id in m) && (id in m ==> PutAll(m, js)[id] == m[id])
    ensures forall i :: 0 <= i < |js| && js[i].id == id ==> id in PutAll(m, js) && PutAll(m, js)[id] == js[i]
    decreases |js|
  {
    if js != [] {
      var n := |js| - 1;
      PutAllIs(m, js[..n], id);
      assert forall i :: 0 <= i < n ==> js[..n][i] == js[i];
      assert id in IdSet(js[..n]) ==> id in IdSet(js);
    }
  }

  lemma MillisFit(ms: int, now: Time)
    ensures After(now, ms, now + Millis(ms))
  {
  }

  lemma LeasedIsOut(j: Job, leaseId: Bytes, now: Time, visibilityMs: int)
    ensures OutOnLease(j, Leased(j, leaseId, now + Millis(visibilityMs)), leaseId, now, visibilityMs)
  {
    MillisFit(visibilityMs, now);
    hide Millis, After;
  }

  lemma OneHandedOut(q: QState, picked: seq<Job>, ids: nat -> Bytes, now: Time, visibilityMs: int, i: nat)
    requires i < |picked| && picked[i].id in q.ready && q.ready[picked[i].id] == picked[i] && IsReady(picked[i], now)
    requires forall i, k :: 0 <= i < k < |picked| ==> picked[i].id != picked[k].id
    ensures var deadline := now + Millis(visibilityMs);
            var s, jobs := TakeLeases(q, picked, ids, deadline), LeasedAll(picked, ids, deadline);
            HandedOut(q, s, jobs[i], ids(i), now, visibilityMs)
  {
    var deadline := now + Millis(visibilityMs);
    var jobs := LeasedAll(picked, ids, deadline);
    assert forall k :: 0 <= k < |picked| ==> jobs[k].id == picked[k].id;
    LeasedIsOut(picked[i], ids(i), now, visibilityMs);
    hide OutOnLease, Millis;
    assert picked[i].id in IdSet(picked);
    PutAllIs(q.inflight, jobs, picked[i].id);
    hide PutAll;
  }

  lemma OneUnmoved(q: QState, picked: seq<Job>, ids: nat -> Bytes, deadline: Time, id: Bytes)
    requires id !in IdSet(LeasedAll(picked, ids, deadline))
    requires forall i, k :: 0 <= i < k < |picked| ==> picked[i].id != picked[k].id
    ensures Unmoved(q, TakeLeases(q, picked, ids, deadline), id)
  {
    var jobs := LeasedAll(picked, ids, deadline);
    assert forall k :: 0 <= k < |picked| ==> jobs[k].id == picked[k].id;
    assert IdSet(jobs) == IdSet(picked);
    PutAllIs(q.inflight, jobs, id);
    hide PutAll;
  }

  /** `picked` are due jobs of `m`, no more than `limit`; if fewer, then the first of the jobs left is not due. */
  ghost predicate TakesDue(picked: seq<Job>, m: map<Bytes, Job>, now: Time, limit: int) {
    && |picked| <= limit && (forall i, k :: 0 <= i < k < |picked| ==> picked[i].id != picked[k].id)
    && (forall i :: 0 <= i < |picked| ==>
          && picked[i].id in m && m[picked[i].id] == picked[i]
          && picked[i].status == Ready && (picked[i].eta == ZERO_TIME || picked[i].eta <= now))
    && (|picked| < limit && m - IdSet(picked) != map[] ==> HeldBack(m - IdSet(picked), now))
  }

  lemma PickedAreDue(picked: seq<Job>, m: map<Bytes, Job>, now: Time, limit: int)
    requires Keyed(m) && Picked(picked, m, now, limit)
    ensures TakesDue(picked, m, now, limit)
  {
    var order :| PickedFrom(picked, order, m, now, limit);
    FromTheOrder(picked, order, m, now, limit);
    if |picked| < limit && m - IdSet(picked) != map[] {
      StoppedShort(m, picked, order, now, limit);
    }
    hide Picked, PickedFrom, HeldBack, IdSet;
  }

  /** Taking leases on what was picked hands it out. */
  lemma PickedAreHandedOut(q: QState, picked: seq<Job>, ids: nat -> Bytes, now: Time, maxJobs: int, visibilityMs: int)
    requires Keyed(q.ready) && Picked(picked, q.ready, now, LeaseLimit(maxJobs))
    ensures var deadline := now + Millis(visibilityMs);
            HandsOut(q, TakeLeases(q, picked, ids, deadline), LeasedAll(picked, ids, deadline), now, maxJobs, visibilityMs, ids)
  {
    PickedAreDue(picked, q.ready, now, LeaseLimit(maxJobs));
    hide Picked, HeldBack;
    assert TakeLeases(q, picked, ids, now + Millis(visibilityMs)).ready == q.ready - IdSet(picked);
    MovedByLease(q, picked, ids, now, visibilityMs);
    hide TakeLeases, LeasedAll, HandedOut, Unmoved, IdSet, Millis;
  }

  lemma MovedByLease(q: QState, picked: seq<Job>, ids: nat -> Bytes, now: Time, visibilityMs: int)
    requires forall i :: 0 <= i < |picked| ==> picked[i].id in q.ready && q.ready[picked[i].id] == picked[i] && IsReady(picked[i], now)
    requires forall i, k :: 0 <= i < k < |picked| ==> picked[i].id != picked[k].id
    ensures var deadline := now + Millis(visibilityMs);
            var s, jobs := TakeLeases(q, picked, ids, deadline), LeasedAll(picked, ids, deadline);
            && (forall i :: 0 <= i < |jobs| ==> HandedOut(q, s, jobs[i], ids(i), now, visibilityMs))
            && (forall i, k :: 0 <= i < k < |jobs| ==> jobs[i].id != jobs[k].id)
            && (forall id :: id !in IdSet(jobs) ==> Unmoved(q, s, id))
  {
    var deadline := now + Millis(visibilityMs);
    var s, jobs := TakeLeases(q, picked, ids, deadline), LeasedAll(picked, ids, deadline);
    assert forall i :: 0 <= i < |picked| ==> jobs[i].id == picked[i].id;
    hide TakeLeases, LeasedAll, HandedOut, Unmoved, IsReady, Millis, IdSet;
    forall i | 0 <= i < |jobs| ensures HandedOut(q, s, jobs[i], ids(i), now, visibilityMs) {
      OneHandedOut(q, picked, ids, now, visibilityMs, i);
    }
    forall id | id !in IdSet(jobs) ensures Unmoved(q, s, id) {
      OneUnmoved(q, picked, ids, deadline, id);
    }
  }

  lemma FromTheOrder(picked: seq<Job>, order: seq<Job>, m: map<Bytes, Job>, now: Time, limit: int)
    requires PickedFrom(picked, order, m, now, limit)
    ensures |picked| <= limit
    ensures forall i :: 0 <= i < |picked| ==> picked[i].id in m && m[picked[i].id] == picked[i] && IsReady(picked[i], now)
    ensures forall i, k :: 0 <= i < k < |picked| ==> picked[i].id != picked[k].id
  {
    hide NotAfter, IsReady;
    assert forall i :: 0 <= i < |picked| ==> picked[i] == order[i];
  }

  lemma StoppedShort(m: map<Bytes, Job>, picked: seq<Job>, order: seq<Job>, now: Time, limit: int)
    requires Keyed(m) && PickedFrom(picked, order, m, now, limit) && |picked| < limit && m - IdSet(picked) != map[]
    ensures HeldBack(m - IdSet(picked), now)
  {
    var rest := m - IdSet(picked);
    NextInOrder(m, picked, order, now, limit);
    var w := order[|picked|];
    assert w.status != Ready || (w.eta != ZERO_TIME && now < w.eta);
    hide NotAfter, IsReady, PickedFrom, ServingOrder;
    assert IsFirst(rest[w.id], rest);
  }

  lemma NextInOrder(m: map<Bytes, Job>, picked: seq<Job>, order: seq<Job>, now: Time, limit: int)
    requires Keyed(m) && PickedFrom(picked, order, m, now, limit) && |picked| < limit && m - IdSet(picked) != map[]
    ensures |picked| < |order| && !IsReady(order[|picked|], now)
    ensures var w, rest := order[|picked|], m - IdSet(picked);
            w.id in rest && rest[w.id] == w && forall y :: y in rest ==> NotAfter(w, rest[y])
  {
    hide NotAfter, IsReady, AllReady;
    var rest := m - IdSet(picked);
    forall y | y in rest ensures exists k :: |picked| <= k < |order| && order[k] == m[y] {
      LeftInOrder(m, picked, order, y);
    }
    var any :| any in rest;
    var w := order[|picked|];
    assert w.id !in IdSet(picked);
    NotAfterReflexive(w);
  }

  lemma LeftInOrder(m: map<Bytes, Job>, picked: seq<Job>, order: seq<Job>, y: Bytes)
    requires Keyed(m) && ServingOrder(order, m) && picked <= order && y in m && y !in IdSet(picked)
    ensures exists k :: |picked| <= k < |order| && order[k] == m[y]
  {
    hide NotAfter;
    assert forall i :: 0 <= i < |picked| ==> picked[i].id in IdSet(picked) && picked[i] == order[i];
    assert m[y] in order;
    var k :| 0 <= k < |order| && order[k] == m[y];
  }
}
