/** What holds of every job in every reachable state, and that each step of one queue keeps it
    (internal/queue/queue.go). */
module Invariants {
  import opened Binary
  import opened Codec
  import opened Jobs
  import opened States
  import opened Sweeping
  import opened Histories

  /** How often a job may be leased between two starts of the process. */
  function Budget(maxRetries: uint32): nat {
    if maxRetries == 0 then 1 else maxRetries
  }

  /** What a job and its enqueue record have in common for good. */
  predicate SameJob(j: Job, r: Record) {
    && j.id == r.jobId && j.queue == r.queue && j.payload == r.payload && j.headers == r.headers
    && j.priority == r.priority && j.maxRetries == r.maxRetries
  }

  /** The record under which a job can be found in the log. */
  predicate IsOrigin(id: Bytes, r: Record) {
    IsId(id) && r.kind == ENQUEUE && r.jobId == id && Short(r.queue) && r.tries == 0
  }

  predicate Owned(h: Hist, n: Bytes, id: Bytes, j: Job) {
    && id in h.origin && SameJob(j, h.origin[id]) && j.id == id && j.queue == n
    && id in h.known && id !in h.acked && id in h.counts
  }

  predicate ReadyAt(h: Hist, n: Bytes, id: Bytes, j: Job) {
    && Owned(h, n, id, j) && h.counts[id] == j.tries && j.tries < Budget(j.maxRetries)
    && j.status == Ready && j.leaseId == [] && j.leaseDeadline == ZERO_TIME
  }

  predicate InflightAt(h: Hist, n: Bytes, id: Bytes, j: Job) {
    && Owned(h, n, id, j) && h.counts[id] == j.tries + 1 && j.tries < Budget(j.maxRetries)
    && j.status == Inflight && IsId(j.leaseId)
    && j.leaseId in h.holder && h.holder[j.leaseId] == id && j.leaseId !in h.spent
  }

  predicate DeadAt(h: Hist, n: Bytes, id: Bytes, j: Job) {
    && Owned(h, n, id, j) && h.counts[id] == j.tries == Budget(j.maxRetries)
    && j.status == Dead && j.leaseId == [] && j.leaseDeadline == ZERO_TIME
  }

  /** The job `id` is in at most one place of queue `n`, in good order there; and it is somewhere in it if it
      belongs to it and was not acknowledged. */
  predicate Local(h: Hist, n: Bytes, q: QState, id: Bytes) {
    && (id in q.ready ==> ReadyAt(h, n, id, q.ready[id]))
    && (id in q.inflight ==> InflightAt(h, n, id, q.inflight[id]) && id !in q.ready)
    && (id in q.dlq ==> DeadAt(h, n, id, q.dlq[id]) && id !in q.ready && id !in q.inflight)
    && (id in h.known && id !in h.acked && id in h.origin && h.origin[id].queue == n ==>
          id in q.ready || id in q.inflight || id in q.dlq)
  }

  ghost predicate QueueInv(h: Hist, n: Bytes, q: QState) {
    forall id :: Local(h, n, q, id)
  }

  ghost predicate QueuesInv(h: Hist, queues: map<Bytes, QState>) {
    forall n :: n in queues ==> QueueInv(h, n, queues[n])
  }

  /** A job whose Enqueue is under way: logged, and not known yet. */
  ghost predicate PendingAt(w: World, id: Bytes, j: Job) {
    && id in w.hist.origin && SameJob(j, w.hist.origin[id]) && j.id == id && IsNew(j)
    && id !in w.hist.known && j.queue in w.st.queues
  }

  /** The history is consistent in itself and with the queues there are. */
  ghost predicate HistInv(w: World) {
    && w.hist.acked <= w.hist.known && w.hist.known <= w.hist.origin.Keys && w.hist.counts.Keys == w.hist.known
    && w.hist.spent <= w.hist.holder.Keys
    && (forall id :: id in w.hist.origin ==> IsOrigin(id, w.hist.origin[id]))
    && (forall id :: id in w.hist.known ==> w.hist.origin[id].queue in w.st.queues)
    && (forall id :: id in w.pending ==> PendingAt(w, id, w.pending[id]))
    && (forall id :: id in w.hist.acked ==> w.hist.counts[id] <= Budget(w.hist.origin[id].maxRetries))
    && (forall key :: key in w.st.keys ==> w.st.keys[key] in w.hist.origin)
  }

  // ---------- Steps of one queue ----------

  /** The two histories tell the same of `id` and of the leases drawn for it. */
  ghost predicate Agree(h: Hist, h': Hist, id: Bytes) {
    && (id in h.origin ==> id in h'.origin && h'.origin[id] == h.origin[id])
    && (id in h.known <==> id in h'.known) && (id in h.acked <==> id in h'.acked)
    && (id in h.counts ==> id in h'.counts && h'.counts[id] == h.counts[id])
    && (forall l :: l in h.holder && h.holder[l] == id ==>
          l in h'.holder && h'.holder[l] == id && (l in h'.spent ==> l in h.spent))
  }

  /** The two queues have `id` in the same place and the same form. */
  predicate SameAt(q: QState, q': QState, id: Bytes) {
    && (id in q.ready <==> id in q'.ready) && (id in q.ready ==> q'.ready[id] == q.ready[id])
    && (id in q.inflight <==> id in q'.inflight) && (id in q.inflight ==> q'.inflight[id] == q.inflight[id])
    && (id in q.dlq <==> id in q'.dlq) && (id in q.dlq ==> q'.dlq[id] == q.dlq[id])
  }

  lemma LocalKept(h: Hist, h': Hist, n: Bytes, q: QState, q': QState, id: Bytes)
    requires Local(h, n, q, id) && Agree(h, h', id) && SameAt(q, q', id) && h.known <= h.origin.Keys
    ensures Local(h', n, q', id)
  {
  }

  ghost predicate Grows(h: Hist, h': Hist) {
    forall id :: id in h.origin ==> id in h'.origin && h'.origin[id] == h.origin[id]
  }

  /** A queue that was not worked on, and whose jobs the history says nothing new about. */
  lemma QueueKept(h: Hist, h': Hist, n: Bytes, q: QState)
    requires QueueInv(h, n, q) && h.known <= h.origin.Keys && Grows(h, h')
    requires forall id :: id in h.origin && h.origin[id].queue == n ==> Agree(h, h', id)
    requires forall id :: id in h'.known && id !in h.known && id in h'.origin ==> h'.origin[id].queue != n
    ensures QueueInv(h', n, q)
  {
    hide Agree;
    forall id ensures Local(h', n, q, id) {
      assert Local(h, n, q, id);
      if id in h.origin && h.origin[id].queue == n {
        LocalKept(h, h', n, q, q, id);
      } else {
        Elsewhere(h, h', n, q, id);
      }
    }
  }

  lemma Elsewhere(h: Hist, h': Hist, n: Bytes, q: QState, id: Bytes)
    requires Local(h, n, q, id) && h.known <= h.origin.Keys
    requires !(id in h.origin && h.origin[id].queue == n)
    requires !(id in h'.known && id in h'.origin && h'.origin[id].queue == n)
    ensures Local(h', n, q, id)
  {
  }

  lemma PushKeeps(h: Hist, h': Hist, n: Bytes, q: QState, j: Job)
    requires QueueInv(h, n, q) && h.known <= h.origin.Keys
    requires j.id !in h.known && j.id in h.origin && SameJob(j, h.origin[j.id]) && IsNew(j) && j.queue == n
    requires j.id !in h.acked && h' == h.(known := h.known + {j.id}, counts := h.counts[j.id := 0])
    ensures j.id !in q.ready && QueueInv(h', n, AddReady(q, j))
  {
    var q' := AddReady(q, j);
    assert Local(h, n, q, j.id);
    forall id ensures Local(h', n, q', id) {
      assert Local(h, n, q, id);
      if id != j.id {
        LocalKept(h, h', n, q, q', id);
      }
    }
  }

  lemma AckKeeps(h: Hist, h': Hist, n: Bytes, q: QState, id: Bytes)
    requires QueueInv(h, n, q) && h.known <= h.origin.Keys && id in q.inflight
    requires h' == h.(acked := h.acked + {id}, spent := h.spent + {q.inflight[id].leaseId})
    ensures QueueInv(h', n, DropLease(q, id))
  {
    var q' := DropLease(q, id);
    assert Local(h, n, q, id);
    forall x ensures Local(h', n, q', x) {
      assert Local(h, n, q, x);
      if x != id {
        LocalKept(h, h', n, q, q', x);
      }
    }
  }

  /** The 32-bit counter of tries never wraps. */
  lemma TriesDoNotWrap(h: Hist, n: Bytes, id: Bytes, j: Job, eta: Time)
    requires InflightAt(h, n, id, j)
    ensures Tried(j, eta).tries == j.tries + 1 <= Budget(j.maxRetries)
    ensures ShouldRetry(Tried(j, eta)) <==> j.tries + 1 < j.maxRetries
    ensures !ShouldRetry(Tried(j, eta)) ==> j.tries + 1 == Budget(j.maxRetries)
  {
  }

  /** The job that comes back from a lease is where it belongs: ready while tries remain, dead when they are used up. */
  lemma TriedAt(h: Hist, h': Hist, n: Bytes, id: Bytes, j: Job, eta: Time)
    requires InflightAt(h, n, id, j)
    requires h'.origin == h.origin && h'.known == h.known && h'.acked == h.acked && h'.counts == h.counts
    ensures var t := Tried(j, eta);
            if ShouldRetry(t) then ReadyAt(h', n, id, t.(status := Ready)) else DeadAt(h', n, id, t.(status := Dead))
  {
    TriesDoNotWrap(h, n, id, j, eta);
  }

  lemma NackKeeps(h: Hist, h': Hist, n: Bytes, q: QState, id: Bytes, eta: Time)
    requires QueueInv(h, n, q) && h.known <= h.origin.Keys && id in q.inflight
    requires h' == h.(spent := h.spent + {q.inflight[id].leaseId})
    ensures QueueInv(h', n, GiveBack(q, id, Tried(q.inflight[id], eta)))
  {
    var t := Tried(q.inflight[id], eta);
    var q' := GiveBack(q, id, t);
    assert Local(h, n, q, id);
    TriedAt(h, h', n, id, q.inflight[id], eta);
    forall x ensures Local(h', n, q', x) {
      assert Local(h, n, q, x);
      if x != id {
        LocalKept(h, h', n, q, q', x);
      }
    }
  }

  lemma LateHolders(h: Hist, n: Bytes, q: QState, now: Time, l: Bytes)
    requires QueueInv(h, n, q) && l in LateLeases(q, now)
    ensures l in h.holder && h.holder[l] in q.inflight && Expired(q.inflight[h.holder[l]], now)
    ensures q.inflight[h.holder[l]].leaseId == l && l !in h.spent
  {
    var id :| id in q.inflight && Expired(q.inflight[id], now) && q.inflight[id].leaseId == l;
    assert Local(h, n, q, id);
  }

  lemma SweepAgrees(h: Hist, h': Hist, n: Bytes, q: QState, now: Time, x: Bytes)
    requires QueueInv(h, n, q) && h' == h.(spent := h.spent + LateLeases(q, now))
    requires !(x in q.inflight && Expired(q.inflight[x], now))
    ensures Agree(h, h', x)
  {
    forall l | l in h.holder && h.holder[l] == x && l in h'.spent ensures l in h.spent {
      if l in LateLeases(q, now) {
        LateHolders(h, n, q, now, l);
      }
    }
  }

  lemma SweptTo(q: QState, now: Time, delay: Bytes -> nat, x: Bytes)
    requires x in q.inflight && Expired(q.inflight[x], now) && x !in q.ready && x !in q.dlq
    ensures var s, t := Swept(q, now, delay), Tried(q.inflight[x], now + delay(x));
            && x !in s.inflight
            && (if ShouldRetry(t) then x in s.ready && s.ready[x] == t.(status := Ready) && x !in s.dlq
                else x in s.dlq && s.dlq[x] == t.(status := Dead) && x !in s.ready)
  {
    hide Tried, ShouldRetry;
  }

  lemma SweptBack(h: Hist, h': Hist, n: Bytes, q: QState, now: Time, delay: Bytes -> nat, x: Bytes)
    requires Local(h, n, q, x) && x in q.inflight && Expired(q.inflight[x], now)
    requires h'.origin == h.origin && h'.known == h.known && h'.acked == h.acked && h'.counts == h.counts
    ensures Local(h', n, Swept(q, now, delay), x)
  {
    hide Tried, ReadyAt, DeadAt, InflightAt, Swept, ShouldRetry, Expired;
    TriedAt(h, h', n, x, q.inflight[x], now + delay(x));
    SweptTo(q, now, delay, x);
  }

  lemma SweepKeeps(h: Hist, h': Hist, n: Bytes, q: QState, now: Time, delay: Bytes -> nat)
    requires QueueInv(h, n, q) && h.known <= h.origin.Keys
    requires h' == h.(spent := h.spent + LateLeases(q, now))
    ensures QueueInv(h', n, Swept(q, now, delay))
  {
    hide Local, Swept, Tried, Expired, LateLeases, SameAt, Agree;
    var q' := Swept(q, now, delay);
    forall x ensures Local(h', n, q', x) {
      assert Local(h, n, q, x);
      if x in q.inflight && Expired(q.inflight[x], now) {
        SweptBack(h, h', n, q, now, delay, x);
      } else {
        SweepAgrees(h, h', n, q, now, x);
        SweptElsewhere(q, now, delay, x);
        LocalKept(h, h', n, q, q', x);
      }
    }
  }

  lemma SweptElsewhere(q: QState, now: Time, delay: Bytes -> nat, x: Bytes)
    requires !(x in q.inflight && Expired(q.inflight[x], now))
    ensures SameAt(q, Swept(q, now, delay), x)
  {
  }

  // ---------- Leasing ----------

  lemma {:induction false} PutAllAt(m: map<Bytes, Job>, js: seq<Job>, id: Bytes)
    requires forall i, j :: 0 <= i < j < |js| ==> js[i].id != js[j].id
    ensures id in PutAll(m, js) <==> id in m || exists i :: 0 <= i < |js| && js[i].id == id
    ensures forall i :: 0 <= i < |js| && js[i].id == id ==> PutAll(m, js)[id] == js[i]
    ensures id in m && (forall i :: 0 <= i < |js| ==> js[i].id != id) ==> PutAll(m, js)[id] == m[id]
    decreases |js|
  {
    if js != [] {
      PutAllAt(m, js[..|js| - 1], id);
    }
  }

  lemma {:induction false} HoldersAt(holder: map<Bytes, Bytes>, picked: seq<Job>, ids: nat -> Bytes, l: Bytes)
    requires forall i, j :: 0 <= i < j < |picked| ==> ids(i) != ids(j)
    ensures l in HoldersWith(holder, picked, ids) <==> l in holder || exists i :: 0 <= i < |picked| && ids(i) == l
    ensures forall i :: 0 <= i < |picked| && ids(i) == l ==> HoldersWith(holder, picked, ids)[l] == picked[i].id
    ensures l in holder && (forall i :: 0 <= i < |picked| ==> ids(i) != l) ==> HoldersWith(holder, picked, ids)[l] == holder[l]
    decreases |picked|
  {
    if picked != [] {
      HoldersAt(holder, picked[..|picked| - 1], ids, l);
    }
  }

  function WithLeases(h: Hist, picked: seq<Job>, ids: nat -> Bytes): Hist {
    h.(counts := CountUp(h.counts, IdSet(picked)), holder := HoldersWith(h.holder, picked, ids))
  }

  /** The picked jobs are distinct and come from the ready jobs of `q`. */
  ghost predicate FromReady(picked: seq<Job>, q: QState) {
    && (forall i, j :: 0 <= i < j < |picked| ==> picked[i].id != picked[j].id)
    && (forall i :: 0 <= i < |picked| ==> picked[i].id in q.ready && q.ready[picked[i].id] == picked[i])
  }

  lemma PickedFromReady(picked: seq<Job>, q: QState, now: Time, limit: int)
    requires Picked(picked, q.ready, now, limit)
    ensures FromReady(picked, q)
  {
    var order :| PickedFrom(picked, order, q.ready, now, limit);
    assert forall i :: 0 <= i < |picked| ==> picked[i] == order[i];
  }

  lemma LeasedAt(h: Hist, n: Bytes, q: QState, picked: seq<Job>, ids: nat -> Bytes, deadline: Time, i: nat)
    requires QueueInv(h, n, q) && FromReady(picked, q) && FreshIds(h, ids, |picked|) && h.spent <= h.holder.Keys
    requires i < |picked|
    ensures Local(WithLeases(h, picked, ids), n, TakeLeases(q, picked, ids, deadline), picked[i].id)
  {
    var id := picked[i].id;
    assert Local(h, n, q, id);
    var ls := LeasedAll(picked, ids, deadline);
    PutAllAt(q.inflight, ls, id);
    assert ls[i].id == id;
    HoldersAt(h.holder, picked, ids, ids(i));
    assert id in IdSet(picked);
  }

  lemma LeaseElsewhere(h: Hist, n: Bytes, q: QState, picked: seq<Job>, ids: nat -> Bytes, deadline: Time, x: Bytes)
    requires FromReady(picked, q) && FreshIds(h, ids, |picked|) && x !in IdSet(picked)
    ensures SameAt(q, TakeLeases(q, picked, ids, deadline), x)
  {
    var ls := LeasedAll(picked, ids, deadline);
    assert forall i :: 0 <= i < |picked| ==> ls[i].id == picked[i].id && picked[i].id in IdSet(picked);
    PutAllAt(q.inflight, ls, x);
  }

  lemma LeaseAgrees(h: Hist, picked: seq<Job>, ids: nat -> Bytes, x: Bytes)
    requires FreshIds(h, ids, |picked|) && x !in IdSet(picked)
    ensures Agree(h, WithLeases(h, picked, ids), x)
  {
    forall l | l in h.holder && h.holder[l] == x
      ensures l in HoldersWith(h.holder, picked, ids) && HoldersWith(h.holder, picked, ids)[l] == x
    {
      HoldersAt(h.holder, picked, ids, l);
    }
  }

  lemma LeaseKeeps(h: Hist, n: Bytes, q: QState, picked: seq<Job>, ids: nat -> Bytes, deadline: Time)
    requires QueueInv(h, n, q) && FromReady(picked, q) && FreshIds(h, ids, |picked|)
    requires h.spent <= h.holder.Keys && h.known <= h.origin.Keys
    ensures QueueInv(WithLeases(h, picked, ids), n, TakeLeases(q, picked, ids, deadline))
  {
    hide Agree, SameAt, TakeLeases, WithLeases, FromReady, FreshIds;
    var h', q' := WithLeases(h, picked, ids), TakeLeases(q, picked, ids, deadline);
    forall x ensures Local(h', n, q', x) {
      if x in IdSet(picked) {
        var i :| 0 <= i < |picked| && picked[i].id == x;
        LeasedAt(h, n, q, picked, ids, deadline, i);
      } else {
        assert Local(h, n, q, x);
        LeaseElsewhere(h, n, q, picked, ids, deadline, x);
        LeaseAgrees(h, picked, ids, x);
        LocalKept(h, h', n, q, q', x);
      }
    }
  }
}
