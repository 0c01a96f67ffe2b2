/** A named queue as the program holds it (internal/queue/queue.go). */
module Queues {
  import opened Binary
  import opened Seqs
  import opened Codec
  import opened Jobs
  import opened PriorityQueues
  import opened States
  import opened Serving
  import opened Sweeping

  class Queue {
    const name: Bytes
    const ready: PriorityQueue
    var inflight: map<Bytes, Job>
    var dlq: map<Bytes, Job>
    ghost var Repr: set<object>

    ghost predicate Valid()
      reads this, Repr
      ensures Valid() ==> this in Repr
    {
      && this in Repr && ready in Repr && ready.Repr() <= Repr && this !in ready.Repr()
      && (forall x :: x in ready.heap ==> x in Repr)
      && ready.Valid() && Keyed(inflight)
    }

    ghost function View(): (q: QState)
      requires Valid()
      reads this, Repr
      ensures Keyed(q.ready) && Keyed(q.inflight) && q.inflight == inflight
    {
      QState(ready.Contents(), inflight, dlq)
    }

    constructor (name: Bytes)
      ensures this.name == name && Valid() && fresh(Repr) && View() == NO_JOBS
    {
      this.name := name;
      ready := new PriorityQueue();
      inflight, dlq := map[], map[];
      new;
      Repr := {this} + ready.Repr();
    }

    method Push(j: Job)
      requires Valid()
      modifies Repr
      ensures Valid() && fresh(Repr - old(Repr)) && View() == AddReady(old(View()), j)
    {
      hide PriorityQueue.Valid, PriorityQueue.Repr, PriorityQueue.Contents;
      ready.Push(j);
      Repr := Repr + ready.Repr();
    }

    method Drop(id: Bytes)
      requires Valid()
      modifies this
      ensures Valid() && Repr == old(Repr) && View() == DropLease(old(View()), id)
    {
      inflight := inflight - {id};
    }

    method CountReady() returns (n: nat)
      requires Valid()
      ensures n == |View().ready|
    {
      n := ready.Len();
    }

    method Erase(id: Bytes)
      requires Valid()
      modifies this
      ensures Valid() && Repr == old(Repr)
      ensures View() == Erased(old(View()), id)
    {
      inflight, dlq := inflight - {id}, dlq - {id};
    }

    /** Changes an inflight job where it is. */
    method Mark(id: Bytes, j: Job)
      requires Valid() && j.id == id
      modifies this
      ensures Valid() && Repr == old(Repr) && View() == HalfNacked(old(View()), id, j)
    {
      inflight := inflight[id := j.(status := if ShouldRetry(j) then Ready else Dead)];
    }

    /** Moves a job that was tried once more out of inflight. */
    method Return(id: Bytes, j: Job)
      requires Valid()
      modifies Repr
      ensures Valid() && fresh(Repr - old(Repr)) && View() == GiveBack(old(View()), id, j)
    {
      hide PriorityQueue.Valid, PriorityQueue.Repr, PriorityQueue.Contents, ShouldRetry;
      inflight := inflight - {id};
      if ShouldRetry(j) {
        ready.Push(j.(status := Ready));
        Repr := Repr + ready.Repr();
      } else {
        dlq := dlq[id := j.(status := Dead)];
      }
    }

    /** checkLeaseTimeouts for this queue, with the requeue records it has to write. The outcome does not depend on
        the order in which jobs are visited; nothing is to be written for a job that is dead-lettered. */
    method Sweep(now: Time, delay: Bytes -> nat) returns (records: seq<Record>, ghost order: seq<Bytes>)
      requires Valid()
      modifies Repr
      ensures Valid() && fresh(Repr - old(Repr))
      ensures View() == Swept(old(View()), now, delay) && LeasesKept(old(View()), now, View())
      ensures RequeuesOf(records, order, ToRetry(ExpiredJobs(old(View()), now, delay)))
    {
      hide SweepReached, Swept, GiveBack, View, ExpiredJobs, Tried, Elems, Distinct, ToRetry, RequeuesOf, LeasesKept;
      ghost var q := View();
      ghost var late := ExpiredJobs(q, now, delay);
      records, order := [], [];
      var expired := CollectExpired(inflight, now);
      LateJobs(q, now, delay);
      assert Elems(expired) == late.Keys;
      NoElems(expired);
      SweepStarts(q, late);
      for i := 0 to |expired|
        invariant Valid() && fresh(Repr - old(Repr))
        invariant SweepReached(q, late, Elems(expired[..i]), View(), records, order)
      {
        var id := expired[i];
        NextElem(expired, i);
        assert id in late by { IsElem(expired, i); }
        SweepLeaves(q, late, Elems(expired[..i]), View(), records, order, id);
        SweepGoesOn(q, late, Elems(expired[..i]), View(), records, order, id);
        var job := Tried(inflight[id], now + delay(id));
        Return(id, job);
        if ShouldRetry(job) {
          records, order := records + [RequeueRecord(job)], order + [id];
        }
      }
      assert expired[..|expired|] == expired;
      SweepDone(q, now, delay, View(), records, order);
      SweptKeepsLeases(q, now, delay);
    }

    /** One turn of the loop of Lease: the job popped, or the job that holds the queue back if there is one. */
    method LeaseOne(now: Time, deadline: Time, leaseId: Bytes) returns (r: Option<Job>, ghost root: Option<Job>)
      requires Valid()
      modifies Repr
      ensures Valid() && fresh(Repr - old(Repr))
      ensures match r
              case None =>
                && View() == old(View())
                && (root.None? ==> View().ready == map[])
                && (root.Some? ==> IsFirst(root.value, View().ready)
                                   && (root.value.status != Ready || (root.value.eta != ZERO_TIME && now < root.value.eta)))
              case Some(j) =>
                && IsFirst(j, old(View()).ready) && j.status == Ready && (j.eta == ZERO_TIME || j.eta <= now)
                && View() == LeasedOut(old(View()), j, j.(leaseId := leaseId, leaseDeadline := deadline, status := Inflight))
    {
      hide PriorityQueue.Valid, PriorityQueue.Repr, PriorityQueue.Contents, IsReady, NotAfter;
      root := None;
      ghost var held := ready.Contents();
      r := ready.PopReady(now);
      Repr := Repr + ready.Repr();
      match r {
        case None =>
          if held != map[] {
            root := Some(ready.heap[0].job);
          }
        case Some(j) =>
          inflight := inflight[j.id := Leased(j, leaseId, deadline)];
      }
    }

    /** The loop of Lease: pops ready jobs while they last, up to `limit`, and leases each under the next id drawn. */
    method LeaseJobs(now: Time, limit: int, deadline: Time, ids: nat -> Bytes) returns (jobs: seq<Job>, ghost picked: seq<Job>)
      requires Valid() && limit > 0
      modifies Repr
      ensures Valid() && fresh(Repr - old(Repr))
      ensures Picked(picked, old(View()).ready, now, limit) && TakesDue(picked, old(View()).ready, now, limit)
      ensures jobs == LeasedAll(picked, ids, deadline) && View() == TakeLeases(old(View()), picked, ids, deadline)
    {
      hide Taken, Picked, TakesDue, AllReady, TakeLeases, LeasedAll, IsFirst, View;
      jobs, picked := [], [];
      ghost var q := View();
      NothingTaken(q.ready);
      NothingLeased(q, ids, deadline, now);
      while |jobs| < limit
        invariant Valid() && fresh(Repr - old(Repr))
        invariant |jobs| == |picked| <= limit
        invariant jobs == LeasedAll(picked, ids, deadline) && View() == TakeLeases(q, picked, ids, deadline)
        invariant Taken(picked, q.ready, View().ready) && AllReady(picked, now)
      {
        ghost var rest := View().ready;
        ghost var root;
        var popped;
        popped, root := LeaseOne(now, deadline, ids(|jobs|));
        match popped {
          case None =>
            if root.Some? {
              Stopped(picked, q.ready, rest, now, limit, root.value);
            } else {
              StoppedAtEnd(picked, q.ready, rest, now, limit);
            }
            PickedAreDue(picked, q.ready, now, limit);
            return;
          case Some(j) =>
            TakeFirst(picked, q.ready, rest, j);
            LeaseOneMore(q, picked, ids, deadline, j, now);
            jobs, picked := jobs + [Leased(j, ids(|jobs|), deadline)], picked + [j];
        }
      }
      StoppedAtEnd(picked, q.ready, View().ready, now, limit);
      PickedAreDue(picked, q.ready, now, limit);
    }
  }

  lemma LateJobs(q: QState, now: Time, delay: Bytes -> nat)
    requires Keyed(q.inflight)
    ensures ExpiredJobs(q, now, delay).Keys == set id | id in q.inflight && q.inflight[id].leaseDeadline != ZERO_TIME
                                                       && q.inflight[id].leaseDeadline < now
    ensures forall id :: id in ExpiredJobs(q, now, delay) ==>
              && id in q.inflight
              && ExpiredJobs(q, now, delay)[id] == Tried(q.inflight[id], now + delay(id))
              && ExpiredJobs(q, now, delay)[id].id == id
  {
  }

  /** The expired jobs, in whatever order the map is visited. */
  method CollectExpired(inflight: map<Bytes, Job>, now: Time) returns (expired: seq<Bytes>)
    ensures Distinct(expired)
    ensures Elems(expired) == set id | id in inflight && inflight[id].leaseDeadline != ZERO_TIME && inflight[id].leaseDeadline < now
  {
    expired := [];
    var todo := inflight.Keys;
    while todo != {}
      invariant todo <= inflight.Keys && Distinct(expired)
      invariant Elems(expired) == set id | id in inflight && id !in todo && Expired(inflight[id], now)
      decreases |todo|
    {
      var id :| id in todo;
      if Expired(inflight[id], now) {
        assert id !in Elems(expired);
        assert Elems(expired + [id]) == Elems(expired) + {id};
        expired := expired + [id];
      }
      todo := todo - {id};
    }
  }

  function LeasedOut(q: QState, j: Job, leased: Job): QState {
    q.(ready := q.ready - {j.id}, inflight := q.inflight[j.id := leased])
  }

  lemma NothingLeased(q: QState, ids: nat -> Bytes, deadline: Time, now: Time)
    ensures TakeLeases(q, [], ids, deadline) == q && LeasedAll([], ids, deadline) == [] && AllReady([], now)
  {
    assert q.ready - IdSet([]) == q.ready;
  }

  lemma StoppedAtEnd(picked: seq<Job>, m: map<Bytes, Job>, rest: map<Bytes, Job>, now: Time, limit: int)
    requires Keyed(m) && Taken(picked, m, rest) && AllReady(picked, now) && |picked| <= limit
    requires |picked| == limit || rest == map[]
    ensures Picked(picked, m, now, limit)
  {
    hide Taken, AllReady, Picked;
    var any: Job :| true;
    Stopped(picked, m, rest, now, limit, any);
  }

  lemma LeaseOneMore(q: QState, picked: seq<Job>, ids: nat -> Bytes, deadline: Time, j: Job, now: Time)
    requires AllReady(picked, now) && IsReady(j, now)
    ensures AllReady(picked + [j], now)
    ensures LeasedAll(picked + [j], ids, deadline) == LeasedAll(picked, ids, deadline) + [Leased(j, ids(|picked|), deadline)]
    ensures TakeLeases(q, picked + [j], ids, deadline)
         == LeasedOut(TakeLeases(q, picked, ids, deadline), j, Leased(j, ids(|picked|), deadline))
  {
    var ls := LeasedAll(picked, ids, deadline);
    assert LeasedAll(picked + [j], ids, deadline) == ls + [Leased(j, ids(|picked|), deadline)];
    assert (ls + [Leased(j, ids(|picked|), deadline)])[..|ls|] == ls;
    assert IdSet(picked + [j]) == IdSet(picked) + {j.id} by {
      assert (picked + [j])[|picked|] == j;
      assert forall i :: 0 <= i < |picked| ==> (picked + [j])[i] == picked[i];
    }
    assert q.ready - IdSet(picked + [j]) == q.ready - IdSet(picked) - {j.id};
  }
}
