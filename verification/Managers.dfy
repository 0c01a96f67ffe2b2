/** The queue manager as the program holds it; every method is tied to what it does to the state as a value
    (internal/queue/queue.go). */
module Managers {
  import opened Binary
  import opened Seqs
  import opened Codec
  import opened Framing
  import opened Logs
  import opened WriteAhead
  import opened Jobs
  import opened States
  import opened Serving
  import opened Sweeping
  import opened Steps
  import opened Queues

  datatype EnqueueResult = StoreFailed | Existing(id: Bytes) | RateLimited | LogFailed | Enqueued(id: Bytes)

  datatype Outcome = Done | NotFound | InvalidLease | NotLogged

  /** The job that an Enqueue with these arguments asks for: due at once, or after `delayMs` milliseconds where so many fit
      Go's 64-bit nanoseconds. */
  predicate AsAsked(j: Job, id: Bytes, queue: Bytes, payload: Bytes, headers: map<Bytes, Bytes>, priority: byte, delayMs: int,
                    maxRetries: uint32, now: Time, at: Time)
  {
    && j.id == id && j.queue == queue && j.payload == payload && j.headers == headers && j.priority == priority
    && j.tries == 0 && j.maxRetries == maxRetries && j.status == Ready && j.leaseId == [] && j.leaseDeadline == ZERO_TIME
    && j.enqueuedAt == at && (delayMs <= 0 ==> j.eta == now) && (delayMs > 0 ==> After(now, delayMs, j.eta))
  }

  /** A record that tells the same was written. */
  ghost predicate Tells(ck: Checksum, l: Log, queue: Bytes, id: Bytes, payload: Bytes, headers: map<Bytes, Bytes>,
                        priority: byte, delayMs: int, maxRetries: uint32, now: Time, l': Log)
  {
    && IsOpen(l)
    && exists r :: Wrote(ck, l, r, l') && TellsAsked(r, queue, id, payload, headers, priority, delayMs, maxRetries, now)
  }

  predicate TellsAsked(r: Record, queue: Bytes, id: Bytes, payload: Bytes, headers: map<Bytes, Bytes>, priority: byte,
                       delayMs: int, maxRetries: uint32, now: Time)
  {
    && r.kind == 1 && r.queue == queue && r.jobId == id && r.payload == payload && r.headers == headers
    && r.priority == priority && r.tries == 0 && r.maxRetries == maxRetries && r.leaseId == [] && r.reason == []
    && (delayMs <= 0 ==> r.eta == now) && (delayMs > 0 ==> After(now, delayMs, r.eta))
  }

  lemma NewJobIsAsAsked(id: Bytes, queue: Bytes, payload: Bytes, headers: map<Bytes, Bytes>, priority: byte, delayMs: int,
                        maxRetries: uint32, now: Time, at: Time)
    ensures var j := NewJob(id, queue, payload, headers, priority, maxRetries, EnqueueEta(now, delayMs), at);
            && j.id == id && j.queue == queue && j.payload == payload && j.headers == headers && j.priority == priority
            && j.maxRetries == maxRetries
            && AsAsked(j, id, queue, payload, headers, priority, delayMs, maxRetries, now, at)
  {
    MillisFit(delayMs, now);
    hide Millis, After;
  }

  lemma NewRecordTells(ck: Checksum, l: Log, j: Job, delayMs: int, now: Time, at: Time, l': Log)
    requires IsOpen(l) && Wrote(ck, l, EnqueueRecord(j), l')
    requires AsAsked(j, j.id, j.queue, j.payload, j.headers, j.priority, delayMs, j.maxRetries, now, at)
    ensures Tells(ck, l, j.queue, j.id, j.payload, j.headers, j.priority, delayMs, j.maxRetries, now, l')
  {
    hide Wrote, IsOpen, After;
    assert TellsAsked(EnqueueRecord(j), j.queue, j.id, j.payload, j.headers, j.priority, delayMs, j.maxRetries, now);
  }

  lemma NotYetReady(queues: map<Bytes, QState>, n: Bytes, id: Bytes)
    ensures n in WithQueue(queues, n)
    ensures (n in queues ==> id !in queues[n].ready) ==> id !in WithQueue(queues, n)[n].ready
  {
  }

  lemma ReadyAfterPush(q: QState, j: Job)
    ensures j.id !in q.ready ==> j.id in AddReady(q, j).ready && AddReady(q, j).ready[j.id] == j
  {
  }

  class Manager {
    var queues: map<Bytes, Queue>
    const wal: Wal
    var keys: map<Bytes, Bytes>
    ghost var Repr: set<object>

    ghost predicate OwnsLog()
      reads this, Repr
    {
      this in Repr && wal in Repr && wal in wal.Repr() && wal.Repr() <= Repr && this !in wal.Repr() && wal.Valid()
    }

    ghost predicate Owns(n: Bytes)
      requires n in queues && wal in Repr
      reads this, Repr
    {
      var q := queues[n];
      q in Repr && q in q.Repr && q.Repr <= Repr && this !in q.Repr && q.Repr !! wal.Repr() && q.Valid() && q.name == n
    }

    ghost predicate Valid()
      reads this, Repr
      ensures Valid() ==> this in Repr
    {
      && OwnsLog()
      && (forall n :: n in queues ==> Owns(n))
      && (forall n, m :: n in queues && m in queues && n != m ==> queues[n].Repr !! queues[m].Repr)
    }

    ghost function View(): (s: State)
      requires Valid()
      reads this, Repr
      ensures s.queues.Keys == queues.Keys && (forall n :: n in queues ==> Owns(n) && s.queues[n] == queues[n].View())
      ensures s.log == wal.View() && IsOpen(s.log) && s.keys == keys
    {
      State(map n | n in queues :: queues[n].View(), wal.View(), keys)
    }

    constructor (wal: Wal, keys: map<Bytes, Bytes>)
      requires wal.Valid()
      ensures this.wal == wal && Valid() && View() == State(map[], wal.View(), keys)
      ensures wal.Valid() && wal.View() == old(wal.View()) && fresh(Repr - wal.Repr())
    {
      this.wal, this.keys, queues := wal, keys, map[];
      Repr := {this} + wal.Repr();
    }

    // ---------- What a change to one part leaves alone ----------

    twostate lemma LogKept()
      requires old(OwnsLog()) && this in Repr && old(Repr) <= Repr
      requires forall o: object :: o in old(wal.Repr()) ==> unchanged(o)
      ensures OwnsLog() && wal.Repr() == old(wal.Repr()) && wal.View() == old(wal.View())
    {
      hide Wal.Valid, Wal.View, Wal.Repr;
      assert unchanged(wal);
    }

    twostate lemma QueueKept(m: Bytes)
      requires m in old(queues) && old(OwnsLog()) && old(Owns(m)) && m in queues && queues[m] == old(queues[m])
      requires OwnsLog() && old(Repr) <= Repr && fresh(wal.Repr() - old(wal.Repr()))
      requires forall o: object :: o in old(queues[m].Repr) ==> unchanged(o)
      ensures Owns(m) && queues[m].View() == old(queues[m].View()) && queues[m].Repr == old(queues[m].Repr)
    {
      hide Queue.Valid, Queue.View, Wal.Valid, Wal.View, Wal.Repr;
    }

    twostate lemma SameButFor(n: Bytes)
      requires old(Valid()) && Valid() && n in queues && queues.Keys == old(queues.Keys) + {n}
      requires keys == old(keys) && wal.View() == old(wal.View())
      requires forall m :: m in old(queues) && m != n ==> queues[m].View() == old(queues[m].View())
      ensures View() == old(View()).(queues := old(View()).queues[n := queues[n].View()])
    {
      hide View, Queue.Valid, Queue.View, Wal.Valid, Wal.View, Wal.Repr;
      assert Owns(n);
      Rebuilt(View(), old(View()), n, queues[n].View());
    }

    /** One queue was worked on and nothing else. */
    twostate lemma OneQueueChanged(n: Bytes)
      requires old(Valid()) && n in old(queues)
      requires queues == old(queues) && keys == old(keys) && Repr == old(Repr) + queues[n].Repr
      requires forall o: object :: o in old(Repr) && o != this && o !in old(queues[n].Repr) ==> unchanged(o)
      requires queues[n].Valid() && fresh(queues[n].Repr - old(queues[n].Repr))
      ensures Valid()
      ensures View() == old(View()).(queues := old(View()).queues[n := queues[n].View()])
    {
      hide View, Queue.Valid, Queue.View, Wal.Valid, Wal.View, Wal.Repr;
      assert old(Owns(n));
      LogKept();
      forall m | m in queues && m != n
        ensures Owns(m) && queues[m].View() == old(queues[m].View()) && queues[m].Repr == old(queues[m].Repr)
      {
        assert old(Owns(m));
        QueueKept(m);
      }
      assert Owns(n);
      SameButFor(n);
    }

    /** A queue without jobs was added, and nothing else. */
    twostate lemma OneQueueAdded(n: Bytes)
      requires old(Valid()) && n !in old(queues) && n in queues && queues == old(queues)[n := queues[n]]
      requires keys == old(keys) && Repr == old(Repr) + queues[n].Repr
      requires forall o: object :: o in old(Repr) && o != this ==> unchanged(o)
      requires fresh(queues[n].Repr) && queues[n].Valid() && queues[n].name == n && queues[n].View() == NO_JOBS
      ensures Valid()
      ensures View() == old(View()).(queues := WithQueue(old(View()).queues, n))
    {
      hide View, Queue.Valid, Queue.View, Wal.Valid, Wal.View, Wal.Repr;
      LogKept();
      forall m | m in old(queues)
        ensures Owns(m) && queues[m].View() == old(queues[m].View()) && queues[m].Repr == old(queues[m].Repr)
      {
        assert old(Owns(m));
        QueueKept(m);
      }
      assert Owns(n);
      SameButFor(n);
    }

    /** What the manager knows of a queue it works on. */
    lemma Owned(n: Bytes)
      requires Valid() && n in queues
      ensures var q := queues[n]; q.Valid() && q in q.Repr && q.Repr <= Repr && this !in q.Repr
    {
      hide View, Queue.Valid, Queue.View, Wal.Valid, Wal.View, Wal.Repr;
      assert Owns(n);
    }

    method WriteLog(r: Record)
      requires Valid()
      modifies Repr
      ensures Valid() && fresh(Repr - old(Repr)) && queues == old(queues)
      ensures Wrote(wal.ck, old(View()).log, r, View().log)
      ensures View() == old(View()).(log := View().log)
    {
      hide Wrote, View, Queue.Valid, Queue.View, Wal.Valid, Wal.View, Wal.Repr;
      assert OwnsLog();
      wal.Write(r);
      Repr := Repr + wal.Repr();
      assert OwnsLog();
      forall m | m in queues
        ensures Owns(m) && queues[m].View() == old(queues[m].View()) && queues[m].Repr == old(queues[m].Repr)
      {
        assert old(Owns(m));
        QueueKept(m);
      }
      assert Valid();
      SameMap(View().queues, old(View()).queues);
    }

    method PushTo(n: Bytes, j: Job)
      requires Valid() && n in queues
      modifies Repr
      ensures Valid() && fresh(Repr - old(Repr)) && queues == old(queues)
      ensures View() == old(View()).(queues := old(View()).queues[n := AddReady(old(View()).queues[n], j)])
    {
      hide AddReady, View, Queue.Valid, Queue.View, Wal.Valid, Wal.View, Wal.Repr;
      hide Valid, Owns, OwnsLog;
      Owned(n);
      queues[n].Push(j);
      Repr := Repr + queues[n].Repr;
      OneQueueChanged(n);
    }

    method DropFrom(n: Bytes, id: Bytes)
      requires Valid() && n in queues
      modifies Repr
      ensures Valid() && fresh(Repr - old(Repr)) && queues == old(queues)
      ensures View() == old(View()).(queues := old(View()).queues[n := DropLease(old(View()).queues[n], id)])
    {
      hide DropLease, View, Queue.Valid, Queue.View, Wal.Valid, Wal.View, Wal.Repr;
      hide Valid, Owns, OwnsLog;
      Owned(n);
      queues[n].Drop(id);
      Repr := Repr + queues[n].Repr;
      OneQueueChanged(n);
    }

    method MarkIn(n: Bytes, id: Bytes, j: Job)
      requires Valid() && n in queues && j.id == id
      modifies Repr
      ensures Valid() && fresh(Repr - old(Repr)) && queues == old(queues)
      ensures View() == old(View()).(queues := old(View()).queues[n := HalfNacked(old(View()).queues[n], id, j)])
    {
      hide HalfNacked, View, Queue.Valid, Queue.View, Wal.Valid, Wal.View, Wal.Repr;
      hide Valid, Owns, OwnsLog;
      Owned(n);
      queues[n].Mark(id, j);
      Repr := Repr + queues[n].Repr;
      OneQueueChanged(n);
    }

    method ReturnTo(n: Bytes, id: Bytes, j: Job)
      requires Valid() && n in queues
      modifies Repr
      ensures Valid() && fresh(Repr - old(Repr)) && queues == old(queues)
      ensures View() == old(View()).(queues := old(View()).queues[n := GiveBack(old(View()).queues[n], id, j)])
    {
      hide GiveBack, View, Queue.Valid, Queue.View, Wal.Valid, Wal.View, Wal.Repr;
      hide Valid, Owns, OwnsLog;
      Owned(n);
      queues[n].Return(id, j);
      Repr := Repr + queues[n].Repr;
      OneQueueChanged(n);
    }

    method GetOrCreateQueue(n: Bytes)
      requires Valid()
      modifies Repr
      ensures Valid() && fresh(Repr - old(Repr)) && n in queues
      ensures View() == old(View()).(queues := WithQueue(old(View()).queues, n))
    {
      hide Queue.Valid, Queue.View, Wal.Valid, Wal.View, Wal.Repr;
      hide Valid, View, Owns, OwnsLog;
      if n !in queues {
        var q := new Queue(n);
        queues := queues[n := q];
        Repr := Repr + q.Repr;
        OneQueueAdded(n);
      }
    }

    /** A new job is in the log before it is in the ready queue, in both with what the call asked for. The rate limiter's
        verdict, the success of the store and of the log, the id drawn and the clock come from outside. A log write that
        fails is taken to leave the log as it was. */
    method Enqueue(queue: Bytes, payload: Bytes, headers: map<Bytes, Bytes>, priority: byte, delayMs: int,
                   maxRetries: uint32, key: Bytes, id: Bytes, now: Time, at: Time, allowed: bool, getOk: bool, setOk: bool,
                   logOk: bool)
      returns (r: EnqueueResult, ghost logged: State)
      requires Valid()
      modifies Repr
      ensures Valid() && fresh(Repr - old(Repr))
      ensures r == if key != [] && !getOk then StoreFailed
                   else if key != [] && key in old(keys) && old(keys)[key] != [] then Existing(old(keys)[key])
                   else if !allowed then RateLimited
                   else if !logOk then LogFailed
                   else Enqueued(id)
      ensures !r.Enqueued? && !r.LogFailed? ==> View() == old(View())
      ensures r.LogFailed? ==> View() == old(View()).(queues := WithQueue(old(View()).queues, queue))
      ensures r.Enqueued? ==>
                var j := NewJob(id, queue, payload, headers, priority, maxRetries, EnqueueEta(now, delayMs), at);
                && Logged(wal.ck, old(View()), j, logged)
                && Tells(wal.ck, old(View()).log, queue, id, payload, headers, priority, delayMs, maxRetries, now, View().log)
                && View() == Pushed(if key != [] && setOk then KeyStored(logged, key, id) else logged, j)
      ensures r.Enqueued? && (queue in old(View()).queues ==> id !in old(View()).queues[queue].ready) ==>
                && queue in View().queues && id in View().queues[queue].ready
                && AsAsked(View().queues[queue].ready[id], id, queue, payload, headers, priority, delayMs, maxRetries, now, at)
    {
      hide Valid, View, Queue.Valid, Queue.View, Wal.Valid, Wal.View, Wal.Repr, Wrote, AddReady, WithQueue, OwnsLog, Owns,
        AsAsked, Tells, NewJob, EnqueueEta;
      logged := View();
      if key != [] {
        if !getOk {
          return StoreFailed, logged;
        }
        if key in keys && keys[key] != [] {
          return Existing(keys[key]), logged;
        }
      }
      if !allowed {
        return RateLimited, logged;
      }
      NotYetReady(View().queues, queue, id);
      GetOrCreateQueue(queue);
      if !logOk {
        return LogFailed, logged;
      }
      ghost var owned := Repr;
      logged := EnqueueNew(queue, payload, headers, priority, delayMs, maxRetries, if setOk then key else [], id, now, at);
      assert Repr - old(Repr) <= (Repr - owned) + (owned - old(Repr));
      r := Enqueued(id);
    }

    method EnqueueNew(queue: Bytes, payload: Bytes, headers: map<Bytes, Bytes>, priority: byte, delayMs: int,
                      maxRetries: uint32, key: Bytes, id: Bytes, now: Time, at: Time)
      returns (ghost logged: State)
      requires Valid() && queue in queues
      modifies Repr
      ensures Valid() && fresh(Repr - old(Repr))
      ensures var j := NewJob(id, queue, payload, headers, priority, maxRetries, EnqueueEta(now, delayMs), at);
              && j.queue == queue && j.id == id && queue in logged.queues
              && IsOpen(old(View()).log) && Wrote(wal.ck, old(View()).log, EnqueueRecord(j), logged.log)
              && logged == old(View()).(log := logged.log)
              && View() == Pushed(if key != [] then KeyStored(logged, key, id) else logged, j)
      ensures Tells(wal.ck, old(View()).log, queue, id, payload, headers, priority, delayMs, maxRetries, now, View().log)
      ensures queue in View().queues
      ensures id !in old(View()).queues[queue].ready ==>
                && id in View().queues[queue].ready
                && AsAsked(View().queues[queue].ready[id], id, queue, payload, headers, priority, delayMs, maxRetries, now, at)
    {
      hide Valid, View, Queue.Valid, Queue.View, Wal.Valid, Wal.View, Wal.Repr, Wrote, IsOpen, AddReady, OwnsLog, Owns,
        AsAsked, Tells, NewJob, EnqueueEta;
      var job := NewJob(id, queue, payload, headers, priority, maxRetries, EnqueueEta(now, delayMs), at);
      NewJobIsAsAsked(id, queue, payload, headers, priority, delayMs, maxRetries, now, at);
      logged := LogAndPush(job, key);
      ReadyAfterPush(old(View()).queues[queue], job);
      NewRecordTells(wal.ck, old(View()).log, job, delayMs, now, at, View().log);
    }

    /** Writes the log, stores the key unless it is empty, and pushes the job. */
    method LogAndPush(job: Job, key: Bytes) returns (ghost logged: State)
      requires Valid() && job.queue in queues
      modifies Repr
      ensures Valid() && fresh(Repr - old(Repr))
      ensures IsOpen(old(View()).log) && Wrote(wal.ck, old(View()).log, EnqueueRecord(job), logged.log)
      ensures logged == old(View()).(log := logged.log) && job.queue in logged.queues
      ensures View() == Pushed(if key != [] then KeyStored(logged, key, job.id) else logged, job)
    {
      hide Valid, View, Queue.Valid, Queue.View, Wal.Valid, Wal.View, Wal.Repr, Wrote, AddReady, OwnsLog, Owns;
      WriteLog(EnqueueRecord(job));
      logged := View();
      if key != [] {
        StoreKey(key, job.id);
      }
      PushTo(job.queue, job);
    }

    method StoreKey(key: Bytes, id: Bytes)
      requires Valid()
      modifies Repr
      ensures Valid() && Repr == old(Repr) && queues == old(queues) && View() == KeyStored(old(View()), key, id)
    {
      hide View, Queue.Valid, Queue.View, Wal.Valid, Wal.View, Wal.Repr;
      keys := keys[key := id];
      assert forall n :: n in queues ==> Owns(n) && queues[n].View() == old(queues[n].View());
      SameMap(View().queues, old(View()).queues);
    }

    method LeaseFrom(n: Bytes, now: Time, limit: int, deadline: Time, ids: nat -> Bytes)
      returns (jobs: seq<Job>, ghost picked: seq<Job>)
      requires Valid() && n in queues && limit > 0
      modifies Repr
      ensures Valid() && fresh(Repr - old(Repr)) && queues == old(queues)
      ensures Picked(picked, old(View()).queues[n].ready, now, limit) && jobs == LeasedAll(picked, ids, deadline)
      ensures View() == old(View()).(queues := old(View()).queues[n := TakeLeases(old(View()).queues[n], picked, ids, deadline)])
    {
      hide Picked, TakeLeases, LeasedAll, View, Queue.Valid, Queue.View, Wal.Valid, Wal.View, Wal.Repr;
      hide Valid, Owns, OwnsLog;
      Owned(n);
      jobs, picked := queues[n].LeaseJobs(now, limit, deadline, ids);
      Repr := Repr + queues[n].Repr;
      OneQueueChanged(n);
    }

    /** Leases the longest ready stretch at the head of the queue's order, at most `maxJobs` of it but one at least. */
    method Lease(n: Bytes, maxJobs: int, visibilityMs: int, now: Time, ids: nat -> Bytes)
      returns (r: Option<seq<Job>>, ghost picked: seq<Job>)
      requires Valid()
      modifies Repr
      ensures Valid() && fresh(Repr - old(Repr))
      ensures r.None? <==> n !in old(queues)
      ensures r.None? ==> View() == old(View())
      ensures r.Some? ==> LeaseStep(old(View()), n, now, maxJobs, visibilityMs, ids, picked, View())
      ensures r.Some? ==> r.value == LeasedAll(picked, ids, now + Millis(visibilityMs))
      ensures r.Some? ==> HandsOut(old(View()).queues[n], View().queues[n], r.value, now, maxJobs, visibilityMs, ids)
    {
      hide Valid, Picked, TakeLeases, LeasedAll, HandsOut, View, Queue.Valid, Queue.View, Wal.Valid, Wal.View, Wal.Repr, Owns, OwnsLog;
      picked := [];
      if n !in queues {
        return None, [];
      }
      var limit := if maxJobs <= 0 then 1 else maxJobs;
      var jobs;
      jobs, picked := LeaseFrom(n, now, limit, now + Millis(visibilityMs), ids);
      r := Some(jobs);
      PickedAreHandedOut(old(View()).queues[n], picked, ids, now, maxJobs, visibilityMs);
    }

    /** Looks through the queues, in whatever order, for one that has the job inflight. */
    method FindInflight(id: Bytes) returns (n: Option<Bytes>)
      requires Valid()
      ensures match n
              case None => forall m :: m in queues ==> id !in View().queues[m].inflight
              case Some(m) => m in queues && id in View().queues[m].inflight
    {
      hide Queue.Valid, Wal.Valid, Wal.View, Wal.Repr, Queue.View, View;
      var names := ListKeys(queues);
      for i := 0 to |names|
        invariant forall k :: 0 <= k < i ==> names[k] in queues && id !in View().queues[names[k]].inflight
      {
        IsElem(names, i);
        assert Owns(names[i]);
        if id in queues[names[i]].inflight {
          return Some(names[i]);
        }
      }
      n := None;
      forall m | m in queues ensures id !in View().queues[m].inflight {
        assert m in Elems(names);
      }
    }

    /** The job leaves inflight once the ack is in the log. */
    method Ack(id: Bytes, leaseId: Bytes, logOk: bool) returns (r: Outcome, ghost n: Bytes)
      requires Valid()
      modifies Repr
      ensures Valid() && fresh(Repr - old(Repr))
      ensures match r
              case NotFound => View() == old(View()) && forall m :: m in old(queues) ==> id !in old(View()).queues[m].inflight
              case InvalidLease =>
                && View() == old(View())
                && n in old(queues) && id in old(View()).queues[n].inflight && !HoldsLease(old(View()), n, id, leaseId)
              case NotLogged => View() == old(View()) && !logOk && HoldsLease(old(View()), n, id, leaseId)
              case Done => logOk && AckStep(wal.ck, old(View()), n, id, leaseId, View())
    {
      hide Valid, View, Queue.Valid, Queue.View, Wal.Valid, Wal.View, Wal.Repr, Owns, OwnsLog, DropLease, Wrote, AckRecord;
      n := [];
      var found := FindInflight(id);
      if found.None? {
        return NotFound, n;
      }
      n := found.value;
      var job := InflightJob(found.value, id);
      if job.leaseId != leaseId {
        return InvalidLease, n;
      }
      if !logOk {
        return NotLogged, n;
      }
      WriteLog(AckRecord(job, id, leaseId));
      DropFrom(found.value, id);
      r := Done;
    }

    method InflightJob(n: Bytes, id: Bytes) returns (j: Job)
      requires Valid() && n in queues && id in View().queues[n].inflight
      ensures j == View().queues[n].inflight[id] && j.id == id
    {
      hide View, Queue.Valid, Queue.View, Wal.Valid, Wal.View, Wal.Repr;
      assert Owns(n);
      j := queues[n].inflight[id];
    }

    /** One more try is counted; the job goes back to ready, later, or to the dead letters. If the log write fails the
        job is changed all the same, but stays inflight. */
    method Nack(id: Bytes, leaseId: Bytes, reason: Bytes, now: Time, delay: nat, logOk: bool) returns (r: Outcome, ghost n: Bytes)
      requires Valid()
      modifies Repr
      ensures Valid() && fresh(Repr - old(Repr))
      ensures match r
              case NotFound => View() == old(View()) && forall m :: m in old(queues) ==> id !in old(View()).queues[m].inflight
              case InvalidLease =>
                && View() == old(View())
                && n in old(queues) && id in old(View()).queues[n].inflight && !HoldsLease(old(View()), n, id, leaseId)
              case NotLogged =>
                && !logOk && HoldsLease(old(View()), n, id, leaseId)
                && var q := old(View()).queues[n];
                   View() == old(View()).(queues := old(View()).queues[n := HalfNacked(q, id, Tried(q.inflight[id], now + delay))])
              case Done =>
                && logOk && NackStep(wal.ck, old(View()), n, id, leaseId, reason, now, delay, View())
                && GivenBack(old(View()).queues[n], id, now + delay, View().queues[n])
    {
      hide Valid, View, Queue.Valid, Queue.View, Wal.Valid, Wal.View, Wal.Repr, Owns, OwnsLog, GiveBack, HalfNacked, GivenBack, Wrote, NackRecord,
        Tried;
      n := [];
      var found := FindInflight(id);
      if found.None? {
        return NotFound, n;
      }
      n := found.value;
      var job := InflightJob(found.value, id);
      if job.leaseId != leaseId {
        return InvalidLease, n;
      }
      job := Tried(job, now + delay);
      if !logOk {
        MarkIn(found.value, id, job);
        return NotLogged, n;
      }
      WriteLog(NackRecord(job, id, leaseId, reason));
      ReturnTo(found.value, id, job);
      GiveBackGivesBack(old(View()).queues[n], id, now + delay);
      r := Done;
    }

    method WriteAll(rs: seq<Record>)
      requires Valid()
      modifies Repr
      ensures Valid() && fresh(Repr - old(Repr)) && queues == old(queues)
      ensures WroteAll(wal.ck, old(View()).log, rs, View().log)
      ensures View() == old(View()).(log := View().log)
    {
      hide Valid, View, Queue.Valid, Queue.View, Wal.Valid, Wal.View, Wal.Repr, Owns, OwnsLog, Wrote, WroteAll;
      WroteNone(wal.ck, View().log);
      for i := 0 to |rs|
        invariant Valid() && fresh(Repr - old(Repr)) && queues == old(queues)
        invariant WroteAll(wal.ck, old(View()).log, rs[..i], View().log)
        invariant View() == old(View()).(log := View().log)
      {
        ghost var l := View().log;
        WriteLog(rs[i]);
        WroteOneMore(wal.ck, old(View()).log, rs[..i], l, rs[i], View().log);
        assert rs[..i + 1] == rs[..i] + [rs[i]];
      }
      assert rs[..|rs|] == rs;
    }

    method SweepJobs(n: Bytes, now: Time, delay: Bytes -> nat) returns (records: seq<Record>, ghost order: seq<Bytes>)
      requires Valid() && n in queues
      modifies Repr
      ensures Valid() && fresh(Repr - old(Repr)) && queues == old(queues)
      ensures View() == old(View()).(queues := old(View()).queues[n := Swept(old(View()).queues[n], now, delay)])
      ensures RequeuesOf(records, order, ToRetry(ExpiredJobs(old(View()).queues[n], now, delay)))
    {
      hide View, Queue.Valid, Queue.View, Wal.Valid, Wal.View, Wal.Repr, Swept, ToRetry, ExpiredJobs, RequeuesOf;
      hide Valid, Owns, OwnsLog;
      Owned(n);
      records, order := queues[n].Sweep(now, delay);
      Repr := Repr + queues[n].Repr;
      OneQueueChanged(n);
    }

    /** checkLeaseTimeouts for one queue, whose lock it holds throughout. */
    method SweepQueue(n: Bytes, now: Time, delay: Bytes -> nat)
      requires Valid() && n in queues
      modifies Repr
      ensures Valid() && fresh(Repr - old(Repr)) && queues == old(queues)
      ensures SweepStep(wal.ck, old(View()), n, now, delay, View())
      ensures LeasesKept(old(View()).queues[n], now, View().queues[n])
    {
      hide Valid, View, Owns, OwnsLog, Swept, ToRetry, ExpiredJobs, RequeuesOf, WroteAll, IsOpen, LeasesKept;
      var records;
      ghost var order;
      SweptKeepsLeases(View().queues[n], now, delay);
      records, order := SweepJobs(n, now, delay);
      WriteAll(records);
    }

    /** The whole sweep: queue by queue, in whatever order; `trace` are the states in between. */
    method CheckLeaseTimeouts(now: Time, delay: Bytes -> nat) returns (ghost names: seq<Bytes>, ghost trace: seq<State>)
      requires Valid()
      modifies Repr
      ensures Valid() && fresh(Repr - old(Repr)) && queues == old(queues)
      ensures SweepTrace(wal.ck, old(View()), now, delay, names, trace, View()) && Elems(names) == old(queues).Keys
      ensures View().queues == SweptAll(old(View()).queues, now, delay)
      ensures forall m :: m in old(queues) ==> LeasesKept(old(View()).queues[m], now, View().queues[m])
    {
      hide Valid, View, Owns, OwnsLog, Swept, SweepTrace, SweptAll, LeasesKept, Elems, Distinct;
      ghost var s := View();
      var listed := ListKeys(queues);
      trace := SweepAll(listed, now, delay);
      names := listed;
      TraceSweeps(wal.ck, s, now, delay, names, trace, View());
      SweptAllIs(s.queues, now, delay);
      SweptAllKeepsLeases(s.queues, now, delay, View().queues);
    }

    /** Sweeps the queues listed, one after another. */
    method SweepAll(listed: seq<Bytes>, now: Time, delay: Bytes -> nat) returns (ghost trace: seq<State>)
      requires Valid() && Distinct(listed) && Elems(listed) <= queues.Keys
      modifies Repr
      ensures Valid() && fresh(Repr - old(Repr)) && queues == old(queues)
      ensures SweepTrace(wal.ck, old(View()), now, delay, listed, trace, View())
    {
      hide Valid, View, Owns, OwnsLog, Swept, SweepStep, SweepTrace, Elems, Distinct, IsOpen;
      ghost var s := View();
      trace := [s];
      TraceStarts(wal.ck, s, now, delay);
      assert listed[..0] == [];
      for i := 0 to |listed|
        invariant Valid() && fresh(Repr - old(Repr)) && queues == old(queues)
        invariant SweepTrace(wal.ck, s, now, delay, listed[..i], trace, View())
      {
        var n := listed[i];
        assert n in queues by { IsElem(listed, i); }
        ghost var before, owned := View(), Repr;
        SweepQueue(n, now, delay);
        assert Repr - old(Repr) <= (Repr - owned) + (owned - old(Repr));
        TraceOneMore(wal.ck, s, now, delay, listed, i, trace, before, View());
        trace := trace + [View()];
      }
      assert listed[..|listed|] == listed;
    }

    // ---------- Starting up ----------

    method EraseFrom(n: Bytes, id: Bytes)
      requires Valid() && n in queues
      modifies Repr
      ensures Valid() && fresh(Repr - old(Repr)) && queues == old(queues)
      ensures View() == old(View()).(queues := old(View()).queues[n := Erased(old(View()).queues[n], id)])
    {
      hide Erased, View, Queue.Valid, Queue.View, Wal.Valid, Wal.View, Wal.Repr;
      hide Valid, Owns, OwnsLog;
      Owned(n);
      queues[n].Erase(id);
      Repr := Repr + queues[n].Repr;
      OneQueueChanged(n);
    }

    /** The callback of replayWAL. */
    method Apply(r: Record, at: Time)
      requires Valid()
      modifies Repr
      ensures Valid() && fresh(Repr - old(Repr))
      ensures View() == old(View()).(queues := Applied(old(View()).queues, r, at))
      ensures Replays(old(View()).queues, r, at, View().queues)
    {
      hide Valid, View, Queue.Valid, Queue.View, Wal.Valid, Wal.View, Wal.Repr, Owns, OwnsLog, GiveBack, DropLease, AddReady,
        Erased, Replays, Revived, Retaken;
      AppliedReplays(View().queues, r, at);
      if r.kind == ENQUEUE {
        GetOrCreateQueue(r.queue);
        PushTo(r.queue, Revived(r, at));
      } else if r.queue in queues {
        if r.kind == ACK {
          DropFrom(r.queue, r.jobId);
        } else if r.kind == NACK || r.kind == REQUEUE {
          ApplyRetry(r);
        } else if r.kind == TOMBSTONE {
          EraseFrom(r.queue, r.jobId);
        }
      }
    }

    /** Its two equal branches, for a nack and for a requeue. */
    method ApplyRetry(r: Record)
      requires Valid() && r.queue in queues
      modifies Repr
      ensures Valid() && fresh(Repr - old(Repr))
      ensures var q := old(View()).queues[r.queue];
              View() == if r.jobId !in q.inflight then old(View())
                        else old(View()).(queues := old(View()).queues[r.queue :=
                               GiveBack(q, r.jobId, Retaken(q.inflight[r.jobId], r))])
    {
      hide Valid, View, Queue.Valid, Queue.View, Wal.Valid, Wal.View, Wal.Repr, Owns, OwnsLog, GiveBack, Retaken;
      var held := HasInflight(r.queue, r.jobId);
      if held {
        var job := InflightJob(r.queue, r.jobId);
        ReturnTo(r.queue, r.jobId, Retaken(job, r));
      }
    }

    method HasInflight(n: Bytes, id: Bytes) returns (held: bool)
      requires Valid() && n in queues
      ensures held <==> id in View().queues[n].inflight
    {
      hide View, Queue.Valid, Queue.View, Wal.Valid, Wal.View, Wal.Repr;
      assert Owns(n);
      held := id in queues[n].inflight;
    }

    /** What the log delivers is applied record by record, also when the log then proves unreadable. */
    method ReplayWal(clock: nat -> Time) returns (ok: bool)
      requires Valid()
      modifies Repr
      ensures Valid() && fresh(Repr - old(Repr))
      ensures ok == Logs.Replay(wal.ck, old(View()).log).ok
      ensures View() == old(View()).(queues := AppliedAll(old(View()).queues, Logs.Replay(wal.ck, old(View()).log).records, clock))
    {
      hide Valid, View, Queue.Valid, Queue.View, Wal.Valid, Wal.View, Wal.Repr, Owns, OwnsLog, Applied, Logs.Replay;
      var records;
      records, ok := ReadLog();
      for i := 0 to |records|
        invariant Valid() && fresh(Repr - old(Repr))
        invariant View() == old(View()).(queues := AppliedAll(old(View()).queues, records[..i], clock))
      {
        Apply(records[i], clock(i));
        assert records[..i + 1][..i] == records[..i];
      }
      assert records[..|records|] == records;
    }

    method ReadLog() returns (records: seq<Record>, ok: bool)
      requires Valid()
      ensures Replayed(records, ok) == Logs.Replay(wal.ck, View().log)
    {
      hide View, Queue.Valid, Queue.View, Wal.Valid, Wal.View, Wal.Repr, Logs.Replay;
      records, ok := wal.Replay();
    }

    method Stats(n: Bytes) returns (r: Option<(nat, nat, nat)>)
      requires Valid()
      ensures r == if n in queues then var q := View().queues[n]; Some((|q.ready|, |q.inflight|, |q.dlq|)) else None
    {
      hide View, Queue.Valid, Wal.Valid, Wal.View, Wal.Repr;
      if n !in queues {
        return None;
      }
      assert Owns(n);
      var ready := queues[n].CountReady();
      r := Some((ready, |queues[n].inflight|, |queues[n].dlq|));
    }
  }

  /** A process starting on what another one left behind. */
  method Boot(disk: Disk, ck: Checksum, configured: int, keys: map<Bytes, Bytes>, clock: nat -> Time, ghost s: State)
    returns (m: Manager, ok: bool)
    requires s.log.files == disk.files && s.keys == keys
    modifies disk
    ensures m.Valid() && fresh(m.Repr - {disk})
    ensures ok == Replay(ck, Reopened(s.log.files, configured)).ok
    ensures ok ==> RestartStep(ck, s, configured, clock, m.View())
  {
    hide Wal.Valid, Wal.View, Wal.Repr, Reopened, Logs.Replay, AppliedAll, Manager.Valid, Manager.View;
    var wal := new Wal(disk, ck, configured);
    ghost var l := wal.View();
    m := new Manager(wal, keys);
    assert m.View().log == l == Reopened(s.log.files, configured);
    ok := m.ReplayWal(clock);
  }
}
