/** What the log keeps of the jobs, whatever is written to it, and what a replay makes of it
    (internal/queue/queue.go, internal/wal/wal.go). */
module Recovery {
  import opened Binary
  import opened Seqs
  import opened Codec
  import opened Framing
  import opened Logs
  import opened Compaction
  import opened Jobs
  import opened States

  // ---------- Which records a healthy log holds ----------

  ghost predicate Holds(ck: Checksum, l: Log, r: Record)
    requires IsOpen(l)
  {
    r in Replay(ck, l).records
  }

  lemma {:induction false} InReplay(ck: Checksum, files: map<nat, Bytes>, ids: seq<nat>, r: Record)
    requires AllClean(ck, files) && forall id :: id in ids ==> id in files
    ensures r in ReplayFrom(ck, files, ids).records <==> exists id :: id in ids && r in Scan(ck, files[id]).records
    decreases |ids|
  {
    hide Scan;
    if ids != [] {
      InReplay(ck, files, ids[1..], r);
      assert ids == [ids[0]] + ids[1..];
      if id :| id in ids && r in Scan(ck, files[id]).records {
        assert id == ids[0] || id in ids[1..];
      }
    }
  }

  /** Reopening may change the order of the segments, but not which records there are. */
  lemma ReopenHolds(ck: Checksum, l: Log, configured: int, r: Record)
    requires Healthy(ck, l)
    ensures var o := Reopened(l.files, configured);
            Healthy(ck, o) && Replay(ck, o).ok && (Holds(ck, o, r) <==> Holds(ck, l, r))
  {
    hide Scan, Reopened, ReplayFrom;
    var o := Reopened(l.files, configured);
    ReopenedIsHealthy(ck, l, configured);
    CleanReplays(ck, o.files, o.segments);
    InReplay(ck, l.files, l.segments, r);
    InReplay(ck, o.files, o.segments, r);
    assert forall id :: id in l.segments <==> id in Elems(l.segments);
    assert forall id :: id in o.segments <==> id in Elems(o.segments);
  }

  lemma WriteHolds(ck: Checksum, l: Log, r: Record, w: Log, x: Record)
    requires Healthy(ck, l) && Storable(r) && Wrote(ck, l, r, w)
    ensures Healthy(ck, w) && (Holds(ck, w, x) <==> Holds(ck, l, x) || x == Cut(r))
  {
    hide Replay, Wrote, Storable, Cut;
    WriteExtendsReplay(ck, l, r, w);
  }

  lemma {:induction false} WriteAllHolds(ck: Checksum, l: Log, rs: seq<Record>, w: Log, x: Record)
    requires Healthy(ck, l) && AllStorable(rs) && WroteAll(ck, l, rs, w)
    ensures Healthy(ck, w)
    ensures Holds(ck, w, x) <==> Holds(ck, l, x) || exists i :: 0 <= i < |rs| && x == Cut(rs[i])
    decreases |rs|
  {
    hide Holds, AllClean, Wrote, Storable, Cut;
    if rs != [] {
      var n := |rs| - 1;
      var m :| IsOpen(m) && WroteAll(ck, l, rs[..n], m) && Wrote(ck, m, rs[n], w);
      WriteAllHolds(ck, l, rs[..n], m, x);
      WriteHolds(ck, m, rs[n], w, x);
      if x == Cut(rs[n]) {
      } else if i :| 0 <= i < |rs| && x == Cut(rs[i]) {
        assert rs[..n][i] == rs[i];
      }
    }
  }

  /** Compaction keeps a healthy log healthy; it adds no record and drops no enqueue record of an active job. */
  lemma CompactHolds(ck: Checksum, l: Log, active: set<Bytes>, ok: bool, l': Log, r: Record)
    requires Healthy(ck, l) && CompactStep(ck, l, active, ok, l')
    ensures ok && Healthy(ck, l')
    ensures Holds(ck, l', r) ==> Holds(ck, l, r)
    ensures Holds(ck, l, r) && Wanted(r, active) ==> Holds(ck, l', r)
  {
    hide Scan, Keep;
    RotationIsFresh(l);
    assert forall id :: id in OldSegments(l) ==> id in l.segments;
    CleanReplays(ck, l.files, OldSegments(l));
    NoLeftover(ck, l, active);
    if |l.segments| > 1 {
      CompactKeepsHealth(ck, l, active, l');
      ReplayInTwoParts(ck, l);
      DirectReplay(ck, l, active, l');
      InKept(OldRecords(ck, l), active, r);
    }
  }

  lemma CompactKeepsHealth(ck: Checksum, l: Log, active: set<Bytes>, l': Log)
    requires Healthy(ck, l) && |l.segments| > 1 && CompactStep(ck, l, active, true, l')
    ensures Healthy(ck, l')
  {
    hide Scan, Keep, CompactStep;
    RotationIsFresh(l);
    NoLeftover(ck, l, active);
    ReplayCompacted(ck, l, active, l');
    assert Active(l) in l.segments;
    assert l'.files.Keys == Elems(l'.segments);
  }

  // ---------- What a replay rebuilds ----------

  /** `queues` hold, all of them ready, the jobs that the records enqueue, each as its first record has it. */
  ghost predicate Rebuilds(queues: map<Bytes, QState>, rs: seq<Record>) {
    && (forall n :: n in queues ==> queues[n].inflight == map[] && queues[n].dlq == map[])
    && (forall n, id :: RebuildsAt(queues, rs, n, id))
  }

  predicate RebuildsAt(queues: map<Bytes, QState>, rs: seq<Record>, n: Bytes, id: Bytes) {
    && (Find(rs, n, id).Some? <==> n in queues && id in queues[n].ready)
    && (Find(rs, n, id).Some? ==>
          queues[n].ready[id] == Revived(Find(rs, n, id).value, queues[n].ready[id].enqueuedAt))
  }

  function FindMore(rs: seq<Record>, r: Record, n: Bytes, id: Bytes): Option<Record> {
    if Find(rs, n, id).Some? then Find(rs, n, id)
    else if r.kind == ENQUEUE && r.queue == n && r.jobId == id then Some(r) else None
  }

  lemma FindOneMore(rs: seq<Record>, r: Record, n: Bytes, id: Bytes)
    ensures Find(rs + [r], n, id) == FindMore(rs, r, n, id)
  {
    FindConcat(rs, [r], n, id);
    assert [r][1..] == [];
  }

  /** No lease is in the log, so inflight stays empty and only enqueue records have an effect. */
  lemma RebuildsOneMore(queues: map<Bytes, QState>, rs: seq<Record>, r: Record, at: Time)
    requires Rebuilds(queues, rs)
    ensures Rebuilds(Applied(queues, r, at), rs + [r])
  {
    if r.kind == ENQUEUE {
      RebuildsEnqueue(queues, rs, r, at);
    } else {
      OtherRecordsDoNothing(queues, rs, r, at);
      forall n, id ensures RebuildsAt(queues, rs + [r], n, id) {
        assert RebuildsAt(queues, rs, n, id);
        FindOneMore(rs, r, n, id);
      }
    }
  }

  lemma OtherRecordsDoNothing(queues: map<Bytes, QState>, rs: seq<Record>, r: Record, at: Time)
    requires Rebuilds(queues, rs) && r.kind != ENQUEUE
    ensures Applied(queues, r, at) == queues
  {
    hide RebuildsAt;
    if r.queue in queues {
      var q := queues[r.queue];
      assert q.inflight - {r.jobId} == q.inflight && q.dlq - {r.jobId} == q.dlq;
      assert queues[r.queue := q] == queues;
    }
  }

  lemma RebuildsEnqueue(queues: map<Bytes, QState>, rs: seq<Record>, r: Record, at: Time)
    requires Rebuilds(queues, rs) && r.kind == ENQUEUE
    ensures Rebuilds(Applied(queues, r, at), rs + [r])
  {
    var queues' := Applied(queues, r, at);
    forall n, id ensures RebuildsAt(queues', rs + [r], n, id) {
      assert RebuildsAt(queues, rs, n, id);
      assert RebuildsAt(queues, rs, r.queue, r.jobId);
      FindOneMore(rs, r, n, id);
    }
  }

  lemma {:induction false} ReplayRebuilds(rs: seq<Record>, clock: nat -> Time)
    ensures Rebuilds(AppliedAll(map[], rs, clock), rs)
    decreases |rs|
  {
    if rs == [] {
      assert forall n, id :: RebuildsAt(map[], rs, n, id);
    } else {
      var n := |rs| - 1;
      hide Rebuilds, Applied;
      ReplayRebuilds(rs[..n], clock);
      RebuildsOneMore(AppliedAll(map[], rs[..n], clock), rs[..n], rs[n], clock(n));
      assert rs[..n] + [rs[n]] == rs;
    }
  }

  lemma {:induction false} FoundIsHeld(rs: seq<Record>, n: Bytes, id: Bytes)
    ensures Find(rs, n, id).Some? ==>
              var r := Find(rs, n, id).value; r in rs && r.kind == ENQUEUE && r.queue == n && r.jobId == id
    ensures Find(rs, n, id).None? ==> forall r :: r in rs && r.kind == ENQUEUE && r.queue == n ==> r.jobId != id
  {
    if rs != [] {
      FoundIsHeld(rs[1..], n, id);
      assert rs == [rs[0]] + rs[1..];
    }
  }
}
