/** WAL.Compact on the log as a value, and what it keeps of the log's meaning (internal/wal/wal.go). */
module Compaction {
  import opened Binary
  import opened Seqs
  import opened Sorting
  import opened Codec
  import opened Framing
  import opened Logs

  predicate Wanted(r: Record, active: set<Bytes>) {
    r.kind == ENQUEUE && r.jobId in active
  }

  function Keep(rs: seq<Record>, active: set<Bytes>): seq<Record> {
    if rs == [] then []
    else (if Wanted(rs[0], active) then [rs[0]] else []) + Keep(rs[1..], active)
  }

  function OldSegments(l: Log): (ids: seq<nat>)
    requires l.segments != []
  {
    l.segments[..|l.segments| - 1]
  }

  /** The compaction segment: its file may still hold what an earlier, failed compaction left there. */
  function TempFile(l: Log, frames: Bytes): Bytes {
    (if l.next in l.files then l.files[l.next] else []) + frames
  }

  /** The old segments are gone; the compacted one is visited first although its id is the highest. */
  function AfterCompact(l: Log, temp: Bytes): Log
    requires IsOpen(l)
  {
    var files := l.files - Elems(OldSegments(l));
    if temp == [] then l.(files := files - {l.next}, segments := [Active(l)])
    else Log(files[l.next := temp], [l.next, Active(l)], l.next + 1, l.maxSize)
  }

  ghost predicate CompactedTo(ck: Checksum, l: Log, active: set<Bytes>, es: seq<Bytes>, ok: bool, l': Log)
    requires IsOpen(l)
  {
    if |l.segments| <= 1 then ok && l' == l
    else
      var s := ReplayFrom(ck, l.files, OldSegments(l));
      var temp := TempFile(l, Frames(ck, es));
      && ok == s.ok
      && EncodesAll(es, Keep(s.records, active))
      && l' == if ok then AfterCompact(l, temp) else l.(files := l.files[l.next := temp])
  }

  /** WAL.Compact: `ok` is false when an old segment could not be read, and then only a stray file is left. */
  ghost predicate CompactStep(ck: Checksum, l: Log, active: set<Bytes>, ok: bool, l': Log)
    requires IsOpen(l)
  {
    exists es :: CompactedTo(ck, l, active, es, ok, l')
  }

  // ---------- The meaning of a log ----------

  /** The record that decides what job a replay puts under `id` in queue `q`: the first one that enqueues it. */
  function Find(rs: seq<Record>, q: Bytes, id: Bytes): Option<Record> {
    if rs == [] then None
    else if rs[0].kind == ENQUEUE && rs[0].queue == q && rs[0].jobId == id then Some(rs[0])
    else Find(rs[1..], q, id)
  }

  function OrElse<T>(a: Option<T>, b: Option<T>): Option<T> {
    if a.Some? then a else b
  }

  lemma {:induction false} FindConcat(a: seq<Record>, b: seq<Record>, q: Bytes, id: Bytes)
    ensures Find(a + b, q, id) == OrElse(Find(a, q, id), Find(b, q, id))
  {
    if a == [] {
      assert a + b == b;
    } else {
      assert (a + b)[1..] == a[1..] + b;
      FindConcat(a[1..], b, q, id);
    }
  }

  lemma {:induction false} FindKept(rs: seq<Record>, active: set<Bytes>, q: Bytes, id: Bytes)
    ensures Find(Keep(rs, active), q, id) == if id in active then Find(rs, q, id) else None
  {
    if rs != [] {
      FindKept(rs[1..], active, q, id);
      FindConcat(if Wanted(rs[0], active) then [rs[0]] else [], Keep(rs[1..], active), q, id);
    }
  }

  /** Of what was read, compaction keeps the enqueue records of active jobs. */
  lemma {:induction false} InKept(rs: seq<Record>, active: set<Bytes>, r: Record)
    ensures r in Keep(rs, active) <==> r in rs && r.kind == 1 && r.jobId in active
  {
    if rs != [] {
      InKept(rs[1..], active, r);
    }
  }

  // ---------- What is read can be written again ----------

  lemma NextIsStorable(ck: Checksum, d: Bytes)
    requires ReadFrame(ck, d).Next?
    ensures Storable(ReadFrame(ck, d).record) && Cut(ReadFrame(ck, d).record) == ReadFrame(ck, d).record
  {
    hide Parse;
    Powers();
    var n := UnLE(d[..4]);
    var r := ReadFrame(ck, d).record;
    ReadRecordsFit(d[8..][..n]);
    FittingIsUncut(r);
  }

  lemma {:induction false} ScannedAreStorable(ck: Checksum, d: Bytes, i: nat)
    requires i < |Scan(ck, d).records|
    ensures Storable(Scan(ck, d).records[i]) && Cut(Scan(ck, d).records[i]) == Scan(ck, d).records[i]
    decreases |d|
  {
    hide ReadFrame, Storable, Cut;
    match ReadFrame(ck, d) {
      case Next(r, rest) =>
        NextIsStorable(ck, d);
        if i > 0 {
          ScannedAreStorable(ck, rest, i - 1);
        }
      case _ =>
    }
  }

  lemma {:induction false} ReplayedAreStorable(ck: Checksum, files: map<nat, Bytes>, ids: seq<nat>)
    requires forall id :: id in ids ==> id in files
    ensures forall r :: r in ReplayFrom(ck, files, ids).records ==> Storable(r) && Cut(r) == r
    decreases |ids|
  {
    hide Storable, Cut, Scan;
    if ids != [] {
      var s := Scan(ck, files[ids[0]]);
      forall r | r in s.records ensures Storable(r) && Cut(r) == r {
        var i :| 0 <= i < |s.records| && s.records[i] == r;
        ScannedAreStorable(ck, files[ids[0]], i);
      }
      ReplayedAreStorable(ck, files, ids[1..]);
    }
  }

  /** The compaction segment is read back as the records that were kept. */
  lemma KeptAreRead(ck: Checksum, files: map<nat, Bytes>, ids: seq<nat>, active: set<Bytes>, es: seq<Bytes>)
    requires forall id :: id in ids ==> id in files
    requires EncodesAll(es, Keep(ReplayFrom(ck, files, ids).records, active))
    ensures Scan(ck, Frames(ck, es)) == Scanned(Keep(ReplayFrom(ck, files, ids).records, active), Clean)
  {
    hide Storable, Cut, Scan, ReplayFrom, Encodes;
    var rs := Keep(ReplayFrom(ck, files, ids).records, active);
    ReplayedAreStorable(ck, files, ids);
    forall i | 0 <= i < |rs| ensures Storable(rs[i]) && Cut(rs[i]) == rs[i] {
      InKept(ReplayFrom(ck, files, ids).records, active, rs[i]);
    }
    ScanFrames(ck, rs, es, []);
    ScanNothing(ck);
    assert Frames(ck, es) + [] == Frames(ck, es);
    assert Cuts(rs) == rs;
  }

  // ---------- Compaction preserves meaning ----------

  function OldRecords(ck: Checksum, l: Log): seq<Record>
    requires IsOpen(l)
  {
    ReplayFrom(ck, l.files, OldSegments(l)).records
  }

  function ActiveRecords(ck: Checksum, l: Log): seq<Record>
    requires IsOpen(l)
  {
    Scan(ck, l.files[Active(l)]).records
  }

  lemma ReplayInTwoParts(ck: Checksum, l: Log)
    requires IsOpen(l) && ReplayFrom(ck, l.files, OldSegments(l)).ok
    ensures Replay(ck, l)
         == Replayed(OldRecords(ck, l) + ActiveRecords(ck, l), !Scan(ck, l.files[Active(l)]).ending.Failed?)
  {
    hide Scan, ReplayFrom;
    ActiveLast(l);
    ReplayLast(ck, l.files, OldSegments(l), Active(l));
  }

  lemma OldMustBeReadable(ck: Checksum, l: Log)
    requires IsOpen(l) && Replay(ck, l).ok
    ensures ReplayFrom(ck, l.files, OldSegments(l)).ok
  {
    hide Scan;
    ActiveLast(l);
    ReplayConcat(ck, l.files, OldSegments(l), [Active(l)]);
  }

  /** What an earlier, failed compaction left in the file under the next id. */
  function Leftover(ck: Checksum, l: Log): Scanned {
    if l.next in l.files then Scan(ck, l.files[l.next]) else Scanned([], Clean)
  }

  /** What the compaction segment delivers: the leftovers, then what was kept; or, if the leftovers are corrupted, only
      what stands before the damage. */
  function Compacted(ck: Checksum, l: Log, active: set<Bytes>): seq<Record>
    requires IsOpen(l)
  {
    var x := Leftover(ck, l);
    if x.ending.Clean? then x.records + Keep(OldRecords(ck, l), active) else x.records
  }

  lemma TempIsRead(ck: Checksum, l: Log, active: set<Bytes>, es: seq<Bytes>)
    requires IsOpen(l) && EncodesAll(es, Keep(OldRecords(ck, l), active)) && !Leftover(ck, l).ending.Failed?
    ensures Scan(ck, TempFile(l, Frames(ck, es))) == Scanned(Compacted(ck, l, active), Leftover(ck, l).ending)
  {
    hide Scan, ReplayFrom, EncodesAll, Keep, Frames;
    KeptAreRead(ck, l.files, OldSegments(l), active, es);
    if l.next in l.files {
      ScanAppend(ck, l.files[l.next], Frames(ck, es));
    } else {
      assert [] + Frames(ck, es) == Frames(ck, es);
      assert [] + Keep(OldRecords(ck, l), active) == Keep(OldRecords(ck, l), active);
    }
  }

  /** A compaction that fails leaves a file that can be read to its end, if it found none or such a one. */
  lemma FailedCompactionStaysClean(ck: Checksum, l: Log, active: set<Bytes>, l': Log)
    requires IsOpen(l) && CompactStep(ck, l, active, false, l') && Leftover(ck, l).ending.Clean?
    ensures IsOpen(l') && Leftover(ck, l') == Scanned(Compacted(ck, l, active), Clean)
    ensures l'.segments == l.segments && l'.next == l.next && forall id :: id in l.segments ==> l'.files[id] == l.files[id]
  {
    hide Scan, ReplayFrom, EncodesAll, Keep, Frames, Distinct;
    var es :| CompactedTo(ck, l, active, es, false, l');
    TempIsRead(ck, l, active, es);
  }

  /** The log after a successful compaction, read directly: the compaction segment, then the active one as before. */
  lemma ReplayCompacted(ck: Checksum, l: Log, active: set<Bytes>, l': Log)
    requires IsOpen(l) && CompactStep(ck, l, active, true, l') && |l.segments| > 1 && !Leftover(ck, l).ending.Failed?
    ensures IsOpen(l') && Active(l') == Active(l) && l'.files[Active(l)] == l.files[Active(l)]
    ensures l'.segments == [Active(l)] || l'.segments == [l.next, Active(l)]
    ensures l'.files.Keys == l.files.Keys - Elems(l.segments) - {l.next} + Elems(l'.segments)
    ensures if l'.segments == [Active(l)] then Compacted(ck, l, active) == []
            else Scan(ck, l'.files[l.next]) == Scanned(Compacted(ck, l, active), Leftover(ck, l).ending)
  {
    hide Scan, ReplayFrom, EncodesAll, Keep, Frames, TempFile, Leftover, Compacted;
    var es :| CompactedTo(ck, l, active, es, true, l');
    ActiveLast(l);
    TempIsRead(ck, l, active, es);
    ScanNothing(ck);
    assert Elems(l.segments) == Elems(OldSegments(l)) + {Active(l)};
  }

  lemma NoLeftover(ck: Checksum, l: Log, active: set<Bytes>)
    requires IsOpen(l) && l.next !in l.files
    ensures Leftover(ck, l) == Scanned([], Clean) && Compacted(ck, l, active) == Keep(OldRecords(ck, l), active)
  {
    hide Keep, ReplayFrom;
    assert [] + Keep(OldRecords(ck, l), active) == Keep(OldRecords(ck, l), active);
  }

  /** Read directly, a compacted log means for every active id exactly what it meant before, whatever the records
      are and even if segments are corrupted; of the others only those in the active segment are left. What a failed
      compaction left behind is read first: so with leftovers the meaning is kept exactly when they say nothing of the
      id or say what the log says. */
  lemma CompactPreservesMeaning(ck: Checksum, l: Log, active: set<Bytes>, l': Log, q: Bytes, id: Bytes)
    requires IsOpen(l) && CompactStep(ck, l, active, true, l') && Leftover(ck, l).ending.Clean?
    ensures IsOpen(l') && Replay(ck, l').ok == Replay(ck, l).ok
    ensures var x, before, after := Find(Leftover(ck, l).records, q, id), Find(Replay(ck, l).records, q, id),
                                    Find(Replay(ck, l').records, q, id);
            && (|l.segments| <= 1 ==> after == before)
            && (|l.segments| > 1 && id in active ==> (after == before <==> x.None? || x == before))
            && (|l.segments| > 1 && id !in active ==> after == OrElse(x, Find(ActiveRecords(ck, l), q, id)))
  {
    hide Scan, ReplayFrom, Encodes, Keep, Frames, Find, Leftover;
    if |l.segments| > 1 {
      ReplayCompacted(ck, l, active, l');
      ReplayInTwoParts(ck, l);
      DirectReplay(ck, l, active, l');
      FindConcat(OldRecords(ck, l), ActiveRecords(ck, l), q, id);
      FindConcat(Compacted(ck, l, active), ActiveRecords(ck, l), q, id);
      FindConcat(Leftover(ck, l).records, Keep(OldRecords(ck, l), active), q, id);
      FindKept(OldRecords(ck, l), active, q, id);
    }
  }

  lemma ReplayOneOrTwo(ck: Checksum, files: map<nat, Bytes>, a: nat, b: nat)
    requires a in files && b in files && !Scan(ck, files[a]).ending.Failed?
    ensures ReplayFrom(ck, files, [a]) == Replayed(Scan(ck, files[a]).records, true)
    ensures ReplayFrom(ck, files, [a, b])
         == Replayed(Scan(ck, files[a]).records + Scan(ck, files[b]).records, !Scan(ck, files[b]).ending.Failed?)
  {
    hide Scan;
    ReplayLast(ck, files, [], a);
    assert [] + [a] == [a];
    ReplayLast(ck, files, [a], b);
    assert [a] + [b] == [a, b];
  }

  /** What a compacted log delivers. */
  lemma DirectReplay(ck: Checksum, l: Log, active: set<Bytes>, l': Log)
    requires IsOpen(l) && CompactStep(ck, l, active, true, l') && |l.segments| > 1 && !Leftover(ck, l).ending.Failed?
    ensures IsOpen(l')
    ensures Replay(ck, l').records == Compacted(ck, l, active) + ActiveRecords(ck, l)
    ensures Replay(ck, l').ok == !Scan(ck, l.files[Active(l)]).ending.Failed?
  {
    hide Scan, Keep, CompactStep, Leftover, Compacted;
    ReplayCompacted(ck, l, active, l');
    if l'.segments == [Active(l)] {
      ReplayLast(ck, l'.files, [], Active(l));
      assert [] + [Active(l)] == l'.segments;
    } else {
      ReplayOneOrTwo(ck, l'.files, l.next, Active(l));
    }
  }

  lemma ReopenedOrder(l: Log, l': Log, configured: int)
    requires IsOpen(l) && IsOpen(l') && l'.files.Keys == Elems(l'.segments)
    requires l'.segments == [Active(l)] || l'.segments == [l.next, Active(l)]
    ensures Reopened(l'.files, configured).segments
         == if l'.segments == [Active(l)] then [Active(l)] else [Active(l), l.next]
  {
    hide InOrder, Reopened;
    var ids := if l'.segments == [Active(l)] then [Active(l)] else [Active(l), l.next];
    var o := Reopened(l'.files, configured);
    assert Active(l) in l.segments && Active(l) in Elems(l'.segments);
    ReopenedFiles(l'.files, configured);
    assert Ascending(ids);
    forall x ensures x in ids <==> x in o.segments {
      assert x in o.segments <==> x in Elems(InOrder(l'.files.Keys));
      assert x in ids <==> x in Elems(l'.segments);
    }
    AscendingUnique(ids, o.segments);
  }

  lemma ReopenedReplay(ck: Checksum, l: Log, active: set<Bytes>, l': Log, configured: int)
    requires IsOpen(l) && l.files.Keys == Elems(l.segments) && CompactStep(ck, l, active, true, l')
    requires |l.segments| > 1 && !Scan(ck, l.files[Active(l)]).ending.Failed?
    ensures var o := Reopened(l'.files, configured);
            Replay(ck, o) == Replayed(ActiveRecords(ck, l) + Keep(OldRecords(ck, l), active), true)
  {
    hide Scan, Keep, CompactStep, Reopened, ReplayFrom, Elems, Leftover, Compacted;
    RotationIsFresh(l);
    NoLeftover(ck, l, active);
    ReplayCompacted(ck, l, active, l');
    ReopenedOrder(l, l', configured);
    assert Active(l) in l'.files;
    ReopenedFiles(l'.files, configured);
    ReplayOneOrTwo(ck, l'.files, Active(l), if l'.segments == [Active(l)] then Active(l) else l.next);
  }

  lemma ReopenedFiles(files: map<nat, Bytes>, configured: int)
    requires files != map[]
    ensures Reopened(files, configured).files == files
    ensures Reopened(files, configured).segments == InOrder(files.Keys)
  {
    hide InOrder;
    var id :| id in files;
    assert id in InOrder(files.Keys);
  }

  lemma NothingToCompact(ck: Checksum, l: Log, active: set<Bytes>, l': Log, configured: int)
    requires IsOpen(l) && l.files.Keys == Elems(l.segments) && CompactStep(ck, l, active, true, l')
    requires |l.segments| <= 1
    ensures l' == l && OldRecords(ck, l) == [] && Replay(ck, Reopened(l'.files, configured)) == Replay(ck, l)
  {
    hide Scan, Reopened;
    assert l.segments == [Active(l)];
    ReopenedOrder(l, l, configured);
    assert Active(l) in l.files;
    ReopenedFiles(l.files, configured);
  }

  lemma FindNothing(q: Bytes, id: Bytes)
    ensures Find([], q, id) == None
  {
  }

  predicate Disagree(a: Option<Record>, b: Option<Record>) {
    a.Some? && b.Some? && a != b
  }

  /** Reopening sorts the compacted segment behind the old active one. An active id still means what it meant
      exactly when its old and its active segments do not disagree about it. */
  lemma CompactThenReopen(ck: Checksum, l: Log, active: set<Bytes>, l': Log, configured: int, q: Bytes, id: Bytes)
    requires IsOpen(l) && l.files.Keys == Elems(l.segments) && CompactStep(ck, l, active, true, l')
    requires Replay(ck, l).ok && id in active
    ensures Replay(ck, Reopened(l'.files, configured)).ok
    ensures Find(Replay(ck, Reopened(l'.files, configured)).records, q, id) == Find(Replay(ck, l).records, q, id)
            <==> !Disagree(Find(OldRecords(ck, l), q, id), Find(ActiveRecords(ck, l), q, id))
  {
    hide Scan, ReplayFrom, Encodes, Keep, Frames, Find, CompactStep, Reopened;
    OldMustBeReadable(ck, l);
    ReplayInTwoParts(ck, l);
    FindConcat(OldRecords(ck, l), ActiveRecords(ck, l), q, id);
    if |l.segments| > 1 {
      ReopenedReplay(ck, l, active, l', configured);
      FindConcat(ActiveRecords(ck, l), Keep(OldRecords(ck, l), active), q, id);
      FindKept(OldRecords(ck, l), active, q, id);
    } else {
      NothingToCompact(ck, l, active, l', configured);
      FindNothing(q, id);
    }
  }
}
