/** The write-ahead log as a value: segment files, the order in which they are held open, rotation, replay and
    reopening (internal/wal/wal.go). */
module Logs {
  import opened Binary
  import opened Seqs
  import opened Sorting
  import opened Codec
  import opened Framing

  /** `files` is the log directory, `segments` the open segments in the order Replay visits them; the last one is
      the active one. */
  datatype Log = Log(files: map<nat, Bytes>, segments: seq<nat>, next: nat, maxSize: int)

  ghost predicate IsOpen(l: Log) {
    && l.segments != [] && Distinct(l.segments)
    && forall id :: id in l.segments ==> id in l.files && id < l.next
  }

  function Active(l: Log): nat
    requires l.segments != []
  {
    l.segments[|l.segments| - 1]
  }

  /** Opening a segment creates its file, or finds the one that is there. */
  function WithFile(files: map<nat, Bytes>, id: nat): map<nat, Bytes> {
    if id in files then files else files[id := []]
  }

  function Rotated(l: Log): Log {
    Log(WithFile(l.files, l.next), l.segments + [l.next], l.next + 1, l.maxSize)
  }

  /** The log about to be written to: a full active segment makes way for a new one. */
  function Prepared(l: Log): (p: Log)
    requires IsOpen(l)
    ensures IsOpen(p)
  {
    if |l.files[Active(l)]| >= l.maxSize then Rotated(l) else l
  }

  function Appended(l: Log, frame: Bytes): (w: Log)
    requires IsOpen(l)
    ensures IsOpen(w)
  {
    var p := Prepared(l);
    p.(files := p.files[Active(p) := p.files[Active(p)] + frame])
  }

  /** `w` is `l` with `frame` added: to the last segment, or to a new one if the last has reached its size. */
  ghost predicate GrownBy(l: Log, frame: Bytes, w: Log)
    requires IsOpen(l)
  {
    var last := l.segments[|l.segments| - 1];
    && w.maxSize == l.maxSize
    && if |l.files[last]| < l.maxSize then
         w.segments == l.segments && w.next == l.next && w.files == l.files[last := l.files[last] + frame]
       else
         && w.segments == l.segments + [l.next] && w.next == l.next + 1
         && w.files == l.files[l.next := (if l.next in l.files then l.files[l.next] else []) + frame]
  }

  lemma AppendedIsGrown(l: Log, frame: Bytes)
    requires IsOpen(l)
    ensures GrownBy(l, frame, Appended(l, frame))
  {
    var w := Appended(l, frame);
    var last := l.segments[|l.segments| - 1];
    if |l.files[last]| >= l.maxSize {
      var content := if l.next in l.files then l.files[l.next] else [];
      assert WithFile(l.files, l.next)[l.next := content + frame] == l.files[l.next := content + frame];
    }
  }

  /** WAL.Write: the record lands behind everything else in the active segment, in some header order. */
  ghost predicate Wrote(ck: Checksum, l: Log, r: Record, w: Log)
    requires IsOpen(l)
  {
    exists e :: Encodes(e, r) && w == Appended(l, Frame(ck, e))
  }

  ghost predicate WroteAll(ck: Checksum, l: Log, rs: seq<Record>, l': Log)
    requires IsOpen(l)
  {
    if rs == [] then l' == l
    else exists m :: IsOpen(m) && WroteAll(ck, l, rs[..|rs| - 1], m) && Wrote(ck, m, rs[|rs| - 1], l')
  }

  lemma WroteNone(ck: Checksum, l: Log)
    requires IsOpen(l)
    ensures WroteAll(ck, l, [], l)
  {
  }

  lemma WroteOneMore(ck: Checksum, l: Log, rs: seq<Record>, m: Log, r: Record, l': Log)
    requires IsOpen(l) && IsOpen(m) && WroteAll(ck, l, rs, m) && Wrote(ck, m, r, l')
    ensures WroteAll(ck, l, rs + [r], l')
  {
    assert (rs + [r])[..|rs|] == rs;
  }

  datatype Replayed = Replayed(records: seq<Record>, ok: bool)

  /** The records of the segments in turn. A corrupted frame ends its own segment only; any other fault ends it all. */
  function ReplayFrom(ck: Checksum, files: map<nat, Bytes>, ids: seq<nat>): Replayed
    requires forall id :: id in ids ==> id in files
  {
    if ids == [] then Replayed([], true)
    else
      var s := Scan(ck, files[ids[0]]);
      if s.ending.Failed? then Replayed(s.records, false)
      else
        var t := ReplayFrom(ck, files, ids[1..]);
        Replayed(s.records + t.records, t.ok)
  }

  function Replay(ck: Checksum, l: Log): Replayed
    requires IsOpen(l)
  {
    ReplayFrom(ck, l.files, l.segments)
  }

  function SizeOf(files: map<nat, Bytes>, ids: seq<nat>): nat
    requires forall id :: id in ids ==> id in files
  {
    if ids == [] then 0 else |files[ids[0]]| + SizeOf(files, ids[1..])
  }

  function TotalSize(l: Log): nat
    requires IsOpen(l)
  {
    SizeOf(l.files, l.segments)
  }

  const DEFAULT_SEGMENT_SIZE := 64 * 1024 * 1024

  function SegmentSize(configured: int): int {
    if configured == 0 then DEFAULT_SEGMENT_SIZE else configured
  }

  /** What New makes of a directory, whatever was open before: the files in the order of their ids. */
  ghost function Reopened(files: map<nat, Bytes>, configured: int): (l: Log)
    ensures IsOpen(l)
  {
    hide InOrder;
    var ids := InOrder(files.Keys);
    assert forall i :: 0 <= i < |ids| ==> ids[i] in Elems(ids);
    if ids == [] then Rotated(Log(files, [], 0, SegmentSize(configured)))
    else Log(files, ids, ids[|ids| - 1] + 1, SegmentSize(configured))
  }

  // ---------- Frames ----------

  lemma {:induction false} ReplayElsewhere(ck: Checksum, files: map<nat, Bytes>, files': map<nat, Bytes>, ids: seq<nat>)
    requires forall id :: id in ids ==> id in files && id in files' && files[id] == files'[id]
    ensures ReplayFrom(ck, files, ids) == ReplayFrom(ck, files', ids)
    ensures SizeOf(files, ids) == SizeOf(files', ids)
    decreases |ids|
  {
    hide Scan;
    if ids != [] {
      ReplayElsewhere(ck, files, files', ids[1..]);
    }
  }

  lemma {:induction false} ReplayConcat(ck: Checksum, files: map<nat, Bytes>, a: seq<nat>, b: seq<nat>)
    requires forall id :: id in a + b ==> id in files
    ensures var x, y := ReplayFrom(ck, files, a), ReplayFrom(ck, files, b);
            ReplayFrom(ck, files, a + b) == if x.ok then Replayed(x.records + y.records, y.ok) else x
    ensures SizeOf(files, a + b) == SizeOf(files, a) + SizeOf(files, b)
    decreases |a|
  {
    hide Scan;
    if a == [] {
      assert a + b == b;
    } else {
      assert (a + b)[1..] == a[1..] + b;
      ReplayConcat(ck, files, a[1..], b);
    }
  }

  lemma ReplayLast(ck: Checksum, files: map<nat, Bytes>, ids: seq<nat>, id: nat)
    requires forall i :: i in ids + [id] ==> i in files
    ensures var x, s := ReplayFrom(ck, files, ids), Scan(ck, files[id]);
            x.ok ==> ReplayFrom(ck, files, ids + [id]) == Replayed(x.records + s.records, !s.ending.Failed?)
    ensures SizeOf(files, ids + [id]) == SizeOf(files, ids) + |files[id]|
  {
    hide Scan;
    ReplayConcat(ck, files, ids, [id]);
    assert ReplayFrom(ck, files, [id]).records == Scan(ck, files[id]).records;
  }

  /** `rs` is what a replay of `ids` has delivered before it opens the i-th segment. */
  ghost predicate ReadSoFar(ck: Checksum, files: map<nat, Bytes>, ids: seq<nat>, i: nat, rs: seq<Record>)
    requires i <= |ids| && forall id :: id in ids ==> id in files
  {
    var t := ReplayFrom(ck, files, ids[i..]);
    ReplayFrom(ck, files, ids) == Replayed(rs + t.records, t.ok)
  }

  lemma ReadNothing(ck: Checksum, files: map<nat, Bytes>, ids: seq<nat>)
    requires forall id :: id in ids ==> id in files
    ensures ReadSoFar(ck, files, ids, 0, [])
  {
    hide Scan;
    assert ids[0..] == ids;
  }

  lemma ReadOne(ck: Checksum, files: map<nat, Bytes>, ids: seq<nat>, i: nat, rs: seq<Record>)
    requires forall id :: id in ids ==> id in files
    requires i < |ids| && ReadSoFar(ck, files, ids, i, rs)
    ensures var s := Scan(ck, files[ids[i]]);
            if s.ending.Failed? then ReplayFrom(ck, files, ids) == Replayed(rs + s.records, false)
            else ReadSoFar(ck, files, ids, i + 1, rs + s.records)
  {
    hide Scan;
    assert ids[i..][0] == ids[i] && ids[i..][1..] == ids[i + 1..];
  }

  lemma ReadAll(ck: Checksum, files: map<nat, Bytes>, ids: seq<nat>, rs: seq<Record>)
    requires forall id :: id in ids ==> id in files
    requires ReadSoFar(ck, files, ids, |ids|, rs)
    ensures ReplayFrom(ck, files, ids) == Replayed(rs, true)
  {
    assert ids[|ids|..] == [];
  }

  // ---------- Log order ----------

  /** Every segment can be read to its end. */
  ghost predicate AllClean(ck: Checksum, files: map<nat, Bytes>) {
    forall id :: id in files ==> Scan(ck, files[id]).ending.Clean?
  }

  /** The directory holds exactly the open segments, and all of them are readable. */
  ghost predicate Healthy(ck: Checksum, l: Log) {
    IsOpen(l) && Elems(l.segments) == l.files.Keys && AllClean(ck, l.files)
  }

  lemma {:induction false} CleanReplays(ck: Checksum, files: map<nat, Bytes>, ids: seq<nat>)
    requires AllClean(ck, files) && forall id :: id in ids ==> id in files
    ensures ReplayFrom(ck, files, ids).ok
    decreases |ids|
  {
    hide Scan;
    if ids != [] {
      CleanReplays(ck, files, ids[1..]);
    }
  }

  lemma ActiveLast(l: Log)
    requires IsOpen(l)
    ensures l.segments == l.segments[..|l.segments| - 1] + [Active(l)]
    ensures Active(l) !in l.segments[..|l.segments| - 1]
  {
  }

  lemma RotationIsFresh(l: Log)
    requires IsOpen(l) && Elems(l.segments) == l.files.Keys
    ensures l.next !in l.files && IsOpen(Rotated(l)) && Elems(Rotated(l).segments) == Rotated(l).files.Keys
    ensures Ascending(l.segments) ==> Ascending(Rotated(l).segments)
  {
    assert forall i :: 0 <= i < |l.segments| ==> l.segments[i] in l.segments;
    assert l.next !in Elems(l.segments);
    assert Elems(Rotated(l).segments) == Elems(l.segments) + {l.next};
  }

  lemma RotationIsInvisible(ck: Checksum, l: Log)
    requires Healthy(ck, l)
    ensures Healthy(ck, Rotated(l))
    ensures Replay(ck, Rotated(l)) == Replay(ck, l)
    ensures TotalSize(Rotated(l)) == TotalSize(l)
  {
    hide Scan, Elems;
    var r := Rotated(l);
    RotationIsFresh(l);
    ScanNothing(ck);
    ReplayElsewhere(ck, l.files, r.files, l.segments);
    CleanReplays(ck, r.files, l.segments);
    ReplayLast(ck, r.files, l.segments, l.next);
  }

  lemma AppendToActive(ck: Checksum, l: Log, r: Record, e: Bytes)
    requires Healthy(ck, l) && Storable(r) && Encodes(e, r)
    ensures var w := l.(files := l.files[Active(l) := l.files[Active(l)] + Frame(ck, e)]);
            && Healthy(ck, w)
            && Replay(ck, w) == Replayed(Replay(ck, l).records + [Cut(r)], true)
            && TotalSize(w) == TotalSize(l) + 8 + RecordSize(r)
  {
    hide Scan, Encodes, Storable, Cut, Frame, RecordSize, ReplayFrom, SizeOf, Elems;
    var a, ids := Active(l), l.segments[..|l.segments| - 1];
    var w := l.(files := l.files[a := l.files[a] + Frame(ck, e)]);
    ActiveLast(l);
    assert w.files.Keys == l.files.Keys;
    ScanAppend(ck, l.files[a], Frame(ck, e));
    ScanOneFrame(ck, r, e);
    StorableSize(r, e);
    ReplayElsewhere(ck, l.files, w.files, ids);
    CleanReplays(ck, l.files, ids);
    ReplayLast(ck, l.files, ids, a);
    ReplayLast(ck, w.files, ids, a);
  }

  /** What is written is replayed last, whether or not the write opened a new segment. */
  lemma WriteExtendsReplay(ck: Checksum, l: Log, r: Record, w: Log)
    requires Healthy(ck, l) && Storable(r) && Wrote(ck, l, r, w)
    ensures Healthy(ck, w)
    ensures Ascending(l.segments) ==> Ascending(w.segments)
    ensures Replay(ck, w) == Replayed(Replay(ck, l).records + [Cut(r)], true)
    ensures TotalSize(w) == TotalSize(l) + 8 + RecordSize(r)
  {
    hide Encodes, Storable, Frame, Cut, Replay, TotalSize, Scan, AllClean, Ascending;
    var e :| Encodes(e, r) && w == Appended(l, Frame(ck, e));
    if |l.files[Active(l)]| >= l.maxSize {
      RotationIsFresh(l);
      RotationIsInvisible(ck, l);
    }
    AppendToActive(ck, Prepared(l), r, e);
  }

  /** Closing and reopening finds the same files, in the order of their ids. */
  lemma ReopenedIsHealthy(ck: Checksum, l: Log, configured: int)
    requires Healthy(ck, l)
    ensures var o := Reopened(l.files, configured);
            && Healthy(ck, o) && o.files == l.files && Ascending(o.segments)
            && Elems(o.segments) == Elems(l.segments)
  {
    hide Scan, InOrder;
    assert Active(l) in l.segments;
  }

  lemma ReopenReplays(ck: Checksum, l: Log, configured: int)
    requires Healthy(ck, l) && Ascending(l.segments)
    ensures var o := Reopened(l.files, configured);
            && Healthy(ck, o) && Ascending(o.segments)
            && Replay(ck, o) == Replay(ck, l) && TotalSize(o) == TotalSize(l)
  {
    hide Scan, Reopened, Healthy;
    ReopenedIsHealthy(ck, l, configured);
    var o := Reopened(l.files, configured);
    assert forall x :: x in l.segments <==> x in Elems(l.segments);
    assert forall x :: x in o.segments <==> x in Elems(o.segments);
    AscendingUnique(l.segments, o.segments);
  }

  datatype Op = Write(record: Record) | Reopen(configured: int)

  ghost predicate OpStep(ck: Checksum, l: Log, op: Op, l': Log) {
    && IsOpen(l)
    && match op
       case Write(r) => Wrote(ck, l, r, l')
       case Reopen(configured) => l' == Reopened(l.files, configured)
  }

  /** `ls` are the states of a log that started in an empty directory and went through `ops`. */
  ghost predicate LogRun(ck: Checksum, ls: seq<Log>, ops: seq<Op>) {
    && |ls| == |ops| + 1
    && (exists configured :: ls[0] == Reopened(map[], configured))
    && forall i :: 0 <= i < |ops| ==> OpStep(ck, ls[i], ops[i], ls[i + 1])
  }

  function Written(ops: seq<Op>): seq<Record> {
    if ops == [] then []
    else
      var n := |ops| - 1;
      Written(ops[..n]) + if ops[n].Write? then [ops[n].record] else []
  }

  ghost function WrittenSize(rs: seq<Record>): nat {
    if rs == [] then 0 else WrittenSize(rs[..|rs| - 1]) + 8 + RecordSize(rs[|rs| - 1])
  }

  lemma {:induction false} CutsAppend(rs: seq<Record>, r: Record)
    ensures Cuts(rs + [r]) == Cuts(rs) + [Cut(r)]
  {
  }

  lemma EmptyLog(ck: Checksum, configured: int)
    ensures var l := Reopened(map[], configured);
            Healthy(ck, l) && Ascending(l.segments) && Replay(ck, l) == Replayed([], true) && TotalSize(l) == 0
  {
    ScanNothing(ck);
    var l := Reopened(map[], configured);
    assert l.segments == [0] && l.files == map[0 := []];
    ReplayLast(ck, l.files, [], 0);
    assert [] + [0] == l.segments;
  }

  /** Log order: through any number of rotations, closings and reopenings, a replay delivers exactly what was
      written, in the order it was written; segment ids ascend; the total size is that of the frames written. */
  lemma {:induction false} LogOrder(ck: Checksum, ls: seq<Log>, ops: seq<Op>)
    requires LogRun(ck, ls, ops) && AllStorable(Written(ops))
    ensures var l := ls[|ops|];
            && Healthy(ck, l) && Ascending(l.segments)
            && Replay(ck, l) == Replayed(Cuts(Written(ops)), true)
            && TotalSize(l) == WrittenSize(Written(ops))
    decreases |ops|
  {
    hide Healthy, Replay, TotalSize, Wrote, Storable, Reopened, Cut, IsOpen, Ascending;
    if ops == [] {
      var configured :| ls[0] == Reopened(map[], configured);
      EmptyLog(ck, configured);
    } else {
      var n := |ops| - 1;
      assert AllStorable(Written(ops[..n])) by {
        forall i | 0 <= i < |Written(ops[..n])| ensures Storable(Written(ops[..n])[i]) {
          assert Written(ops)[i] == Written(ops[..n])[i];
        }
      }
      LogOrder(ck, ls[..n + 1], ops[..n]);
      assert ls[..n + 1][n] == ls[n];
      assert OpStep(ck, ls[n], ops[n], ls[n + 1]);
      match ops[n] {
        case Write(r) =>
          var rs := Written(ops[..n]);
          assert Written(ops)[|rs|] == r;
          WriteExtendsReplay(ck, ls[n], r, ls[n + 1]);
          CutsAppend(rs, r);
          assert (rs + [r])[..|rs|] == rs;
        case Reopen(configured) =>
          ReopenReplays(ck, ls[n], configured);
          assert Written(ops) == Written(ops[..n]);
      }
    }
  }
}
