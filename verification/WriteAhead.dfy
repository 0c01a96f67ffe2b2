/** The write-ahead log as the program holds it: segments over files, kept in step with the log as a value
    (internal/wal/segment.go, internal/wal/wal.go). */
module WriteAhead {
  import opened Binary
  import opened Seqs
  import opened Sorting
  import opened Codec
  import opened Marshalling
  import opened Framing
  import opened Logs
  import opened Compaction

  /** The log directory: what is left when the process is gone. */
  class Disk {
    var files: map<nat, Bytes>

    constructor ()
      ensures files == map[]
    {
      files := map[];
    }
  }

  function Grown(files: map<nat, Bytes>, id: nat, more: Bytes): map<nat, Bytes>
    requires id in files
  {
    files[id := files[id] + more]
  }

  lemma GrownTwice(files: map<nat, Bytes>, id: nat, a: Bytes, b: Bytes)
    requires id in files
    ensures Grown(files, id, []) == files
    ensures Grown(Grown(files, id, a), id, b) == Grown(files, id, a + b)
  {
    assert files[id] + [] == files[id];
    assert files[id] + a + b == files[id] + (a + b);
  }

  class Segment {
    const disk: Disk
    const ck: Checksum
    const id: nat
    const maxSize: int
    var size: int

    ghost predicate Valid()
      reads this, disk
    {
      id in disk.files && size == |disk.files[id]|
    }

    constructor (disk: Disk, ck: Checksum, id: nat, maxSize: int)
      modifies disk
      ensures this.disk == disk && this.ck == ck && this.id == id && this.maxSize == maxSize
      ensures disk.files == WithFile(old(disk.files), id) && Valid()
    {
      this.disk, this.ck, this.id, this.maxSize := disk, ck, id, maxSize;
      this.size := if id in disk.files then |disk.files[id]| else 0;
      new;
      if id !in disk.files {
        disk.files := disk.files[id := []];
      }
    }

    method Write(r: Record) returns (ghost e: Bytes)
      requires Valid()
      modifies this`size, disk
      ensures Valid() && Encodes(e, r)
      ensures disk.files == Grown(old(disk.files), id, Frame(ck, e))
    {
      var data;
      ghost var order;
      data, order := Marshal(r);
      var checksum := ck(data);
      var buffered := LE(|data|, 4);
      buffered := buffered + LE(checksum, 4);
      buffered := buffered + data;
      disk.files := disk.files[id := disk.files[id] + buffered];
      size := size + 8 + |data|;
      e := data;
      assert buffered == Frame(ck, e);
    }

    predicate IsFull()
      reads this
    {
      size >= maxSize
    }
  }

  class SegmentReader {
    const ck: Checksum
    const data: Bytes
    var pos: nat
    var offset: nat

    ghost predicate Valid()
      reads this
    {
      pos == offset <= |data|
    }

    ghost function Rest(): Bytes
      requires Valid()
      reads this
    {
      data[pos..]
    }

    constructor (ck: Checksum, data: Bytes)
      ensures this.ck == ck && this.data == data && Valid() && pos == 0
    {
      this.ck, this.data, pos, offset := ck, data, 0, 0;
    }

    /** Reads the next record and moves past it; at an end or a fault the reader is not used further. */
    method Read() returns (s: Step)
      requires Valid()
      modifies this
      ensures s == ReadFrame(ck, old(Rest()))
      ensures s.Next? ==> Valid() && Rest() == s.rest && pos > old(pos)
    {
      hide Parse;
      ghost var rest := data[pos..];
      if pos == |data| { return Eof; }
      if |data| - pos < 4 { return Broken; }
      var length := UnLE(data[pos..pos + 4]);
      pos := pos + 4;
      if |data| - pos < 4 { return Broken; }
      var expected := UnLE(data[pos..pos + 4]);
      pos := pos + 4;
      assert rest[..4] == data[offset..offset + 4] && rest[4..8] == data[offset + 4..offset + 8];
      assert rest[8..] == data[pos..];
      if |data| - pos < length { return Broken; }
      var body := data[pos..pos + length];
      pos := pos + length;
      assert rest[8..][..length] == body && rest[8..][length..] == data[pos..];
      if ck(body) != expected { return Corrupt; }
      var r := Unmarshal(body);
      if r.None? { return Broken; }
      offset := offset + 8 + length;
      s := Next(r.value, data[pos..]);
    }
  }

  /** Reads a segment until its end or its first fault. */
  method ReadSegment(ck: Checksum, data: Bytes) returns (records: seq<Record>, ending: Ending)
    ensures Scanned(records, ending) == Scan(ck, data)
  {
    hide ReadFrame;
    var reader := new SegmentReader(ck, data);
    records := [];
    assert data[0..] == data;
    while true
      invariant reader.Valid() && reader.data == data && reader.ck == ck
      invariant var t := Scan(ck, reader.Rest()); Scan(ck, data) == Scanned(records + t.records, t.ending)
      decreases |data| - reader.pos
    {
      var s := reader.Read();
      match s {
        case Eof => return records, Clean;
        case Corrupt => return records, Corrupted;
        case Broken => return records, Failed;
        case Next(r, _) => records := records + [r];
      }
    }
  }

  function Ids(segments: seq<Segment>): (ids: seq<nat>)
    ensures |ids| == |segments| && forall i :: 0 <= i < |segments| ==> ids[i] == segments[i].id
  {
    seq(|segments|, i requires 0 <= i < |segments| => segments[i].id)
  }

  /** Reads the segments in turn: past a corrupted one, but not past any other fault. */
  method ReplayFiles(ck: Checksum, files: map<nat, Bytes>, ids: seq<nat>) returns (records: seq<Record>, ok: bool)
    requires forall id :: id in ids ==> id in files
    ensures Replayed(records, ok) == ReplayFrom(ck, files, ids)
  {
    hide Scan, ReadSoFar, ReplayFrom;
    records := [];
    ReadNothing(ck, files, ids);
    for i := 0 to |ids|
      invariant ReadSoFar(ck, files, ids, i, records)
    {
      ReadOne(ck, files, ids, i, records);
      var got, ending := ReadSegment(ck, files[ids[i]]);
      records := records + got;
      if ending == Failed {
        return records, false;
      }
    }
    ReadAll(ck, files, ids, records);
    ok := true;
  }

  ghost predicate OpenedOn(segments: seq<Segment>, disk: Disk, ck: Checksum, maxSize: int)
    reads disk, segments
  {
    forall s :: s in segments ==> s.disk == disk && s.ck == ck && s.maxSize == maxSize && s.Valid()
  }

  lemma SortedListing(ids: seq<nat>, keys: set<nat>)
    requires Distinct(ids) && Elems(ids) == keys
    ensures Sort(ids) == InOrder(keys) && forall i :: 0 <= i < |Sort(ids)| ==> Sort(ids)[i] in keys
  {
    SortIsInOrder(ids);
    assert Elems<int>(ids) == keys;
    assert forall i :: 0 <= i < |Sort(ids)| ==> Sort(ids)[i] in Elems(Sort(ids));
  }

  method OpenAll(disk: Disk, ck: Checksum, maxSize: int, ids: seq<nat>) returns (segments: seq<Segment>)
    requires forall i :: 0 <= i < |ids| ==> ids[i] in disk.files
    modifies disk
    ensures disk.files == old(disk.files) && Ids(segments) == ids
    ensures OpenedOn(segments, disk, ck, maxSize) && forall s :: s in segments ==> fresh(s)
  {
    segments := [];
    for i := 0 to |ids|
      invariant disk.files == old(disk.files) && Ids(segments) == ids[..i]
      invariant OpenedOn(segments, disk, ck, maxSize) && forall s :: s in segments ==> fresh(s)
    {
      var segment := new Segment(disk, ck, ids[i], maxSize);
      assert Ids(segments + [segment]) == Ids(segments) + [segment.id];
      segments := segments + [segment];
    }
  }

  /** loadSegments: opens every segment found, in the order of the ids. */
  method LoadSegments(disk: Disk, ck: Checksum, maxSize: int) returns (segments: seq<Segment>)
    modifies disk
    ensures disk.files == old(disk.files)
    ensures Ids(segments) == InOrder(disk.files.Keys)
    ensures OpenedOn(segments, disk, ck, maxSize) && forall s :: s in segments ==> fresh(s)
  {
    hide InOrder, Sort;
    var found := ListKeys(disk.files);
    SortedListing(found, disk.files.Keys);
    segments := OpenAll(disk, ck, maxSize, Sort(found));
  }

  /** Its result, or a first segment if there is none, and the id that is next. */
  method OpenSegments(disk: Disk, ck: Checksum, configured: int) returns (segments: seq<Segment>, next: nat)
    modifies disk
    ensures segments != [] && OpenedOn(segments, disk, ck, SegmentSize(configured)) && forall s :: s in segments ==> fresh(s)
    ensures Log(disk.files, Ids(segments), next, SegmentSize(configured)) == Reopened(old(disk.files), configured)
  {
    hide InOrder, SegmentSize;
    segments := LoadSegments(disk, ck, SegmentSize(configured));
    if segments == [] {
      var segment := new Segment(disk, ck, 0, SegmentSize(configured));
      segments, next := [segment], 1;
    } else {
      next := segments[|segments| - 1].id + 1;
    }
  }

  lemma {:induction false} KeepConcat(a: seq<Record>, b: seq<Record>, active: set<Bytes>)
    ensures Keep(a + b, active) == Keep(a, active) + Keep(b, active)
  {
    hide Wanted;
    if a == [] {
      assert a + b == b;
    } else {
      var k := if Wanted(a[0], active) then [a[0]] else [];
      assert (a + b)[1..] == a[1..] + b;
      KeepConcat(a[1..], b, active);
      assert k + (Keep(a[1..], active) + Keep(b, active)) == (k + Keep(a[1..], active)) + Keep(b, active);
    }
  }

  lemma {:induction false} FramesConcat(ck: Checksum, a: seq<Bytes>, b: seq<Bytes>)
    ensures Frames(ck, a + b) == Frames(ck, a) + Frames(ck, b)
  {
    hide Frame;
    if a == [] {
      assert a + b == b;
    } else {
      assert (a + b)[1..] == a[1..] + b;
      FramesConcat(ck, a[1..], b);
    }
  }

  /** Writes those of `rs` that enqueue an active job to the compaction segment. */
  method WriteKept(temp: Segment, rs: seq<Record>, active: set<Bytes>) returns (ghost es: seq<Bytes>)
    requires temp.Valid()
    modifies temp`size, temp.disk
    ensures temp.Valid() && EncodesAll(es, Keep(rs, active))
    ensures temp.disk.files == Grown(old(temp.disk.files), temp.id, Frames(temp.ck, es))
  {
    hide Encodes, Frame;
    es := [];
    GrownTwice(temp.disk.files, temp.id, [], []);
    for i := 0 to |rs|
      invariant temp.Valid() && EncodesAll(es, Keep(rs[..i], active))
      invariant temp.disk.files == Grown(old(temp.disk.files), temp.id, Frames(temp.ck, es))
    {
      assert rs[..i + 1] == rs[..i] + [rs[i]];
      KeepConcat(rs[..i], [rs[i]], active);
      if Wanted(rs[i], active) {
        ghost var e := temp.Write(rs[i]);
        FramesAppend(temp.ck, es, e);
        GrownTwice(old(temp.disk.files), temp.id, Frames(temp.ck, es), Frame(temp.ck, e));
        es := es + [e];
      }
    }
    assert rs[..|rs|] == rs;
  }

  /** Replays all but the active segment into the compaction segment. */
  method CopyKept(temp: Segment, ids: seq<nat>, active: set<Bytes>) returns (ok: bool, ghost es: seq<Bytes>)
    requires temp.Valid() && forall id :: id in ids ==> id in temp.disk.files && id != temp.id
    modifies temp`size, temp.disk
    ensures temp.Valid() && ok == ReplayFrom(temp.ck, old(temp.disk.files), ids).ok
    ensures EncodesAll(es, Keep(ReplayFrom(temp.ck, old(temp.disk.files), ids).records, active))
    ensures temp.disk.files == Grown(old(temp.disk.files), temp.id, Frames(temp.ck, es))
  {
    hide Scan, EncodesAll, Frames, Keep, ReadSoFar, ReplayFrom;
    ghost var files := temp.disk.files;
    ghost var rs := [];
    es := [];
    NothingKept(temp.ck, active);
    GrownTwice(files, temp.id, [], []);
    ReadNothing(temp.ck, files, ids);
    for i := 0 to |ids|
      invariant temp.Valid() && EncodesAll(es, Keep(rs, active))
      invariant temp.disk.files == Grown(files, temp.id, Frames(temp.ck, es))
      invariant ReadSoFar(temp.ck, files, ids, i, rs)
    {
      assert ids[i] in ids;
      ReadOne(temp.ck, files, ids, i, rs);
      var got, ending := ReadSegment(temp.ck, temp.disk.files[ids[i]]);
      ghost var es' := WriteKept(temp, got, active);
      MoreKept(temp.ck, rs, es, got, es', active);
      GrownTwice(files, temp.id, Frames(temp.ck, es), Frames(temp.ck, es'));
      rs, es := rs + got, es + es';
      if ending == Failed {
        return false, es;
      }
    }
    ReadAll(temp.ck, files, ids, rs);
    ok := true;
  }

  lemma NothingKept(ck: Checksum, active: set<Bytes>)
    ensures Frames(ck, []) == [] && EncodesAll([], Keep([], active))
  {
  }

  lemma MoreKept(ck: Checksum, rs: seq<Record>, es: seq<Bytes>, rs': seq<Record>, es': seq<Bytes>, active: set<Bytes>)
    requires EncodesAll(es, Keep(rs, active)) && EncodesAll(es', Keep(rs', active))
    ensures EncodesAll(es + es', Keep(rs + rs', active)) && Frames(ck, es + es') == Frames(ck, es) + Frames(ck, es')
  {
    hide Encodes;
    KeepConcat(rs, rs', active);
    FramesConcat(ck, es, es');
  }

  lemma OldIds(l: Log)
    requires IsOpen(l)
    ensures forall id :: id in OldSegments(l) ==> id in l.files && id != l.next && id != Active(l)
  {
    ActiveLast(l);
    assert forall id :: id in OldSegments(l) ==> id in l.segments;
  }

  function Filled(l: Log, temp: Bytes): Log {
    l.(files := l.files[l.next := temp])
  }

  lemma CompactDone(ck: Checksum, l: Log, active: set<Bytes>, es: seq<Bytes>, ok: bool, l': Log)
    requires IsOpen(l) && CompactedTo(ck, l, active, es, ok, l')
    ensures CompactStep(ck, l, active, ok, l')
  {
  }

  lemma FilledThenReplaced(l: Log, temp: Bytes)
    requires IsOpen(l)
    ensures AfterCompact(Filled(l, temp), temp) == AfterCompact(l, temp)
  {
    OldIds(l);
  }

  lemma OneMoreSegment(segments: seq<Segment>, s: Segment)
    requires Distinct(Ids(segments)) && forall t :: t in segments ==> t.id < s.id
    ensures Ids(segments + [s]) == Ids(segments) + [s.id] && Distinct(Ids(segments + [s]))
  {
    forall i | 0 <= i < |segments| ensures Ids(segments)[i] < s.id {
      assert segments[i] in segments;
    }
  }

  class Wal {
    const disk: Disk
    const ck: Checksum
    const maxSize: int
    var segments: seq<Segment>
    var active: Segment
    var next: nat

    ghost function Repr(): (r: set<object>)
      reads this
      ensures this in r && disk in r && forall s :: s in segments ==> s in r
    {
      {this, disk} + set s | s in segments
    }

    ghost predicate Holds(s: Segment)
      reads this, disk, s
    {
      s.disk == disk && s.ck == ck && s.maxSize == maxSize && s.Valid() && s.id < next
    }

    ghost predicate Valid()
      reads this, Repr()
    {
      && segments != [] && active == segments[|segments| - 1]
      && (forall s :: s in segments ==> Holds(s))
      && Distinct(Ids(segments))
    }

    /** The log as a value. */
    ghost function View(): (l: Log)
      requires Valid()
      reads this, Repr()
      ensures IsOpen(l) && Active(l) == active.id
      ensures l.files == disk.files && l.next == next && |l.segments| == |segments|
    {
      IdsIn();
      Log(disk.files, Ids(segments), next, maxSize)
    }

    /** New: whatever process wrote the directory, the log is what the files say. */
    constructor (disk: Disk, ck: Checksum, configured: int)
      modifies disk
      ensures this.disk == disk && this.ck == ck && maxSize == if configured == 0 then 67_108_864 else configured
      ensures Valid() && View() == Reopened(old(disk.files), configured)
      ensures fresh(Repr() - {disk})
    {
      hide Reopened;
      var loaded, following := OpenSegments(disk, ck, configured);
      this.disk, this.ck, this.maxSize := disk, ck, SegmentSize(configured);
      segments, active, next := loaded, loaded[|loaded| - 1], following;
    }

    lemma IdsIn()
      ensures forall id :: id in Ids(segments) ==> exists s :: s in segments && s.id == id
      ensures forall s :: s in segments ==> s.id in Ids(segments)
    {
      forall s | s in segments ensures s.id in Ids(segments) {
        var i :| 0 <= i < |segments| && segments[i] == s;
        assert Ids(segments)[i] == s.id;
      }
      forall id | id in Ids(segments) ensures exists s :: s in segments && s.id == id {
        var i :| 0 <= i < |segments| && Ids(segments)[i] == id;
        assert segments[i] in segments;
      }
    }

    method CreateSegment()
      requires Valid()
      modifies this`segments, this`active, this`next, disk
      ensures Valid() && View() == Rotated(old(View()))
      ensures fresh(Repr() - old(Repr()))
    {
      hide Distinct, Ids;
      var segment := new Segment(disk, ck, next, maxSize);
      OneMoreSegment(segments, segment);
      segments := segments + [segment];
      active := segment;
      next := next + 1;
    }

    lemma SegmentsApart(s: Segment, t: Segment)
      requires Distinct(Ids(segments)) && s in segments && t in segments && s != t
      ensures s.id != t.id
    {
      var i :| 0 <= i < |segments| && segments[i] == s;
      var j :| 0 <= j < |segments| && segments[j] == t;
      assert Ids(segments)[i] != Ids(segments)[j];
    }

    method WriteActive(r: Record) returns (ghost e: Bytes)
      requires Valid()
      modifies active`size, disk
      ensures Valid() && Encodes(e, r)
      ensures View() == old(View()).(files := Grown(old(disk.files), active.id, Frame(ck, e)))
    {
      hide Encodes, Frame;
      assert active in segments;
      assert Holds(active);
      forall s | s in segments && s != active ensures s.id != active.id {
        SegmentsApart(s, active);
      }
      e := active.Write(r);
    }

    /** The record is behind everything else in the log when this returns. */
    method Write(r: Record)
      requires Valid()
      modifies Repr()
      ensures Valid() && Wrote(ck, old(View()), r, View())
      ensures exists e :: Encodes(e, r) && GrownBy(old(View()), Frame(ck, e), View())
      ensures fresh(Repr() - old(Repr()))
    {
      hide Encodes, Frame, GrownBy;
      assert active in segments;
      assert Holds(active);
      if active.IsFull() {
        CreateSegment();
      }
      assert active in segments;
      ghost var e := WriteActive(r);
      assert View() == Appended(old(View()), Frame(ck, e));
      AppendedIsGrown(old(View()), Frame(ck, e));
    }

    /** The records that Replay hands to its callback, in order, and whether it reached the end. */
    method Replay() returns (records: seq<Record>, ok: bool)
      requires Valid()
      ensures Replayed(records, ok) == Logs.Replay(ck, View())
    {
      hide ReplayFrom;
      IdsIn();
      records, ok := ReplayFiles(ck, disk.files, Ids(segments));
    }

    method TotalSize() returns (total: int)
      requires Valid()
      ensures total == Logs.TotalSize(View())
    {
      total := 0;
      ghost var ids := Ids(segments);
      IdsIn();
      for i := 0 to |segments|
        invariant total + SizeOf(disk.files, ids[i..]) == Logs.TotalSize(View())
      {
        total := total + segments[i].size;
        assert ids[i..][1..] == ids[i + 1..];
      }
    }
  
    lemma ViewIs()
      requires Valid()
      ensures View() == Log(disk.files, Ids(segments), next, maxSize)
    {
    }

    /** Files were added or changed, but none of an open segment. */
    twostate lemma OtherFilesChanged()
      requires old(Valid()) && unchanged(this) && forall s :: s in segments ==> unchanged(s)
      requires forall id :: id in Ids(segments) ==>
                 id in disk.files && id in old(disk.files) && disk.files[id] == old(disk.files)[id]
      ensures Valid() && View() == old(View()).(files := disk.files)
    {
      IdsIn();
      forall s | s in segments ensures Holds(s) {
        assert old(Holds(s));
        assert s.id in Ids(segments);
      }
    }

    /** Opens the compaction segment and fills it; the log itself is not touched yet. */
    method FillTemp(activeIds: set<Bytes>) returns (temp: Segment, ok: bool, ghost es: seq<Bytes>)
      requires Valid() && |segments| > 1
      modifies disk
      ensures Valid() && fresh(temp) && temp.disk == disk && temp.id == next && temp.Valid()
      ensures unchanged(this) && forall s :: s in segments ==> s != temp
      ensures View() == Filled(old(View()), TempFile(old(View()), Frames(ck, es)))
      ensures ok == ReplayFrom(ck, old(disk.files), OldSegments(View())).ok
      ensures EncodesAll(es, Keep(ReplayFrom(ck, old(disk.files), OldSegments(View())).records, activeIds))
    {
      hide ReplayFrom, EncodesAll, Frames, Keep, Holds, View;
      ghost var l := View();
      assert l.segments == Ids(segments) && l.maxSize == maxSize by { ViewIs(); }
      OldIds(l);
      assert forall id :: id in Ids(segments) ==> id != next && id in disk.files;
      temp := new Segment(disk, ck, next, maxSize);
      ReplayElsewhere(ck, l.files, disk.files, OldSegments(l));
      ok, es := CopyKept(temp, Ids(segments)[..|segments| - 1], activeIds);
      OtherFilesChanged();
    }

    /** Replaces the old segments by one that holds only the enqueue records of active jobs. On a fault in an old
        segment nothing is replaced. */
    method Compact(activeIds: set<Bytes>) returns (ok: bool)
      requires Valid()
      modifies Repr()
      ensures Valid() && CompactStep(ck, old(View()), activeIds, ok, View())
      ensures fresh(Repr() - old(Repr()))
    {
      hide ReplayFrom, EncodesAll, Frames, Keep, AfterCompact, TempFile, CompactStep, View, Valid, IsOpen;
      ghost var l := View();
      if |segments| <= 1 {
        CompactDone(ck, l, activeIds, [], true, l);
        return true;
      }
      var temp;
      ghost var es;
      temp, ok, es := FillTemp(activeIds);
      if ok {
        Replace(temp);
        FilledThenReplaced(l, TempFile(l, Frames(ck, es)));
      }
      CompactDone(ck, l, activeIds, es, ok, View());
    }

    /** Removes the old segments and puts the compaction segment in their place, or drops it if it is empty. */
    method Replace(temp: Segment)
      requires Valid() && |segments| > 1 && temp.disk == disk && temp.id == next && temp.Valid()
      modifies this`segments, this`next, disk
      ensures Valid() && View() == AfterCompact(old(View()), old(disk.files[next]))
      ensures fresh(Repr() - old(Repr()))
    {
      ghost var l := View();
      OldIds(l);
      IdsIn();
      var n := |segments| - 1;
      assert segments[n] in segments;
      disk.files := disk.files - Elems(Ids(segments)[..n]);
      segments := [segments[n]];
      if temp.size > 0 {
        var compacted := new Segment(disk, ck, next, maxSize);
        segments := [compacted] + segments;
        next := next + 1;
      } else {
        disk.files := disk.files - {temp.id};
      }
    }
  }
}
