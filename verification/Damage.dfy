/** What a reader makes of a damaged log: a write cut short by a crash, a frame whose checksum does not match, and
    what is written behind such a frame (internal/wal/wal.go, internal/wal/segment.go). */
module Damage {
  import opened Binary
  import opened Seqs
  import opened Sorting
  import opened Codec
  import opened Framing
  import opened Logs

  /** The directory holds exactly the open segments; what is in them may be damaged. */
  ghost predicate Complete(l: Log) {
    IsOpen(l) && Elems(l.segments) == l.files.Keys
  }

  /** The next write goes to a segment that can be read to its end. */
  predicate Receives(ck: Checksum, l: Log)
    requires IsOpen(l)
  {
    |l.files[Active(l)]| >= l.maxSize || Scan(ck, l.files[Active(l)]).ending.Clean?
  }

  lemma AppendBytes(ck: Checksum, l: Log, x: Bytes)
    requires IsOpen(l) && Replay(ck, l).ok
    ensures var a, s := Active(l), Scan(ck, x);
            var w := l.(files := l.files[a := l.files[a] + x]);
            Replay(ck, w) == if Scan(ck, l.files[a]).ending.Clean?
                             then Replayed(Replay(ck, l).records + s.records, !s.ending.Failed?)
                             else Replay(ck, l)
  {
    hide Scan, ReplayFrom, Distinct;
    var a, ids := Active(l), l.segments[..|l.segments| - 1];
    var w := l.(files := l.files[a := l.files[a] + x]);
    ActiveLast(l);
    ReplayConcat(ck, l.files, ids, [a]);
    ReplayLast(ck, l.files, ids, a);
    ReplayElsewhere(ck, l.files, w.files, ids);
    ReplayLast(ck, w.files, ids, a);
    ScanAppend(ck, l.files[a], x);
  }

  lemma RotationReplays(ck: Checksum, l: Log)
    requires Complete(l) && Replay(ck, l).ok
    ensures var p := Rotated(l); Complete(p) && Replay(ck, p) == Replay(ck, l) && p.files[Active(p)] == []
    ensures Ascending(l.segments) ==> Ascending(Rotated(l).segments)
  {
    hide Scan, Elems, ReplayFrom;
    var p := Rotated(l);
    RotationIsFresh(l);
    ScanNothing(ck);
    ReplayElsewhere(ck, l.files, p.files, l.segments);
    ReplayLast(ck, p.files, l.segments, l.next);
  }

  function Torn(l: Log, frame: Bytes, k: nat): Log
    requires IsOpen(l) && k <= |frame|
  {
    Appended(l, frame[..k])
  }

  /** A write of which the first `k` bytes reached the file. The log can still be replayed exactly when none or all of
      them did; either way replay delivers what was there before, and the record itself only if it is whole and
      stands in a segment that can be read up to it. */
  lemma TornWrite(ck: Checksum, l: Log, r: Record, e: Bytes, k: nat)
    requires Complete(l) && Replay(ck, l).ok && Encodes(e, r) && Storable(r) && k <= |Frame(ck, e)|
    ensures var w, f := Torn(l, Frame(ck, e), k), |Frame(ck, e)|;
            && Complete(w) && (Ascending(l.segments) ==> Ascending(w.segments))
            && Replay(ck, w) == if !Receives(ck, l) then Replay(ck, l)
                                else if k == f then Replayed(Replay(ck, l).records + [Cut(r)], true)
                                else Replayed(Replay(ck, l).records, k == 0)
  {
    hide Scan, Encodes, Storable, Frame, Cut, Replay, Ascending, Elems, Prepared, Receives;
    TornFrame(ck, r, e, k);
    ReadyToWrite(ck, l);
    var p, x := Prepared(l), Frame(ck, e)[..k];
    AppendBytes(ck, p, x);
    assert p.files[Active(p) := p.files[Active(p)] + x].Keys == p.files.Keys;
    assert Replay(ck, p).records + [] == Replay(ck, p).records;
  }

  lemma ReadyToWrite(ck: Checksum, l: Log)
    requires Complete(l) && Replay(ck, l).ok
    ensures var p := Prepared(l);
            && Complete(p) && Replay(ck, p) == Replay(ck, l) && (Ascending(l.segments) ==> Ascending(p.segments))
            && (Scan(ck, p.files[Active(p)]).ending.Clean? <==> Receives(ck, l))
  {
    if |l.files[Active(l)]| >= l.maxSize {
      hide Replay;
      RotationReplays(ck, l);
      ScanNothing(ck);
    }
  }

  lemma TornFrame(ck: Checksum, r: Record, e: Bytes, k: nat)
    requires Encodes(e, r) && Storable(r) && k <= |Frame(ck, e)|
    ensures Scan(ck, Frame(ck, e)[..k]) == if k == |Frame(ck, e)| then Scanned([Cut(r)], Clean)
                                           else Scanned([], if k == 0 then Clean else Failed)
  {
    hide Encodes, Storable, Cut;
    StorableSize(r, e);
    if k == |Frame(ck, e)| {
      ScanOneFrame(ck, r, e);
      assert Frame(ck, e)[..k] == Frame(ck, e);
    } else if k > 0 {
      ScanCutFrame(ck, e, k);
    } else {
      ScanNothing(ck);
    }
  }

  /** A whole write to any log that can be replayed: it never does harm, and it is seen by replay exactly when the
      active segment was full or can be read to its end. Behind a corrupted frame it is lost. */
  lemma WriteIsSeenExactlyWhen(ck: Checksum, l: Log, r: Record, w: Log)
    requires Complete(l) && Replay(ck, l).ok && Storable(r) && Wrote(ck, l, r, w)
    ensures Replay(ck, w).ok
    ensures Replay(ck, w).records == Replay(ck, l).records + [Cut(r)] <==> Receives(ck, l)
    ensures Replay(ck, w).records == Replay(ck, l).records <==> !Receives(ck, l)
  {
    hide Encodes, Storable, Frame, Cut, Replay, Receives, Ascending, IsOpen, Elems;
    var e :| Encodes(e, r) && w == Appended(l, Frame(ck, e));
    TornWrite(ck, l, r, e, |Frame(ck, e)|);
    assert Frame(ck, e)[..|Frame(ck, e)|] == Frame(ck, e);
    assert |Replay(ck, l).records + [Cut(r)]| != |Replay(ck, l).records|;
  }

  lemma SegmentReplaced(ck: Checksum, l: Log, i: nat, d: Bytes)
    requires IsOpen(l) && Replay(ck, l).ok && i < |l.segments| && Scan(ck, d).ending.Corrupted?
    ensures var w := l.(files := l.files[l.segments[i] := d]);
            IsOpen(w) && Replay(ck, w) == Replayed(ReplayFrom(ck, l.files, l.segments[..i]).records + Scan(ck, d).records
                                                   + ReplayFrom(ck, l.files, l.segments[i + 1..]).records, true)
  {
    hide Scan, ReplayFrom;
    var id := l.segments[i];
    var files := l.files[id := d];
    var before, after := l.segments[..i], l.segments[i + 1..];
    assert id !in before && id !in after;
    assert l.segments == (before + [id]) + after;
    hide Distinct;
    ReplayConcat(ck, l.files, before + [id], after);
    ReplayConcat(ck, l.files, before, [id]);
    ReplayElsewhere(ck, l.files, files, before);
    ReplayElsewhere(ck, l.files, files, after);
    ReplayLast(ck, files, before, id);
    ReplayConcat(ck, files, before + [id], after);
  }

  /** Damage stays in its segment: if a frame of segment `i` no longer matches its checksum, replay goes on, and
      delivers all the other segments and the frames that stand before the damage. */
  lemma DamageIsContained(ck: Checksum, l: Log, i: nat, rs: seq<Record>, es: seq<Bytes>, sum: uint32, body: Bytes, t: Bytes)
    requires IsOpen(l) && Replay(ck, l).ok && i < |l.segments|
    requires EncodesAll(es, rs) && AllStorable(rs) && |body| < 0x1_0000_0000 && ck(body) != sum
    ensures var d := Frames(ck, es) + (LE(|body|, 4) + (LE(sum, 4) + body) + t);
            var w := l.(files := l.files[l.segments[i] := d]);
            IsOpen(w) && Replay(ck, w) == Replayed(ReplayFrom(ck, l.files, l.segments[..i]).records + Cuts(rs)
                                                   + ReplayFrom(ck, l.files, l.segments[i + 1..]).records, true)
  {
    CorruptedSegment(ck, rs, es, sum, body, t);
    hide Scan, ReplayFrom, Cuts, Storable, Encodes, Replay;
    SegmentReplaced(ck, l, i, Frames(ck, es) + (LE(|body|, 4) + (LE(sum, 4) + body) + t));
  }

  // ---------- Whatever the order of the segments ----------

  lemma {:induction false} ReplayOkIff(ck: Checksum, files: map<nat, Bytes>, ids: seq<nat>)
    requires forall id :: id in ids ==> id in files
    ensures ReplayFrom(ck, files, ids).ok <==> forall id :: id in ids ==> !Scan(ck, files[id]).ending.Failed?
    decreases |ids|
  {
    hide Scan;
    if ids != [] {
      ReplayOkIff(ck, files, ids[1..]);
      assert forall id :: id in ids <==> id == ids[0] || id in ids[1..];
    }
  }

  /** Whether a log can be replayed does not depend on the order in which its segments are held open. */
  lemma ReopenOk(ck: Checksum, l: Log, configured: int)
    requires Complete(l)
    ensures Replay(ck, Reopened(l.files, configured)).ok == Replay(ck, l).ok
  {
    hide Scan, ReplayFrom, InOrder;
    var o := Reopened(l.files, configured);
    assert Active(l) in l.segments;
    ReplayOkIff(ck, l.files, l.segments);
    ReplayOkIff(ck, l.files, o.segments);
    assert forall id :: id in l.segments <==> id in Elems(l.segments);
    assert forall id :: id in o.segments <==> id in Elems(o.segments);
  }

  /** A process that died inside a write can be started again exactly when none or all of the frame reached the file,
      or when the write went behind a corrupted frame, where nothing is read. */
  lemma RestartAfterTornWrite(ck: Checksum, l: Log, r: Record, e: Bytes, k: nat, configured: int)
    requires Complete(l) && Replay(ck, l).ok && Encodes(e, r) && Storable(r) && k <= |Frame(ck, e)|
    ensures Replay(ck, Reopened(Torn(l, Frame(ck, e), k).files, configured)).ok
       <==> k == 0 || k == |Frame(ck, e)| || !Receives(ck, l)
  {
    hide Encodes, Storable, Frame, Cut, Replay, Receives, Reopened, Ascending, IsOpen, Elems, Torn;
    TornWrite(ck, l, r, e, k);
    ReopenOk(ck, Torn(l, Frame(ck, e), k), configured);
  }
}
