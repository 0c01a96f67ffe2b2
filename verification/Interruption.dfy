/** What a crash inside WAL.Compact leaves on disk, and what a reopened log makes of it (internal/wal/wal.go). */
module Interruption {
  import opened Binary
  import opened Seqs
  import opened Sorting
  import opened Codec
  import opened Framing
  import opened Logs
  import opened Damage
  import opened Compaction
  import opened Recovery

  /** The directory when `k` bytes of the copy have reached their file and the first `i` old segments are removed. */
  function Midway(ck: Checksum, l: Log, es: seq<Bytes>, k: nat, i: nat): map<nat, Bytes>
    requires l.segments != [] && k <= |Frames(ck, es)| && i < |l.segments|
  {
    (l.files - Elems(OldSegments(l)[..i]))[l.next := Frames(ck, es)[..k]]
  }

  /** The process may die there inside Compact: `es` are the frames to be copied, and nothing is removed before all of
      them are. */
  ghost predicate InsideCompact(ck: Checksum, l: Log, active: set<Bytes>, es: seq<Bytes>, k: nat, i: nat)
    requires IsOpen(l)
  {
    && EncodesAll(es, Keep(OldRecords(ck, l), active))
    && k <= |Frames(ck, es)| && i < |l.segments| && (i > 0 ==> k == |Frames(ck, es)|)
  }

  /** The first `k` bytes end between two frames. */
  predicate AtBoundary(ck: Checksum, es: seq<Bytes>, k: nat) {
    k == |Frames(ck, es[..WholeFrames(ck, es, k)])|
  }

  /** What is read from the copy: the whole frames in it, and an error exactly when the last one is cut. */
  lemma CopiedAreRead(ck: Checksum, l: Log, active: set<Bytes>, es: seq<Bytes>, k: nat)
    requires IsOpen(l) && EncodesAll(es, Keep(OldRecords(ck, l), active)) && k <= |Frames(ck, es)|
    ensures WholeFrames(ck, es, k) <= |Keep(OldRecords(ck, l), active)|
    ensures Scan(ck, Frames(ck, es)[..k])
         == Scanned(Keep(OldRecords(ck, l), active)[..WholeFrames(ck, es, k)], if AtBoundary(ck, es, k) then Clean else Failed)
  {
    hide Storable, Cut, Scan, ReplayFrom, Encodes, Keep, Frames, WholeFrames;
    var rs := Keep(OldRecords(ck, l), active);
    ReplayedAreStorable(ck, l.files, OldSegments(l));
    forall j | 0 <= j < |rs| ensures Storable(rs[j]) && Cut(rs[j]) == rs[j] {
      InKept(OldRecords(ck, l), active, rs[j]);
    }
    CutSegment(ck, rs, es, k);
    var part := rs[..WholeFrames(ck, es, k)];
    assert Cuts(part) == part;
  }

  /** Which records a reopened directory holds. */
  lemma InDirectory(ck: Checksum, files: map<nat, Bytes>, configured: int, r: Record)
    requires AllClean(ck, files) && files != map[]
    ensures var o := Reopened(files, configured);
            && Healthy(ck, o) && o.files == files && Replay(ck, o).ok
            && (Holds(ck, o, r) <==> exists id :: id in files && r in Scan(ck, files[id]).records)
  {
    hide Scan, ReplayFrom, InOrder;
    var o := Reopened(files, configured);
    var any :| any in files;
    assert any in Elems(InOrder(files.Keys));
    assert forall id :: id in o.segments <==> id in Elems(o.segments);
    CleanReplays(ck, files, o.segments);
    InReplay(ck, files, o.segments, r);
  }

  lemma HeldInFile(ck: Checksum, l: Log, r: Record)
    requires Healthy(ck, l)
    ensures Holds(ck, l, r) <==> exists id :: id in l.files && r in Scan(ck, l.files[id]).records
  {
    hide Scan, ReplayFrom;
    InReplay(ck, l.files, l.segments, r);
    assert forall id :: id in l.segments <==> id in Elems(l.segments);
  }

  lemma MidwayClean(ck: Checksum, l: Log, active: set<Bytes>, es: seq<Bytes>, k: nat, i: nat)
    requires Healthy(ck, l) && InsideCompact(ck, l, active, es, k, i)
    ensures Midway(ck, l, es, k, i) != map[]
    ensures AtBoundary(ck, es, k) ==> AllClean(ck, Midway(ck, l, es, k, i))
    ensures !AtBoundary(ck, es, k) ==> l.next in Midway(ck, l, es, k, i) && Scan(ck, Midway(ck, l, es, k, i)[l.next]).ending.Failed?
  {
    CopiedAreRead(ck, l, active, es, k);
    hide Scan, Frames, Keep, Elems, EncodesAll, AtBoundary, WholeFrames;
    assert l.next in Midway(ck, l, es, k, i);
  }

  /** A crash inside a compaction of a readable log leaves a directory that a new process can start from exactly when
      the copy ends between two frames. */
  lemma MidwayOkExactlyWhen(ck: Checksum, l: Log, active: set<Bytes>, es: seq<Bytes>, k: nat, i: nat, configured: int)
    requires Healthy(ck, l) && InsideCompact(ck, l, active, es, k, i)
    ensures Replay(ck, Reopened(Midway(ck, l, es, k, i), configured)).ok <==> AtBoundary(ck, es, k)
  {
    hide Scan, ReplayFrom, AtBoundary, Midway, EncodesAll, Keep, Frames, InOrder;
    var files := Midway(ck, l, es, k, i);
    MidwayClean(ck, l, active, es, k, i);
    var o := Reopened(files, configured);
    var any :| any in files;
    assert any in Elems(InOrder(files.Keys));
    assert forall id :: id in o.segments <==> id in Elems(o.segments);
    ReplayOkIff(ck, files, o.segments);
  }

  /** What is in the directory midway came from the log. */
  lemma NothingAdded(ck: Checksum, l: Log, active: set<Bytes>, es: seq<Bytes>, k: nat, i: nat, id: nat, r: Record)
    requires Healthy(ck, l) && InsideCompact(ck, l, active, es, k, i)
    requires id in Midway(ck, l, es, k, i) && r in Scan(ck, Midway(ck, l, es, k, i)[id]).records
    ensures Holds(ck, l, r)
  {
    hide Scan, Frames, Keep, Elems, EncodesAll, ReplayFrom, WholeFrames, AtBoundary;
    HeldInFile(ck, l, r);
    if id == l.next {
      CopiedAreRead(ck, l, active, es, k);
      var kept := Keep(OldRecords(ck, l), active);
      assert r in kept;
      InKept(OldRecords(ck, l), active, r);
      OldAreHeld(ck, l, r);
    }
  }

  lemma OldAreHeld(ck: Checksum, l: Log, r: Record)
    requires Healthy(ck, l)
    ensures r in OldRecords(ck, l) ==> Holds(ck, l, r)
  {
    hide Scan, ReplayFrom;
    assert forall id :: id in OldSegments(l) ==> id in l.segments;
    CleanReplays(ck, l.files, OldSegments(l));
    ReplayInTwoParts(ck, l);
  }

  /** What is wanted is still there midway, in an old segment, in the active one or in the copy. */
  lemma WantedIsThere(ck: Checksum, l: Log, active: set<Bytes>, es: seq<Bytes>, k: nat, i: nat, r: Record)
    requires Healthy(ck, l) && InsideCompact(ck, l, active, es, k, i) && Holds(ck, l, r) && Wanted(r, active)
    ensures exists id :: id in Midway(ck, l, es, k, i) && r in Scan(ck, Midway(ck, l, es, k, i)[id]).records
  {
    hide Scan, Frames, Keep, EncodesAll, ReplayFrom, Midway, Elems, IsOpen, Holds, AllClean, Wanted, OldRecords, Rotated;
    var files := Midway(ck, l, es, k, i);
    RotationIsFresh(l);
    HeldInFile(ck, l, r);
    var id :| id in l.files && r in Scan(ck, l.files[id]).records;
    MidwayAt(ck, l, es, k, i, id);
    if id in Elems(OldSegments(l)[..i]) {
      WasCopied(ck, l, active, es, id, r);
      assert Frames(ck, es)[..k] == Frames(ck, es);
      assert r in Scan(ck, files[l.next]).records;
    } else {
      assert r in Scan(ck, files[id]).records;
    }
  }

  lemma MidwayAt(ck: Checksum, l: Log, es: seq<Bytes>, k: nat, i: nat, id: nat)
    requires l.segments != [] && k <= |Frames(ck, es)| && i < |l.segments| && id in l.files && l.next !in l.files
    ensures var files := Midway(ck, l, es, k, i);
            && l.next in files && files[l.next] == Frames(ck, es)[..k]
            && if id in Elems(OldSegments(l)[..i]) then i > 0 && id in OldSegments(l) else id in files && files[id] == l.files[id]
  {
    hide Frames;
  }

  lemma WasCopied(ck: Checksum, l: Log, active: set<Bytes>, es: seq<Bytes>, id: nat, r: Record)
    requires Healthy(ck, l) && EncodesAll(es, Keep(OldRecords(ck, l), active))
    requires id in OldSegments(l) && id in l.files && r in Scan(ck, l.files[id]).records && Wanted(r, active)
    ensures r in Scan(ck, Frames(ck, es)).records
  {
    hide Scan, Frames, Keep, EncodesAll, ReplayFrom;
    KeptAreRead(ck, l.files, OldSegments(l), active, es);
    InReplay(ck, l.files, OldSegments(l), r);
    InKept(OldRecords(ck, l), active, r);
  }

  /** Where it can be started from, the directory holds no record that the log did not hold, and every enqueue record
      of an active job. */
  lemma CrashInsideCompactHolds(ck: Checksum, l: Log, active: set<Bytes>, es: seq<Bytes>, k: nat, i: nat, configured: int,
                                r: Record)
    requires Healthy(ck, l) && InsideCompact(ck, l, active, es, k, i) && AtBoundary(ck, es, k)
    ensures var o := Reopened(Midway(ck, l, es, k, i), configured);
            && Healthy(ck, o) && (Holds(ck, o, r) ==> Holds(ck, l, r))
            && (Holds(ck, l, r) && Wanted(r, active) ==> Holds(ck, o, r))
  {
    hide Scan, ReplayFrom, Midway, Reopened, Holds, AllClean, EncodesAll, Keep, Frames, AtBoundary, Wanted;
    var files := Midway(ck, l, es, k, i);
    MidwayClean(ck, l, active, es, k, i);
    InDirectory(ck, files, configured, r);
    if id :| id in files && r in Scan(ck, files[id]).records {
      NothingAdded(ck, l, active, es, k, i, id, r);
    }
    if Holds(ck, l, r) && Wanted(r, active) {
      WantedIsThere(ck, l, active, es, k, i, r);
    }
  }
}
