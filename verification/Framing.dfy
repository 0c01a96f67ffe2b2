/** A segment's bytes: checksummed frames one after another, and what a reader makes of them, whole or damaged
    (internal/wal/segment.go). */
module Framing {
  import opened Binary
  import opened Codec

  // CRC-32C in the program; nothing here depends on which function it is.
  type Checksum = Bytes -> uint32

  function Frame(ck: Checksum, e: Bytes): (f: Bytes)
    ensures |f| == 8 + |e|
  {
    LE(|e|, 4) + (LE(ck(e), 4) + e)
  }

  datatype Step = Eof | Corrupt | Broken | Next(record: Record, rest: Bytes)

  /** One call of SegmentReader.Read: end of file only where not a single byte is left. */
  function ReadFrame(ck: Checksum, d: Bytes): (s: Step)
    ensures s.Eof? <==> d == []
    ensures s.Next? ==> |s.rest| + 8 <= |d|
  {
    if d == [] then Eof
    else if |d| < 8 then Broken
    else
      var n, sum, body := UnLE(d[..4]), UnLE(d[4..8]), d[8..];
      if |body| < n then Broken
      else if ck(body[..n]) != sum then Corrupt
      else
        match Parse(body[..n])
        case Bad => Broken
        case Got(r, _) => Next(r, body[n..])
  }

  datatype Ending = Clean | Corrupted | Failed

  datatype Scanned = Scanned(records: seq<Record>, ending: Ending)

  /** The records a reader delivers from a segment before it stops, and why it stops. */
  function Scan(ck: Checksum, d: Bytes): Scanned
    decreases |d|
  {
    match ReadFrame(ck, d)
    case Eof => Scanned([], Clean)
    case Corrupt => Scanned([], Corrupted)
    case Broken => Scanned([], Failed)
    case Next(r, rest) =>
      var s := Scan(ck, rest);
      Scanned([r] + s.records, s.ending)
  }

  /** A record that can be written so that it is read again; its reason may have any length. */
  ghost predicate Storable(r: Record) {
    FitsUpToReason(r) && RecordSize(r) < 0x1_0000_0000
  }

  function Frames(ck: Checksum, es: seq<Bytes>): Bytes {
    if es == [] then [] else Frame(ck, es[0]) + Frames(ck, es[1..])
  }

  function Cuts(rs: seq<Record>): (cs: seq<Record>)
    ensures |cs| == |rs| && forall i :: 0 <= i < |rs| ==> cs[i] == Cut(rs[i])
  {
    if rs == [] then [] else [Cut(rs[0])] + Cuts(rs[1..])
  }

  ghost predicate EncodesAll(es: seq<Bytes>, rs: seq<Record>) {
    |es| == |rs| && forall i :: 0 <= i < |rs| ==> Encodes(es[i], rs[i])
  }

  ghost predicate AllStorable(rs: seq<Record>) {
    forall i :: 0 <= i < |rs| ==> Storable(rs[i])
  }

  // ---------- One frame ----------

  lemma FrameParts(ck: Checksum, e: Bytes, t: Bytes)
    requires |e| < 0x1_0000_0000
    ensures var d := Frame(ck, e) + t;
            && UnLE(d[..4]) == |e| && UnLE(d[4..8]) == ck(e)
            && d[8..] == e + t
  {
    var d := Frame(ck, e) + t;
    Powers();
    UnLEFits(|e|, 4);
    UnLEFits(ck(e), 4);
    assert d[..4] == LE(|e|, 4);
    assert d[4..8] == LE(ck(e), 4);
    assert d[8..] == e + t;
  }

  lemma StorableSize(r: Record, e: Bytes)
    requires Encodes(e, r) && Storable(r)
    ensures |e| == RecordSize(r) < 0x1_0000_0000
  {
    var order :| IsOrder(order, r.headers) && e == Encode(r, order);
    EncodedSize(r, order);
  }

  lemma WholeFrame(ck: Checksum, r: Record, e: Bytes, t: Bytes)
    requires Encodes(e, r) && Storable(r)
    ensures ReadFrame(ck, Frame(ck, e) + t) == Next(Cut(r), t)
  {
    var order :| IsOrder(order, r.headers) && e == Encode(r, order);
    StorableSize(r, e);
    ParseOfEncode(r, order, []);
    assert e + [] == e;
    FrameParts(ck, e, t);
    assert (e + t)[..|e|] == e && (e + t)[|e|..] == t;
  }

  lemma CutFrame(ck: Checksum, e: Bytes, k: nat)
    requires |e| < 0x1_0000_0000 && 0 < k < 8 + |e|
    ensures ReadFrame(ck, Frame(ck, e)[..k]) == Broken
  {
    if k >= 8 {
      FrameParts(ck, e, []);
      var d := Frame(ck, e);
      assert d + [] == d;
      assert d[..k][..4] == d[..4];
    }
  }

  /** The block of a frame whose checksum does not match: its length field is intact, the rest may be anything. */
  lemma BadFrame(ck: Checksum, sum: uint32, body: Bytes, t: Bytes)
    requires |body| < 0x1_0000_0000 && ck(body) != sum
    ensures ReadFrame(ck, LE(|body|, 4) + (LE(sum, 4) + body) + t) == Corrupt
  {
    var d := LE(|body|, 4) + (LE(sum, 4) + body) + t;
    Powers();
    UnLEFits(|body|, 4);
    UnLEFits(sum, 4);
    assert d[..4] == LE(|body|, 4);
    assert d[4..8] == LE(sum, 4);
    assert d[8..][..|body|] == body;
  }

  lemma FrameExtends(ck: Checksum, d: Bytes, x: Bytes)
    ensures ReadFrame(ck, d).Next? ==> ReadFrame(ck, d + x) == Next(ReadFrame(ck, d).record, ReadFrame(ck, d).rest + x)
    ensures ReadFrame(ck, d).Corrupt? ==> ReadFrame(ck, d + x).Corrupt?
  {
    if |d| >= 8 {
      assert (d + x)[..4] == d[..4] && (d + x)[4..8] == d[4..8] && (d + x)[8..] == d[8..] + x;
      var n, body := UnLE(d[..4]), d[8..];
      if n <= |body| {
        assert (body + x)[..n] == body[..n] && (body + x)[n..] == body[n..] + x;
      }
    }
  }

  // ---------- Whole segments ----------

  /** Appending to any segment: seen by a reader exactly when it got to the end of what was there before.
      Behind a corrupted frame everything appended later is lost with it. */
  lemma {:induction false} ScanAppend(ck: Checksum, d: Bytes, x: Bytes)
    ensures Scan(ck, d).ending.Clean? ==>
              Scan(ck, d + x) == Scanned(Scan(ck, d).records + Scan(ck, x).records, Scan(ck, x).ending)
    ensures Scan(ck, d).ending.Corrupted? ==> Scan(ck, d + x) == Scan(ck, d)
    ensures Scan(ck, d).records <= Scan(ck, d + x).records
    decreases |d|
  {
    hide ReadFrame;
    FrameExtends(ck, d, x);
    match ReadFrame(ck, d) {
      case Eof => assert d + x == x;
      case Corrupt =>
      case Broken =>
      case Next(r, rest) =>
        ScanAppend(ck, rest, x);
    }
  }

  lemma ScanFrame(ck: Checksum, r: Record, e: Bytes, t: Bytes)
    requires Encodes(e, r) && Storable(r)
    ensures Scan(ck, Frame(ck, e) + t) == Scanned([Cut(r)] + Scan(ck, t).records, Scan(ck, t).ending)
  {
    WholeFrame(ck, r, e, t);
  }

  lemma ScanOneFrame(ck: Checksum, r: Record, e: Bytes)
    requires Encodes(e, r) && Storable(r)
    ensures Scan(ck, Frame(ck, e)) == Scanned([Cut(r)], Clean)
  {
    ScanFrame(ck, r, e, []);
    assert Frame(ck, e) + [] == Frame(ck, e);
  }

  lemma {:induction false} ScanFrames(ck: Checksum, rs: seq<Record>, es: seq<Bytes>, t: Bytes)
    requires EncodesAll(es, rs) && AllStorable(rs)
    ensures Scan(ck, Frames(ck, es) + t) == Scanned(Cuts(rs) + Scan(ck, t).records, Scan(ck, t).ending)
    decreases |rs|
  {
    hide ReadFrame, Cut, Encodes, Storable, Frame, Scan;
    if rs == [] {
      assert Frames(ck, es) + t == t;
    } else {
      var rest := Frames(ck, es[1..]) + t;
      assert Frames(ck, es) + t == Frame(ck, es[0]) + rest;
      ScanFrame(ck, rs[0], es[0], rest);
      ScanFrames(ck, rs[1..], es[1..], t);
    }
  }

  lemma {:induction false} FramesAppend(ck: Checksum, es: seq<Bytes>, e: Bytes)
    ensures Frames(ck, es + [e]) == Frames(ck, es) + Frame(ck, e)
    decreases |es|
  {
    if es != [] {
      FramesAppend(ck, es[1..], e);
      assert (es + [e])[1..] == es[1..] + [e];
    }
  }

  lemma ScanNothing(ck: Checksum)
    ensures Scan(ck, []) == Scanned([], Clean)
  {
  }

  lemma ScanCutFrame(ck: Checksum, e: Bytes, k: nat)
    requires |e| < 0x1_0000_0000 && 0 < k < 8 + |e|
    ensures Scan(ck, Frame(ck, e)[..k]) == Scanned([], Failed)
  {
    CutFrame(ck, e, k);
  }

  /** How many whole frames the first `k` bytes hold. */
  function WholeFrames(ck: Checksum, es: seq<Bytes>, k: nat): (j: nat)
    ensures j <= |es| && |Frames(ck, es[..j])| <= k
    ensures j < |es| ==> k < |Frames(ck, es[..j + 1])|
  {
    if es == [] || k < |Frame(ck, es[0])| then
      assert es != [] ==> es[..1][1..] == [] && Frames(ck, es[..1]) == Frame(ck, es[0]) + [];
      0
    else
      var j := WholeFrames(ck, es[1..], k - |Frame(ck, es[0])|);
      assert es[..j + 1][1..] == es[1..][..j];
      assert j < |es[1..]| ==> es[..j + 2][1..] == es[1..][..j + 1];
      1 + j
  }

  /** What a reader should find in the first `k` bytes. */
  ghost function Survivors(ck: Checksum, rs: seq<Record>, es: seq<Bytes>, k: nat): Scanned
    requires |es| == |rs|
  {
    var j := WholeFrames(ck, es, k);
    Scanned(Cuts(rs[..j]), if k == |Frames(ck, es[..j])| then Clean else Failed)
  }

  /** A segment cut at any byte delivers exactly the frames it still holds whole. It ends cleanly only where the
      cut falls between two frames; anywhere else the reader reports an error. */
  lemma {:induction false} CutSegment(ck: Checksum, rs: seq<Record>, es: seq<Bytes>, k: nat)
    requires EncodesAll(es, rs) && AllStorable(rs) && k <= |Frames(ck, es)|
    ensures Scan(ck, Frames(ck, es)[..k]) == Survivors(ck, rs, es, k)
    decreases |rs|
  {
    hide ReadFrame, Cut, Encodes, Storable, Frame, Scan;
    var d := Frames(ck, es);
    ScanNothing(ck);
    if rs == [] {
      assert d[..k] == [];
    } else {
      var f := Frame(ck, es[0]);
      if k < |f| {
        assert d[..k] == f[..k];
        assert |es[0]| < 0x1_0000_0000 by {
          StorableSize(rs[0], es[0]);
        }
        if k == 0 {
          assert d[..k] == [];
        } else {
          ScanCutFrame(ck, es[0], k);
        }
      } else {
        var j := WholeFrames(ck, es[1..], k - |f|);
        assert d[..k] == f + Frames(ck, es[1..])[..k - |f|];
        ScanFrame(ck, rs[0], es[0], Frames(ck, es[1..])[..k - |f|]);
        CutSegment(ck, rs[1..], es[1..], k - |f|);
        assert rs[..j + 1][1..] == rs[1..][..j];
        assert es[..j + 1][1..] == es[1..][..j];
      }
    }
  }

  /** A frame that fails its checksum takes the rest of its segment with it, and nothing before it. */
  lemma CorruptedSegment(ck: Checksum, rs: seq<Record>, es: seq<Bytes>, sum: uint32, body: Bytes, t: Bytes)
    requires EncodesAll(es, rs) && AllStorable(rs)
    requires |body| < 0x1_0000_0000 && ck(body) != sum
    ensures Scan(ck, Frames(ck, es) + (LE(|body|, 4) + (LE(sum, 4) + body) + t)) == Scanned(Cuts(rs), Corrupted)
  {
    var bad := LE(|body|, 4) + (LE(sum, 4) + body) + t;
    BadFrame(ck, sum, body, t);
    ScanFrames(ck, rs, es, bad);
    assert Scan(ck, bad) == Scanned([], Corrupted);
    assert Cuts(rs) + [] == Cuts(rs);
  }
}
