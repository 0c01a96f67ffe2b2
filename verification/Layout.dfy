/** The log's formats byte by byte (internal/wal/record.go, internal/wal/segment.go). */
module Layout {
  import opened Binary
  import opened Seqs
  import opened Codec
  import opened Framing

  // The unsigned integers of encoding/binary.LittleEndian; what does not fit is dropped.

  function Two(n: nat): Bytes {
    [n % 0x100, n / 0x100 % 0x100]
  }

  function Four(n: nat): Bytes {
    [n % 0x100, n / 0x100 % 0x100, n / 0x1_0000 % 0x100, n / 0x100_0000 % 0x100]
  }

  function Eight(n: nat): Bytes {
    Four(n) + Four(n / 0x1_0000_0000)
  }

  lemma LEOne(n: nat)
    ensures LE(n, 1) == [n % 0x100]
  {
  }

  lemma LETwo(n: nat)
    ensures LE(n, 2) == Two(n)
  {
    LEOne(n / 0x100);
  }

  lemma LEFour(n: nat)
    ensures LE(n, 4) == Four(n)
  {
    LETwo(n / 0x100 / 0x100);
    assert LE(n, 4) == [n % 0x100] + ([n / 0x100 % 0x100] + LE(n / 0x100 / 0x100, 2));
    assert n / 0x100 / 0x100 == n / 0x1_0000 && n / 0x1_0000 / 0x100 == n / 0x100_0000;
  }

  lemma LEMore(n: nat, k: nat)
    ensures LE(n, k + 2) == Two(n) + LE(n / 0x1_0000, k)
  {
    assert LE(n, k + 2) == [n % 0x100] + ([n / 0x100 % 0x100] + LE(n / 0x100 / 0x100, k));
    assert n / 0x100 / 0x100 == n / 0x1_0000;
  }

  lemma LEEight(n: nat)
    ensures LE(n, 8) == Eight(n)
  {
    var m := n / 0x1_0000;
    LEMore(n, 6);
    LEMore(m, 4);
    LEMore(n, 2);
    LETwo(m);
    LEFour(m / 0x1_0000);
    LEFour(n);
    assert m / 0x1_0000 == n / 0x1_0000_0000;
    hide Two, Four, LE;
    assert Two(n) + (Two(m) + Four(m / 0x1_0000)) == (Two(n) + Two(m)) + Four(m / 0x1_0000);
  }

  lemma NamesLaidOut(r: Record)
    ensures EncodeNames(r) == [r.kind] + (Two(|r.queue|) + r.queue + (Two(|r.jobId|) + r.jobId))
  {
    LEOne(r.kind);
    LETwo(|r.queue|);
    LETwo(|r.jobId|);
  }

  lemma NumbersLaidOut(r: Record)
    ensures EncodeNumbers(r) == [r.priority] + (Four(r.tries) + (Four(r.maxRetries) + Eight(ToUint64(UnixMilli(r.eta)))))
  {
    LEOne(r.priority);
    LEFour(r.tries);
    LEFour(r.maxRetries);
    LEEight(ToUint64(UnixMilli(r.eta)));
    hide Four, Eight, LE;
  }

  lemma EndLaidOut(r: Record, order: seq<Bytes>)
    requires Elems(order) <= r.headers.Keys
    ensures EncodeEnd(r, order)
         == Two(|r.headers|) + (EncodeHeaders(r.headers, order) + (Two(|r.leaseId|) + r.leaseId + (Two(|r.reason|) + r.reason)))
  {
    LETwo(|r.headers|);
    LETwo(|r.leaseId|);
    LETwo(|r.reason|);
    hide Two, LE, EncodeHeaders;
  }

  /** Each header is a name and a value with a two-byte length each. */
  lemma HeadersLaidOut(h: map<Bytes, Bytes>, order: seq<Bytes>)
    requires Elems(order) <= h.Keys
    ensures order == [] ==> EncodeHeaders(h, order) == []
    ensures order != [] ==>
              && order[0] in h && Elems(order[1..]) <= h.Keys
              && var k, v := order[0], h[order[0]];
                 EncodeHeaders(h, order) == Two(|k|) + k + (Two(|v|) + v) + EncodeHeaders(h, order[1..])
  {
    if order != [] {
      LETwo(|order[0]|);
      LETwo(|h[order[0]]|);
      hide Two, LE;
    }
  }

  /** The encoding of any record, field after field: type, queue, job id, priority, tries, limit, ETA, payload, headers,
      lease id, reason. The ETA is the millisecond `ms` it falls in, in two's complement. */
  lemma LaidOut(r: Record, order: seq<Bytes>) returns (ms: int)
    requires Elems(order) <= r.headers.Keys
    ensures ms * 1_000_000 <= r.eta < (ms + 1) * 1_000_000
    ensures Encode(r, order)
         == [r.kind] + (Two(|r.queue|) + r.queue + (Two(|r.jobId|) + r.jobId))
            + ([r.priority] + (Four(r.tries) + (Four(r.maxRetries) + Eight(ms % 0x1_0000_0000_0000_0000)))
               + (Four(|r.payload|) + r.payload
                  + (Two(|r.headers|) + (EncodeHeaders(r.headers, order) + (Two(|r.leaseId|) + r.leaseId + (Two(|r.reason|) + r.reason))))))
  {
    ms := UnixMilli(r.eta);
    assert ToUint64(ms) == ms % 0x1_0000_0000_0000_0000;
    NamesLaidOut(r);
    NumbersLaidOut(r);
    EndLaidOut(r, order);
    LEFour(|r.payload|);
    hide Two, Four, Eight, LE, EncodeNames, EncodeNumbers, EncodeEnd, EncodeHeaders, ToUint64, UnixMilli;
  }

  /** A frame: length, checksum, data. */
  lemma FrameLaidOut(ck: Checksum, e: Bytes)
    ensures Frame(ck, e) == Four(|e|) + (Four(ck(e)) + e)
  {
    LEFour(|e|);
    LEFour(ck(e));
    hide Four, LE;
  }

  /** A byte string that is a frame with the right checksum but whose data is no record: an error, not a checksum error,
      so that replay stops there. */
  lemma UnreadableFrameBreaks(ck: Checksum, e: Bytes, t: Bytes)
    requires |e| < 0x1_0000_0000 && Parse(e).Bad?
    ensures ReadFrame(ck, Frame(ck, e) + t) == Broken
    ensures Scan(ck, Frame(ck, e) + t) == Scanned([], Failed)
  {
    hide Parse;
    FrameParts(ck, e, t);
    assert (e + t)[..|e|] == e;
    hide Frame;
  }
}
