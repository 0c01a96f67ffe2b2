/** The binary form of a log record (internal/wal/record.go). */
module Codec {
  import opened Binary
  import opened Seqs

  const ENQUEUE: byte := 1
  const ACK: byte := 2
  const NACK: byte := 3
  const REQUEUE: byte := 4
  const TOMBSTONE: byte := 5

  const NS_PER_MS := 1_000_000

  /** `eta` is in nanoseconds since the Unix epoch and may be negative. */
  datatype Record = Record(
    kind: byte, queue: Bytes, jobId: Bytes, payload: Bytes, headers: map<Bytes, Bytes>,
    priority: byte, tries: uint32, maxRetries: uint32, eta: int, leaseId: Bytes, reason: Bytes)

  /** The millisecond a time falls in: floored, also before the epoch. */
  function UnixMilli(eta: int): int {
    eta / NS_PER_MS
  }

  /** What the log can keep of a record: everything but the sub-millisecond part of its ETA. */
  function Durable(r: Record): Record {
    r.(eta := UnixMilli(r.eta) * NS_PER_MS)
  }

  predicate Short(s: Bytes) {
    |s| < 0x1_0000
  }

  predicate ShortHeaders(h: map<Bytes, Bytes>) {
    forall k :: k in h ==> Short(k) && Short(h[k])
  }

  /** Every field but the reason is within what its length prefix or cast can carry. */
  predicate FitsUpToReason(r: Record) {
    && Short(r.queue) && Short(r.jobId) && Short(r.leaseId)
    && |r.payload| < 0x1_0000_0000
    && |r.headers| < 0x1_0000 && ShortHeaders(r.headers)
    && -TWO_63 <= UnixMilli(r.eta) < TWO_63
  }

  predicate Fits(r: Record) {
    FitsUpToReason(r) && Short(r.reason)
  }

  // ---------- Encoding ----------

  function Str(s: Bytes, k: nat): (e: Bytes)
    ensures |e| == k + |s|
  {
    LE(|s|, k) + s
  }

  /** One of the orders in which Go may visit a map: each key once. */
  ghost predicate IsOrder(order: seq<Bytes>, h: map<Bytes, Bytes>) {
    Distinct(order) && Elems(order) == h.Keys
  }

  function EncodeHeader(k: Bytes, v: Bytes): Bytes {
    Str(k, 2) + Str(v, 2)
  }

  function EncodeHeaders(h: map<Bytes, Bytes>, order: seq<Bytes>): Bytes
    requires Elems(order) <= h.Keys
  {
    if order == [] then [] else EncodeHeader(order[0], h[order[0]]) + EncodeHeaders(h, order[1..])
  }

  function EncodeEnd(r: Record, order: seq<Bytes>): Bytes
    requires Elems(order) <= r.headers.Keys
  {
    LE(|r.headers|, 2) + (EncodeHeaders(r.headers, order) + (Str(r.leaseId, 2) + Str(r.reason, 2)))
  }

  function EncodeNumbers(r: Record): (e: Bytes)
    ensures |e| == 17
  {
    LE(r.priority, 1) + (LE(r.tries, 4) + (LE(r.maxRetries, 4) + LE(ToUint64(UnixMilli(r.eta)), 8)))
  }

  function EncodeNames(r: Record): Bytes {
    LE(r.kind, 1) + (Str(r.queue, 2) + Str(r.jobId, 2))
  }

  function Encode(r: Record, order: seq<Bytes>): Bytes
    requires Elems(order) <= r.headers.Keys
  {
    EncodeNames(r) + (EncodeNumbers(r) + (Str(r.payload, 4) + EncodeEnd(r, order)))
  }

  /** `e` is what Marshal may produce for `r`, in one of the header orders. */
  ghost predicate Encodes(e: Bytes, r: Record) {
    exists order :: IsOrder(order, r.headers) && e == Encode(r, order)
  }

  /** The bytes that the headers under `ks` take. */
  ghost function SizeOver(h: map<Bytes, Bytes>, ks: set<Bytes>): nat
    requires ks <= h.Keys
  {
    if ks == {} then 0
    else
      var k :| k in ks;
      4 + |k| + |h[k]| + SizeOver(h, ks - {k})
  }

  ghost function HeaderSize(h: map<Bytes, Bytes>): nat {
    SizeOver(h, h.Keys)
  }

  ghost function RecordSize(r: Record): nat {
    32 + |r.queue| + |r.jobId| + |r.payload| + HeaderSize(r.headers) + |r.leaseId| + |r.reason|
  }

  // ---------- Decoding ----------

  datatype Parsed<+T> = Bad | Got(value: T, rest: Bytes) {
    predicate IsFailure() { Bad? }
    function PropagateFailure<U>(): Parsed<U> requires Bad? { Bad }
    function Extract(): (T, Bytes) requires Got? { (value, rest) }
  }

  function TakeBytes(d: Bytes, n: nat): (p: Parsed<Bytes>)
    ensures p.Got? ==> |p.rest| == |d| - n && |p.value| == n
  {
    if n > |d| then Bad else Got(d[..n], d[n..])
  }

  function TakeInt(d: Bytes, k: nat): (p: Parsed<nat>)
    ensures p.Got? ==> p.value < Pow256(k) && |p.rest| == |d| - k
  {
    if k > |d| then Bad else Got(UnLE(d[..k]), d[k..])
  }

  function TakeStr(d: Bytes, k: nat): (p: Parsed<Bytes>)
    ensures p.Got? ==> |p.value| < Pow256(k) && |p.rest| == |d| - k - |p.value|
  {
    var (n, d1) :- TakeInt(d, k);
    TakeBytes(d1, n)
  }

  function TakeHeaders(d: Bytes, n: nat, h: map<Bytes, Bytes>): (p: Parsed<map<Bytes, Bytes>>)
    ensures p.Got? ==> |p.rest| <= |d|
    decreases n
  {
    if n == 0 then Got(h, d)
    else
      var (k, d1) :- TakeStr(d, 2);
      var (v, d2) :- TakeStr(d1, 2);
      TakeHeaders(d2, n - 1, h[k := v])
  }

  datatype Names = Names(kind: byte, queue: Bytes, jobId: Bytes)

  function TakeNames(d: Bytes): (p: Parsed<Names>)
    ensures p.Got? ==> |p.rest| == |d| - 5 - |p.value.queue| - |p.value.jobId|
  {
    Powers();
    var (kind, d1) :- TakeInt(d, 1);
    var (queue, d2) :- TakeStr(d1, 2);
    var (jobId, d3) :- TakeStr(d2, 2);
    Got(Names(kind, queue, jobId), d3)
  }

  datatype Numbers = Numbers(priority: byte, tries: uint32, maxRetries: uint32, eta: int)

  function TakeNumbers(d: Bytes): (p: Parsed<Numbers>)
    ensures p.Got? ==> |p.rest| == |d| - 17
  {
    Powers();
    var (priority, d1) :- TakeInt(d, 1);
    var (tries, d2) :- TakeInt(d1, 4);
    var (maxRetries, d3) :- TakeInt(d2, 4);
    var (eta, d4) :- TakeInt(d3, 8);
    Got(Numbers(priority, tries, maxRetries, FromUint64(eta) * NS_PER_MS), d4)
  }

  datatype End = End(headers: map<Bytes, Bytes>, leaseId: Bytes, reason: Bytes)

  function TakeEnd(d: Bytes): (p: Parsed<End>)
    ensures p.Got? ==> |p.rest| <= |d|
  {
    var (n, d1) :- TakeInt(d, 2);
    var (headers, d2) :- TakeHeaders(d1, n, map[]);
    var (leaseId, d3) :- TakeStr(d2, 2);
    var (reason, d4) :- TakeStr(d3, 2);
    Got(End(headers, leaseId, reason), d4)
  }

  datatype Body = Body(numbers: Numbers, payload: Bytes, end: End)

  function TakeBody(d: Bytes): (p: Parsed<Body>)
    ensures p.Got? ==> |p.rest| <= |d|
  {
    var (numbers, d1) :- TakeNumbers(d);
    var (payload, d2) :- TakeStr(d1, 4);
    var (end, d3) :- TakeEnd(d2);
    Got(Body(numbers, payload, end), d3)
  }

  function Assemble(a: Names, b: Body): Record {
    var n, e := b.numbers, b.end;
    Record(a.kind, a.queue, a.jobId, b.payload, e.headers,
           n.priority, n.tries, n.maxRetries, n.eta, e.leaseId, e.reason)
  }

  /** The record at the front of `d` and the bytes after it. */
  function Parse(d: Bytes): (p: Parsed<Record>)
    ensures p.Got? ==> |p.rest| <= |d|
  {
    var (a, d1) :- TakeNames(d);
    var (b, d2) :- TakeBody(d1);
    Got(Assemble(a, b), d2)
  }

  // ---------- Round trip ----------

  lemma TakeIntOfLE(n: nat, k: nat, t: Bytes)
    ensures TakeInt(LE(n, k) + t, k) == Got(UnLE(LE(n, k)), t)
  {
    var d := LE(n, k) + t;
    assert d[..k] == LE(n, k) && d[k..] == t;
  }

  /** A string longer than its prefix can say is cut: the remainder spills into what follows. */
  lemma TakeStrOfStr(s: Bytes, k: nat, t: Bytes, n: nat)
    requires n == UnLE(LE(|s|, k)) && n <= |s|
    ensures TakeStr(Str(s, k) + t, k) == Got(s[..n], s[n..] + t)
  {
    assert Str(s, k) + t == LE(|s|, k) + (s + t);
    TakeIntOfLE(|s|, k, s + t);
    assert (s + t)[..n] == s[..n] && (s + t)[n..] == s[n..] + t;
  }

  lemma TakeWholeStr(s: Bytes, k: nat, t: Bytes)
    requires |s| < Pow256(k)
    ensures TakeStr(Str(s, k) + t, k) == Got(s, t)
  {
    UnLEFits(|s|, k);
    TakeStrOfStr(s, k, t, |s|);
    assert s[..|s|] == s && s[|s|..] + t == t;
  }

  /** The header map as Unmarshal fills it, entry by entry. */
  function AddAll(acc: map<Bytes, Bytes>, h: map<Bytes, Bytes>, order: seq<Bytes>): map<Bytes, Bytes>
    requires Elems(order) <= h.Keys
    decreases |order|
  {
    if order == [] then acc else AddAll(acc[order[0] := h[order[0]]], h, order[1..])
  }

  lemma {:induction false} AddAllIs(acc: map<Bytes, Bytes>, h: map<Bytes, Bytes>, order: seq<Bytes>)
    requires Elems(order) <= h.Keys
    ensures AddAll(acc, h, order) == acc + map k | k in order :: h[k]
    decreases |order|
  {
    if order != [] {
      AddAllIs(acc[order[0] := h[order[0]]], h, order[1..]);
    }
  }

  lemma {:induction false} TakeEncodedHeaders(h: map<Bytes, Bytes>, order: seq<Bytes>, t: Bytes, acc: map<Bytes, Bytes>)
    requires ShortHeaders(h) && Elems(order) <= h.Keys
    ensures TakeHeaders(EncodeHeaders(h, order) + t, |order|, acc) == Got(AddAll(acc, h, order), t)
    decreases |order|
  {
    if order == [] {
      assert EncodeHeaders(h, order) + t == t;
    } else {
      Powers();
      var k, v := order[0], h[order[0]];
      var rest := EncodeHeaders(h, order[1..]) + t;
      assert EncodeHeaders(h, order) + t == Str(k, 2) + (Str(v, 2) + rest);
      TakeWholeStr(k, 2, Str(v, 2) + rest);
      TakeWholeStr(v, 2, rest);
      TakeEncodedHeaders(h, order[1..], t, acc[k := v]);
    }
  }

  lemma TakeEncodedNames(r: Record, t: Bytes)
    requires Short(r.queue) && Short(r.jobId)
    ensures TakeNames(EncodeNames(r) + t) == Got(Names(r.kind, r.queue, r.jobId), t)
  {
    Powers();
    var d2 := Str(r.jobId, 2) + t;
    var d1 := Str(r.queue, 2) + d2;
    assert EncodeNames(r) + t == LE(r.kind, 1) + d1;
    TakeIntOfLE(r.kind, 1, d1);
    UnLEFits(r.kind, 1);
    TakeWholeStr(r.queue, 2, d2);
    TakeWholeStr(r.jobId, 2, t);
  }

  lemma Uint64RoundTrip(x: int)
    ensures FromUint64(ToUint64(x)) == x <==> -TWO_63 <= x < TWO_63
  {
  }

  lemma TakeEncodedNumbers(r: Record, t: Bytes)
    requires -TWO_63 <= UnixMilli(r.eta) < TWO_63
    ensures TakeNumbers(EncodeNumbers(r) + t)
         == Got(Numbers(r.priority, r.tries, r.maxRetries, Durable(r).eta), t)
  {
    Powers();
    var u := ToUint64(UnixMilli(r.eta));
    var d3 := LE(u, 8) + t;
    var d2 := LE(r.maxRetries, 4) + d3;
    var d1 := LE(r.tries, 4) + d2;
    assert EncodeNumbers(r) + t == LE(r.priority, 1) + d1;
    TakeIntOfLE(r.priority, 1, d1);
    TakeIntOfLE(r.tries, 4, d2);
    TakeIntOfLE(r.maxRetries, 4, d3);
    TakeIntOfLE(u, 8, t);
    UnLEFits(r.priority, 1);
    UnLEFits(r.tries, 4);
    UnLEFits(r.maxRetries, 4);
    UnLEFits(u, 8);
    Uint64RoundTrip(UnixMilli(r.eta));
  }

  lemma TakeEncodedEnd(r: Record, order: seq<Bytes>, t: Bytes, n: nat)
    requires IsOrder(order, r.headers) && ShortHeaders(r.headers) && |r.headers| < 0x1_0000
    requires Short(r.leaseId) && n == UnLE(LE(|r.reason|, 2)) && n <= |r.reason|
    ensures TakeEnd(EncodeEnd(r, order) + t) == Got(End(r.headers, r.leaseId, r.reason[..n]), r.reason[n..] + t)
  {
    hide TakeStr, TakeInt, TakeHeaders, LE, Str, EncodeHeaders, AddAll;
    Powers();
    DistinctLength(order);
    var d3 := Str(r.reason, 2) + t;
    var d2 := Str(r.leaseId, 2) + d3;
    var d1 := EncodeHeaders(r.headers, order) + d2;
    assert EncodeEnd(r, order) + t == LE(|r.headers|, 2) + d1;
    TakeIntOfLE(|r.headers|, 2, d1);
    UnLEFits(|r.headers|, 2);
    TakeEncodedHeaders(r.headers, order, d2, map[]);
    AddAllIs(map[], r.headers, order);
    assert map[] + (map k | k in order :: r.headers[k]) == r.headers;
    TakeWholeStr(r.leaseId, 2, d3);
    TakeStrOfStr(r.reason, 2, t, n);
  }

  /** The reason is the last field, so one longer than its prefix can say is cut, and only that. */
  function Cut(r: Record): Record {
    Durable(r).(reason := r.reason[..|r.reason| % 0x1_0000])
  }

  /** The bytes an over-long reason leaves behind the record. */
  function Spill(r: Record): Bytes {
    r.reason[|r.reason| % 0x1_0000..]
  }

  lemma ReasonLength(n: nat)
    ensures UnLE(LE(n, 2)) == n % 0x1_0000 <= n
  {
    Powers();
    UnLEOfLE(n, 2);
  }

  /** What a reader gets back from any encoding of `r`, whatever follows it. */
  lemma ParseOfEncode(r: Record, order: seq<Bytes>, t: Bytes)
    requires IsOrder(order, r.headers) && FitsUpToReason(r)
    ensures Parse(Encode(r, order) + t) == Got(Cut(r), Spill(r) + t)
  {
    hide TakeNames, TakeNumbers, TakeStr, TakeEnd, EncodeNames, EncodeNumbers, EncodeEnd, Str;
    Powers();
    ReasonLength(|r.reason|);
    var d3 := EncodeEnd(r, order) + t;
    var d2 := Str(r.payload, 4) + d3;
    var d1 := EncodeNumbers(r) + d2;
    assert Encode(r, order) + t == EncodeNames(r) + d1;
    TakeEncodedNames(r, d1);
    TakeEncodedNumbers(r, d2);
    TakeWholeStr(r.payload, 4, d3);
    TakeEncodedEnd(r, order, t, |r.reason| % 0x1_0000);
  }

  // ---------- The encoding is prefix-free ----------

  /** `q` is what a parser made of `p`'s input with `t` appended: it finds what `p` found, and it finds
      nothing that `p` missed unless it read into `t`. */
  predicate Extends<T(==)>(p: Parsed<T>, q: Parsed<T>, t: Bytes) {
    && (p.Got? ==> q == Got(p.value, p.rest + t))
    && (q.Got? && |q.rest| >= |t| ==> p.Got?)
  }

  lemma StrExtends(d: Bytes, t: Bytes, k: nat)
    ensures Extends(TakeInt(d, k), TakeInt(d + t, k), t)
    ensures Extends(TakeStr(d, k), TakeStr(d + t, k), t)
  {
    if k <= |d| {
      assert (d + t)[..k] == d[..k] && (d + t)[k..] == d[k..] + t;
      var n, e := UnLE(d[..k]), d[k..];
      if n <= |e| {
        assert (e + t)[..n] == e[..n] && (e + t)[n..] == e[n..] + t;
      }
    }
  }

  lemma {:induction false} HeadersExtend(d: Bytes, t: Bytes, n: nat, h: map<Bytes, Bytes>)
    ensures Extends(TakeHeaders(d, n, h), TakeHeaders(d + t, n, h), t)
    decreases n
  {
    hide TakeStr;
    if n > 0 {
      StrExtends(d, t, 2);
      var k := TakeStr(d, 2);
      if k.Got? {
        StrExtends(k.rest, t, 2);
        var v := TakeStr(k.rest, 2);
        if v.Got? {
          HeadersExtend(v.rest, t, n - 1, h[k.value := v.value]);
        }
      }
    }
  }

  lemma NamesExtend(d: Bytes, t: Bytes)
    ensures Extends(TakeNames(d), TakeNames(d + t), t)
  {
    hide TakeStr;
    StrExtends(d, t, 1);
    var a := TakeInt(d, 1);
    if a.Got? {
      StrExtends(a.rest, t, 2);
      var b := TakeStr(a.rest, 2);
      if b.Got? {
        StrExtends(b.rest, t, 2);
      }
    }
  }

  lemma NumbersExtend(d: Bytes, t: Bytes)
    ensures Extends(TakeNumbers(d), TakeNumbers(d + t), t)
  {
    if |d| >= 17 {
      StrExtends(d, t, 1);
      StrExtends(d[1..], t, 4);
      StrExtends(d[1..][4..], t, 4);
      StrExtends(d[1..][4..][4..], t, 8);
    }
  }

  lemma EndExtends(d: Bytes, t: Bytes)
    ensures Extends(TakeEnd(d), TakeEnd(d + t), t)
  {
    hide TakeStr, TakeInt, TakeHeaders;
    StrExtends(d, t, 2);
    var n := TakeInt(d, 2);
    if n.Got? {
      HeadersExtend(n.rest, t, n.value, map[]);
      var h := TakeHeaders(n.rest, n.value, map[]);
      if h.Got? {
        StrExtends(h.rest, t, 2);
        var l := TakeStr(h.rest, 2);
        if l.Got? {
          StrExtends(l.rest, t, 2);
        }
      }
    }
  }

  lemma BodyExtends(d: Bytes, t: Bytes)
    ensures Extends(TakeBody(d), TakeBody(d + t), t)
  {
    hide TakeNumbers, TakeStr, TakeEnd;
    NumbersExtend(d, t);
    var b := TakeNumbers(d);
    if b.Got? {
      StrExtends(b.rest, t, 4);
      var p := TakeStr(b.rest, 4);
      if p.Got? {
        EndExtends(p.rest, t);
      }
    }
  }

  lemma ParseExtends(d: Bytes, t: Bytes)
    ensures Extends(Parse(d), Parse(d + t), t)
  {
    hide TakeNames, TakeBody;
    NamesExtend(d, t);
    if TakeNames(d).Got? {
      BodyExtends(TakeNames(d).rest, t);
    }
  }

  /** On any byte string at all: the record found at its front is found in exactly those prefixes that
      hold the bytes it was read from, and always the same record. */
  lemma ParseReadsOnlyItsRecord(d: Bytes, k: nat)
    requires Parse(d).Got? && k <= |d|
    ensures Parse(d[..k]).Got? <==> k >= |d| - |Parse(d).rest|
    ensures Parse(d[..k]).Got? ==> Parse(d[..k]).value == Parse(d).value
  {
    hide Parse;
    assert d[..k] + d[k..] == d;
    ParseExtends(d[..k], d[k..]);
  }

  // ---------- Sizes, and what can be read at all ----------

  lemma {:induction false} SizeWithout(h: map<Bytes, Bytes>, ks: set<Bytes>, k: Bytes)
    requires k in ks && ks <= h.Keys
    ensures SizeOver(h, ks) == 4 + |k| + |h[k]| + SizeOver(h, ks - {k})
    decreases |ks|
  {
    var c :| c in ks && SizeOver(h, ks) == 4 + |c| + |h[c]| + SizeOver(h, ks - {c});
    if c != k {
      SizeWithout(h, ks - {c}, k);
      SizeWithout(h, ks - {k}, c);
      assert ks - {c} - {k} == ks - {k} - {c};
    }
  }

  lemma {:induction false} SameSize(h: map<Bytes, Bytes>, h': map<Bytes, Bytes>, ks: set<Bytes>)
    requires ks <= h.Keys && ks <= h'.Keys && forall k :: k in ks ==> h[k] == h'[k]
    ensures SizeOver(h, ks) == SizeOver(h', ks)
    decreases |ks|
  {
    if ks != {} {
      var k :| k in ks;
      SizeWithout(h, ks, k);
      SizeWithout(h', ks, k);
      SameSize(h, h', ks - {k});
    }
  }

  lemma HeaderSizeWith(h: map<Bytes, Bytes>, k: Bytes, v: Bytes)
    ensures HeaderSize(h[k := v]) <= HeaderSize(h) + 4 + |k| + |v|
  {
    var h' := h[k := v];
    assert h'.Keys == h.Keys + {k};
    SizeWithout(h', h'.Keys, k);
    SameSize(h, h', h.Keys - {k});
    assert h'.Keys - {k} == h.Keys - {k};
    if k in h {
      SizeWithout(h, h.Keys, k);
    } else {
      assert h.Keys - {k} == h.Keys;
    }
  }

  lemma {:induction false} EncodedHeadersSize(h: map<Bytes, Bytes>, order: seq<Bytes>)
    requires Distinct(order) && Elems(order) <= h.Keys
    ensures |EncodeHeaders(h, order)| == SizeOver(h, Elems(order))
    decreases |order|
  {
    if order != [] {
      var k := order[0];
      EncodedHeadersSize(h, order[1..]);
      assert Elems(order) - {k} == Elems(order[1..]);
      SizeWithout(h, Elems(order), k);
    }
  }

  /** The size does not depend on the order in which the headers are visited. */
  lemma EncodedSize(r: Record, order: seq<Bytes>)
    requires IsOrder(order, r.headers)
    ensures |Encode(r, order)| == RecordSize(r)
  {
    EncodedHeadersSize(r.headers, order);
  }

  lemma HeaderAdded(h: map<Bytes, Bytes>, k: Bytes, v: Bytes)
    requires ShortHeaders(h) && Short(k) && Short(v)
    ensures ShortHeaders(h[k := v]) && |h[k := v]| <= |h| + 1
    ensures HeaderSize(h[k := v]) <= HeaderSize(h) + 4 + |k| + |v|
  {
    HeaderSizeWith(h, k, v);
    assert h[k := v].Keys == h.Keys + {k};
  }

  lemma {:induction false} HeadersRead(d: Bytes, n: nat, h: map<Bytes, Bytes>)
    requires ShortHeaders(h) && TakeHeaders(d, n, h).Got?
    ensures var p := TakeHeaders(d, n, h);
            && ShortHeaders(p.value) && |p.value| <= |h| + n
            && HeaderSize(p.value) + |p.rest| <= HeaderSize(h) + |d|
    decreases n
  {
    if n > 0 {
      var k := TakeStr(d, 2);
      var v := TakeStr(k.rest, 2);
      var h' := h[k.value := v.value];
      HeaderAdded(h, k.value, v.value) by {
        Powers();
      }
      HeadersRead(v.rest, n - 1, h');
    }
  }

  lemma UnixMilliOfMillis(ms: int)
    ensures UnixMilli(ms * NS_PER_MS) == ms
  {
  }

  lemma EndRead(d: Bytes)
    requires TakeEnd(d).Got?
    ensures var p := TakeEnd(d);
            && ShortHeaders(p.value.headers) && |p.value.headers| < 0x1_0000
            && Short(p.value.leaseId) && Short(p.value.reason)
            && 6 + HeaderSize(p.value.headers) + |p.value.leaseId| + |p.value.reason| + |p.rest| <= |d|
  {
    Powers();
    var n := TakeInt(d, 2);
    HeadersRead(n.rest, n.value, map[]);
  }

  lemma NumbersRead(d: Bytes)
    requires TakeNumbers(d).Got?
    ensures var eta := TakeNumbers(d).value.eta;
            -TWO_63 <= UnixMilli(eta) < TWO_63 && UnixMilli(eta) * NS_PER_MS == eta
  {
    Powers();
    UnixMilliOfMillis(FromUint64(UnLE(d[1..][4..][4..][..8])));
  }

  /** Whatever bytes it came from, a record that was read fits the format, is unchanged by a further trip
      through it, and takes no more room than the bytes it was read from. */
  lemma ReadRecordsFit(d: Bytes)
    requires Parse(d).Got?
    ensures var p := Parse(d);
            Fits(p.value) && Durable(p.value) == p.value && RecordSize(p.value) + |p.rest| <= |d|
  {
    Powers();
    var d1 := TakeNames(d).rest;
    NumbersRead(d1);
    EndRead(TakeStr(TakeNumbers(d1).rest, 4).rest);
  }

  // ---------- The main results ----------

  lemma DurableFits(r: Record)
    ensures Fits(Durable(r)) <==> Fits(r)
  {
    UnixMilliOfMillis(UnixMilli(r.eta));
  }

  lemma FittingIsUncut(r: Record)
    requires Fits(r)
    ensures Cut(r) == Durable(r) && Spill(r) == []
  {
    assert r.reason[..|r.reason|] == r.reason;
  }

  lemma RoundTrip(r: Record, order: seq<Bytes>, t: Bytes)
    requires IsOrder(order, r.headers) && Fits(r)
    ensures Parse(Encode(r, order) + t) == Got(Durable(r), t)
  {
    ParseOfEncode(r, order, t);
    FittingIsUncut(r);
    assert [] + t == t;
  }

  /** The codec is lossless, up to the millisecond and in every header order, on exactly the records whose
      fields fit it. */
  lemma RoundTripExactlyWhenFits(r: Record, order: seq<Bytes>)
    requires IsOrder(order, r.headers)
    ensures Parse(Encode(r, order)) == Got(Durable(r), []) <==> Fits(r)
  {
    hide Parse, Encode;
    var e := Encode(r, order);
    if Fits(r) {
      RoundTrip(r, order, []);
      assert e + [] == e;
    } else if Parse(e) == Got(Durable(r), []) {
      ReadRecordsFit(e);
      DurableFits(r);
    }
  }

  /** No strict prefix of an encoding is readable, and bytes after it are not looked at. */
  lemma PrefixFree(r: Record, order: seq<Bytes>, k: nat, t: Bytes)
    requires IsOrder(order, r.headers) && Fits(r)
    ensures k < |Encode(r, order)| ==> Parse(Encode(r, order)[..k]).Bad?
    ensures Parse(Encode(r, order) + t) == Got(Durable(r), t)
  {
    hide Parse, Encode;
    var e := Encode(r, order);
    RoundTripExactlyWhenFits(r, order);
    if k < |e| {
      ParseReadsOnlyItsRecord(e, k);
    }
    RoundTrip(r, order, t);
  }
}
