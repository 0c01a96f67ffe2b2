/** Record.Marshal and Record.Unmarshal as the code performs them: a buffer filled, and a slice read, through a
    moving offset (internal/wal/record.go). */
module Marshalling {
  import opened Binary
  import opened Seqs
  import opened Codec

  /** What Unmarshal makes of `data`: trailing bytes are ignored. */
  function Decoded(data: Bytes): Option<Record> {
    match Parse(data)
    case Bad => None
    case Got(r, _) => Some(r)
  }

  // ---------- Writing ----------

  lemma RightNested(a: Bytes, b: Bytes, c: Bytes, d: Bytes, e: Bytes)
    ensures a + b + c + d + e == a + (b + (c + (d + e)))
  {
  }

  method PutLE(buf: array<byte>, offset: nat, n: nat, k: nat)
    requires offset + k <= buf.Length
    modifies buf
    ensures buf[..offset + k] == old(buf[..offset]) + LE(n, k)
  {
    var v := n;
    for i := 0 to k
      invariant buf[..offset] == old(buf[..offset])
      invariant buf[offset..offset + i] + LE(v, k - i) == LE(n, k)
    {
      ghost var before := buf[offset..offset + i];
      buf[offset + i] := v % 256;
      assert buf[offset..offset + i + 1] == before + [v % 256];
      v := v / 256;
    }
    assert buf[..offset + k] == buf[..offset] + buf[offset..offset + k];
  }

  method PutBytes(buf: array<byte>, offset: nat, s: Bytes)
    requires offset + |s| <= buf.Length
    modifies buf
    ensures buf[..offset + |s|] == old(buf[..offset]) + s
  {
    for i := 0 to |s|
      invariant buf[..offset + i] == old(buf[..offset]) + s[..i]
    {
      buf[offset + i] := s[i];
      assert buf[..offset + i + 1] == buf[..offset + i] + [s[i]];
    }
  }

  method PutStr(buf: array<byte>, offset: nat, s: Bytes, k: nat) returns (next: nat)
    requires offset + k + |s| <= buf.Length
    modifies buf
    ensures next == offset + k + |s|
    ensures buf[..next] == old(buf[..offset]) + Str(s, k)
  {
    PutLE(buf, offset, |s|, k);
    PutBytes(buf, offset + k, s);
    next := offset + k + |s|;
  }

  method PutNames(buf: array<byte>, r: Record) returns (next: nat)
    requires |EncodeNames(r)| <= buf.Length
    modifies buf
    ensures next == |EncodeNames(r)| && buf[..next] == EncodeNames(r)
  {
    PutLE(buf, 0, r.kind, 1);
    next := PutStr(buf, 1, r.queue, 2);
    next := PutStr(buf, next, r.jobId, 2);
  }

  method PutNumbers(buf: array<byte>, offset: nat, r: Record) returns (next: nat)
    requires offset + 17 <= buf.Length
    modifies buf
    ensures next == offset + 17 && buf[..next] == old(buf[..offset]) + EncodeNumbers(r)
  {
    ghost var done, eta := buf[..offset], ToUint64(UnixMilli(r.eta));
    PutLE(buf, offset, r.priority, 1);
    PutLE(buf, offset + 1, r.tries, 4);
    PutLE(buf, offset + 5, r.maxRetries, 4);
    PutLE(buf, offset + 9, ToUint64(UnixMilli(r.eta)), 8);
    next := offset + 17;
    RightNested(done, LE(r.priority, 1), LE(r.tries, 4), LE(r.maxRetries, 4), LE(eta, 8));
  }

  lemma {:induction false} EncodeOneMore(h: map<Bytes, Bytes>, order: seq<Bytes>, k: Bytes)
    requires Elems(order) <= h.Keys && k in h
    ensures Elems(order + [k]) <= h.Keys
    ensures EncodeHeaders(h, order + [k]) == EncodeHeaders(h, order) + EncodeHeader(k, h[k])
    decreases |order|
  {
    hide EncodeHeader;
    assert Elems(order + [k]) == Elems(order) + {k};
    if order == [] {
      assert EncodeHeaders(h, [k]) == EncodeHeader(k, h[k]) + EncodeHeaders(h, []);
    } else {
      EncodeOneMore(h, order[1..], k);
      assert (order + [k])[1..] == order[1..] + [k];
      Associative(EncodeHeader(order[0], h[order[0]]), EncodeHeaders(h, order[1..]), EncodeHeader(k, h[k]));
    }
  }

  ghost predicate Visited(order: seq<Bytes>, todo: set<Bytes>, h: map<Bytes, Bytes>) {
    todo <= h.Keys && Elems(order) == h.Keys - todo && Distinct(order)
  }

  lemma VisitOne(order: seq<Bytes>, todo: set<Bytes>, h: map<Bytes, Bytes>, k: Bytes)
    requires Visited(order, todo, h) && k in todo
    ensures Visited(order + [k], todo - {k}, h)
  {
    assert Elems(order + [k]) == Elems(order) + {k};
    assert k !in Elems(order);
  }

  method PutHeader(buf: array<byte>, offset: nat, k: Bytes, v: Bytes) returns (next: nat)
    requires offset + 4 + |k| + |v| <= buf.Length
    modifies buf
    ensures next == offset + 4 + |k| + |v|
    ensures buf[..next] == old(buf[..offset]) + EncodeHeader(k, v)
  {
    next := PutStr(buf, offset, k, 2);
    next := PutStr(buf, next, v, 2);
  }

  method PutHeaders(buf: array<byte>, offset: nat, h: map<Bytes, Bytes>) returns (next: nat, ghost order: seq<Bytes>)
    requires offset + HeaderSize(h) <= buf.Length
    modifies buf
    ensures IsOrder(order, h) && next == offset + HeaderSize(h)
    ensures buf[..next] == old(buf[..offset]) + EncodeHeaders(h, order)
  {
    next, order := offset, [];
    var todo := h.Keys;
    while todo != {}
      invariant Visited(order, todo, h)
      invariant next + SizeOver(h, todo) == offset + HeaderSize(h)
      invariant buf[..next] == old(buf[..offset]) + EncodeHeaders(h, order)
      decreases |todo|
    {
      var k :| k in todo;
      assert SizeOver(h, todo) >= 4 + |k| + |h[k]| by { SizeWithout(h, todo, k); }
      next := PutHeader(buf, next, k, h[k]);
      SizeWithout(h, todo, k);
      VisitOne(order, todo, h, k);
      EncodeOneMore(h, order, k);
      Associative(old(buf[..offset]), EncodeHeaders(h, order), EncodeHeader(k, h[k]));
      todo, order := todo - {k}, order + [k];
    }
  }

  method PutEnd(buf: array<byte>, offset: nat, r: Record) returns (next: nat, ghost order: seq<Bytes>)
    requires offset + 6 + HeaderSize(r.headers) + |r.leaseId| + |r.reason| <= buf.Length
    modifies buf
    ensures next == offset + 6 + HeaderSize(r.headers) + |r.leaseId| + |r.reason|
    ensures IsOrder(order, r.headers)
    ensures buf[..next] == old(buf[..offset]) + EncodeEnd(r, order)
  {
    ghost var done := buf[..offset];
    PutLE(buf, offset, |r.headers|, 2);
    next, order := PutHeaders(buf, offset + 2, r.headers);
    next := PutStr(buf, next, r.leaseId, 2);
    next := PutStr(buf, next, r.reason, 2);
    RightNested(done, LE(|r.headers|, 2), EncodeHeaders(r.headers, order), Str(r.leaseId, 2), Str(r.reason, 2));
  }

  method SizeOfHeaders(h: map<Bytes, Bytes>) returns (size: nat)
    ensures size == HeaderSize(h)
  {
    size := 0;
    var todo := h.Keys;
    while todo != {}
      invariant todo <= h.Keys
      invariant size + SizeOver(h, todo) == HeaderSize(h)
      decreases |todo|
    {
      var k :| k in todo;
      SizeWithout(h, todo, k);
      size := size + 2 + |k| + 2 + |h[k]|;
      todo := todo - {k};
    }
  }

  /** The buffer is sized before it is filled, and is filled exactly. */
  method Marshal(r: Record) returns (data: Bytes, ghost order: seq<Bytes>)
    ensures IsOrder(order, r.headers)
    ensures data == Encode(r, order) && |data| == RecordSize(r)
  {
    assert |EncodeNames(r)| == 5 + |r.queue| + |r.jobId|;
    hide EncodeNames, EncodeNumbers, EncodeEnd, Str, HeaderSize, IsOrder;
    var size := 1 + 2 + |r.queue| + 2 + |r.jobId| + 1 + 4 + 4 + 8 + 4 + |r.payload| + 2;
    var headerSize := SizeOfHeaders(r.headers);
    size := size + headerSize;
    size := size + 2 + |r.leaseId| + 2 + |r.reason|;
    var buf := new byte[size];
    var offset := PutNames(buf, r);
    offset := PutNumbers(buf, offset, r);
    offset := PutStr(buf, offset, r.payload, 4);
    offset, order := PutEnd(buf, offset, r);
    data := buf[..offset];
    RightNested([], EncodeNames(r), EncodeNumbers(r), Str(r.payload, 4), EncodeEnd(r, order));
    assert [] + EncodeNames(r) == EncodeNames(r);
  }

  // ---------- Reading ----------

  method GetInt(data: Bytes, offset: nat, k: nat) returns (ok: bool, n: nat, next: nat)
    requires offset <= |data|
    ensures if ok then next <= |data| && TakeInt(data[offset..], k) == Got(n, data[next..])
            else TakeInt(data[offset..], k).Bad?
  {
    ok, n, next := offset + k <= |data|, 0, offset + k;
    if ok {
      n := UnLE(data[offset..next]);
      assert data[offset..][..k] == data[offset..next];
      assert data[offset..][k..] == data[next..];
    }
  }

  method GetStr(data: Bytes, offset: nat, k: nat) returns (ok: bool, s: Bytes, next: nat)
    requires offset <= |data|
    ensures if ok then next <= |data| && TakeStr(data[offset..], k) == Got(s, data[next..])
            else TakeStr(data[offset..], k).Bad?
  {
    var n;
    ok, n, next := GetInt(data, offset, k);
    s := [];
    if ok {
      ok := next + n <= |data|;
      if ok {
        s := data[next..next + n];
        assert data[next..][..n] == s;
        assert data[next..][n..] == data[next + n..];
        next := next + n;
      }
    }
  }

  method GetHeaders(data: Bytes, offset: nat, n: nat) returns (ok: bool, h: map<Bytes, Bytes>, next: nat)
    requires offset <= |data|
    ensures if ok then next <= |data| && TakeHeaders(data[offset..], n, map[]) == Got(h, data[next..])
            else TakeHeaders(data[offset..], n, map[]).Bad?
  {
    hide TakeStr;
    h, next := map[], offset;
    var i := 0;
    while i < n
      invariant i <= n && next <= |data|
      invariant TakeHeaders(data[offset..], n, map[]) == TakeHeaders(data[next..], n - i, h)
    {
      var key, val;
      ok, key, next := GetStr(data, next, 2);
      if !ok { return; }
      ok, val, next := GetStr(data, next, 2);
      if !ok { return; }
      h, i := h[key := val], i + 1;
    }
    ok := true;
  }

  method GetNames(data: Bytes) returns (ok: bool, v: Names, next: nat)
    ensures if ok then next <= |data| && TakeNames(data) == Got(v, data[next..])
            else TakeNames(data).Bad?
  {
    Powers();
    assert data[0..] == data;
    v := Names(0, [], []);
    var kind, queue, jobId;
    ok, kind, next := GetInt(data, 0, 1);
    if !ok { return; }
    ok, queue, next := GetStr(data, next, 2);
    if !ok { return; }
    ok, jobId, next := GetStr(data, next, 2);
    if !ok { return; }
    v := Names(kind, queue, jobId);
  }

  method GetNumbers(data: Bytes, offset: nat) returns (ok: bool, v: Numbers, next: nat)
    requires offset <= |data|
    ensures if ok then next <= |data| && TakeNumbers(data[offset..]) == Got(v, data[next..])
            else TakeNumbers(data[offset..]).Bad?
  {
    Powers();
    v := Numbers(0, 0, 0, 0);
    var priority, tries, maxRetries, eta;
    ok, priority, next := GetInt(data, offset, 1);
    if !ok { return; }
    ok, tries, next := GetInt(data, next, 4);
    if !ok { return; }
    ok, maxRetries, next := GetInt(data, next, 4);
    if !ok { return; }
    ok, eta, next := GetInt(data, next, 8);
    if !ok { return; }
    v := Numbers(priority, tries, maxRetries, FromUint64(eta) * NS_PER_MS);
  }

  method GetEnd(data: Bytes, offset: nat) returns (ok: bool, v: End, next: nat)
    requires offset <= |data|
    ensures if ok then next <= |data| && TakeEnd(data[offset..]) == Got(v, data[next..])
            else TakeEnd(data[offset..]).Bad?
  {
    v := End(map[], [], []);
    var n, headers, leaseId, reason;
    ok, n, next := GetInt(data, offset, 2);
    if !ok { return; }
    ok, headers, next := GetHeaders(data, next, n);
    if !ok { return; }
    ok, leaseId, next := GetStr(data, next, 2);
    if !ok { return; }
    ok, reason, next := GetStr(data, next, 2);
    if !ok { return; }
    v := End(headers, leaseId, reason);
  }

  /** Total: every byte string is either refused or read within its bounds. */
  method Unmarshal(data: Bytes) returns (r: Option<Record>)
    ensures r == Decoded(data)
  {
    var ok, names, numbers, payload, end, offset;
    ok, names, offset := GetNames(data);
    if !ok { return None; }
    ok, numbers, offset := GetNumbers(data, offset);
    if !ok { return None; }
    ok, payload, offset := GetStr(data, offset, 4);
    if !ok { return None; }
    ok, end, offset := GetEnd(data, offset);
    if !ok { return None; }
    return Some(Assemble(names, Body(numbers, payload, end)));
  }
}
