/** The key range of a prefix scan: which keys lie between a prefix and the bound computed from it
    (internal/store/store.go). */
module PrefixScan {
  import opened Binary
  import opened Seqs

  /** The order in which the store keeps its keys. */
  predicate Less(a: Bytes, b: Bytes) {
    b != [] && (a == [] || a[0] < b[0] || (a[0] == b[0] && Less(a[1..], b[1..])))
  }

  /** How many bytes 0xFF stand at the end. */
  function Tail(p: Bytes): (m: nat)
    ensures m <= |p|
    ensures forall i :: |p| - m <= i < |p| ==> p[i] == 255
    ensures m < |p| ==> p[|p| - m - 1] != 255
  {
    if p == [] then 0
    else if Tail(p[1..]) == |p| - 1 && p[0] == 255 then |p|
    else Tail(p[1..])
  }

  function Zeros(n: nat): Bytes {
    seq(n, _ => 0)
  }

  /** The last byte, which is not 0xFF, counted up. */
  function Next(s: Bytes): Bytes
    requires s != [] && s[|s| - 1] < 255
  {
    s[..|s| - 1] + [s[|s| - 1] + 1]
  }

  /** The prefix up to its trailing 0xFF bytes. */
  function Stem(p: Bytes): (s: Bytes)
    ensures s != [] ==> s[|s| - 1] < 255
  {
    p[..|p| - Tail(p)]
  }

  /** What the loop computes: the stem counted up, and the trailing bytes wrapped to zero; nothing if all are 0xFF. */
  function UpperBound(p: Bytes): Option<Bytes> {
    if Stem(p) == [] then None else Some(Next(Stem(p)) + Zeros(Tail(p)))
  }

  /** A scan for `p` visits `k`. */
  predicate Scanned(p: Bytes, k: Bytes) {
    !Less(k, p) && (UpperBound(p).None? || Less(k, UpperBound(p).value))
  }

  /** The counted-up stem, followed by fewer zeros than the prefix has trailing 0xFF bytes. */
  predicate Stray(p: Bytes, k: Bytes) {
    var s := Stem(p);
    s != [] && |s| <= |k| < |p| && k[..|s|] == Next(s) && k[|s|..] == Zeros(|k| - |s|)
  }

  method PrefixUpperBound(prefix: Bytes) returns (end: Option<Bytes>)
    ensures end == UpperBound(prefix)
  {
    var a := new byte[|prefix|](i requires 0 <= i < |prefix| => prefix[i]);
    var i := a.Length - 1;
    while i >= 0
      invariant -1 <= i < a.Length
      invariant a[..i + 1] == prefix[..i + 1]
      invariant forall k :: i < k < a.Length ==> prefix[k] == 255 && a[k] == 0
    {
      assert a[i] == a[..i + 1][i] && a[..i] == a[..i + 1][..i];
      a[i] := (prefix[i] as int + 1) % 256;
      if a[i] != 0 {
        BoundIs(prefix, i, a[..]);
        return Some(a[..]);
      }
      i := i - 1;
    }
    TailIs(prefix, |prefix|);
    return None;
  }

  lemma TailIs(p: Bytes, m: nat)
    requires m <= |p| && forall i :: |p| - m <= i < |p| ==> p[i] == 255
    requires m < |p| ==> p[|p| - m - 1] != 255
    ensures Tail(p) == m
  {
  }

  lemma BoundIs(p: Bytes, i: nat, b: Bytes)
    requires i < |p| == |b| && p[i] < 255 && b[..i] == p[..i] && b[i] == p[i] + 1
    requires forall k :: i < k < |p| ==> p[k] == 255 && b[k] == 0
    ensures UpperBound(p) == Some(b)
  {
    TailIs(p, |p| - 1 - i);
    hide Tail;
    assert b == b[..i] + [b[i]] + b[i + 1..];
    assert b[i + 1..] == Zeros(Tail(p));
    assert Next(Stem(p)) == b[..i] + [b[i]];
  }

  // ---------- The range ----------

  lemma {:induction false} NotBelowFull(k: Bytes, p: Bytes)
    requires forall i :: 0 <= i < |p| ==> p[i] == 255
    ensures Less(k, p) <==> !(p <= k)
  {
    if p != [] && k != [] {
      NotBelowFull(k[1..], p[1..]);
      Heads(p, k);
    }
  }

  lemma Heads(p: Bytes, k: Bytes)
    requires p != [] && k != []
    ensures p <= k <==> p[0] == k[0] && p[1..] <= k[1..]
  {
    assert p == [p[0]] + p[1..] && k == [k[0]] + k[1..];
  }

  lemma {:induction false} BelowZeros(k: Bytes, m: nat)
    ensures Less(k, Zeros(m)) <==> |k| < m && k == Zeros(|k|)
  {
    if m > 0 && k != [] {
      BelowZeros(k[1..], m - 1);
      assert Zeros(m)[1..] == Zeros(m - 1);
      assert k == [k[0]] + k[1..];
      assert Zeros(|k|) == [0] + Zeros(|k| - 1);
    }
  }

  lemma StemOnwards(p: Bytes)
    requires |Stem(p)| > 1
    ensures Tail(p[1..]) == Tail(p) && Stem(p) == [p[0]] + Stem(p[1..]) && Stem(p[1..]) != []
  {
    TailIs(p[1..], Tail(p));
    hide Tail;
    assert p[1..][..|p| - 1 - Tail(p)] == p[..|p| - Tail(p)][1..];
  }

  lemma NextOnwards(x: byte, t: Bytes, z: Bytes)
    requires t != [] && t[|t| - 1] < 255
    ensures Next([x] + t) + z == [x] + (Next(t) + z)
  {
    assert ([x] + t)[..|t|] == [x] + t[..|t| - 1];
  }

  /** A prefix of which more than one byte counts is handled byte by byte. */
  lemma Onwards(p: Bytes)
    requires |Stem(p)| > 1
    ensures UpperBound(p[1..]).Some? && UpperBound(p) == Some([p[0]] + UpperBound(p[1..]).value)
  {
    StemOnwards(p);
    hide Tail, Zeros, Next;
    NextOnwards(p[0], Stem(p[1..]), Zeros(Tail(p)));
  }

  lemma SameHeads(x: byte, s: Bytes, y: byte, t: Bytes)
    ensures [x] + s == [y] + t <==> x == y && s == t
  {
    assert ([x] + s)[0] == x && ([x] + s)[1..] == s;
    assert ([y] + t)[0] == y && ([y] + t)[1..] == t;
  }

  lemma StrayOnwards(p: Bytes, k: Bytes)
    requires |Stem(p)| > 1 && k != []
    ensures Stray(p, k) <==> k[0] == p[0] && Stray(p[1..], k[1..])
  {
    StemOnwards(p);
    hide Tail, Stem;
    var s, t := Stem(p), Stem(p[1..]);
    assert Next(s) == [p[0]] + Next(t);
    if |s| <= |k| {
      assert k[..|s|] == [k[0]] + k[1..][..|t|];
      SameHeads(k[0], k[1..][..|t|], p[0], Next(t));
      assert k[|s|..] == k[1..][|t|..];
    }
  }

  /** A scan visits every key with the prefix, the strays, and nothing else. */
  lemma {:induction false} ScanVisitsExactly(p: Bytes, k: Bytes)
    ensures Scanned(p, k) <==> p <= k || Stray(p, k)
    decreases |p|
  {
    if Stem(p) == [] {
      NotBelowFull(k, p);
    } else if k == [] {
    } else if |Stem(p)| == 1 {
      OneByteStem(p, k);
    } else {
      Onwards(p);
      StrayOnwards(p, k);
      ScanVisitsExactly(p[1..], k[1..]);
      Heads(p, k);
      hide Tail, Stem, Stray, UpperBound;
    }
  }

  lemma OneByteStem(p: Bytes, k: Bytes)
    requires |Stem(p)| == 1 && k != []
    ensures Scanned(p, k) <==> p <= k || Stray(p, k)
  {
    var b := UpperBound(p).value;
    assert Stem(p) == [p[0]] && Next(Stem(p)) == [p[0] + 1];
    assert b[0] == p[0] + 1 && b[1..] == Zeros(Tail(p));
    NotBelowFull(k[1..], p[1..]);
    BelowZeros(k[1..], Tail(p));
    Heads(p, k);
    assert k[..1] == [k[0]];
    hide Less, Tail, Stem, UpperBound;
  }

  /** The scan is exact, for all keys, exactly when the prefix does not end in 0xFF or is nothing else. */
  lemma ScanIsExactExactlyWhen(p: Bytes)
    ensures (forall k :: Scanned(p, k) <==> p <= k) <==> Tail(p) == 0 || Tail(p) == |p|
  {
    forall k ensures Scanned(p, k) <==> p <= k || Stray(p, k) {
      ScanVisitsExactly(p, k);
    }
    if 0 < Tail(p) < |p| {
      var k := Next(Stem(p));
      assert Stray(p, k);
      assert Scanned(p, k) && !(p <= k);
    } else {
      assert forall k :: !Stray(p, k);
    }
  }
}
