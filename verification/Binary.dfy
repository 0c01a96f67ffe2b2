/** Bytes, and the little-endian integers the log's formats are made of. */
module Binary {

  type byte = b: int | 0 <= b < 256
  type uint32 = n: int | 0 <= n < 0x1_0000_0000

  // Go strings are byte strings, so names, ids and payloads all share this type.
  type Bytes = seq<byte>

  const TWO_63 := 0x8000_0000_0000_0000
  const TWO_64 := 0x1_0000_0000_0000_0000

  function Pow256(k: nat): (p: nat)
    ensures p > 0
  {
    if k == 0 then 1 else 256 * Pow256(k - 1)
  }

  /** The low `k` bytes of `n`, least significant first: a conversion that drops the high bytes. */
  function LE(n: nat, k: nat): (s: Bytes)
    ensures |s| == k
    decreases k, n
  {
    if k == 0 then [] else [n % 256] + LE(n / 256, k - 1)
  }

  function UnLE(s: Bytes): (n: nat)
    ensures n < Pow256(|s|)
  {
    if s == [] then 0 else s[0] + 256 * UnLE(s[1..])
  }

  lemma Powers()
    ensures Pow256(1) == 256
    ensures Pow256(2) == 0x1_0000
    ensures Pow256(4) == 0x1_0000_0000
    ensures Pow256(8) == TWO_64
  {
    assert Pow256(2) == 256 * Pow256(1);
    assert Pow256(3) == 256 * Pow256(2);
    assert Pow256(4) == 256 * Pow256(3);
    assert Pow256(5) == 256 * Pow256(4);
    assert Pow256(6) == 256 * Pow256(5);
    assert Pow256(7) == 256 * Pow256(6);
    assert Pow256(8) == 256 * Pow256(7);
  }

  lemma ModProduct(n: nat, m: nat)
    requires m > 0
    ensures n % (256 * m) == n % 256 + 256 * ((n / 256) % m)
  {
    var q, a := n / 256, n % 256;
    var t, b := q / m, q % m;
    assert n == 256 * q + a;
    assert q == m * t + b;
    var r := a + 256 * b;
    assert n == (256 * m) * t + r by {
      calc {
        n;
        256 * (m * t + b) + a;
        256 * (m * t) + r;
        (256 * m) * t + r;
      }
    }
    assert 0 <= r < 256 * m;
    DivModUnique(n, 256 * m, t, r);
  }

  lemma DivModUnique(n: nat, d: nat, t: nat, r: nat)
    requires d > 0 && r < d && n == d * t + r
    ensures n % d == r && n / d == t
  {
    var q := n / d;
    assert n == d * q + n % d;
    assert q < t ==> d * (q + 1) <= d * t;
    assert q > t ==> d * (t + 1) <= d * q;
  }

  /** Reading back what was put yields the value reduced to the field's width. */
  lemma {:induction false} UnLEOfLE(n: nat, k: nat)
    ensures UnLE(LE(n, k)) == n % Pow256(k)
    decreases k
  {
    if k > 0 {
      assert LE(n, k)[1..] == LE(n / 256, k - 1);
      UnLEOfLE(n / 256, k - 1);
      ModProduct(n, Pow256(k - 1));
    }
  }

  lemma UnLEFits(n: nat, k: nat)
    requires n < Pow256(k)
    ensures UnLE(LE(n, k)) == n
  {
    UnLEOfLE(n, k);
  }

  /** The two's-complement casts between int64 and uint64. */
  function ToUint64(x: int): (u: nat)
    ensures u < TWO_64
  {
    x % TWO_64
  }

  function FromUint64(u: nat): (x: int)
    requires u < TWO_64
    ensures -TWO_63 <= x < TWO_63
  {
    if u < TWO_63 then u else u - TWO_64
  }

  /** What Go's int64 arithmetic leaves of a mathematical result. */
  function WrapInt64(x: int): (w: int)
    ensures -TWO_63 <= w < TWO_63
    ensures -TWO_63 <= x < TWO_63 ==> w == x
  {
    FromUint64(ToUint64(x))
  }
}
