/** The names of virtual nodes: the node's name, a colon and a number in decimal (internal/cluster/sharding.go). */
module Naming {
  import opened Binary

  const COLON: byte := 58
  const ZERO_DIGIT := 48

  /** The digits that Sprintf writes for %d. */
  function Decimal(n: nat): Bytes {
    if n < 10 then [ZERO_DIGIT + n] else Decimal(n / 10) + [ZERO_DIGIT + n % 10]
  }

  /** What a row of digits stands for. */
  function Value(d: Bytes): int {
    if d == [] then 0 else 10 * Value(d[..|d| - 1]) + d[|d| - 1] - 48
  }

  /** `d` writes `n` in decimal, without leading zeros. */
  ghost predicate Writes(d: Bytes, n: nat) {
    && d != [] && (forall i :: 0 <= i < |d| ==> 48 <= d[i] <= 57) && (|d| > 1 ==> d[0] != 48)
    && Value(d) == n
  }

  /** `s` names the `i`-th virtual node of `node`. */
  ghost predicate IsName(s: Bytes, node: Bytes, i: nat) {
    && |s| > |node| && s[..|node|] == node && s[|node|] == 58
    && Writes(s[|node| + 1..], i)
  }

  lemma {:induction false} DecimalWrites(n: nat)
    ensures Writes(Decimal(n), n)
  {
    if n < 10 {
      assert Decimal(n)[..0] == [];
    } else {
      DecimalWrites(n / 10);
      var d := Decimal(n);
      assert d[..|d| - 1] == Decimal(n / 10);
      if |d| == 2 {
        assert Decimal(n / 10)[..0] == [];
      }
    }
  }

  lemma {:induction false} ValueIsPositive(d: Bytes)
    requires d != [] && (forall i :: 0 <= i < |d| ==> 48 <= d[i] <= 57) && d[0] != 48
    ensures Value(d) > 0
    decreases |d|
  {
    if |d| == 1 {
      assert d[..0] == [];
    } else {
      ValueIsPositive(d[..|d| - 1]);
    }
  }

  /** Only Decimal writes a number so. */
  lemma {:induction false} WrittenOnlyAsDecimal(d: Bytes, n: nat)
    requires Writes(d, n)
    ensures d == Decimal(n)
    decreases |d|
  {
    var m := |d| - 1;
    assert d == d[..m] + [d[m]];
    if m == 0 {
      assert Value(d[..m]) == 0;
    } else {
      ValueIsPositive(d[..m]);
      WrittenOnlyAsDecimal(d[..m], Value(d[..m]));
    }
  }

  /** No two virtual nodes have the same name: the digits hold no colon, so the last one ends the node's name. */
  lemma NamesAreDistinct(s: Bytes, a: Bytes, i: nat, b: Bytes, j: nat)
    requires IsName(s, a, i) && IsName(s, b, j)
    ensures a == b && i == j
  {
    ColonEndsName(s, a, i, b);
    ColonEndsName(s, b, j, a);
  }

  lemma ColonEndsName(s: Bytes, a: Bytes, i: nat, b: Bytes)
    requires IsName(s, a, i) && |b| < |s| && s[|b|] == 58
    ensures |b| <= |a|
  {
    var d := s[|a| + 1..];
    assert forall k :: |a| < k < |s| ==> s[k] == d[k - |a| - 1];
  }

  lemma NameIs(s: Bytes, node: Bytes, i: nat)
    ensures IsName(s, node, i) <==> s == node + [COLON] + Decimal(i)
  {
    var t := node + [COLON] + Decimal(i);
    DecimalWrites(i);
    assert t[..|node|] == node && t[|node| + 1..] == Decimal(i);
    if IsName(s, node, i) {
      WrittenOnlyAsDecimal(s[|node| + 1..], i);
      assert s == s[..|node|] + [s[|node|]] + s[|node| + 1..];
    }
  }
}
