/** In which order a ring prefers its nodes for a key, and what joining and leaving do to that order
    (internal/cluster/sharding.go). */
module Preferences {
  import opened Binary
  import opened Seqs
  import opened Sorting
  import opened Rings

  /** The points on one side of `h`: from it on, or before it. */
  function Side(points: seq<int>, h: int, onward: bool): seq<int> {
    if points == [] then []
    else
      var n := |points| - 1;
      Side(points[..n], h, onward) + if (points[n] >= h) == onward then [points[n]] else []
  }

  /** Once around the ring, starting at `h`. */
  function Clockwise(points: seq<int>, h: int): seq<int> {
    Side(points, h, true) + Side(points, h, false)
  }

  function Owners(members: map<int, Bytes>, points: seq<int>): (s: seq<Bytes>)
    ensures |s| == |points| && forall i :: 0 <= i < |s| ==> s[i] == Lookup(members, points[i])
  {
    if points == [] then []
    else
      var n := |points| - 1;
      Owners(members, points[..n]) + [Lookup(members, points[n])]
  }

  /** The first occurrences only. */
  function Dedup(s: seq<Bytes>): seq<Bytes> {
    if s == [] then []
    else
      var n := |s| - 1;
      Dedup(s[..n]) + if s[n] in s[..n] then [] else [s[n]]
  }

  function Without(s: seq<Bytes>, x: Bytes): seq<Bytes> {
    if s == [] then []
    else
      var n := |s| - 1;
      Without(s[..n], x) + if s[n] == x then [] else [s[n]]
  }

  /** All nodes with a point, in the order in which they are met from `h` on. */
  function Preference(r: Ring, h: int): seq<Bytes> {
    Dedup(Owners(r.members, Clockwise(r.points, h)))
  }

  function Min(a: int, b: int): int {
    if a <= b then a else b
  }

  // ---------- Lists ----------

  lemma WithoutAppend(s: seq<Bytes>, y: Bytes, x: Bytes)
    ensures Without(s + [y], x) == Without(s, x) + if y == x then [] else [y]
  {
    assert (s + [y])[..|s|] == s;
  }

  lemma DedupAppend(s: seq<Bytes>, y: Bytes)
    ensures Dedup(s + [y]) == Dedup(s) + if y in s then [] else [y]
  {
    assert (s + [y])[..|s|] == s;
  }

  lemma {:induction false} WithoutIs(s: seq<Bytes>, x: Bytes, y: Bytes)
    ensures y in Without(s, x) <==> y in s && y != x
    decreases |s|
  {
    if s != [] {
      WithoutIs(s[..|s| - 1], x, y);
      assert s == s[..|s| - 1] + [s[|s| - 1]];
    }
  }

  lemma {:induction false} WithoutAbsent(s: seq<Bytes>, x: Bytes)
    requires x !in s
    ensures Without(s, x) == s
    decreases |s|
  {
    if s != [] {
      WithoutAbsent(s[..|s| - 1], x);
      assert s == s[..|s| - 1] + [s[|s| - 1]];
    }
  }

  lemma {:induction false} WithoutPrefix(s: seq<Bytes>, x: Bytes, k: nat)
    requires k <= |s|
    ensures Without(s[..k], x) <= Without(s, x)
    decreases |s|
  {
    if k == |s| {
      assert s[..k] == s;
    } else {
      WithoutPrefix(s[..|s| - 1], x, k);
      assert s[..|s| - 1][..k] == s[..k];
    }
  }

  lemma {:induction false} DedupIs(s: seq<Bytes>)
    ensures Distinct(Dedup(s)) && Elems(Dedup(s)) == Elems(s)
    decreases |s|
  {
    if s != [] {
      var n := |s| - 1;
      DedupIs(s[..n]);
      assert s == s[..n] + [s[n]];
      assert s[n] in s[..n] <==> s[n] in Elems(s[..n]);
      assert s[n] in Dedup(s[..n]) <==> s[n] in Elems(Dedup(s[..n]));
      OneMoreElem(s[..n], s[n]);
      OneMoreElem(Dedup(s[..n]), s[n]);
    }
  }

  lemma {:induction false} DedupPrefix(s: seq<Bytes>, k: nat)
    requires k <= |s|
    ensures Dedup(s[..k]) <= Dedup(s)
    decreases |s|
  {
    if k == |s| {
      assert s[..k] == s;
    } else {
      DedupPrefix(s[..|s| - 1], k);
      assert s[..|s| - 1][..k] == s[..k];
    }
  }

  /** Leaving one name out and leaving out repetitions can be done in either order. */
  lemma {:induction false} DedupWithout(s: seq<Bytes>, x: Bytes)
    ensures Dedup(Without(s, x)) == Without(Dedup(s), x)
    decreases |s|
  {
    if s != [] {
      var n := |s| - 1;
      var t, d := Without(s[..n], x), Dedup(s[..n]);
      DedupWithout(s[..n], x);
      assert t + [] == t && d + [] == d && Without(d, x) + [] == Without(d, x);
      assert Without(s, x) == if s[n] == x then t else t + [s[n]];
      assert Dedup(s) == if s[n] in s[..n] then d else d + [s[n]];
      WithoutIs(s[..n], x, s[n]);
      DedupAppend(t, s[n]);
      WithoutAppend(d, s[n], x);
    }
  }

  // ---------- Around the ring ----------

  /** Where the binary search splits the points, the round starts. */
  lemma {:induction false} SidesOfSplit(points: seq<int>, h: int, k: nat)
    requires k <= |points|
    requires forall i :: 0 <= i < k ==> points[i] < h
    requires forall i :: k <= i < |points| ==> points[i] >= h
    ensures Side(points, h, true) == points[k..] && Side(points, h, false) == points[..k]
    decreases |points|
  {
    if points != [] {
      var n := |points| - 1;
      SidesOfSplit(points[..n], h, if k <= n then k else n);
      assert points == points[..n] + [points[n]];
    }
  }

  lemma {:induction false} SideIs(points: seq<int>, h: int, onward: bool, p: int)
    ensures p in Side(points, h, onward) <==> p in points && (p >= h) == onward
    decreases |points|
  {
    if points != [] {
      var n := |points| - 1;
      SideIs(points[..n], h, onward, p);
      assert points == points[..n] + [points[n]];
    }
  }

  lemma ClockwiseIs(points: seq<int>, h: int, p: int)
    ensures p in Clockwise(points, h) <==> p in points
  {
    SideIs(points, h, true, p);
    SideIs(points, h, false, p);
  }

  lemma OthersAppend(points: seq<int>, q: int, members: map<int, Bytes>, x: Bytes)
    ensures Others(points + [q], members, x) == Others(points, members, x) + if Lookup(members, q) != x then [q] else []
  {
    assert (points + [q])[..|points|] == points;
  }

  lemma SideAppend(points: seq<int>, q: int, h: int, onward: bool)
    ensures Side(points + [q], h, onward) == Side(points, h, onward) + if (q >= h) == onward then [q] else []
  {
    assert (points + [q])[..|points|] == points;
  }

  lemma {:induction false} SideOfOthers(points: seq<int>, h: int, onward: bool, members: map<int, Bytes>, x: Bytes)
    ensures Side(Others(points, members, x), h, onward) == Others(Side(points, h, onward), members, x)
    decreases |points|
  {
    if points != [] {
      var n := |points| - 1;
      var o, d, q := Others(points[..n], members, x), Side(points[..n], h, onward), points[n];
      SideOfOthers(points[..n], h, onward, members, x);
      assert o + [] == o && d + [] == d;
      assert Others(points, members, x) == if Lookup(members, q) != x then o + [q] else o;
      assert Side(points, h, onward) == if (q >= h) == onward then d + [q] else d;
      SideAppend(o, q, h, onward);
      OthersAppend(d, q, members, x);
    }
  }

  lemma {:induction false} OthersConcat(a: seq<int>, b: seq<int>, members: map<int, Bytes>, x: Bytes)
    ensures Others(a + b, members, x) == Others(a, members, x) + Others(b, members, x)
    decreases |b|
  {
    if b == [] {
      assert a + b == a;
    } else {
      hide Others, Lookup;
      var c, q := b[..|b| - 1], b[|b| - 1];
      OthersConcat(a, c, members, x);
      OthersAppend(a + c, q, members, x);
      OthersAppend(c, q, members, x);
      Associative(a, c, [q]);
      Associative(Others(a, members, x), Others(c, members, x), if Lookup(members, q) != x then [q] else []);
      assert b == c + [q];
    }
  }

  lemma OwnersAppend(members: map<int, Bytes>, points: seq<int>, q: int)
    ensures Owners(members, points + [q]) == Owners(members, points) + [Lookup(members, q)]
  {
    assert (points + [q])[..|points|] == points;
  }

  lemma {:induction false} OwnersOfOthers(points: seq<int>, members: map<int, Bytes>, members': map<int, Bytes>, x: Bytes)
    requires forall p :: p in points && Lookup(members, p) != x ==> Lookup(members', p) == Lookup(members, p)
    ensures Owners(members', Others(points, members, x)) == Without(Owners(members, points), x)
    decreases |points|
  {
    if points != [] {
      var n := |points| - 1;
      OwnersOfOthers(points[..n], members, members', x);
      OwnersAppend(members', Others(points[..n], members, x), points[n]);
      WithoutAppend(Owners(members, points[..n]), Lookup(members, points[n]), x);
      assert points[n] in points;
    }
  }

  // ---------- What joining and leaving do to the preferences ----------

  /** The names that the points of a ring answer with. */
  function Owning(r: Ring): set<Bytes> {
    set p | p in r.points :: Lookup(r.members, p)
  }

  lemma OwnersAreOwning(r: Ring, h: int, node: Bytes)
    ensures node in Owners(r.members, Clockwise(r.points, h)) <==> node in Owning(r)
  {
    var points := Clockwise(r.points, h);
    var s := Owners(r.members, points);
    hide Clockwise, Owners;
    if node in Owning(r) {
      var p :| p in r.points && Lookup(r.members, p) == node;
      ClockwiseIs(r.points, h, p);
      var i :| 0 <= i < |points| && points[i] == p;
      assert s[i] == node;
    }
    if node in s {
      var i :| 0 <= i < |s| && s[i] == node;
      ClockwiseIs(r.points, h, points[i]);
    }
  }

  /** On any ring, a key's preferences are the names that the points answer with, each once. Only their order depends
      on the key. */
  lemma PreferenceIsOwning(r: Ring, h: int)
    ensures Distinct(Preference(r, h)) && Elems(Preference(r, h)) == Owning(r) && |Preference(r, h)| == |Owning(r)|
  {
    var s := Owners(r.members, Clockwise(r.points, h));
    DedupIs(s);
    DistinctLength(Dedup(s));
    hide Owning, Dedup, Owners, Distinct;
    forall node ensures node in s <==> node in Owning(r) {
      OwnersAreOwning(r, h, node);
    }
    assert Elems(s) == Owning(r);
  }

  /** Without collisions every node owns a point, and nobody else does. */
  lemma AllNodesOwn(hash: Hash, r: Ring)
    requires IsRing(hash, r)
    ensures Owning(r) == r.nodes
  {
    hide Ascending;
    forall node | node in r.nodes ensures node in Owning(r) {
      var p := Place(hash, node, 0);
      assert p in r.members && r.members[p] == node;
      assert p in Elems(r.points);
    }
    forall node | node in Owning(r) ensures node in r.nodes {
      var p :| p in r.points && Lookup(r.members, p) == node;
      assert p in Elems(r.points);
      var i :| Stands(hash, r.nodes, p, r.members[p], i);
    }
  }

  /** Without collisions a key's preferences are all the nodes, each once. */
  lemma PreferenceIsAllNodes(hash: Hash, r: Ring, h: int)
    requires IsRing(hash, r)
    ensures Distinct(Preference(r, h)) && Elems(Preference(r, h)) == r.nodes && |Preference(r, h)| == |r.nodes|
  {
    hide IsRing, Preference, Distinct;
    PreferenceIsOwning(r, h);
    AllNodesOwn(hash, r);
  }

  /** When a node leaves, it drops out of every key's preferences, and nothing else changes in them. */
  lemma LeaveDropsOneNode(hash: Hash, r: Ring, x: Bytes, h: int)
    requires IsRing(hash, r)
    ensures Preference(Removed(r, x), h) == Without(Preference(r, h), x)
  {
    var r' := Removed(r, x);
    if x in r.nodes {
      RemovedIsOthers(hash, r, x);
      var points := Clockwise(r.points, h);
      SideOfOthers(r.points, h, true, r.members, x);
      SideOfOthers(r.points, h, false, r.members, x);
      OthersConcat(Side(r.points, h, true), Side(r.points, h, false), r.members, x);
      assert Clockwise(r'.points, h) == Others(points, r.members, x);
      hide Removed, Clockwise, Others, Owners, Dedup, Without;
      forall p | p in points && Lookup(r.members, p) != x ensures Lookup(r'.members, p) == Lookup(r.members, p) {
        ClockwiseIs(r.points, h, p);
        assert p in Elems(r.points);
      }
      OwnersOfOthers(points, r.members, r'.members, x);
      DedupWithout(Owners(r.members, points), x);
    } else {
      PreferenceIsAllNodes(hash, r, h);
      assert x !in Elems(Preference(r, h));
      WithoutAbsent(Preference(r, h), x);
    }
  }

  /** When a node joins, it is put into every key's preferences somewhere, and nothing else changes in them. */
  lemma JoinInsertsOneNode(hash: Hash, r: Ring, x: Bytes, h: int)
    requires IsRing(hash, r) && CollisionFree(hash, r.nodes + {x}) && x !in r.nodes
    ensures Without(Preference(Added(hash, r, x), h), x) == Preference(r, h)
    ensures Removed(Added(hash, r, x), x) == r
  {
    var a := Added(hash, r, x);
    AddedIsRing(hash, r, x);
    RemovedIsRing(hash, a, x);
    assert Removed(a, x).nodes == r.nodes;
    hide IsRing, Added, Removed, Preference, CollisionFree;
    RingIsUnique(hash, Removed(a, x), r);
    LeaveDropsOneNode(hash, a, x, h);
  }

  // ---------- Primary and replicas ----------

  /** The nodes that hold a key, the primary first. */
  function Replicas(r: Ring, h: int, n: nat): seq<Bytes>
    requires Min(n, |r.nodes|) <= |Owning(r)|
  {
    PreferenceIsOwning(r, h);
    Preference(r, h)[..Min(n, |r.nodes|)]
  }

  /** A leave takes the departed node out of a key's replicas; the others stay, in their order, and at most one node
      is called up behind them. Keys that the node did not hold are not touched. */
  lemma LeaveMovesOnlyItsKeys(hash: Hash, r: Ring, x: Bytes, h: int, n: nat)
    requires IsRing(hash, r) && x in r.nodes
    ensures Min(n, |r.nodes|) <= |Owning(r)|
    ensures Min(n, |Removed(r, x).nodes|) <= |Owning(Removed(r, x))|
    ensures var old', new' := Replicas(r, h, n), Replicas(Removed(r, x), h, n);
            && Without(old', x) <= new'
            && (x !in old' ==> new' == old')
  {
    hide IsRing, Removed, Preference, Without, Owning;
    LeaveShortensByOne(hash, r, x, h);
    PreferenceIsOwning(r, h);
    PreferenceIsOwning(Removed(r, x), h);
    FrontWithout(Preference(r, h), x, n);
  }

  lemma LeaveShortensByOne(hash: Hash, r: Ring, x: Bytes, h: int)
    requires IsRing(hash, r) && x in r.nodes
    ensures x in Preference(r, h) && |Preference(r, h)| == |r.nodes| && |Removed(r, x).nodes| == |r.nodes| - 1
    ensures Preference(Removed(r, x), h) == Without(Preference(r, h), x)
    ensures |Without(Preference(r, h), x)| == |r.nodes| - 1
  {
    assert Removed(r, x).nodes == r.nodes - {x};
    hide IsRing, Removed, Preference, Distinct, Without;
    PreferenceIsAllNodes(hash, r, h);
    RemovedIsRing(hash, r, x);
    PreferenceIsAllNodes(hash, Removed(r, x), h);
    LeaveDropsOneNode(hash, r, x, h);
    assert x in Elems(Preference(r, h));
  }

  /** The first `n` of a list, before and after one name is taken out of it. */
  lemma FrontWithout(s: seq<Bytes>, x: Bytes, n: nat)
    requires x in s && |Without(s, x)| == |s| - 1
    ensures var k, t := Min(n, |s|), Without(s, x);
            && Without(s[..k], x) <= t[..Min(n, |t|)]
            && (x !in s[..k] ==> t[..Min(n, |t|)] == s[..k])
  {
    var k, t := Min(n, |s|), Without(s, x);
    WithoutPrefix(s, x, k);
    OneLess(s[..k], x);
    assert s[..|s|] == s;
    if x !in s[..k] {
      WithoutAbsent(s[..k], x);
    } else {
      ShorterWithout(s[..k], x);
    }
  }

  lemma {:induction false} OneLess(s: seq<Bytes>, x: Bytes)
    ensures |Without(s, x)| <= |s|
    decreases |s|
  {
    if s != [] {
      OneLess(s[..|s| - 1], x);
    }
  }

  lemma {:induction false} ShorterWithout(s: seq<Bytes>, x: Bytes)
    requires x in s
    ensures |Without(s, x)| < |s|
    decreases |s|
  {
    var n := |s| - 1;
    OneLess(s[..n], x);
    if s[n] != x {
      assert s == s[..n] + [s[n]];
      ShorterWithout(s[..n], x);
    }
  }

  // ---------- Lookup ----------

  /** The point that answers for `h`: the least one at or after it, or the least of all when there is none. */
  ghost predicate IsNext(points: seq<int>, h: int, p: int) {
    && p in points
    && (if exists q :: q in points && q >= h then p >= h && forall q :: q in points && q >= h ==> p <= q
        else forall q :: q in points ==> p <= q)
  }

  /** Without collisions the first preference is the owner of that point. */
  lemma FirstPreference(r: Ring, h: int, p: int)
    requires Sorted(r.points) && IsNext(r.points, h, p)
    ensures Preference(r, h) != [] && Preference(r, h)[0] == Lookup(r.members, p)
  {
    var points := Clockwise(r.points, h);
    var s := Owners(r.members, points);
    assert points[0] == p by { FirstIsNext(r.points, h, p); }
    DedupPrefix(s, 1);
    assert s[..1] == [s[0]];
    assert Dedup(s[..1]) == [s[0]];
  }

  lemma {:induction false} SideKeepsOrder(points: seq<int>, h: int, onward: bool)
    requires Sorted(points)
    ensures Sorted(Side(points, h, onward))
    decreases |points|
  {
    if points != [] {
      var n := |points| - 1;
      SideKeepsOrder(points[..n], h, onward);
      var s := Side(points[..n], h, onward);
      forall i | 0 <= i < |s| ensures s[i] <= points[n] {
        SideIs(points[..n], h, onward, s[i]);
      }
    }
  }

  lemma FirstIsNext(points: seq<int>, h: int, p: int)
    requires Sorted(points) && IsNext(points, h, p)
    ensures Clockwise(points, h) != [] && Clockwise(points, h)[0] == p
  {
    var a, b := Side(points, h, true), Side(points, h, false);
    SideKeepsOrder(points, h, true);
    SideKeepsOrder(points, h, false);
    forall q ensures (q in a <==> q in points && q >= h) && (q in b <==> q in points && q < h) {
      SideIs(points, h, true, q);
      SideIs(points, h, false, q);
    }
    hide Side;
    assert if p >= h then p in a else p in b;
    assert a != [] ==> a[0] in a;
    assert b != [] ==> b[0] in b;
  }

  /** A leave moves only the keys of the node that left; a join moves keys only to the node that joined. */
  lemma OwnersMove(hash: Hash, r: Ring, x: Bytes, h: int)
    requires IsRing(hash, r) && r.nodes != {}
    ensures Preference(r, h) != []
    ensures var first := Preference(r, h)[0];
            && (first != x ==> Preference(Removed(r, x), h) != [] && Preference(Removed(r, x), h)[0] == first)
            && (CollisionFree(hash, r.nodes + {x}) ==>
                  && Preference(Added(hash, r, x), h) != []
                  && (Preference(Added(hash, r, x), h)[0] == x || Preference(Added(hash, r, x), h)[0] == first))
  {
    PreferenceIsAllNodes(hash, r, h);
    LeaveDropsOneNode(hash, r, x, h);
    hide IsRing, Preference, Distinct, CollisionFree, Removed;
    assert Preference(r, h) != [];
    FirstWithout(Preference(r, h), x);
    if CollisionFree(hash, r.nodes + {x}) && x !in r.nodes {
      JoinInsertsOneNode(hash, r, x, h);
      AddedIsRing(hash, r, x);
      PreferenceIsAllNodes(hash, Added(hash, r, x), h);
      FirstWithout(Preference(Added(hash, r, x), h), x);
    }
  }

  lemma FirstWithout(s: seq<Bytes>, x: Bytes)
    requires s != []
    ensures s[0] != x ==> Without(s, x) != [] && Without(s, x)[0] == s[0]
  {
    WithoutPrefix(s, x, 1);
    assert s[..1] == [s[0]];
  }

  // ---------- The walk of GetNodes ----------

  /** The owners met in one lap from `h`. */
  function Lap(r: Ring, h: int): (s: seq<Bytes>)
    requires r.points != []
    ensures s != []
  {
    ClockwiseIs(r.points, h, r.points[0]);
    Owners(r.members, Clockwise(r.points, h))
  }

  /** The first `k` owners met when the ring is walked round and round. */
  function Walked(s: seq<Bytes>, k: nat): (w: seq<Bytes>)
    requires s != []
    ensures |w| == k && forall i :: 0 <= i < k ==> w[i] == s[i % |s|]
  {
    seq(k, i requires 0 <= i => s[i % |s|])
  }

  lemma WalkedFrom(s: seq<Bytes>, k: nat)
    requires s != []
    ensures Elems(Walked(s, k)) <= Elems(s) && Walked(s, |s|) == s
  {
    var w := Walked(s, k);
    assert Walked(s, |s|) == s;
    hide Walked;
    forall x | x in Elems(w) ensures x in Elems(s) {
      var i :| 0 <= i < |w| && w[i] == x;
    }
  }

  lemma LapOwns(r: Ring, h: int)
    requires r.points != []
    ensures Elems(Lap(r, h)) == Owning(r)
  {
    hide Owning, Owners, Clockwise;
    forall node ensures node in Lap(r, h) <==> node in Owning(r) {
      OwnersAreOwning(r, h, node);
    }
  }

  lemma DedupLength(s: seq<Bytes>)
    ensures |Dedup(s)| == |Elems(s)|
  {
    hide Dedup, Distinct;
    DedupIs(s);
    DistinctLength(Dedup(s));
  }

  /** However long the ring is walked, no more names are met than in one lap. */
  lemma WalkFindsNoMore(r: Ring, h: int, k: nat)
    requires r.points != []
    ensures |Dedup(Walked(Lap(r, h), k))| <= |Owning(r)|
  {
    hide Dedup, Lap, Walked, Owning, Elems;
    WalkedFrom(Lap(r, h), k);
    DedupLength(Walked(Lap(r, h), k));
    LapOwns(r, h);
    Fewer(Elems(Walked(Lap(r, h), k)), Owning(r));
  }

  /** The walk of GetNodes has met `n` names after some number of steps exactly when as many names own a point: so the
      loop ends if and only if that many do. The key does not matter. */
  lemma WalkEndsExactlyWhen(r: Ring, h: int, n: int)
    requires r.points != []
    ensures (exists k: nat :: |Dedup(Walked(Lap(r, h), k))| >= n) <==> n <= |Owning(r)|
  {
    hide Dedup, Lap, Walked, Owning, Elems;
    if k: nat :| |Dedup(Walked(Lap(r, h), k))| >= n {
      WalkFindsNoMore(r, h, k);
    }
    var s := Lap(r, h);
    WalkedFrom(s, |s|);
    DedupLength(s);
    LapOwns(r, h);
    assert |Dedup(Walked(Lap(r, h), |s|))| == |Owning(r)|;
  }

  /** So it always ends on a ring without collisions, since no more names are asked for than there are nodes. */
  lemma WalkEndsWithoutCollisions(hash: Hash, r: Ring, h: int, n: int)
    requires IsRing(hash, r) && r.points != []
    ensures exists k: nat :: |Dedup(Walked(Lap(r, h), k))| >= Min(n, |r.nodes|)
  {
    hide IsRing, Lap, Walked, Dedup, Owning;
    AllNodesOwn(hash, r);
    WalkEndsExactlyWhen(r, h, Min(n, |r.nodes|));
  }

  /** With a hash that maps everything to one point, two nodes are present and only the later one owns it. */
  lemma TwoNodesOnePoint(a: Bytes, b: Bytes)
    requires a != b
    ensures var r := Added(_ => 0, Added(_ => 0, NO_NODES, a), b);
            r.points != [] && r.nodes == {a, b} && |r.nodes| == 2 && Owning(r) == {b}
  {
    var hash: Hash := _ => 0;
    var ra := Added(hash, NO_NODES, a);
    OnlyZero(hash, NO_NODES, a);
    OnlyZero(hash, ra, b);
    OwnedByOne(Added(hash, ra, b), b);
  }

  lemma OwnedByOne(r: Ring, x: Bytes)
    requires 0 in r.points && (forall p :: p in r.points ==> p == 0) && Lookup(r.members, 0) == x
    ensures Owning(r) == {x}
  {
    forall y ensures y in Owning(r) <==> y == x {
      if y in Owning(r) {
        var p :| p in r.points && Lookup(r.members, p) == y;
      }
      assert 0 in r.points && Lookup(r.members, 0) == x;
    }
  }

  lemma OnlyZero(hash: Hash, r: Ring, x: Bytes)
    requires x !in r.nodes && (forall k :: hash(k) == 0) && forall p :: p in r.points ==> p == 0
    ensures 0 in Added(hash, r, x).points && forall p :: p in Added(hash, r, x).points ==> p == 0
    ensures Lookup(Added(hash, r, x).members, 0) == x && Added(hash, r, x).nodes == r.nodes + {x}
  {
    assert Places(hash, x, VIRTUAL_NODES)[0] == 0;
    forall p ensures p in Added(hash, r, x).points <==> p in r.points || p in Places(hash, x, VIRTUAL_NODES) {
      AddedPoints(hash, r, x, p);
    }
    hide Sort;
  }

  lemma AddedPoints(hash: Hash, r: Ring, x: Bytes, p: int)
    requires x !in r.nodes
    ensures p in Added(hash, r, x).points <==> p in r.points || p in Places(hash, x, VIRTUAL_NODES)
  {
    var ps := r.points + Places(hash, x, VIRTUAL_NODES);
    SortSorts(ps);
    hide Sort, Sorted, Places;
    assert p in multiset(ps) <==> p in ps;
    assert p in multiset(Sort(ps)) <==> p in Sort(ps);
  }

  /** On that ring a walk for both nodes never ends, for any key. */
  lemma WalkNeedNotEnd(a: Bytes, b: Bytes, h: int, k: nat)
    requires a != b
    ensures var r := Added(_ => 0, Added(_ => 0, NO_NODES, a), b);
            r.points != [] && |r.nodes| == 2 && |Dedup(Walked(Lap(r, h), k))| < |r.nodes|
  {
    TwoNodesOnePoint(a, b);
    hide Added, Lap, Walked, Dedup;
    WalkFindsNoMore(Added(_ => 0, Added(_ => 0, NO_NODES, a), b), h, k);
  }

  // ---------- Who answers ----------

  /** After any history, under any hash: the name a key is answered with is that of a present node exactly when the
      point that answers has a member, or a node without a name is present. */
  lemma AnswerIsPresentExactlyWhen(hash: Hash, cs: seq<Change>, h: int, p: int)
    requires IsNext(After(hash, NO_NODES, cs).points, h, p)
    ensures var r := After(hash, NO_NODES, cs);
            && Primary(r, h).Some?
            && (Primary(r, h).value in r.nodes <==> p in r.members || [] in r.nodes)
  {
    HistoryIsWellFormed(hash, NO_NODES, cs);
    hide After, Sorted, IsNext, Preference;
    FirstPreference(After(hash, NO_NODES, cs), h, p);
  }

  /** A node joined and left under colliding hashes: every key is answered with no name, and without an error. */
  lemma NobodyAnswers(x: Bytes, h: int)
    requires x != []
    ensures var r := After(_ => 0, NO_NODES, [Join(x), Leave(x)]); r.nodes == {} && Primary(r, h) == Some([])
  {
    var hash: Hash := _ => 0;
    var r := Removed(Added(hash, NO_NODES, x), x);
    assert [Join(x), Leave(x)][..1] == [Join(x)] && [Join(x)][..0] == [];
    assert After(hash, NO_NODES, [Join(x)]) == Added(hash, NO_NODES, x);
    assert r.nodes == {};
    hide Added, Removed;
    LeftBehind(hash, x);
    AnswerOfNobody(r, h);
  }

  lemma LeftBehind(hash: Hash, x: Bytes)
    requires x != [] && forall k :: hash(k) == 0
    ensures var r := Removed(Added(hash, NO_NODES, x), x); r.points != [] && r.members == map[]
  {
    var r := Removed(Added(hash, NO_NODES, x), x);
    var ps := Places(hash, x, VIRTUAL_NODES);
    assert ps[0] == ps[1] == 0;
    TwiceInMultiset(ps, 0, 1);
    hide Added, Removed, Places, Sorted;
    forall p ensures p !in r.members {
      JoinAndLeaveAt(hash, NO_NODES, x, p);
    }
    JoinAndLeaveAt(hash, NO_NODES, x, 0);
    assert 0 in multiset(r.points);
  }

  lemma AnswerOfNobody(r: Ring, h: int)
    requires r.members == map[] && r.points != []
    ensures Primary(r, h) == Some([])
  {
    PreferenceIsOwning(r, h);
    assert r.points[0] in r.points && Lookup(r.members, r.points[0]) == [];
    assert Owning(r) == {[]};
    var s := Preference(r, h);
    hide Preference, Owning, Distinct;
    assert s != [] && s[0] in Elems(s);
  }

  lemma {:induction false} Fewer(a: set<Bytes>, b: set<Bytes>)
    requires a <= b
    ensures |a| <= |b|
  {
    if a != {} {
      var x :| x in a;
      Fewer(a - {x}, b - {x});
    }
  }

  // ---------- Queues and their homes ----------

  /** The node that serves a key, if there is one. */
  function Primary(r: Ring, h: int): Option<Bytes> {
    var s := Preference(r, h);
    if s == [] then None else Some(s[0])
  }

  /** The queues among `queues` that `node` serves. */
  function LocalQueues(hash: Hash, r: Ring, node: Bytes, queues: seq<Bytes>): seq<Bytes> {
    if queues == [] then []
    else
      var n := |queues| - 1;
      LocalQueues(hash, r, node, queues[..n]) + if Primary(r, hash(queues[n])) == Some(node) then [queues[n]] else []
  }

  lemma {:induction false} LocalQueuesAre(hash: Hash, r: Ring, node: Bytes, queues: seq<Bytes>, q: Bytes)
    ensures q in LocalQueues(hash, r, node, queues) <==> q in queues && Primary(r, hash(q)) == Some(node)
    decreases |queues|
  {
    hide Primary;
    if queues != [] {
      var n := |queues| - 1;
      LocalQueuesAre(hash, r, node, queues[..n], q);
      assert queues == queues[..n] + [queues[n]];
    }
  }

  /** A leave takes no queue away from the nodes that stay; a join gives none to a node but the new one. */
  lemma QueuesStayHome(hash: Hash, r: Ring, x: Bytes, node: Bytes, queues: seq<Bytes>, q: Bytes)
    requires IsRing(hash, r) && r.nodes != {} && node != x
    ensures q in LocalQueues(hash, r, node, queues) ==> q in LocalQueues(hash, Removed(r, x), node, queues)
    ensures CollisionFree(hash, r.nodes + {x}) && q in LocalQueues(hash, Added(hash, r, x), node, queues) ==>
              q in LocalQueues(hash, r, node, queues)
  {
    hide LocalQueues, Preference, IsRing, CollisionFree, Added, Removed;
    LocalQueuesAre(hash, r, node, queues, q);
    LocalQueuesAre(hash, Removed(r, x), node, queues, q);
    LocalQueuesAre(hash, Added(hash, r, x), node, queues, q);
    OwnersMove(hash, r, x, hash(q));
  }
}
