/** The consistent-hash ring as a value: virtual nodes, joining and leaving, lookup, and the order in which the nodes
    are preferred for a key. The hash is any function (internal/cluster/sharding.go). */
module Rings {
  import opened Binary
  import opened Seqs
  import opened Sorting
  import opened Naming

  type Hash = Bytes -> uint32

  const VIRTUAL_NODES := 150

  /** Where the `i`-th virtual node of a node stands. */
  function Place(hash: Hash, node: Bytes, i: nat): int {
    hash(node + [COLON] + Decimal(i))
  }

  function Places(hash: Hash, node: Bytes, n: nat): (ps: seq<int>)
    ensures |ps| == n && forall i :: 0 <= i < n ==> ps[i] == Place(hash, node, i)
  {
    seq(n, i requires 0 <= i => Place(hash, node, i))
  }

  datatype Ring = Ring(points: seq<int>, members: map<int, Bytes>, nodes: set<Bytes>)

  const NO_NODES := Ring([], map[], {})

  /** A point without a member reads as the empty name. */
  function Lookup(members: map<int, Bytes>, p: int): Bytes {
    if p in members then members[p] else []
  }

  function Claimed(members: map<int, Bytes>, ps: seq<int>, x: Bytes): map<int, Bytes> {
    members + map p | p in ps :: x
  }

  function Added(hash: Hash, r: Ring, x: Bytes): Ring {
    if x in r.nodes then r
    else
      var ps := Places(hash, x, VIRTUAL_NODES);
      Ring(Sort(r.points + ps), Claimed(r.members, ps, x), r.nodes + {x})
  }

  datatype Remainder = Remainder(points: seq<int>, members: map<int, Bytes>)

  /** What the loop of RemoveNode leaves: it asks for the owner of each point in turn, and forgets it when it is `x`. */
  function SweepOut(points: seq<int>, members: map<int, Bytes>, x: Bytes): Remainder {
    if points == [] then Remainder([], members)
    else
      var n := |points| - 1;
      var s := SweepOut(points[..n], members, x);
      if Lookup(s.members, points[n]) != x then Remainder(s.points + [points[n]], s.members)
      else Remainder(s.points, s.members - {points[n]})
  }

  function Removed(r: Ring, x: Bytes): Ring {
    if x !in r.nodes then r
    else
      var s := SweepOut(r.points, r.members, x);
      Ring(s.points, s.members, r.nodes - {x})
  }

  // ---------- Where virtual nodes stand, by their names ----------

  /** A virtual node stands where the hash of its name is, whatever the hash. */
  lemma PlacedByName(node: Bytes, i: nat) returns (s: Bytes)
    ensures IsName(s, node, i) && forall hash: Hash :: Place(hash, node, i) == hash(s)
  {
    s := node + [COLON] + Decimal(i);
    NameIs(s, node, i);
  }

  lemma TwelfthPlaceOfN(hash: Hash)
    ensures Place(hash, [110], 12) == hash([110, 58, 49, 50])
  {
    assert Decimal(12) == Decimal(1) + [50];
    assert [110] + [COLON] + Decimal(12) == [110, 58, 49, 50];
  }

  /** Any two virtual nodes are set apart by some hash. */
  lemma ApartForSomeHash(a: Bytes, i: nat, b: Bytes, j: nat)
    requires a != b || i != j
    ensures exists hash: Hash :: Place(hash, a, i) != Place(hash, b, j)
  {
    var s := PlacedByName(a, i);
    var t := PlacedByName(b, j);
    if s == t {
      NamesAreDistinct(s, a, i, b, j);
    }
    hide Place;
    var hash: Hash := x => if x == s then 1 else 0;
    assert hash(s) != hash(t);
    assert Place(hash, a, i) != Place(hash, b, j);
  }

  /** `s` is the name of a virtual node of one of these nodes. */
  ghost predicate NamesOneOf(s: Bytes, nodes: set<Bytes>) {
    exists node, i :: node in nodes && 0 <= i < 150 && IsName(s, node, i)
  }

  /** Virtual nodes stand apart exactly when the hash sets their names apart. */
  lemma CollisionFreeExactlyWhen(hash: Hash, nodes: set<Bytes>)
    ensures CollisionFree(hash, nodes) <==>
            forall s, t :: NamesOneOf(s, nodes) && NamesOneOf(t, nodes) && hash(s) == hash(t) ==> s == t
  {
    if CollisionFree(hash, nodes) {
      forall s, t | NamesOneOf(s, nodes) && NamesOneOf(t, nodes) && hash(s) == hash(t) ensures s == t {
        ApartByName(hash, nodes, s, t);
      }
    }
    if forall s, t :: NamesOneOf(s, nodes) && NamesOneOf(t, nodes) && hash(s) == hash(t) ==> s == t {
      forall a, i, b, j | a in nodes && b in nodes && 0 <= i < 150 && 0 <= j < 150 && Place(hash, a, i) == Place(hash, b, j)
        ensures a == b && i == j
      {
        var s := PlacedByName(a, i);
        var t := PlacedByName(b, j);
        NamesAreDistinct(s, a, i, b, j);
      }
    }
  }

  lemma ApartByName(hash: Hash, nodes: set<Bytes>, s: Bytes, t: Bytes)
    requires CollisionFree(hash, nodes) && NamesOneOf(s, nodes) && NamesOneOf(t, nodes) && hash(s) == hash(t)
    ensures s == t
  {
    var a, i :| a in nodes && 0 <= i < 150 && IsName(s, a, i);
    var b, j :| b in nodes && 0 <= j < 150 && IsName(t, b, j);
    NameIs(s, a, i);
    NameIs(t, b, j);
    hide IsName;
    assert Place(hash, a, i) == hash(s) && Place(hash, b, j) == hash(t);
  }

  /** The names of all virtual nodes of these nodes. */
  function AllNames(nodes: seq<Bytes>): (names: seq<Bytes>)
    ensures |names| == 150 * |nodes|
  {
    if nodes == [] then []
    else AllNames(nodes[1..]) + seq(150, i requires 0 <= i < 150 => nodes[0] + [COLON] + Decimal(i))
  }

  lemma {:induction false} NamesAreListed(nodes: seq<Bytes>, node: Bytes, i: nat)
    requires node in nodes && i < 150
    ensures node + [COLON] + Decimal(i) in AllNames(nodes)
    decreases |nodes|
  {
    var own := seq(150, i requires 0 <= i < 150 => nodes[0] + [COLON] + Decimal(i));
    assert AllNames(nodes) == AllNames(nodes[1..]) + own;
    if node == nodes[0] {
      assert own[i] == node + [COLON] + Decimal(i);
    } else {
      NamesAreListed(nodes[1..], node, i);
    }
  }

  function IndexIn(names: seq<Bytes>, s: Bytes): (k: nat)
    ensures if s in names then k < |names| && names[k] == s else k == |names|
  {
    if names == [] || names[0] == s then 0 else 1 + IndexIn(names[1..], s)
  }

  /** Up to 28 million nodes, there is a hash without collisions. */
  lemma CollisionFreeHashExists(nodes: seq<Bytes>)
    requires 150 * |nodes| <= 0xFFFF_FFFF
    ensures exists hash: Hash :: CollisionFree(hash, Elems(nodes))
  {
    var names := AllNames(nodes);
    var hash: Hash := s => IndexIn(names, s);
    forall s | NamesOneOf(s, Elems(nodes)) ensures s in names {
      var node, i :| node in Elems(nodes) && 0 <= i < 150 && IsName(s, node, i);
      NameIs(s, node, i);
      NamesAreListed(nodes, node, i);
    }
    CollisionFreeExactlyWhen(hash, Elems(nodes));
  }

  ghost predicate StandsByName(hash: Hash, node: Bytes, i: nat, p: int) {
    exists s :: IsName(s, node, i) && hash(s) == p
  }

  /** `r'` is `r` after `x` has joined: it has 150 more points, one for each name. */
  ghost predicate Joined(hash: Hash, r: Ring, x: Bytes, r': Ring) {
    && r'.nodes == r.nodes + {x} && (x in r.nodes ==> r' == r)
    && (x !in r.nodes ==> exists ps :: JoinedAt(hash, r, x, ps, r'))
  }

  ghost predicate JoinedAt(hash: Hash, r: Ring, x: Bytes, ps: seq<int>, r': Ring) {
    && |ps| == 150 && (forall i :: 0 <= i < 150 ==> StandsByName(hash, x, i, ps[i]))
    && Sorted(r'.points) && multiset(r'.points) == multiset(r.points) + multiset(ps)
    && r'.members.Keys == r.members.Keys + Elems(ps)
    && (forall p :: p in r'.members ==> if p in ps then r'.members[p] == x else p in r.members && r'.members[p] == r.members[p])
  }

  lemma PlacesAreByName(hash: Hash, x: Bytes, i: nat)
    requires i < VIRTUAL_NODES
    ensures StandsByName(hash, x, i, Places(hash, x, VIRTUAL_NODES)[i])
  {
    var s := PlacedByName(x, i);
  }

  lemma PointsAfterJoining(points: seq<int>, ps: seq<int>)
    ensures Sorted(Sort(points + ps)) && multiset(Sort(points + ps)) == multiset(points) + multiset(ps)
  {
    SortSorts(points + ps);
  }

  lemma MembersAfterJoining(members: map<int, Bytes>, ps: seq<int>, x: Bytes)
    ensures var members' := Claimed(members, ps, x);
            && members'.Keys == members.Keys + Elems(ps)
            && forall p :: p in members' ==> if p in ps then members'[p] == x else p in members && members'[p] == members[p]
  {
  }

  lemma AddedIsJoined(hash: Hash, r: Ring, x: Bytes)
    ensures Joined(hash, r, x, Added(hash, r, x))
  {
    if x !in r.nodes {
      var ps, r' := Places(hash, x, VIRTUAL_NODES), Added(hash, r, x);
      hide Place, Places, StandsByName, Sort, Sorted, Claimed, Elems;
      PointsAfterJoining(r.points, ps);
      MembersAfterJoining(r.members, ps, x);
      forall i: nat | i < 150 ensures StandsByName(hash, x, i, ps[i]) {
        PlacesAreByName(hash, x, i);
      }
      assert JoinedAt(hash, r, x, ps, r');
    }
  }

  // ---------- Any hash: what every ring keeps, and when leaving undoes joining ----------

  /** Holds of every ring there is, whatever the hash. */
  ghost predicate WellFormed(r: Ring) {
    Sorted(r.points) && (forall p :: p in r.members ==> p in r.points && r.members[p] in r.nodes)
  }

  /** How often `p` is left by a sweep for `x`. A point that stands twice loses its member at the first visit and is
      then kept as nobody's, unless the empty name is being removed. */
  function Left(members: map<int, Bytes>, x: Bytes, p: int, n: nat): nat {
    if Lookup(members, p) != x then n else if x == [] || n == 0 then 0 else n - 1
  }

  lemma {:induction false} SweepOutMembers(points: seq<int>, members: map<int, Bytes>, x: Bytes, p: int)
    ensures var s := SweepOut(points, members, x);
            && (p in s.members <==> p in members && !(p in points && members[p] == x))
            && (p in s.members ==> s.members[p] == members[p])
    decreases |points|
  {
    if points != [] {
      var n := |points| - 1;
      SweepOutMembers(points[..n], members, x, p);
      assert points == points[..n] + [points[n]];
    }
  }

  function Count(s: seq<int>, p: int): nat {
    if s == [] then 0 else Count(s[..|s| - 1], p) + if s[|s| - 1] == p then 1 else 0
  }

  lemma CountAppend(s: seq<int>, q: int, p: int)
    ensures Count(s + [q], p) == Count(s, p) + if q == p then 1 else 0
  {
    assert (s + [q])[..|s|] == s;
  }

  lemma {:induction false} CountIs(s: seq<int>, p: int)
    ensures Count(s, p) == multiset(s)[p] && (p in s <==> Count(s, p) > 0)
    decreases |s|
  {
    if s != [] {
      CountIs(s[..|s| - 1], p);
      assert s == s[..|s| - 1] + [s[|s| - 1]];
    }
  }

  lemma LeftOneMore(members: map<int, Bytes>, now: map<int, Bytes>, x: Bytes, p: int, q: int, n: nat)
    requires p in now <==> p in members && !(n > 0 && members[p] == x)
    requires p in now ==> now[p] == members[p]
    ensures Left(members, x, p, n + if q == p then 1 else 0)
         == Left(members, x, p, n) + if q == p && Lookup(now, q) != x then 1 else 0
  {
  }

  lemma {:induction false} SweepOutCount(points: seq<int>, members: map<int, Bytes>, x: Bytes, p: int)
    ensures Count(SweepOut(points, members, x).points, p) == Left(members, x, p, Count(points, p))
    decreases |points|
  {
    if points != [] {
      var n := |points| - 1;
      var s, q := SweepOut(points[..n], members, x), points[n];
      assert SweepOut(points, members, x).points == if Lookup(s.members, q) != x then s.points + [q] else s.points;
      assert points == points[..n] + [q];
      SweepOutCount(points[..n], members, x, p);
      SweepOutMembers(points[..n], members, x, p);
      CountIs(points[..n], p);
      CountAppend(points[..n], q, p);
      CountAppend(s.points, q, p);
      hide Count, SweepOut, Left;
      LeftOneMore(members, s.members, x, p, q, Count(points[..n], p));
    }
  }

  lemma SweepOutLeaves(points: seq<int>, members: map<int, Bytes>, x: Bytes, p: int)
    ensures multiset(SweepOut(points, members, x).points)[p] == Left(members, x, p, multiset(points)[p])
  {
    SweepOutCount(points, members, x, p);
    CountIs(points, p);
    CountIs(SweepOut(points, members, x).points, p);
  }

  lemma {:induction false} SweepOutKeepsOrder(points: seq<int>, members: map<int, Bytes>, x: Bytes)
    requires Sorted(points)
    ensures Sorted(SweepOut(points, members, x).points)
    decreases |points|
  {
    if points != [] {
      var n := |points| - 1;
      SweepOutKeepsOrder(points[..n], members, x);
      var s := SweepOut(points[..n], members, x).points;
      forall i | 0 <= i < |s| ensures s[i] <= points[n] {
        SweepOutFrom(points[..n], members, x, s[i]);
      }
    }
  }

  lemma SweepOutFrom(points: seq<int>, members: map<int, Bytes>, x: Bytes, p: int)
    requires p in SweepOut(points, members, x).points
    ensures p in points
  {
    SweepOutCount(points, members, x, p);
    CountIs(points, p);
    CountIs(SweepOut(points, members, x).points, p);
  }

  lemma AddedIsWellFormed(hash: Hash, r: Ring, x: Bytes)
    requires WellFormed(r)
    ensures WellFormed(Added(hash, r, x))
  {
    hide Sorted, Sort;
    if x !in r.nodes {
      var ps := r.points + Places(hash, x, VIRTUAL_NODES);
      SortSorts(ps);
      SameElems(Sort(ps), ps);
      assert forall p :: p in ps <==> p in Elems(ps);
      assert forall p :: p in Sort(ps) <==> p in Elems(Sort(ps));
    }
  }

  lemma RemovedIsWellFormed(r: Ring, x: Bytes)
    requires WellFormed(r)
    ensures WellFormed(Removed(r, x))
  {
    hide Sorted, SweepOut;
    if x in r.nodes {
      var s := SweepOut(r.points, r.members, x);
      SweepOutKeepsOrder(r.points, r.members, x);
      forall p | p in s.members ensures p in s.points && s.members[p] in r.nodes - {x} {
        SweepOutLeaves(r.points, r.members, x, p);
        SweepOutMembers(r.points, r.members, x, p);
        assert p in r.points;
        assert multiset(s.points)[p] == multiset(r.points)[p] > 0;
      }
    }
  }

  /** No virtual node of `x` stands on another one. For the empty name, which reads like no name at all, no point at
      all may be shared, and there may be no point that is nobody's. */
  ghost predicate Uncontested(hash: Hash, r: Ring, x: Bytes) {
    var ps := Places(hash, x, VIRTUAL_NODES);
    if x == [] then (forall p :: p in ps ==> p !in r.points) && (forall p :: p in r.points ==> p in r.members)
    else Distinct(ps) && forall p :: p in ps ==> p !in r.members
  }

  lemma {:induction false} CountAtMostOne(s: seq<int>)
    ensures Distinct(s) <==> forall p :: p in s ==> multiset(s)[p] == 1
  {
    if Distinct(s) {
      DistinctMultiset(s);
    } else {
      var i, j :| 0 <= i < j < |s| && s[i] == s[j];
      TwiceInMultiset(s, i, j);
    }
  }

  /** Joining and leaving again, point by point. */
  lemma JoinAndLeaveAt(hash: Hash, r: Ring, x: Bytes, p: int)
    requires WellFormed(r) && x !in r.nodes
    ensures var ps, r' := Places(hash, x, VIRTUAL_NODES), Removed(Added(hash, r, x), x);
            && (p in r'.members <==> p in r.members && p !in ps)
            && (p in r'.members ==> r'.members[p] == r.members[p])
            && multiset(r'.points)[p] ==
               if p in ps || (x == [] && p !in r.members)
               then (if x == [] then 0 else multiset(r.points)[p] + multiset(ps)[p] - 1) else multiset(r.points)[p]
  {
    hide Sorted, Sort, SweepOut;
    var ps, a := Places(hash, x, VIRTUAL_NODES), Added(hash, r, x);
    SortSorts(r.points + ps);
    SweepOutLeaves(a.points, a.members, x, p);
    SweepOutMembers(a.points, a.members, x, p);
    assert multiset(a.points)[p] == multiset(r.points)[p] + multiset(ps)[p];
    assert p in ps <==> multiset(ps)[p] > 0;
    assert p in a.points <==> multiset(a.points)[p] > 0;
  }

  /** Removing a node that was just added gives back the ring as it was, exactly when the node's places are
      uncontested. Otherwise points stay behind, or members of other nodes are gone. */
  lemma LeavingUndoesJoiningExactlyWhen(hash: Hash, r: Ring, x: Bytes)
    requires WellFormed(r) && x !in r.nodes
    ensures Removed(Added(hash, r, x), x) == r <==> Uncontested(hash, r, x)
  {
    if Uncontested(hash, r, x) {
      JoinAndLeave(hash, r, x);
    }
    if Removed(Added(hash, r, x), x) == r {
      SameMeansUncontested(hash, r, x);
    }
  }

  lemma JoinAndLeave(hash: Hash, r: Ring, x: Bytes)
    requires WellFormed(r) && x !in r.nodes && Uncontested(hash, r, x)
    ensures Removed(Added(hash, r, x), x) == r
  {
    var r' := Removed(Added(hash, r, x), x);
    AddedIsWellFormed(hash, r, x);
    RemovedIsWellFormed(Added(hash, r, x), x);
    assert r'.nodes == r.nodes;
    hide Sorted, Added, Removed, Uncontested;
    forall p ensures (p in r'.members <==> p in r.members) && (p in r'.members ==> r'.members[p] == r.members[p])
      && multiset(r'.points)[p] == multiset(r.points)[p]
    {
      UncontestedAt(hash, r, x, p);
    }
    SameMap(r'.members, r.members);
    SortedUnique(r'.points, r.points);
  }

  lemma UncontestedAt(hash: Hash, r: Ring, x: Bytes, p: int)
    requires WellFormed(r) && x !in r.nodes && Uncontested(hash, r, x)
    ensures var r' := Removed(Added(hash, r, x), x);
            && (p in r'.members <==> p in r.members) && (p in r'.members ==> r'.members[p] == r.members[p])
            && multiset(r'.points)[p] == multiset(r.points)[p]
  {
    CountAtMostOne(Places(hash, x, VIRTUAL_NODES));
    hide Sorted, Distinct, Added, Removed;
    JoinAndLeaveAt(hash, r, x, p);
    assert p in r.points <==> multiset(r.points)[p] > 0;
  }

  lemma SameMeansUncontested(hash: Hash, r: Ring, x: Bytes)
    requires WellFormed(r) && x !in r.nodes && Removed(Added(hash, r, x), x) == r
    ensures Uncontested(hash, r, x)
  {
    var ps := Places(hash, x, VIRTUAL_NODES);
    CountAtMostOne(ps);
    hide Sorted, Distinct, Added, Removed;
    forall p ensures (p in ps ==> p !in r.members && (if x == [] then p !in r.points else multiset(ps)[p] == 1))
      && (x == [] && p in r.points ==> p in r.members)
    {
      JoinAndLeaveAt(hash, r, x, p);
      assert p in r.points <==> multiset(r.points)[p] > 0;
    }
  }

  /** With a hash that maps everything to one point, a node that joins and leaves an empty ring does not leave it
      empty. */
  lemma CollidingNodeStaysBehind(x: Bytes)
    requires x != []
    ensures Removed(Added(_ => 0, NO_NODES, x), x) != NO_NODES
  {
    var hash: Hash := _ => 0;
    var ps := Places(hash, x, VIRTUAL_NODES);
    assert ps[0] == ps[1] == 0;
    LeavingUndoesJoiningExactlyWhen(hash, NO_NODES, x);
  }

  // ---------- Rings without collisions depend on their nodes only ----------

  /** No two virtual nodes of these nodes stand on the same point. */
  ghost predicate CollisionFree(hash: Hash, nodes: set<Bytes>) {
    forall a, i, b, j :: a in nodes && b in nodes && 0 <= i < VIRTUAL_NODES && 0 <= j < VIRTUAL_NODES ==>
      Place(hash, a, i) == Place(hash, b, j) ==> a == b && i == j
  }

  ghost predicate Stands(hash: Hash, nodes: set<Bytes>, p: int, node: Bytes, i: int) {
    node in nodes && 0 <= i < VIRTUAL_NODES && p == Place(hash, node, i)
  }

  /** The ring that these nodes should have: every virtual node at its place, and nothing else. */
  ghost predicate IsRing(hash: Hash, r: Ring) {
    && Ascending(r.points) && Elems(r.points) == r.members.Keys
    && (forall p :: p in r.members ==> exists i :: Stands(hash, r.nodes, p, r.members[p], i))
    && (forall node, i :: node in r.nodes && 0 <= i < VIRTUAL_NODES ==>
          Place(hash, node, i) in r.members && r.members[Place(hash, node, i)] == node)
  }

  /** A point belongs to a node exactly when one of the names "node:0" to "node:149" hashes to it. */
  ghost predicate ByName(hash: Hash, r: Ring) {
    forall p, node :: OwnsPoint(r, p, node) <==> node in r.nodes && exists i :: 0 <= i < 150 && StandsByName(hash, node, i, p)
  }

  predicate OwnsPoint(r: Ring, p: int, node: Bytes) {
    p in r.members && r.members[p] == node
  }

  lemma RingIsByName(hash: Hash, r: Ring)
    requires IsRing(hash, r)
    ensures ByName(hash, r)
  {
    hide Ascending, Elems, Place, IsName;
    forall p, node
      ensures OwnsPoint(r, p, node) <==> node in r.nodes && exists i :: 0 <= i < 150 && StandsByName(hash, node, i, p)
    {
      if OwnsPoint(r, p, node) {
        var i :| Stands(hash, r.nodes, p, node, i);
        var s := PlacedByName(node, i);
        assert StandsByName(hash, node, i, p);
      }
      if node in r.nodes && exists i :: 0 <= i < 150 && StandsByName(hash, node, i, p) {
        var i :| 0 <= i < 150 && StandsByName(hash, node, i, p);
        StandsThere(hash, node, i, p);
      }
    }
  }

  lemma StandsThere(hash: Hash, node: Bytes, i: nat, p: int)
    requires StandsByName(hash, node, i, p)
    ensures p == Place(hash, node, i)
  {
    var s :| IsName(s, node, i) && hash(s) == p;
    NameIs(s, node, i);
  }

  lemma AddedIsRing(hash: Hash, r: Ring, x: Bytes)
    requires IsRing(hash, r) && CollisionFree(hash, r.nodes + {x})
    ensures IsRing(hash, Added(hash, r, x)) && ByName(hash, Added(hash, r, x))
  {
    JoinedRingIsRing(hash, r, x);
    RingIsByName(hash, Added(hash, r, x));
  }

  lemma JoinedRingIsRing(hash: Hash, r: Ring, x: Bytes)
    requires IsRing(hash, r) && CollisionFree(hash, r.nodes + {x})
    ensures IsRing(hash, Added(hash, r, x))
  {
    if x !in r.nodes {
      var ps, a := Places(hash, x, VIRTUAL_NODES), Added(hash, r, x);
      NewPlaces(hash, r, x);
      AllDistinct(r.points, ps);
      SortDistinct(r.points + ps);
      assert Elems(r.points + ps) == Elems(r.points) + Elems(ps);
      hide Sort, Ascending, Distinct, CollisionFree;
      assert a.members.Keys == r.members.Keys + Elems(ps);
      forall p | p in a.members ensures exists i :: Stands(hash, a.nodes, p, a.members[p], i) {
        if p in ps {
          var i :| 0 <= i < |ps| && ps[i] == p;
          assert Stands(hash, a.nodes, p, x, i);
        } else {
          var i :| Stands(hash, r.nodes, p, r.members[p], i);
          assert Stands(hash, a.nodes, p, r.members[p], i);
        }
      }
      forall node, i | node in a.nodes && 0 <= i < VIRTUAL_NODES
        ensures Place(hash, node, i) in a.members && a.members[Place(hash, node, i)] == node
      {
        if node == x {
          assert ps[i] == Place(hash, x, i);
        } else {
          assert Place(hash, node, i) in r.members;
        }
      }
    }
  }

  lemma NewPlaces(hash: Hash, r: Ring, x: Bytes)
    requires IsRing(hash, r) && CollisionFree(hash, r.nodes + {x}) && x !in r.nodes
    ensures Distinct(Places(hash, x, VIRTUAL_NODES))
    ensures forall p :: p in Places(hash, x, VIRTUAL_NODES) ==> p !in r.points && p !in r.members
  {
    var ps := Places(hash, x, VIRTUAL_NODES);
    hide Ascending;
    forall p, i | p in r.members && 0 <= i < VIRTUAL_NODES ensures ps[i] != p {
      var j :| Stands(hash, r.nodes, p, r.members[p], j);
      assert p == Place(hash, r.members[p], j) && ps[i] == Place(hash, x, i);
    }
    assert forall p :: p in r.points <==> p in Elems(r.points);
  }

  lemma AllDistinct(a: seq<int>, b: seq<int>)
    requires Ascending(a) && Distinct(b) && forall p :: p in b ==> p !in a
    ensures Distinct(a + b)
  {
    forall i, j | 0 <= i < j < |a + b| ensures (a + b)[i] != (a + b)[j] {
      assert j >= |a| ==> b[j - |a|] in b;
    }
  }

  /** The points of the other nodes. */
  function Others(points: seq<int>, members: map<int, Bytes>, x: Bytes): seq<int> {
    if points == [] then []
    else
      var n := |points| - 1;
      Others(points[..n], members, x) + if Lookup(members, points[n]) != x then [points[n]] else []
  }

  lemma {:induction false} OthersAre(points: seq<int>, members: map<int, Bytes>, x: Bytes, p: int)
    ensures p in Others(points, members, x) <==> p in points && Lookup(members, p) != x
    decreases |points|
  {
    if points != [] {
      var n := |points| - 1;
      OthersAre(points[..n], members, x, p);
      assert points == points[..n] + [points[n]];
    }
  }

  lemma {:induction false} OthersKeepOrder(points: seq<int>, members: map<int, Bytes>, x: Bytes)
    requires Ascending(points)
    ensures Ascending(Others(points, members, x))
    decreases |points|
  {
    if points != [] {
      var n := |points| - 1;
      OthersKeepOrder(points[..n], members, x);
      var s := Others(points[..n], members, x);
      forall i | 0 <= i < |s| ensures s[i] < points[n] {
        OthersAre(points[..n], members, x, s[i]);
      }
    }
  }

  lemma {:induction false} SweepOutDistinct(points: seq<int>, members: map<int, Bytes>, x: Bytes)
    requires Distinct(points)
    ensures SweepOut(points, members, x).points == Others(points, members, x)
    decreases |points|
  {
    if points != [] {
      var n := |points| - 1;
      SweepOutDistinct(points[..n], members, x);
      SweepOutMembers(points[..n], members, x, points[n]);
      assert points[n] !in points[..n];
    }
  }

  lemma RemovedIsOthers(hash: Hash, r: Ring, x: Bytes)
    requires IsRing(hash, r) && x in r.nodes
    ensures Removed(r, x).points == Others(r.points, r.members, x)
    ensures forall p :: p in Removed(r, x).members <==> p in r.members && r.members[p] != x
    ensures forall p :: p in Removed(r, x).members ==> Removed(r, x).members[p] == r.members[p]
  {
    SweepOutDistinct(r.points, r.members, x);
    hide Others, SweepOut;
    forall p ensures (p in Removed(r, x).members <==> p in r.members && r.members[p] != x)
      && (p in Removed(r, x).members ==> Removed(r, x).members[p] == r.members[p])
    {
      SweepOutMembers(r.points, r.members, x, p);
      assert p in r.points <==> p in Elems(r.points);
    }
  }

  lemma RemovedIsRing(hash: Hash, r: Ring, x: Bytes)
    requires IsRing(hash, r)
    ensures IsRing(hash, Removed(r, x))
  {
    if x in r.nodes {
      var r' := Removed(r, x);
      assert r'.nodes == r.nodes - {x};
      RemovedIsOthers(hash, r, x);
      OthersKeepOrder(r.points, r.members, x);
      hide Others, Ascending, SweepOut, Removed;
      RemovedPoints(r, x, r');
      RemovedMembers(hash, r, x, r');
    }
  }

  lemma RemovedMembers(hash: Hash, r: Ring, x: Bytes, r': Ring)
    requires IsRing(hash, r) && r'.nodes == r.nodes - {x}
    requires forall p :: p in r'.members <==> p in r.members && r.members[p] != x
    requires forall p :: p in r'.members ==> r'.members[p] == r.members[p]
    ensures forall p :: p in r'.members ==> exists i :: Stands(hash, r'.nodes, p, r'.members[p], i)
    ensures forall node, i :: node in r'.nodes && 0 <= i < VIRTUAL_NODES ==>
              Place(hash, node, i) in r'.members && r'.members[Place(hash, node, i)] == node
  {
    hide Ascending, Elems, Place;
    forall p | p in r'.members ensures exists i :: Stands(hash, r'.nodes, p, r'.members[p], i) {
      var i :| Stands(hash, r.nodes, p, r.members[p], i);
      assert Stands(hash, r'.nodes, p, r'.members[p], i);
    }
  }

  lemma RemovedPoints(r: Ring, x: Bytes, r': Ring)
    requires Elems(r.points) == r.members.Keys && r'.points == Others(r.points, r.members, x)
    requires forall p :: p in r'.members <==> p in r.members && r.members[p] != x
    ensures Elems(r'.points) == r'.members.Keys
  {
    hide Others;
    forall p ensures p in Elems(r'.points) <==> p in r'.members {
      OthersAre(r.points, r.members, x, p);
      assert p in r.points <==> p in Elems(r.points);
    }
  }

  lemma NoNodesIsRing(hash: Hash)
    ensures IsRing(hash, NO_NODES)
  {
  }

  /** Two rings of the same nodes are the same ring. */
  lemma RingIsUnique(hash: Hash, r: Ring, r': Ring)
    requires IsRing(hash, r) && IsRing(hash, r') && r.nodes == r'.nodes
    ensures r == r'
  {
    hide Ascending;
    forall p ensures (p in r.members <==> p in r'.members) && (p in r.members ==> r'.members[p] == r.members[p]) {
      SameMembers(hash, r, r', p);
      SameMembers(hash, r', r, p);
    }
    SameMap(r.members, r'.members);
    AscendingUnique(r.points, r'.points);
  }

  lemma SameMembers(hash: Hash, r: Ring, r': Ring, p: int)
    requires IsRing(hash, r) && IsRing(hash, r') && r.nodes == r'.nodes
    ensures p in r.members ==> p in r'.members && r'.members[p] == r.members[p]
  {
    hide Ascending;
    if p in r.members {
      var i :| Stands(hash, r.nodes, p, r.members[p], i);
    }
  }

  // ---------- Histories of joins and leaves ----------

  datatype Change = Join(node: Bytes) | Leave(node: Bytes)

  function After(hash: Hash, r: Ring, cs: seq<Change>): Ring {
    if cs == [] then r
    else
      var n := |cs| - 1;
      match cs[n]
      case Join(x) => Added(hash, After(hash, r, cs[..n]), x)
      case Leave(x) => Removed(After(hash, r, cs[..n]), x)
  }

  function NodesAfter(nodes: set<Bytes>, cs: seq<Change>): set<Bytes> {
    if cs == [] then nodes
    else
      var n := |cs| - 1;
      match cs[n]
      case Join(x) => NodesAfter(nodes, cs[..n]) + {x}
      case Leave(x) => NodesAfter(nodes, cs[..n]) - {x}
  }

  /** Whatever the hash does, the nodes are the ones that joined last, and the ring stays well-formed. */
  lemma {:induction false} HistoryIsWellFormed(hash: Hash, r: Ring, cs: seq<Change>)
    requires WellFormed(r)
    ensures WellFormed(After(hash, r, cs)) && After(hash, r, cs).nodes == NodesAfter(r.nodes, cs)
    decreases |cs|
  {
    hide WellFormed, Sort, SweepOut, Places, Claimed;
    if cs != [] {
      var n := |cs| - 1;
      HistoryIsWellFormed(hash, r, cs[..n]);
      AddedIsWellFormed(hash, After(hash, r, cs[..n]), cs[n].node);
      RemovedIsWellFormed(After(hash, r, cs[..n]), cs[n].node);
    }
  }

  lemma {:induction false} HistoryIsRing(hash: Hash, r: Ring, cs: seq<Change>, all: set<Bytes>)
    requires IsRing(hash, r) && r.nodes <= all && CollisionFree(hash, all)
    requires forall i :: 0 <= i < |cs| ==> cs[i].node in all
    ensures IsRing(hash, After(hash, r, cs)) && After(hash, r, cs).nodes == NodesAfter(r.nodes, cs) <= all
    decreases |cs|
  {
    hide IsRing, Sort, SweepOut, Places, Claimed;
    if cs != [] {
      var n := |cs| - 1;
      HistoryIsRing(hash, r, cs[..n], all);
      AddedIsRing(hash, After(hash, r, cs[..n]), cs[n].node);
      RemovedIsRing(hash, After(hash, r, cs[..n]), cs[n].node);
    }
  }

  /** Two histories over names that do not collide, which leave the same nodes, leave the same ring. */
  lemma HistoryDoesNotMatter(hash: Hash, cs: seq<Change>, cs': seq<Change>, all: set<Bytes>)
    requires CollisionFree(hash, all) && NodesAfter({}, cs) == NodesAfter({}, cs')
    requires forall i :: 0 <= i < |cs| ==> cs[i].node in all
    requires forall i :: 0 <= i < |cs'| ==> cs'[i].node in all
    ensures After(hash, NO_NODES, cs) == After(hash, NO_NODES, cs')
  {
    NoNodesIsRing(hash);
    hide IsRing, After, NodesAfter, CollisionFree;
    HistoryIsRing(hash, NO_NODES, cs, all);
    HistoryIsRing(hash, NO_NODES, cs', all);
    RingIsUnique(hash, After(hash, NO_NODES, cs), After(hash, NO_NODES, cs'));
  }
}
