/** The ring as it is kept and asked: ConsistentHash and Sharding (internal/cluster/sharding.go). */
module Sharding {
  import opened Binary
  import opened Seqs
  import opened Sums
  import opened Sorting
  import opened Naming
  import opened Rings
  import opened Preferences

  /** sort.Search for the first point at or after `h`. */
  method Search(points: seq<int>, h: int) returns (k: nat)
    requires Sorted(points)
    ensures k <= |points|
    ensures forall i :: 0 <= i < k ==> points[i] < h
    ensures forall i :: k <= i < |points| ==> points[i] >= h
  {
    var lo, hi := 0, |points|;
    while lo < hi
      invariant 0 <= lo <= hi <= |points|
      invariant forall i :: 0 <= i < lo ==> points[i] < h
      invariant forall i :: hi <= i < |points| ==> points[i] >= h
    {
      var mid := (lo + hi) / 2;
      if points[mid] < h {
        lo := mid + 1;
      } else {
        hi := mid;
      }
    }
    k := lo;
  }

  lemma SplitAtNext(points: seq<int>, h: int, k: nat)
    requires Sorted(points) && points != [] && k <= |points|
    requires forall i :: 0 <= i < k ==> points[i] < h
    requires forall i :: k <= i < |points| ==> points[i] >= h
    ensures IsNext(points, h, if k == |points| then points[0] else points[k])
  {
    var p := if k == |points| then points[0] else points[k];
    assert p in points;
    forall q | q in points ensures (q >= h ==> k < |points| && p <= q) && (k == |points| ==> p <= q) {
      var i :| 0 <= i < |points| && points[i] == q;
    }
  }

  /** Where a walk from `start` is after `i` steps around `n` points. */
  function Spot(start: nat, i: nat, n: nat): (k: nat)
    requires n > 0
    ensures k < n
  {
    (start + i) % n
  }

  function Onward(k: nat, n: nat): (k': nat)
    requires n > 0
    ensures k' < n
  {
    (k + 1) % n
  }

  lemma NextSpot(start: nat, i: nat, n: nat)
    requires n > 0
    ensures Spot(start, i + 1, n) == Onward(Spot(start, i, n), n)
  {
    var q, r := (start + i) / n, (start + i) % n;
    assert start + i + 1 == q * n + (r + 1);
    ModWithout(q, n, r + 1);
  }

  lemma ModWithout(q: nat, n: nat, r: nat)
    requires n > 0
    ensures (q * n + r) % n == r % n
  {
    var a := q * n + r;
    assert r == (r / n) * n + r % n;
    DivModUnique(a, n, q + r / n, r % n);
  }

  lemma FirstLap(start: nat, i: nat, n: nat)
    requires start < n && i < n
    ensures Spot(start, i, n) == if start + i < n then start + i else start + i - n
  {
  }

  lemma RoundStartsAt(points: seq<int>, h: int, k: nat)
    requires points != [] && k <= |points|
    requires forall i :: 0 <= i < k ==> points[i] < h
    requires forall i :: k <= i < |points| ==> points[i] >= h
    ensures |Clockwise(points, h)| == |points|
    ensures var start := if k == |points| then 0 else k;
            forall i :: 0 <= i < |points| ==> Clockwise(points, h)[i] == points[Spot(start, i, |points|)]
  {
    SidesOfSplit(points, h, k);
    hide Side, Spot;
    var start := if k == |points| then 0 else k;
    forall i | 0 <= i < |points| ensures Clockwise(points, h)[i] == points[Spot(start, i, |points|)] {
      FirstLap(start, i, |points|);
    }
  }

  /** The walk of GetNodes: from point to point, until `count` nodes are found. It ends within one lap. */
  method Walk(points: seq<int>, members: map<int, Bytes>, start: nat, count: nat, ghost owners: seq<Bytes>)
    returns (found: seq<Bytes>)
    requires start < |points| == |owners| && count <= |Dedup(owners)|
    requires forall i :: 0 <= i < |points| ==> owners[i] == Lookup(members, points[Spot(start, i, |points|)])
    ensures found == Dedup(owners)[..count]
  {
    var k := start;
    ghost var steps := 0;
    var seen: set<Bytes> := {};
    found := [];
    FirstLap(start, 0, |points|);
    assert owners[..0] == [] && owners[..|owners|] == owners;
    while |found| < count
      invariant 0 <= steps <= |points| && k == Spot(start, steps, |points|)
      invariant found == Dedup(owners[..steps]) && seen == Elems(owners[..steps])
      invariant |found| <= count
      decreases |points| - steps
    {
      hide Dedup, Spot, Onward, Elems, Lookup;
      NextSpot(start, steps, |points|);
      var nodeID := Lookup(members, points[k]);
      OneMoreOwner(owners, steps, nodeID);
      if nodeID !in seen {
        found := found + [nodeID];
        seen := seen + {nodeID};
      }
      k := Onward(k, |points|);
      steps := steps + 1;
    }
    DedupPrefix(owners, steps);
  }

  class ConsistentHash {
    const hash: Hash
    var ring: seq<int>
    var members: map<int, Bytes>
    var nodes: set<Bytes>

    function View(): Ring
      reads this
    {
      Ring(ring, members, nodes)
    }

    ghost predicate Valid()
      reads this
    {
      WellFormed(View())
    }

    constructor (hash: Hash)
      ensures Valid() && this.hash == hash && View() == NO_NODES
    {
      this.hash := hash;
      ring, members, nodes := [], map[], {};
    }

    method AddNode(nodeID: Bytes)
      requires Valid()
      modifies this
      ensures Valid() && View() == Added(hash, old(View()), nodeID) && Joined(hash, old(View()), nodeID, View())
    {
      AddedIsWellFormed(hash, View(), nodeID);
      AddedIsJoined(hash, View(), nodeID);
      hide Joined;
      if nodeID in nodes {
        return;
      }
      nodes := nodes + {nodeID};
      NoPlaces(hash, nodeID, members);
      hide Sort, WellFormed;
      var i := 0;
      while i < VIRTUAL_NODES
        invariant 0 <= i <= VIRTUAL_NODES && nodes == old(nodes) + {nodeID}
        invariant ring == old(ring) + Places(hash, nodeID, i)
        invariant members == Claimed(old(members), Places(hash, nodeID, i), nodeID)
      {
        hide Places, Claimed, Place, WellFormed;
        var point := Place(hash, nodeID, i);
        OneMorePlace(hash, nodeID, old(members), i);
        ring := ring + [point];
        members := members[point := nodeID];
        i := i + 1;
      }
      ring := Sort(ring);
    }

    method RemoveNode(nodeID: Bytes)
      requires Valid()
      modifies this
      ensures Valid() && View() == Removed(old(View()), nodeID)
    {
      RemovedIsWellFormed(View(), nodeID);
      if nodeID !in nodes {
        return;
      }
      nodes := nodes - {nodeID};
      var newRing: seq<int> := [];
      var i := 0;
      while i < |ring|
        invariant 0 <= i <= |ring| && ring == old(ring) && nodes == old(nodes) - {nodeID}
        invariant SweepOut(ring[..i], old(members), nodeID) == Remainder(newRing, members)
      {
        assert ring[..i + 1][..i] == ring[..i];
        var point := ring[i];
        if Lookup(members, point) != nodeID {
          newRing := newRing + [point];
        } else {
          members := members - {point};
        }
        i := i + 1;
      }
      assert ring[..|ring|] == ring;
      ring := newRing;
    }

    /** The owner of the least point at or after the key's hash, or else of the least point; that is the first of the
        nodes preferred for the key. */
    method GetNode(key: Bytes) returns (node: Option<Bytes>)
      requires Valid()
      ensures ring == [] <==> node.None?
      ensures ring != [] ==> exists p :: IsNext(ring, hash(key), p) && node == Some(Lookup(members, p))
      ensures node == Primary(View(), hash(key))
    {
      if ring == [] {
        return None;
      }
      var h := hash(key);
      var k := Search(ring, h);
      SplitAtNext(ring, h, k);
      if k == |ring| {
        k := 0;
      }
      node := Some(Lookup(members, ring[k]));
      hide IsNext, Sorted;
      FirstPreference(View(), h, ring[k]);
    }

    /** The first `n` of the nodes preferred for the key, or all of them. It is called where its loop ends: as many names
        as it looks for own a point (Preferences.WalkEndsExactlyWhen). */
    method GetNodes(key: Bytes, n: int) returns (replicas: Option<seq<Bytes>>)
      requires Valid()
      requires ring != [] ==> 0 <= n && Min(n, |nodes|) <= |Owning(View())|
      ensures ring == [] ==> replicas == None
      ensures ring != [] ==> replicas == Some(Replicas(View(), hash(key), n))
    {
      if ring == [] {
        return None;
      }
      var count := if n > |nodes| then |nodes| else n;
      var h := hash(key);
      var k := Search(ring, h);
      RoundStartsAt(ring, h, k);
      if k == |ring| {
        k := 0;
      }
      ghost var owners := Owners(members, Clockwise(ring, h));
      PreferenceIsOwning(View(), h);
      hide Owning, Distinct, Elems;
      hide Owners, Clockwise, Spot, Dedup;
      var found := Walk(ring, members, k, count, owners);
      replicas := Some(found);
    }
  }

  datatype RebalanceInfo = RebalanceInfo(total: nat, local: nat, byNode: map<Bytes, nat>, mappings: map<Bytes, Bytes>)

  /** `byNode` counts for each node the queues it serves, and nothing for the others. */
  ghost predicate Tallies(hash: Hash, r: Ring, byNode: map<Bytes, nat>, queues: seq<Bytes>) {
    forall node :: TalliesNode(hash, r, byNode, queues, node)
  }

  predicate TalliesNode(hash: Hash, r: Ring, byNode: map<Bytes, nat>, queues: seq<Bytes>, node: Bytes) {
    var n := |LocalQueues(hash, r, node, queues)|;
    if n == 0 then node !in byNode else node in byNode && byNode[node] == n
  }

  /** `mappings` has for each queue the node that serves it. */
  ghost predicate Maps(hash: Hash, r: Ring, mappings: map<Bytes, Bytes>, queues: seq<Bytes>) {
    forall q :: MapsQueue(hash, r, mappings, queues, q)
  }

  predicate MapsQueue(hash: Hash, r: Ring, mappings: map<Bytes, Bytes>, queues: seq<Bytes>, q: Bytes) {
    var node := Primary(r, hash(q));
    if q in queues && node.Some? then q in mappings && mappings[q] == node.value else q !in mappings
  }

  class Sharding {
    const hashRing: ConsistentHash
    const localNodeID: Bytes
    const replication: int

    constructor (hash: Hash, localNodeID: Bytes, replication: int)
      ensures hashRing.Valid() && fresh(hashRing) && hashRing.hash == hash && hashRing.View() == NO_NODES
      ensures this.localNodeID == localNodeID && this.replication == replication
    {
      hashRing := new ConsistentHash(hash);
      this.localNodeID, this.replication := localNodeID, replication;
    }

    method IsLocalQueue(queue: Bytes) returns (local: bool)
      requires hashRing.Valid()
      ensures local <==> Primary(hashRing.View(), hashRing.hash(queue)) == Some(localNodeID)
    {
      var node := hashRing.GetNode(queue);
      local := node.Some? && node.value == localNodeID;
    }

    method GetLocalQueues(queues: seq<Bytes>) returns (local: seq<Bytes>)
      requires hashRing.Valid()
      ensures local == LocalQueues(hashRing.hash, hashRing.View(), localNodeID, queues)
    {
      local := [];
      var i := 0;
      while i < |queues|
        invariant 0 <= i <= |queues|
        invariant local == LocalQueues(hashRing.hash, hashRing.View(), localNodeID, queues[..i])
      {
        hide Primary;
        var here := IsLocalQueue(queues[i]);
        OneMoreQueue(hashRing.hash, hashRing.View(), localNodeID, queues, i);
        if here {
          local := local + [queues[i]];
        }
        i := i + 1;
      }
      assert queues[..|queues|] == queues;
    }

    /** Every queue is counted once, for the node it is mapped to; on an empty ring none is. */
    method GetRebalanceInfo(queues: seq<Bytes>) returns (info: RebalanceInfo)
      requires hashRing.Valid()
      ensures info.total == |queues|
      ensures info.local == |LocalQueues(hashRing.hash, hashRing.View(), localNodeID, queues)|
      ensures Tallies(hashRing.hash, hashRing.View(), info.byNode, queues)
      ensures Maps(hashRing.hash, hashRing.View(), info.mappings, queues)
      ensures Total(info.byNode) == if hashRing.ring == [] then 0 else |queues|
    {
      var byNode: map<Bytes, nat>, mappings: map<Bytes, Bytes> := map[], map[];
      ghost var r := hashRing.View();
      NothingTallied(hashRing.hash, r, queues);
      var i := 0;
      while i < |queues|
        invariant 0 <= i <= |queues|
        invariant Tallies(hashRing.hash, r, byNode, queues[..i]) && Maps(hashRing.hash, r, mappings, queues[..i])
        invariant Total(byNode) == if hashRing.ring == [] then 0 else i
      {
        hide Tallies, Maps, Total, Primary;
        var node := hashRing.GetNode(queues[i]);
        OneMoreTallied(hashRing.hash, r, byNode, queues, i);
        OneMoreMapped(hashRing.hash, r, mappings, queues, i);
        if node.Some? {
          TotalOneMore(byNode, node.value);
          byNode := CountedUp(byNode, node.value);
          mappings := mappings[queues[i] := node.value];
        }
        i := i + 1;
      }
      assert queues[..|queues|] == queues;
      var local := GetLocalQueues(queues);
      info := RebalanceInfo(|queues|, |local|, byNode, mappings);
    }
  }

  /** An increment of a map entry, which starts from zero. */
  function CountedUp(m: map<Bytes, nat>, node: Bytes): map<Bytes, nat> {
    m[node := (if node in m then m[node] else 0) + 1]
  }

  lemma TotalOneMore(m: map<Bytes, nat>, node: Bytes)
    ensures Total(CountedUp(m, node)) == Total(m) + 1
  {
    var m' := CountedUp(m, node);
    TotalWithout(m', node);
    if node in m {
      TotalWithout(m, node);
    }
    assert m' - {node} == m - {node};
    assert node !in m ==> m - {node} == m;
  }

  lemma NothingTallied(hash: Hash, r: Ring, queues: seq<Bytes>)
    ensures Tallies(hash, r, map[], queues[..0]) && Maps(hash, r, map[], queues[..0])
  {
  }

  lemma OneMoreQueue(hash: Hash, r: Ring, node: Bytes, queues: seq<Bytes>, i: nat)
    requires i < |queues|
    ensures LocalQueues(hash, r, node, queues[..i + 1])
         == LocalQueues(hash, r, node, queues[..i]) + if Primary(r, hash(queues[i])) == Some(node) then [queues[i]] else []
  {
    hide Primary;
    assert queues[..i + 1][..i] == queues[..i];
  }

  function Counted(m: map<Bytes, nat>, node: Option<Bytes>): map<Bytes, nat> {
    if node.None? then m else CountedUp(m, node.value)
  }

  lemma OneMoreTallied(hash: Hash, r: Ring, byNode: map<Bytes, nat>, queues: seq<Bytes>, i: nat)
    requires i < |queues| && Tallies(hash, r, byNode, queues[..i])
    ensures Tallies(hash, r, Counted(byNode, Primary(r, hash(queues[i]))), queues[..i + 1])
  {
    hide Primary, LocalQueues;
    var byNode', seen := Counted(byNode, Primary(r, hash(queues[i]))), queues[..i + 1];
    forall x ensures TalliesNode(hash, r, byNode', seen, x) {
      assert TalliesNode(hash, r, byNode, queues[..i], x);
      OneMoreQueue(hash, r, x, queues, i);
    }
  }

  function Mapped(m: map<Bytes, Bytes>, q: Bytes, node: Option<Bytes>): map<Bytes, Bytes> {
    if node.None? then m else m[q := node.value]
  }

  lemma OneMoreMapped(hash: Hash, r: Ring, mappings: map<Bytes, Bytes>, queues: seq<Bytes>, i: nat)
    requires i < |queues| && Maps(hash, r, mappings, queues[..i])
    ensures Maps(hash, r, Mapped(mappings, queues[i], Primary(r, hash(queues[i]))), queues[..i + 1])
  {
    hide Primary;
    var mappings', seen := Mapped(mappings, queues[i], Primary(r, hash(queues[i]))), queues[..i + 1];
    assert seen == queues[..i] + [queues[i]];
    forall q ensures MapsQueue(hash, r, mappings', seen, q) {
      assert MapsQueue(hash, r, mappings, queues[..i], q);
    }
  }

  lemma NoPlaces(hash: Hash, x: Bytes, members: map<int, Bytes>)
    ensures Places(hash, x, 0) == [] && Claimed(members, Places(hash, x, 0), x) == members
  {
  }

  lemma OneMorePlace(hash: Hash, x: Bytes, members: map<int, Bytes>, i: nat)
    ensures var p, ps, ps' := Place(hash, x, i), Places(hash, x, i), Places(hash, x, i + 1);
            ps' == ps + [p] && Claimed(members, ps', x) == Claimed(members, ps, x)[p := x]
  {
    var p, ps, ps' := Place(hash, x, i), Places(hash, x, i), Places(hash, x, i + 1);
    assert ps' == ps + [p];
    SameMap(Claimed(members, ps', x), Claimed(members, ps, x)[p := x]);
  }

  lemma OneMoreOwner(owners: seq<Bytes>, i: nat, x: Bytes)
    requires i < |owners| && owners[i] == x
    ensures x in Elems(owners[..i]) ==> Dedup(owners[..i + 1]) == Dedup(owners[..i])
    ensures x !in Elems(owners[..i]) ==> Dedup(owners[..i + 1]) == Dedup(owners[..i]) + [x]
    ensures Elems(owners[..i + 1]) == Elems(owners[..i]) + {x}
  {
    assert owners[..i + 1] == owners[..i] + [x];
    DedupAppend(owners[..i], x);
  }
}
