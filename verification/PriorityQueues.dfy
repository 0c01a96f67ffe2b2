/** The indexed priority queue: a heap of items that know their position, and a map from job id to item
    (internal/queue/heap.go, with the sifting of Go's container/heap written out). */
module PriorityQueues {
  import opened Binary
  import opened Seqs
  import opened Jobs
  import opened HeapOrder

  class Item {
    const job: Job
    var index: int

    constructor (job: Job)
      ensures this.job == job
    {
      this.job := job;
      this.index := 0;
    }
  }

  function JobsOf(heap: seq<Item>): (js: seq<Job>)
    ensures |js| == |heap| && forall i :: 0 <= i < |heap| ==> js[i] == heap[i].job
  {
    seq(|heap|, i requires 0 <= i < |heap| => heap[i].job)
  }

  lemma SwappedItems<T>(h: seq<T>, i: nat, j: nat)
    requires i < |h| && j < |h|
    ensures Elems(Swapped(h, i, j)) == Elems(h)
  {
    var s := Swapped(h, i, j);
    forall x ensures x in s <==> x in h {
      if x in h {
        var k :| 0 <= k < |h| && h[k] == x;
        assert s[if k == i then j else if k == j then i else k] == x;
      }
    }
  }

  lemma SwappedJobs(heap: seq<Item>, i: nat, j: nat)
    requires i < |heap| && j < |heap|
    ensures JobsOf(Swapped(heap, i, j)) == Swapped(JobsOf(heap), i, j)
  {
  }

  lemma Within(a: seq<Item>, b: seq<Item>)
    requires Elems(a) <= Elems(b)
    ensures forall x :: x in a ==> x in b
  {
    forall x | x in a ensures x in b {
      assert x in Elems(a);
    }
  }

  /** `items` names exactly the members of `es`, each by its job's id. */
  ghost predicate NamedBy(es: set<Item>, items: map<Bytes, Item>) {
    && (forall x :: x in es ==> x.job.id in items && items[x.job.id] == x)
    && (forall id :: id in items ==> items[id].job.id == id && items[id] in es)
  }

  ghost function JobsBy(items: map<Bytes, Item>): map<Bytes, Job> {
    map id | id in items :: items[id].job
  }

  lemma HeldIds(items: map<Bytes, Item>)
    ensures JobsBy(items).Keys == items.Keys
    ensures forall id :: id in items ==> JobsBy(items)[id] == items[id].job
  {
  }

  lemma NamesNothing(items: map<Bytes, Item>)
    requires NamedBy({}, items)
    ensures items == map[]
  {
  }

  lemma NamedWith(es: set<Item>, items: map<Bytes, Item>, item: Item)
    requires NamedBy(es, items) && item.job.id !in items
    ensures NamedBy(es + {item}, items[item.job.id := item])
    ensures JobsBy(items[item.job.id := item]) == JobsBy(items)[item.job.id := item.job]
  {
  }

  lemma NamedWithout(es: set<Item>, items: map<Bytes, Item>, item: Item)
    requires NamedBy(es, items) && item in es
    ensures NamedBy(es - {item}, items - {item.job.id})
    ensures JobsBy(items - {item.job.id}) == JobsBy(items) - {item.job.id}
  {
  }

  class PriorityQueue {
    var heap: seq<Item>
    var items: map<Bytes, Item>

    ghost function Repr(): (r: set<object>)
      reads this
      ensures this in r && forall x :: x in heap ==> x in r
    {
      {this as object} + set x | x in heap :: x as object
    }

    /** Every item's back-pointer is its position. */
    ghost predicate Positioned()
      reads this, heap
    {
      forall i :: 0 <= i < |heap| ==> heap[i].index == i
    }

    ghost predicate Valid()
      reads this, heap
    {
      Positioned() && NamedBy(Elems(heap), items) && Heap(JobsOf(heap), |heap|)
    }

    /** The jobs held, by id. */
    ghost function Contents(): map<Bytes, Job>
      reads this
    {
      JobsBy(items)
    }

    constructor ()
      ensures Valid() && Contents() == map[] && heap == []
    {
      heap, items := [], map[];
    }

    /** A job held that no other job held precedes. */
    ghost predicate IsRoot(j: Job)
      reads this
    {
      j.id in Contents() && Contents()[j.id] == j && forall id :: id in Contents() ==> NotAfter(j, Contents()[id])
    }

    // ---------- container/heap ----------

    predicate Less(i: nat, j: nat)
      requires i < |heap| && j < |heap|
      reads this
    {
      Before(heap[i].job, heap[j].job)
    }

    method Swap(i: nat, j: nat)
      requires Positioned() && i < |heap| && j < |heap|
      modifies this`heap, heap[i], heap[j]
      ensures Positioned() && heap == Swapped(old(heap), i, j) && Elems(heap) == old(Elems(heap))
      ensures JobsOf(heap) == Swapped(old(JobsOf(heap)), i, j)
    {
      SwappedItems(heap, i, j);
      SwappedJobs(heap, i, j);
      heap := heap[i := heap[j]][j := heap[i]];
      heap[i].index := i;
      heap[j].index := j;
    }

    method Up(start: nat, ghost n: nat)
      requires Positioned() && start < n <= |heap| && RisingAt(JobsOf(heap), n, start)
      modifies this`heap, heap
      ensures Positioned() && |heap| == old(|heap|) && Elems(heap) == old(Elems(heap)) && heap[n..] == old(heap[n..])
      ensures Heap(JobsOf(heap), n)
    {
      hide RisingAt, Heap;
      var j: nat := start;
      while true
        invariant Positioned() && |heap| == old(|heap|) && Elems(heap) == old(Elems(heap)) && heap[n..] == old(heap[n..])
        invariant j < n && RisingAt(JobsOf(heap), n, j)
        decreases j
      {
        var i := if j == 0 then 0 else (j - 1) / 2;
        if i == j || !Less(j, i) {
          RisenToRoot(JobsOf(heap), n, j);
          return;
        }
        Rise(JobsOf(heap), n, j);
        assert heap[i] in Elems(heap) && heap[j] in Elems(heap);
        Swap(i, j);
        j := i;
      }
    }

    method Down(start: nat, n: nat) returns (moved: bool)
      requires Positioned() && start < |heap| && n <= |heap| && LooseAt(JobsOf(heap), n, start)
      modifies this`heap, heap
      ensures Positioned() && |heap| == old(|heap|) && Elems(heap) == old(Elems(heap)) && heap[n..] == old(heap[n..])
      ensures if moved then Heap(JobsOf(heap), n) else RisingAt(JobsOf(heap), n, start)
    {
      hide LooseAt, SinkingAt, RisingAt, Heap, Settled, LesserChild;
      var i := start;
      while true
        invariant Positioned() && |heap| == old(|heap|) && Elems(heap) == old(Elems(heap)) && heap[n..] == old(heap[n..])
        invariant start <= i < |heap| && LooseAt(JobsOf(heap), n, i)
        invariant i != start ==> i < n && SinkingAt(JobsOf(heap), n, i)
        decreases |heap| - i
      {
        ghost var h := JobsOf(heap);
        var left := 2 * i + 1;
        if left >= n {
          SettledAsLeaf(h, n, i);
          break;
        }
        PickedIsLesser(h, n, i);
        var j := if left + 1 < n && Less(left + 1, left) then left + 1 else left;
        assert j == PickChild(h, n, left);
        if !Less(j, i) {
          SettledByChild(h, n, i, j);
          break;
        }
        Sink(h, n, i, j);
        assert heap[i] in Elems(heap) && heap[j] in Elems(heap);
        Swap(i, j);
        SinkingIsLoose(JobsOf(heap), n, j);
        i := j;
      }
      SettledSinking(JobsOf(heap), n, i);
      moved := i > start;
    }

    method TakeLast() returns (item: Item)
      requires Positioned() && heap != []
      modifies this`heap, heap[|heap| - 1]
      ensures Positioned() && heap == old(heap[..|heap| - 1]) && item == old(heap[|heap| - 1]) && item.index == -1
      ensures item !in heap && Elems(heap) == old(Elems(heap)) - {item}
    {
      var n := |heap| - 1;
      item := heap[n];
      assert heap == heap[..n] + [item];
      assert item !in heap[..n];
      item.index := -1;
      heap := heap[..n];
    }

    method HeapPush(item: Item)
      requires Positioned() && item !in heap && Heap(JobsOf(heap), |heap|)
      modifies this`heap, heap, item
      ensures Positioned() && Elems(heap) == old(Elems(heap)) + {item} && Heap(JobsOf(heap), |heap|)
    {
      AppendedRises(JobsOf(heap), item.job);
      assert JobsOf(heap + [item]) == JobsOf(heap) + [item.job];
      assert Elems(heap + [item]) == Elems(heap) + {item};
      item.index := |heap|;
      heap := heap + [item];
      Up(|heap| - 1, |heap|);
    }

    method HeapPop() returns (item: Item)
      requires Positioned() && heap != [] && Heap(JobsOf(heap), |heap|)
      modifies this`heap, heap
      ensures Positioned() && item == old(heap[0]) && item !in heap && Elems(heap) == old(Elems(heap)) - {item}
      ensures Heap(JobsOf(heap), |heap|)
    {
      hide Heap, RisingAt, LooseAt;
      var n := |heap| - 1;
      LoosenedRoot(JobsOf(heap));
      Swap(0, n);
      Within(heap, old(heap));
      ghost var last := heap[n];
      var moved := Down(0, n);
      if !moved {
        RisenFromRoot(JobsOf(heap), n);
      }
      assert heap[n] == heap[n..][0] == last;
      HeapPrefix(JobsOf(heap), n);
      assert JobsOf(heap[..n]) == JobsOf(heap)[..n];
      item := TakeLast();
    }

    method HeapRemove(i: nat) returns (item: Item)
      requires Positioned() && i < |heap| && Heap(JobsOf(heap), |heap|)
      modifies this`heap, heap
      ensures Positioned() && item == old(heap[i]) && item !in heap && Elems(heap) == old(Elems(heap)) - {item}
      ensures Heap(JobsOf(heap), |heap|)
    {
      hide Heap, RisingAt, LooseAt;
      var n := |heap| - 1;
      if n != i {
        LoosenedByLast(JobsOf(heap), i);
        Swap(i, n);
        Within(heap, old(heap));
        ghost var last := heap[n];
        var moved := Down(i, n);
        assert heap[n] == heap[n..][0] == last;
        if !moved {
          Within(heap, old(heap));
          assert forall k :: 0 <= k < |heap| ==> heap[k] in old(heap);
          Up(i, n);
          assert heap[n] == heap[n..][0] == last;
        }
      } else {
        ShorterHeap(JobsOf(heap), |heap|, n);
      }
      HeapPrefix(JobsOf(heap), n);
      assert JobsOf(heap[..n]) == JobsOf(heap)[..n];
      item := TakeLast();
    }

    // ---------- priorityQueue ----------

    /** A job whose id is already held is dropped. */
    method Push(job: Job)
      requires Valid()
      modifies this, heap
      ensures Valid() && fresh(Repr() - old(Repr()))
      ensures Contents() == if job.id in old(Contents()) then old(Contents()) else old(Contents())[job.id := job]
    {
      hide NamedBy, JobsBy, Heap;
      assert job.id in items <==> job.id in Contents() by {
        HeldIds(items);
      }
      if job.id in items {
        return;
      }
      var item := new Item(job);
      NamedWith(Elems(heap), items, item);
      items := items[job.id := item];
      HeapPush(item);
      assert forall x :: x in heap ==> x in Elems(heap);
    }

    /** The root precedes or ties with every job held. */
    lemma RootFirst()
      requires Valid() && heap != []
      ensures Contents() != map[] && heap[0].job.id in Contents() && Contents()[heap[0].job.id] == heap[0].job
      ensures forall id :: id in Contents() ==> NotAfter(heap[0].job, Contents()[id])
    {
      assert heap[0] in Elems(heap);
      HeldIds(items);
      forall id | id in Contents() ensures NotAfter(heap[0].job, Contents()[id]) {
        var k :| 0 <= k < |heap| && heap[k] == items[id];
        RootIsFirst(JobsOf(heap), |heap|, k);
      }
    }

    lemma NoneHeld()
      requires Valid()
      ensures heap == [] <==> Contents() == map[]
    {
      if heap != [] {
        RootFirst();
      } else {
        assert Elems(heap) == {};
        NamesNothing(items);
      }
    }

    /** Takes out a job that no other precedes. */
    method Pop() returns (r: Option<Job>)
      requires Valid()
      modifies this, heap
      ensures Valid() && fresh(Repr() - old(Repr()))
      ensures r.None? <==> old(Contents()) == map[]
      ensures match r
              case None => Contents() == map[]
              case Some(j) =>
                && old(heap) != [] && j == old(heap[0].job)
                && j.id in old(Contents()) && j == old(Contents())[j.id]
                && Contents() == old(Contents()) - {j.id}
                && forall id :: id in old(Contents()) ==> NotAfter(j, old(Contents())[id])
    {
      NoneHeld();
      if |heap| == 0 {
        return None;
      }
      hide NamedBy, JobsBy, Heap;
      RootFirst();
      assert heap[0] in Elems(heap);
      NamedWithout(Elems(heap), items, heap[0]);
      var item := HeapPop();
      items := items - {item.job.id};
      Within(heap, old(heap));
      return Some(item.job);
    }

    /** Takes out the job of that id and no other. */
    method Remove(id: Bytes) returns (r: Option<Job>)
      requires Valid()
      modifies this, heap
      ensures Valid() && fresh(Repr() - old(Repr()))
      ensures Contents() == old(Contents()) - {id}
      ensures r == if id in old(Contents()) then Some(old(Contents())[id]) else None
    {
      HeldIds(items);
      if id !in items {
        return None;
      }
      var item := items[id];
      assert item in Elems(heap) && item.job.id == id;
      hide NamedBy, JobsBy, Heap;
      NamedWithout(Elems(heap), items, item);
      var removed := HeapRemove(item.index);
      items := items - {id};
      Within(heap, old(heap));
      return Some(item.job);
    }

    /** The next job if its time has come: a root that must wait holds back everything behind it. */
    method PopReady(now: Time) returns (r: Option<Job>)
      requires Valid()
      modifies this, heap
      ensures Valid() && fresh(Repr() - old(Repr()))
      ensures match r
              case None =>
                && Contents() == old(Contents()) && heap == old(heap)
                && (Contents() == map[] || (heap != [] && IsRoot(heap[0].job) && var j := heap[0].job;
                                            j.status != Ready || (j.eta != ZERO_TIME && now < j.eta)))
              case Some(j) =>
                && j.status == Ready && (j.eta == ZERO_TIME || j.eta <= now)
                && j.id in old(Contents()) && j == old(Contents())[j.id]
                && Contents() == old(Contents()) - {j.id}
                && forall id :: id in old(Contents()) ==> NotAfter(j, old(Contents())[id])
    {
      NoneHeld();
      if |heap| == 0 {
        return None;
      }
      var job := heap[0].job;
      if !IsReady(job, now) {
        RootFirst();
        return None;
      }
      r := Pop();
    }

    /** Len counts the jobs held. */
    method Len() returns (n: nat)
      requires Valid()
      ensures n == |Contents()|
    {
      n := |heap|;
      LengthIsCount();
    }

    lemma LengthIsCount()
      requires Valid()
      ensures |heap| == |Contents()|
    {
      var ids := IdsOf(JobsOf(heap));
      forall i, j | 0 <= i < j < |ids| ensures ids[i] != ids[j] {
        assert heap[i] in Elems(heap) && heap[j] in Elems(heap);
        assert heap[i].index != heap[j].index;
      }
      DistinctLength(ids);
      forall id | id in ids ensures id in Contents() {
        var i :| 0 <= i < |heap| && ids[i] == id;
        assert heap[i] in Elems(heap);
      }
      forall id | id in Contents() ensures id in ids {
        var i :| 0 <= i < |heap| && heap[i] == items[id];
        assert ids[i] == id;
      }
      assert Elems(ids) == Contents().Keys;
    }
  }

  function IdsOf(js: seq<Job>): (ids: seq<Bytes>)
    ensures |ids| == |js| && forall i :: 0 <= i < |js| ==> ids[i] == js[i].id
  {
    seq(|js|, i requires 0 <= i < |js| => js[i].id)
  }

  lemma LoosenedRoot(h: seq<Job>)
    requires h != [] && Heap(h, |h|)
    ensures LooseAt(Swapped(h, 0, |h| - 1), |h| - 1, 0)
  {
    if |h| > 1 {
      LoosenedByLast(h, 0);
    }
  }

  lemma RisenFromRoot(h: seq<Job>, n: nat)
    requires n <= |h| && RisingAt(h, n, 0)
    ensures Heap(h, n)
  {
  }
}
