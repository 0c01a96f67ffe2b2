/** The order of a binary heap held in an array, and what one exchange of container/heap does to it. */
module HeapOrder {
  import opened Jobs

  function Parent(k: int): int
    requires k > 0
  {
    (k - 1) / 2
  }

  function Swapped<T>(h: seq<T>, i: nat, j: nat): seq<T>
    requires i < |h| && j < |h|
  {
    h[i := h[j]][j := h[i]]
  }

  predicate InOrderAt(h: seq<Job>, k: nat)
    requires 0 < k < |h|
  {
    NotAfter(h[Parent(k)], h[k])
  }

  /** The first `n` elements form a heap. */
  ghost predicate Heap(h: seq<Job>, n: nat)
    requires n <= |h|
  {
    forall k :: 0 < k < n ==> InOrderAt(h, k)
  }

  /** The children of `i` may take its place under its parent. */
  ghost predicate Bridged(h: seq<Job>, n: nat, i: nat)
    requires n <= |h|
  {
    i > 0 && i < n ==> forall k :: 0 < k < n && Parent(k) == i ==> NotAfter(h[Parent(i)], h[k])
  }

  /** A heap but for `j`, which may have to rise. */
  ghost predicate RisingAt(h: seq<Job>, n: nat, j: nat)
    requires n <= |h|
  {
    (forall k :: 0 < k < n && k != j ==> InOrderAt(h, k)) && Bridged(h, n, j)
  }

  /** A heap but for the children of `i`, which may have to sink. */
  ghost predicate SinkingAt(h: seq<Job>, n: nat, i: nat)
    requires n <= |h|
  {
    (forall k :: 0 < k < n && Parent(k) != i ==> InOrderAt(h, k)) && Bridged(h, n, i)
  }

  /** A heap but for whatever was just put at `i`: it may have to go either way. */
  ghost predicate LooseAt(h: seq<Job>, n: nat, i: nat)
    requires n <= |h|
  {
    (forall k :: 0 < k < n && k != i && Parent(k) != i ==> InOrderAt(h, k)) && Bridged(h, n, i)
  }

  lemma Rise(h: seq<Job>, n: nat, j: nat)
    requires n <= |h| && 0 < j < n && RisingAt(h, n, j) && Before(h[j], h[Parent(j)])
    ensures RisingAt(Swapped(h, Parent(j), j), n, Parent(j))
  {
    var i, s := Parent(j), Swapped(h, Parent(j), j);
    forall k | 0 < k < n && k != i ensures InOrderAt(s, k) {
      if k != j && Parent(k) == i {
        assert InOrderAt(h, k);
        NotAfterTransitive(s[i], h[i], h[k]);
      } else if k != j && Parent(k) != j {
        assert InOrderAt(h, k);
      }
    }
    if i > 0 {
      assert InOrderAt(h, i);
      forall k | 0 < k < n && Parent(k) == i ensures NotAfter(s[Parent(i)], s[k]) {
        if k != j {
          assert InOrderAt(h, k);
          NotAfterTransitive(h[Parent(i)], h[i], h[k]);
        }
      }
    }
  }

  /** The child that container/heap compares with its parent. */
  ghost predicate LesserChild(h: seq<Job>, n: nat, i: nat, j: nat)
    requires n <= |h|
  {
    && 0 < j < n && Parent(j) == i
    && forall k :: 0 < k < n && Parent(k) == i ==> NotAfter(h[j], h[k])
  }

  lemma Sink(h: seq<Job>, n: nat, i: nat, j: nat)
    requires n <= |h| && i < n && LooseAt(h, n, i) && LesserChild(h, n, i, j) && Before(h[j], h[i])
    ensures SinkingAt(Swapped(h, i, j), n, j)
  {
    var s := Swapped(h, i, j);
    forall k | 0 < k < n && Parent(k) != j ensures InOrderAt(s, k) {
      if k == i {
        assert Bridged(h, n, i);
      } else if Parent(k) != i {
        assert InOrderAt(h, k);
      }
    }
    forall k | 0 < k < n && Parent(k) == j ensures NotAfter(s[i], s[k]) {
      assert InOrderAt(h, k);
    }
  }

  lemma SinkingIsLoose(h: seq<Job>, n: nat, i: nat)
    requires n <= |h| && SinkingAt(h, n, i)
    ensures LooseAt(h, n, i)
  {
  }

  /** How container/heap picks a child: the left one unless the right one is strictly less. */
  function PickChild(h: seq<Job>, n: nat, left: nat): nat
    requires left < n <= |h|
  {
    if left + 1 < n && Before(h[left + 1], h[left]) then left + 1 else left
  }

  lemma PickedIsLesser(h: seq<Job>, n: nat, i: nat)
    requires 2 * i + 1 < n <= |h|
    ensures LesserChild(h, n, i, PickChild(h, n, 2 * i + 1))
  {
  }

  /** Nothing below `i` is out of order any more. */
  ghost predicate Settled(h: seq<Job>, n: nat, i: nat)
    requires n <= |h|
  {
    forall k :: 0 < k < n && Parent(k) == i ==> InOrderAt(h, k)
  }

  lemma SettledByChild(h: seq<Job>, n: nat, i: nat, j: nat)
    requires n <= |h| && i < n && LesserChild(h, n, i, j) && NotAfter(h[i], h[j])
    ensures Settled(h, n, i)
  {
    forall k | 0 < k < n && Parent(k) == i ensures InOrderAt(h, k) {
      NotAfterTransitive(h[i], h[j], h[k]);
    }
  }

  lemma SettledAsLeaf(h: seq<Job>, n: nat, i: nat)
    requires n <= |h| && 2 * i + 1 >= n
    ensures Settled(h, n, i)
  {
  }

  lemma SettledSinking(h: seq<Job>, n: nat, i: nat)
    requires n <= |h| && Settled(h, n, i)
    ensures SinkingAt(h, n, i) ==> Heap(h, n)
    ensures LooseAt(h, n, i) ==> RisingAt(h, n, i)
  {
  }

  lemma RisenToRoot(h: seq<Job>, n: nat, j: nat)
    requires n <= |h| && j < n && RisingAt(h, n, j) && (j == 0 || InOrderAt(h, j))
    ensures Heap(h, n)
  {
  }

  lemma {:induction false} RootIsFirst(h: seq<Job>, n: nat, k: nat)
    requires n <= |h| && Heap(h, n) && k < n
    ensures NotAfter(h[0], h[k])
    decreases k
  {
    if k > 0 {
      RootIsFirst(h, n, Parent(k));
      assert InOrderAt(h, k);
      NotAfterTransitive(h[0], h[Parent(k)], h[k]);
    }
  }

  /** Exchanging a heap's element with the last one and leaving that out loosens the heap only there. */
  lemma LoosenedByLast(h: seq<Job>, i: nat)
    requires i < |h| - 1 && Heap(h, |h|)
    ensures LooseAt(Swapped(h, i, |h| - 1), |h| - 1, i)
  {
    var n := |h| - 1;
    var s := Swapped(h, i, n);
    forall k | 0 < k < n && k != i && Parent(k) != i ensures InOrderAt(s, k) {
      assert InOrderAt(h, k);
    }
    if i > 0 {
      assert InOrderAt(h, i);
      forall k | 0 < k < n && Parent(k) == i ensures NotAfter(s[Parent(i)], s[k]) {
        assert InOrderAt(h, k);
        NotAfterTransitive(h[Parent(i)], h[i], h[k]);
      }
    }
  }

  lemma AppendedRises(h: seq<Job>, j: Job)
    requires Heap(h, |h|)
    ensures RisingAt(h + [j], |h| + 1, |h|)
  {
    forall k | 0 < k < |h| ensures InOrderAt(h + [j], k) {
      assert InOrderAt(h, k);
    }
  }

  lemma HeapPrefix(h: seq<Job>, n: nat)
    requires n <= |h| && Heap(h, n)
    ensures Heap(h[..n], n)
  {
    forall k | 0 < k < n ensures InOrderAt(h[..n], k) {
      assert InOrderAt(h, k);
    }
  }

  lemma ShorterHeap(h: seq<Job>, n: nat, m: nat)
    requires m <= n <= |h| && Heap(h, n)
    ensures Heap(h, m)
  {
  }
}
