/** Idempotency keys: what a lookup finds, and when two jobs are logged under one key. A key is stored only after its
    job was logged, and without a lock since the lookup (internal/queue/queue.go). */
module Keys {
  import opened Binary
  import opened Seqs
  import opened Codec
  import opened Framing
  import opened Logs
  import opened States
  import opened Compaction
  import opened Sweeping
  import opened Histories

  /** What a step does to the Enqueue calls and the keys. */
  ghost predicate CallStep(w: World, e: Event, w': World) {
    match e
    case LookUp(id, key, found) =>
      && key != [] && IsId(id) && id !in w.hist.origin && id !in w.calls.called && found == Answer(w.st.keys, key)
      && w'.calls == (if found.Some? then w.calls
                      else w.calls.(asked := w.calls.asked[id := key], called := w.calls.called + {id}))
      && w'.pending.Keys == w.pending.Keys && w'.hist.origin == w.hist.origin && w'.st.keys == w.st.keys
    case WriteEnqueue(j) =>
      && IsId(j.id) && j.id !in w.hist.origin && (j.id in w.calls.asked || j.id !in w.calls.called)
      && w'.calls == KeyLogged(w.calls, j.id) && w'.pending.Keys == w.pending.Keys + {j.id}
      && w'.hist.origin.Keys == w.hist.origin.Keys + {j.id} && w'.st.keys == w.st.keys
    case StoreKey(key, id) =>
      && id in w.pending && id in w.calls.keyOf && w.calls.keyOf[id] == key && w'.st.keys == w.st.keys[key := id]
      && w'.calls == w.calls && w'.pending.Keys == w.pending.Keys && w'.hist.origin == w.hist.origin
    case PushJob(id) =>
      && id in w.pending && w'.pending.Keys == w.pending.Keys - {id}
      && w'.calls == w.calls && w'.hist.origin == w.hist.origin && w'.st.keys == w.st.keys
    case Crash(_, _) =>
      && w'.calls == w.calls.(asked := map[]) && w'.pending == map[]
      && w'.hist.origin == w.hist.origin && w'.st.keys == w.st.keys
    case _ =>
      && w'.calls == w.calls && w'.pending == w.pending && w'.hist.origin == w.hist.origin && w'.st.keys == w.st.keys
  }

  lemma IsCallStep(ck: Checksum, w: World, e: Event, w': World)
    requires Happens(ck, w, e, w')
    ensures CallStep(w, e, w')
  {
    hide WithQueue, Wrote, Swept, SweepLogged, TakeLeases, Picked, DropLease, GiveBack, Tried, AppliedAll, Replay, Reopened,
      Storable, Durable, EnqueueRecord, CountUp, HoldersWith, LateLeases, AddReady, CompactStep, KeyLogged, Answer;
  }

  /** What holds of the calls in every state of every run. */
  ghost predicate KeyInv(w: World) {
    && (forall id :: id in w.calls.asked ==> id in w.calls.called && id !in w.hist.origin && w.calls.asked[id] != [])
    && (forall id :: id in w.calls.keyOf ==> id in w.calls.called && id in w.hist.origin && IsId(id) && w.calls.keyOf[id] != [])
    && (forall id :: id in w.pending ==> id in w.hist.origin)
    && (forall key :: key in w.st.keys ==> KeyAt(w, key))
  }

  /** A stored key names a job that was logged with it. */
  predicate KeyAt(w: World, key: Bytes) {
    key in w.st.keys && w.st.keys[key] in w.calls.keyOf && w.calls.keyOf[w.st.keys[key]] == key
  }

  lemma StepKeepsKeyInv(w: World, e: Event, w': World)
    requires KeyInv(w) && CallStep(w, e, w')
    ensures KeyInv(w')
  {
    forall key | key in w'.st.keys ensures KeyAt(w', key) {
      KeyAtStays(w, e, w', key);
    }
    OthersStay(w, e, w');
  }

  lemma KeyAtStays(w: World, e: Event, w': World, key: Bytes)
    requires KeyInv(w) && CallStep(w, e, w') && key in w'.st.keys
    ensures KeyAt(w', key)
  {
    StepKeys(w, e, w', key);
    StepCalls(w, e, w');
    hide CallStep;
    if !Stores(e, key) {
      assert KeyAt(w, key);
    }
  }

  /** The event stores the key. */
  predicate Stores(e: Event, key: Bytes) {
    e.StoreKey? && e.key == key
  }

  /** Keys are stored, and never removed. */
  lemma StepKeys(w: World, e: Event, w': World, key: Bytes)
    requires CallStep(w, e, w')
    ensures key in w'.st.keys <==> key in w.st.keys || Stores(e, key)
    ensures key in w'.st.keys ==> w'.st.keys[key] == if Stores(e, key) then e.id else w.st.keys[key]
    ensures Stores(e, key) ==> e.id in w.pending && e.id in w.calls.keyOf && w.calls.keyOf[e.id] == key
  {
  }

  /** What a step may change of the calls. */
  lemma StepCalls(w: World, e: Event, w': World)
    requires KeyInv(w) && CallStep(w, e, w')
    ensures forall id :: id in w.calls.keyOf ==> id in w'.calls.keyOf && w'.calls.keyOf[id] == w.calls.keyOf[id]
    ensures w'.calls == match e
                        case LookUp(id, key, None) => w.calls.(asked := w.calls.asked[id := key], called := w.calls.called + {id})
                        case WriteEnqueue(j) => KeyLogged(w.calls, j.id)
                        case Crash(_, _) => w.calls.(asked := map[])
                        case _ => w.calls
  {
  }

  lemma OthersStay(w: World, e: Event, w': World)
    requires KeyInv(w) && CallStep(w, e, w')
    ensures forall id :: id in w'.calls.asked ==> id in w'.calls.called && id !in w'.hist.origin && w'.calls.asked[id] != []
    ensures forall id :: id in w'.calls.keyOf ==>
              id in w'.calls.called && id in w'.hist.origin && IsId(id) && w'.calls.keyOf[id] != []
    ensures forall id :: id in w'.pending ==> id in w'.hist.origin
  {
  }

  lemma {:induction false} RunKeepsKeyInv(ck: Checksum, ws: seq<World>, es: seq<Event>, i: nat)
    requires Run(ck, ws, es) && i <= |es|
    ensures KeyInv(ws[i])
    decreases i
  {
    hide Happens;
    if i > 0 {
      hide KeyInv, Initial;
      RunKeepsKeyInv(ck, ws, es, i - 1);
      IsCallStep(ck, ws[i - 1], es[i - 1], ws[i]);
      StepKeepsKeyInv(ws[i - 1], es[i - 1], ws[i]);
    }
  }

  // ---------- What a lookup finds ----------

  lemma {:induction false} StoredExactlyWhen(ck: Checksum, ws: seq<World>, es: seq<Event>, i: nat, key: Bytes)
    requires Run(ck, ws, es) && i <= |es|
    ensures key in ws[i].st.keys <==> exists k :: 0 <= k < i && Stores(es[k], key)
    decreases i
  {
    hide Happens, Stores;
    if i > 0 {
      hide Initial;
      StoredExactlyWhen(ck, ws, es, i - 1, key);
      IsCallStep(ck, ws[i - 1], es[i - 1], ws[i]);
      StepKeys(ws[i - 1], es[i - 1], ws[i], key);
    }
  }

  /** A lookup finds nothing exactly when no Enqueue has stored the key before, in this process or an earlier one. */
  lemma LookupMissesExactlyWhen(ck: Checksum, ws: seq<World>, es: seq<Event>, i: nat)
    requires Run(ck, ws, es) && i < |es| && es[i].LookUp?
    ensures es[i].found.None? <==> forall k :: 0 <= k < i ==> !Stores(es[k], es[i].key)
  {
    RunKeepsKeyInv(ck, ws, es, i);
    StoredExactlyWhen(ck, ws, es, i, es[i].key);
    assert Happens(ck, ws[i], es[i], ws[i + 1]);
    hide Run, Stores;
    assert es[i].key in ws[i].st.keys ==> KeyAt(ws[i], es[i].key);
  }

  /** What a lookup finds is the id of the job that stored the key last; that job was logged with the key. */
  lemma LookupFinds(ck: Checksum, ws: seq<World>, es: seq<Event>, i: nat)
    requires Run(ck, ws, es) && i < |es| && es[i].LookUp? && es[i].found.Some?
    ensures var id, key := es[i].found.value, es[i].key;
            && id in ws[i].hist.origin && Carries(ws[i], id, key)
            && exists k :: 0 <= k < i && LastStore(es, k, i, key, id)
  {
    RunKeepsKeyInv(ck, ws, es, i);
    assert Happens(ck, ws[i], es[i], ws[i + 1]);
    var key := es[i].key;
    assert key in ws[i].st.keys && es[i].found.value == ws[i].st.keys[key] && KeyAt(ws[i], key);
    hide Happens, KeyInv;
    var k := LastStored(ck, ws, es, i, key);
  }

  /** The store of `key` before `i` that no other one follows. */
  ghost predicate LastStore(es: seq<Event>, k: int, i: int, key: Bytes, id: Bytes) {
    0 <= k < i <= |es| && es[k] == StoreKey(key, id) && forall m :: k < m < i ==> !Stores(es[m], key)
  }

  lemma {:induction false} LastStored(ck: Checksum, ws: seq<World>, es: seq<Event>, i: nat, key: Bytes) returns (k: nat)
    requires Run(ck, ws, es) && i <= |es| && key in ws[i].st.keys
    ensures LastStore(es, k, i, key, ws[i].st.keys[key])
    decreases i
  {
    hide Happens;
    if i > 0 {
      IsCallStep(ck, ws[i - 1], es[i - 1], ws[i]);
      StepKeys(ws[i - 1], es[i - 1], ws[i], key);
      hide Initial;
      if Stores(es[i - 1], key) {
        k := i - 1;
      } else {
        k := LastStored(ck, ws, es, i - 1, key);
      }
    }
  }

  // ---------- Two jobs under one key ----------

  /** The call has looked its key up and found nothing, and has not pushed its job yet. */
  predicate Underway(w: World, id: Bytes) {
    id in w.calls.asked || id in w.pending
  }

  /** Every job logged with a key had a lookup of it that found nothing. */
  lemma {:induction false} WasLookedUp(ck: Checksum, ws: seq<World>, es: seq<Event>, i: nat, id: Bytes, key: Bytes) returns (k: nat)
    requires Run(ck, ws, es) && i <= |es|
    requires Carries(ws[i], id, key) || (id in ws[i].calls.asked && ws[i].calls.asked[id] == key)
    ensures k < i && es[k] == LookUp(id, key, None)
    decreases i
  {
    hide Happens;
    if i > 0 {
      RunKeepsKeyInv(ck, ws, es, i - 1);
      IsCallStep(ck, ws[i - 1], es[i - 1], ws[i]);
      StepCalls(ws[i - 1], es[i - 1], ws[i]);
      hide Initial, KeyInv;
      if es[i - 1] == LookUp(id, key, None) {
        k := i - 1;
      } else {
        k := WasLookedUp(ck, ws, es, i - 1, id, key);
      }
    }
  }

  lemma UnderwayStep(w: World, e: Event, w': World, id: Bytes)
    requires KeyInv(w) && CallStep(w, e, w') && id in w.calls.called
    ensures id in w'.calls.called && (Underway(w', id) ==> Underway(w, id))
    ensures e.StoreKey? && e.id == id ==> Underway(w, id)
    ensures Underway(w, id) && !Underway(w', id) ==> (e.PushJob? && e.id == id) || e.Crash?
  {
  }

  /** A call that is over stays over: it never stores its key again. */
  lemma {:induction false} OverForGood(ck: Checksum, ws: seq<World>, es: seq<Event>, i: nat, k: nat, id: Bytes)
    requires Run(ck, ws, es) && i <= k <= |es| && id in ws[i].calls.called && !Underway(ws[i], id)
    ensures id in ws[k].calls.called && !Underway(ws[k], id)
    ensures k < |es| ==> !(es[k].StoreKey? && es[k].id == id)
    decreases k
  {
    hide Happens, Underway, KeyInv, Initial;
    RunKeepsKeyInv(ck, ws, es, k);
    if k > i {
      OverForGood(ck, ws, es, i, k - 1, id);
      RunKeepsKeyInv(ck, ws, es, k - 1);
      IsCallStep(ck, ws[k - 1], es[k - 1], ws[k]);
      UnderwayStep(ws[k - 1], es[k - 1], ws[k], id);
    }
    if k < |es| {
      IsCallStep(ck, ws[k], es[k], ws[k + 1]);
      UnderwayStep(ws[k], es[k], ws[k + 1], id);
    }
  }

  /** In the order of their lookups, `a` before `b`: nothing was stored under the key before `b` looked it up, and at that
      moment `a` was still under way, or it never stores the key, because its store failed or its process died. */
  ghost predicate CameTooEarly(ws: seq<World>, es: seq<Event>, a: Bytes, b: Bytes, key: Bytes, i: int, j: int)
    requires |ws| == |es| + 1
  {
    && 0 <= i < j < |es| && es[i] == LookUp(a, key, None) && es[j] == LookUp(b, key, None)
    && (forall k :: 0 <= k < j ==> !Stores(es[k], key))
    && (Underway(ws[j], a) || forall k :: 0 <= k < |es| ==> es[k] != StoreKey(key, a))
  }

  /** Of two jobs that were logged: both carry the key exactly when one of them was looked up too early for the other. */
  lemma TwoJobsOneKey(ck: Checksum, ws: seq<World>, es: seq<Event>, a: Bytes, b: Bytes, key: Bytes)
    requires Run(ck, ws, es) && a != b && a in ws[|es|].hist.origin && b in ws[|es|].hist.origin
    ensures Carries(ws[|es|], a, key) && Carries(ws[|es|], b, key)
       <==> exists i, j :: CameTooEarly(ws, es, a, b, key, i, j) || CameTooEarly(ws, es, b, a, key, i, j)
  {
    hide Happens, Initial;
    if Carries(ws[|es|], a, key) && Carries(ws[|es|], b, key) {
      var i := WasLookedUp(ck, ws, es, |es|, a, key);
      var j := WasLookedUp(ck, ws, es, |es|, b, key);
      if i < j {
        SecondCameTooEarly(ck, ws, es, a, b, key, i, j);
      } else {
        SecondCameTooEarly(ck, ws, es, b, a, key, j, i);
      }
    }
    if i, j :| CameTooEarly(ws, es, a, b, key, i, j) || CameTooEarly(ws, es, b, a, key, i, j) {
      if CameTooEarly(ws, es, a, b, key, i, j) {
        AskedOrLogged(ck, ws, es, i, |es|, a, key);
        AskedOrLogged(ck, ws, es, j, |es|, b, key);
      } else {
        AskedOrLogged(ck, ws, es, i, |es|, b, key);
        AskedOrLogged(ck, ws, es, j, |es|, a, key);
      }
    }
  }

  /** The job was logged with the key. */
  predicate Carries(w: World, id: Bytes, key: Bytes) {
    id in w.calls.keyOf && w.calls.keyOf[id] == key
  }

  /** After a lookup that found nothing: the call still waits to write the log, or its job carries the key, or it was cut
      off before it wrote anything. */
  predicate WaitsOrCarries(w: World, id: Bytes, key: Bytes) {
    && id in w.calls.called
    && (id in w.calls.asked ==> w.calls.asked[id] == key)
    && (id in w.hist.origin ==> id !in w.calls.asked && Carries(w, id, key))
  }

  lemma {:induction false} AskedOrLogged(ck: Checksum, ws: seq<World>, es: seq<Event>, i: nat, n: nat, id: Bytes, key: Bytes)
    requires Run(ck, ws, es) && i < n <= |es| && es[i] == LookUp(id, key, None)
    ensures WaitsOrCarries(ws[n], id, key)
    decreases n
  {
    hide Happens, Initial, CallStep, KeyInv, WaitsOrCarries;
    RunKeepsKeyInv(ck, ws, es, n - 1);
    IsCallStep(ck, ws[n - 1], es[n - 1], ws[n]);
    if n == i + 1 {
      StartsToWait(ws[i], id, key, ws[n]);
    } else {
      AskedOrLogged(ck, ws, es, i, n - 1, id, key);
      GoesOnWaiting(ws[n - 1], es[n - 1], ws[n], id, key);
    }
  }

  lemma StartsToWait(w: World, id: Bytes, key: Bytes, w': World)
    requires CallStep(w, LookUp(id, key, None), w')
    ensures WaitsOrCarries(w', id, key)
  {
  }

  lemma GoesOnWaiting(w: World, e: Event, w': World, id: Bytes, key: Bytes)
    requires KeyInv(w) && CallStep(w, e, w') && WaitsOrCarries(w, id, key)
    ensures WaitsOrCarries(w', id, key)
  {
    if e.WriteEnqueue? {
      assert id in w'.hist.origin.Keys <==> id in w.hist.origin.Keys || id == e.job.id;
    }
  }

  lemma SecondCameTooEarly(ck: Checksum, ws: seq<World>, es: seq<Event>, a: Bytes, b: Bytes, key: Bytes, i: nat, j: nat)
    requires Run(ck, ws, es) && i < j < |es| && es[i] == LookUp(a, key, None) && es[j] == LookUp(b, key, None)
    ensures CameTooEarly(ws, es, a, b, key, i, j)
  {
    hide Happens, Initial, Underway, Stores;
    LookupMissesExactlyWhen(ck, ws, es, j);
    CalledAfter(ck, ws, es, i, j, a);
    if !Underway(ws[j], a) {
      forall k | 0 <= k < |es| ensures es[k] != StoreKey(key, a) {
        if k < j {
          assert !Stores(es[k], key);
          assert Stores(StoreKey(key, a), key) by { StoresItsKey(key, a); }
        } else {
          OverForGood(ck, ws, es, j, k, a);
        }
      }
    }
  }

  lemma StoresItsKey(key: Bytes, id: Bytes)
    ensures Stores(StoreKey(key, id), key)
  {
  }

  lemma {:induction false} CalledAfter(ck: Checksum, ws: seq<World>, es: seq<Event>, i: nat, j: nat, id: Bytes)
    requires Run(ck, ws, es) && i < j <= |es| && es[i].LookUp? && es[i].id == id && es[i].found.None?
    ensures id in ws[j].calls.called
    decreases j
  {
    hide Happens, Initial, CallStep, KeyInv;
    IsCallStep(ck, ws[j - 1], es[j - 1], ws[j]);
    CalledGrows(ws[j - 1], es[j - 1], ws[j]);
    if j > i + 1 {
      CalledAfter(ck, ws, es, i, j - 1, id);
    }
  }

  lemma CalledGrows(w: World, e: Event, w': World)
    requires CallStep(w, e, w')
    ensures w.calls.called <= w'.calls.called
    ensures e.LookUp? && e.found.None? ==> e.id in w'.calls.called
  {
  }

  // ---------- One job per key ----------

  /** No two Enqueue calls with the key overlap, each stores it before it pushes its job, and none is cut off. */
  ghost predicate OneByOne(ws: seq<World>, es: seq<Event>, key: Bytes)
    requires |ws| == |es| + 1
  {
    forall k, id :: 0 <= k < |es| && CarriesKey(ws[k], id, key) ==> Undisturbed(ws[k], es[k], id, key)
  }

  /** While a call with the key is under way, no other one looks it up, the process does not die, and the job is not
      pushed before the key is stored. */
  predicate Undisturbed(w: World, e: Event, id: Bytes, key: Bytes) {
    && !(e.LookUp? && e.key == key)
    && !e.Crash?
    && (e == PushJob(id) ==> key in w.st.keys)
  }

  /** A call with the key is under way. */
  predicate CarriesKey(w: World, id: Bytes, key: Bytes) {
    || (id in w.calls.asked && w.calls.asked[id] == key)
    || (id in w.pending && id in w.calls.keyOf && w.calls.keyOf[id] == key)
  }

  /** While a key is not stored, the call that first found it missing is still under way. */
  lemma {:induction false} StillCarries(ck: Checksum, ws: seq<World>, es: seq<Event>, i: nat, j: nat, a: Bytes, key: Bytes)
    requires Run(ck, ws, es) && i < j <= |es| && es[i] == LookUp(a, key, None) && OneByOne(ws, es, key)
    requires key !in ws[j].st.keys
    ensures CarriesKey(ws[j], a, key)
    decreases j
  {
    hide Happens, Initial, KeyInv, CarriesKey;
    RunKeepsKeyInv(ck, ws, es, j - 1);
    IsCallStep(ck, ws[j - 1], es[j - 1], ws[j]);
    StepKeys(ws[j - 1], es[j - 1], ws[j], key);
    if j == i + 1 {
      StartsToCarry(ck, ws[i], a, key, ws[j]);
    } else {
      StillCarries(ck, ws, es, i, j - 1, a, key);
      assert Undisturbed(ws[j - 1], es[j - 1], a, key);
      IsCallStep(ck, ws[j - 1], es[j - 1], ws[j]);
      CarriesOn(ws[j - 1], es[j - 1], ws[j], a, key);
    }
  }

  lemma StartsToCarry(ck: Checksum, w: World, a: Bytes, key: Bytes, w': World)
    requires Happens(ck, w, LookUp(a, key, None), w')
    ensures CarriesKey(w', a, key)
  {
  }

  lemma CarriesOn(w: World, e: Event, w': World, a: Bytes, key: Bytes)
    requires KeyInv(w) && CallStep(w, e, w') && CarriesKey(w, a, key) && !e.Crash? && e != PushJob(a)
    ensures CarriesKey(w', a, key)
  {
    match e {
      case WriteEnqueue(job) =>
        assert a in w.calls.asked ==> (job.id == a ==> a in w'.pending.Keys);
      case PushJob(id) =>
        assert a in w.pending.Keys ==> a in w'.pending.Keys;
      case StoreKey(_, _) =>
        assert a in w.pending.Keys <==> a in w'.pending.Keys;
      case LookUp(_, _, _) =>
        assert a in w.pending.Keys <==> a in w'.pending.Keys;
      case _ =>
    }
  }

  /** Duplicate prevention, as far as it goes: if the calls with a key come one by one, it is carried by one job. */
  lemma OneJobPerKey(ck: Checksum, ws: seq<World>, es: seq<Event>, a: Bytes, b: Bytes, key: Bytes)
    requires Run(ck, ws, es) && OneByOne(ws, es, key) && Carries(ws[|es|], a, key) && Carries(ws[|es|], b, key)
    ensures a == b
  {
    hide Happens, Initial, OneByOne;
    var i := WasLookedUp(ck, ws, es, |es|, a, key);
    var j := WasLookedUp(ck, ws, es, |es|, b, key);
    if i < j {
      NoSecondMiss(ck, ws, es, a, b, key, i, j);
    } else if j < i {
      NoSecondMiss(ck, ws, es, b, a, key, j, i);
    }
  }

  lemma NoSecondMiss(ck: Checksum, ws: seq<World>, es: seq<Event>, a: Bytes, b: Bytes, key: Bytes, i: nat, j: nat)
    requires Run(ck, ws, es) && OneByOne(ws, es, key) && i < j < |es| && es[i] == LookUp(a, key, None)
    ensures es[j] != LookUp(b, key, None)
  {
    StoredExactlyWhen(ck, ws, es, j, key);
    if key in ws[j].st.keys {
      if es[j].LookUp? {
        LookupMissesExactlyWhen(ck, ws, es, j);
      }
    } else {
      hide Happens, Initial, CarriesKey, Stores;
      StillCarries(ck, ws, es, i, j, a, key);
      assert Undisturbed(ws[j], es[j], a, key);
    }
  }
}
