/** The token bucket as a value, and what it admits over whole runs. Times are seconds and tokens are real numbers;
    the clock is a parameter and does not run backwards (internal/ratelimit/ratelimit.go). */
module Buckets {

  datatype Bucket = Bucket(capacity: real, tokens: real, rate: real, last: real, enabled: bool)

  function Least(a: real, b: real): real {
    if a > b then b else a
  }

  function IsEnabled(capacity: real, rate: real): bool {
    capacity > 0.0 && rate > 0.0
  }

  function NewBucket(capacity: real, rate: real, now: real): Bucket {
    Bucket(capacity, capacity, rate, now, IsEnabled(capacity, rate))
  }

  function Times(a: real, b: real): real {
    a * b
  }

  lemma TimesSign(a: real, b: real)
    requires a >= 0.0
    ensures b >= 0.0 ==> Times(a, b) >= 0.0
    ensures b <= 0.0 ==> Times(a, b) <= 0.0
  {
    if b >= 0.0 {
      assert a * b >= 0.0;
    } else {
      assert a * -b >= 0.0;
      assert a * b == -(a * -b);
    }
  }

  lemma TimesSum(a: real, a': real, b: real)
    ensures Times(a + a', b) == Times(a, b) + Times(a', b)
  {
  }

  /** What comes in between the last refill and `now`. */
  function Inflow(b: Bucket, now: real): real {
    Times(now - b.last, b.rate)
  }

  function Refilled(b: Bucket, now: real): Bucket {
    b.(tokens := Least(b.tokens + Inflow(b, now), b.capacity), last := now)
  }

  function Rated(b: Bucket, now: real, capacity: real, rate: real): Bucket {
    Bucket(capacity, Least(Refilled(b, now).tokens, capacity), rate, now, IsEnabled(capacity, rate))
  }

  datatype Op = Allow(now: real, cost: real) | SetRate(now: real, capacity: real, rate: real) | Poll(now: real)

  function Allows(b: Bucket, now: real, cost: real): bool {
    !b.enabled || Refilled(b, now).tokens >= cost
  }

  function Step(b: Bucket, op: Op): Bucket {
    match op
    case Allow(now, cost) =>
      if !b.enabled then b
      else if Allows(b, now, cost) then Refilled(b, now).(tokens := Refilled(b, now).tokens - cost)
      else Refilled(b, now)
    case SetRate(now, capacity, rate) => Rated(b, now, capacity, rate)
    case Poll(now) => Refilled(b, now)
  }

  function After(b: Bucket, ops: seq<Op>): Bucket {
    if ops == [] then b else Step(After(b, ops[..|ops| - 1]), ops[|ops| - 1])
  }

  /** The clock does not run backwards, from `start` on, and costs are not negative. */
  ghost predicate Orderly(start: real, ops: seq<Op>) {
    && (forall i :: 0 <= i < |ops| ==> start <= ops[i].now)
    && (forall i, j :: 0 <= i < j < |ops| ==> ops[i].now <= ops[j].now)
    && (forall i :: 0 <= i < |ops| && ops[i].Allow? ==> ops[i].cost >= 0.0)
  }

  lemma OrderlyFront(start: real, ops: seq<Op>)
    requires Orderly(start, ops) && ops != []
    ensures Orderly(start, ops[..|ops| - 1])
    ensures forall i :: 0 <= i < |ops| - 1 ==> ops[i].now <= ops[|ops| - 1].now
  {
  }

  // ---------- Bounds ----------

  /** Whatever the parameters, there are never more tokens than the bucket holds, and its time never runs ahead. */
  lemma {:induction false} NeverOverfull(b: Bucket, ops: seq<Op>)
    requires b.tokens <= b.capacity && Orderly(b.last, ops)
    ensures var e := After(b, ops);
            && e.tokens <= e.capacity && b.last <= e.last
            && (ops != [] ==> e.last <= ops[|ops| - 1].now)
            && (ops == [] ==> e.last == b.last)
    decreases |ops|
  {
    if ops != [] {
      OrderlyFront(b.last, ops);
      NeverOverfull(b, ops[..|ops| - 1]);
    }
  }

  predicate InBounds(b: Bucket) {
    0.0 <= b.tokens <= b.capacity && b.rate >= 0.0
  }

  ghost predicate Sensible(ops: seq<Op>) {
    forall i :: 0 <= i < |ops| && ops[i].SetRate? ==> ops[i].capacity >= 0.0 && ops[i].rate >= 0.0
  }

  lemma StepStaysInBounds(b: Bucket, op: Op)
    requires InBounds(b) && b.last <= op.now && (op.Allow? ==> op.cost >= 0.0)
    requires op.SetRate? ==> op.capacity >= 0.0 && op.rate >= 0.0
    ensures InBounds(Step(b, op))
  {
    TimesSign(op.now - b.last, b.rate);
    hide Times;
  }

  /** With parameters that are not negative, tokens stay between zero and capacity. */
  lemma {:induction false} StaysInBounds(b: Bucket, ops: seq<Op>)
    requires InBounds(b) && Orderly(b.last, ops) && Sensible(ops)
    ensures InBounds(After(b, ops))
    decreases |ops|
  {
    if ops != [] {
      var n := |ops| - 1;
      OrderlyFront(b.last, ops);
      StaysInBounds(b, ops[..n]);
      NeverOverfull(b, ops[..n]);
      assert n > 0 ==> ops[n - 1].now <= ops[n].now;
      hide Step, InBounds;
      StepStaysInBounds(After(b, ops[..n]), ops[n]);
    }
  }

  /** One step outside of that: setting the rate leaves the tokens in bounds exactly when the new capacity is not
      negative and the old rate has not drained the bucket. */
  lemma SetRateInBoundsExactlyWhen(b: Bucket, now: real, capacity: real, rate: real)
    requires b.tokens <= b.capacity
    ensures var e := Step(b, SetRate(now, capacity, rate));
            0.0 <= e.tokens <= e.capacity <==> capacity >= 0.0 && b.capacity >= 0.0 && b.tokens + Inflow(b, now) >= 0.0
  {
  }

  /** A bucket made with a negative capacity starts in debt and keeps it when it is given a better one. */
  lemma DebtIsKept(now: real)
    ensures var b := NewBucket(-5.0, 1.0, now);
            var e := Step(b, SetRate(now, 10.0, 1.0));
            e.enabled && e.tokens == -5.0 && !Allows(e, now, 1.0)
  {
  }

  // ---------- What a run admits ----------

  /** The costs admitted while the bucket was enabled. */
  function Admitted(b: Bucket, ops: seq<Op>): real {
    if ops == [] then 0.0
    else
      var n := |ops| - 1;
      var e := After(b, ops[..n]);
      Admitted(b, ops[..n]) + if ops[n].Allow? && e.enabled && Allows(e, ops[n].now, ops[n].cost) then ops[n].cost else 0.0
  }

  /** The rates in force, accumulated over the run; a disabled bucket takes no notice of requests. */
  function Credit(b: Bucket, ops: seq<Op>): real {
    if ops == [] then 0.0
    else
      var n := |ops| - 1;
      var e := After(b, ops[..n]);
      Credit(b, ops[..n]) + if ops[n].Allow? && !e.enabled then 0.0 else Inflow(e, ops[n].now)
  }

  /** What ran over: inflow that a full bucket, or a smaller one, could not hold. */
  function Spilled(b: Bucket, ops: seq<Op>): real {
    if ops == [] then 0.0
    else
      var n := |ops| - 1;
      var e := After(b, ops[..n]);
      Spilled(b, ops[..n]) + SpilledBy(e, ops[n])
  }

  function SpilledBy(e: Bucket, op: Op): real {
    var full := e.tokens + Inflow(e, op.now);
    match op
    case Allow(now, _) => if e.enabled then full - Refilled(e, now).tokens else 0.0
    case SetRate(now, capacity, _) => full - Least(Refilled(e, now).tokens, capacity)
    case Poll(now) => full - Refilled(e, now).tokens
  }

  /** Every token is accounted for, whatever the parameters and the clock: what was there and what came in is what was
      admitted, what ran over and what is left. */
  lemma {:induction false} TokensAreConserved(b: Bucket, ops: seq<Op>)
    ensures b.tokens + Credit(b, ops) == Admitted(b, ops) + Spilled(b, ops) + After(b, ops).tokens
    ensures Spilled(b, ops) >= 0.0
    decreases |ops|
  {
    if ops != [] {
      hide Inflow;
      TokensAreConserved(b, ops[..|ops| - 1]);
    }
  }

  /** The admission bound: a run admits no more than the tokens at its start and the rate accumulated over it. */
  lemma AdmissionBound(b: Bucket, ops: seq<Op>)
    requires InBounds(b) && Orderly(b.last, ops) && Sensible(ops)
    ensures Admitted(b, ops) <= b.tokens + Credit(b, ops)
  {
    TokensAreConserved(b, ops);
    StaysInBounds(b, ops);
  }

  lemma {:induction false} FixedRate(b: Bucket, ops: seq<Op>)
    requires b.enabled && forall i :: 0 <= i < |ops| ==> !ops[i].SetRate?
    ensures var e := After(b, ops); e.enabled && e.rate == b.rate && e.capacity == b.capacity
    ensures Credit(b, ops) == Times(After(b, ops).last - b.last, b.rate)
    ensures After(b, ops).last == if ops == [] then b.last else ops[|ops| - 1].now
    decreases |ops|
  {
    if ops == [] {
      assert Times(0.0, b.rate) == 0.0;
    } else {
      hide Times;
      var e, now := After(b, ops[..|ops| - 1]), ops[|ops| - 1].now;
      FixedRate(b, ops[..|ops| - 1]);
      TimesSum(now - e.last, e.last - b.last, b.rate);
      assert (now - e.last) + (e.last - b.last) == now - b.last;
    }
  }

  /** At a fixed rate, any window of a run of an enabled bucket admits at most its capacity and the rate times its
      length. */
  lemma WindowBound(b: Bucket, ops: seq<Op>)
    requires InBounds(b) && b.enabled && Orderly(b.last, ops) && ops != []
    requires forall i :: 0 <= i < |ops| ==> !ops[i].SetRate?
    ensures Admitted(b, ops) <= b.capacity + Times(ops[|ops| - 1].now - b.last, b.rate)
  {
    hide Times, Admitted, Credit, After;
    AdmissionBound(b, ops);
    FixedRate(b, ops);
  }

  /** The same of every window of a longer run: from after the first `i` calls to after the first `j`. */
  lemma AnyWindow(b: Bucket, ops: seq<Op>, i: nat, j: nat)
    requires InBounds(b) && b.enabled && Orderly(b.last, ops) && i < j <= |ops|
    requires forall k :: 0 <= k < |ops| ==> !ops[k].SetRate?
    ensures var w := After(b, ops[..i]);
            Admitted(w, ops[i..j]) <= b.capacity + Times(ops[j - 1].now - w.last, b.rate)
  {
    hide Times, Admitted, After, InBounds, Orderly;
    MidRun(b, ops, i);
    OrderlyWindow(b.last, ops, i, j, After(b, ops[..i]).last);
    WindowOf(ops, i, j);
    WindowBound(After(b, ops[..i]), ops[i..j]);
  }

  /** The bucket in the middle of a run at a fixed rate. */
  lemma MidRun(b: Bucket, ops: seq<Op>, i: nat)
    requires InBounds(b) && b.enabled && Orderly(b.last, ops) && i <= |ops|
    requires forall k :: 0 <= k < |ops| ==> !ops[k].SetRate?
    ensures var w := After(b, ops[..i]);
            && InBounds(w) && w.enabled && w.capacity == b.capacity && w.rate == b.rate
            && w.last == if i == 0 then b.last else ops[i - 1].now
  {
    OrderlyUpTo(b.last, ops, i);
    hide Times, Credit, After, InBounds, Orderly;
    StaysInBounds(b, ops[..i]);
    FixedRate(b, ops[..i]);
  }

  lemma OrderlyUpTo(start: real, ops: seq<Op>, i: nat)
    requires Orderly(start, ops) && i <= |ops|
    ensures Orderly(start, ops[..i])
  {
  }

  lemma WindowOf(ops: seq<Op>, i: nat, j: nat)
    requires i < j <= |ops| && forall k :: 0 <= k < |ops| ==> !ops[k].SetRate?
    ensures |ops[i..j]| == j - i > 0 && ops[i..j][j - i - 1] == ops[j - 1]
    ensures forall k :: 0 <= k < |ops[i..j]| ==> !ops[i..j][k].SetRate?
  {
  }

  lemma OrderlyWindow(start: real, ops: seq<Op>, i: nat, j: nat, now: real)
    requires Orderly(start, ops) && i < j <= |ops| && (if i == 0 then now == start else now <= ops[i - 1].now)
    ensures Orderly(now, ops[i..j])
  {
  }

  // ---------- What has to be admitted ----------

  /** A request is refused exactly when the bucket is enabled and its tokens, with what came in since, or its capacity
      fall short of the cost. */
  lemma RefusedExactlyWhen(b: Bucket, now: real, cost: real)
    ensures !Allows(b, now, cost) <==>
            b.enabled && (cost > b.tokens + (now - b.last) * b.rate || cost > b.capacity)
  {
  }

  lemma IdleFor(b: Bucket, now: real)
    requires b.rate > 0.0 && now - b.last >= b.capacity / b.rate
    ensures Inflow(b, now) >= b.capacity
  {
    var idle := b.capacity / b.rate;
    assert Times(idle, b.rate) == b.capacity;
    TimesSign(now - b.last - idle, b.rate);
    TimesSum(now - b.last - idle, idle, b.rate);
    hide Times;
    assert now - b.last - idle + idle == now - b.last;
  }

  /** However a run went, once the bucket has been left alone for as long as it takes to fill, any cost up to its
      capacity is admitted. */
  lemma FullAfterIdling(b: Bucket, ops: seq<Op>, now: real, cost: real)
    requires InBounds(b) && Orderly(b.last, ops) && Sensible(ops)
    requires var e := After(b, ops); e.rate > 0.0 && now - e.last >= e.capacity / e.rate && cost <= e.capacity
    ensures Allows(After(b, ops), now, cost)
  {
    hide Orderly, Sensible, After, Inflow;
    StaysInBounds(b, ops);
    IdleFor(After(b, ops), now);
  }

  /** Each request costs `cost`, and comes no sooner after the one before than the rate makes up for that. */
  ghost predicate Steady(b: Bucket, ops: seq<Op>, cost: real) {
    && (forall i :: 0 <= i < |ops| ==> ops[i].Allow? && ops[i].cost == cost)
    && (ops != [] ==> b.tokens + (ops[0].now - b.last) * b.rate >= cost)
    && (forall i :: 0 < i < |ops| ==> MadeUp(ops[i - 1].now, ops[i].now, b.rate, cost))
  }

  predicate MadeUp(since: real, now: real, rate: real, cost: real) {
    (now - since) * rate >= cost
  }

  predicate Enough(b: Bucket, now: real, cost: real) {
    b.tokens + (now - b.last) * b.rate >= cost
  }

  lemma EnoughOnceMadeUp(b: Bucket, now: real, cost: real)
    requires b.tokens >= 0.0 && MadeUp(b.last, now, b.rate, cost)
    ensures Enough(b, now, cost)
  {
  }

  lemma EnoughIsGranted(b: Bucket, now: real, cost: real)
    requires b.enabled && cost <= b.capacity && Enough(b, now, cost)
    ensures Allows(b, now, cost)
    ensures var e := Step(b, Allow(now, cost));
            0.0 <= e.tokens && e.last == now && e.enabled && e.rate == b.rate && e.capacity == b.capacity
  {
  }

  /** A steady demand within the rate, for no more than the bucket holds, is never refused. */
  lemma {:induction false} SteadyDemandIsMet(b: Bucket, ops: seq<Op>, cost: real)
    requires b.enabled && cost <= b.capacity && Steady(b, ops, cost)
    ensures |Answers(b, ops)| == |ops| && forall i :: 0 <= i < |ops| ==> Answers(b, ops)[i]
    ensures var e := After(b, ops);
            && e.enabled && e.rate == b.rate && e.capacity == b.capacity
            && (ops != [] ==> 0.0 <= e.tokens && e.last == ops[|ops| - 1].now)
    decreases |ops|
  {
    if ops != [] {
      var n := |ops| - 1;
      var e := After(b, ops[..n]);
      assert n == 0 ==> Enough(e, ops[n].now, cost);
      hide Enough, MadeUp, Allows, Step;
      SteadyDemandIsMet(b, ops[..n], cost);
      if n > 0 {
        EnoughOnceMadeUp(e, ops[n].now, cost);
      }
      EnoughIsGranted(e, ops[n].now, cost);
    }
  }

  /** A run's last request is refused only for what the run has admitted and let run over: with its cost, that comes to
      more than there was at the start and came in. */
  lemma RefusedForWhatWasAdmitted(b: Bucket, ops: seq<Op>, now: real, cost: real)
    requires var e := After(b, ops); e.enabled && !Allows(e, now, cost)
    ensures var run := ops + [Allow(now, cost)];
            Admitted(b, run) + Spilled(b, run) + cost > b.tokens + Credit(b, run)
  {
    var run := ops + [Allow(now, cost)];
    assert run[..|ops|] == ops;
    TokensAreConserved(b, run);
  }

  // ---------- Polls ----------

  function WithoutPolls(ops: seq<Op>): seq<Op> {
    if ops == [] then []
    else
      var n := |ops| - 1;
      WithoutPolls(ops[..n]) + if ops[n].Poll? then [] else [ops[n]]
  }

  /** Each request's answer, in order. */
  function Answers(b: Bucket, ops: seq<Op>): seq<bool> {
    if ops == [] then []
    else
      var n := |ops| - 1;
      Answers(b, ops[..n]) + if ops[n].Allow? then [Allows(After(b, ops[..n]), ops[n].now, ops[n].cost)] else []
  }

  /** Refilling twice is refilling once, at any rate, also a negative one. */
  lemma RefillMerges(b: Bucket, t: real, now: real)
    requires b.tokens <= b.capacity && b.last <= t <= now
    ensures Refilled(Refilled(b, t), now) == Refilled(b, now)
  {
    TimesSum(now - t, t - b.last, b.rate);
    assert (now - t) + (t - b.last) == now - b.last;
    TimesSign(now - t, b.rate);
    TimesSign(t - b.last, b.rate);
    hide Times;
  }

  /** `p` is `b` but for refills made on the way. */
  ghost predicate Ahead(b: Bucket, p: Bucket) {
    b.tokens <= b.capacity && b.last <= p.last && p == Refilled(b, p.last)
  }

  lemma StepStaysAhead(b: Bucket, p: Bucket, op: Op)
    requires Ahead(b, p) && p.last <= op.now && (op.Allow? ==> op.cost >= 0.0)
    ensures op.Poll? ==> Ahead(b, Step(p, op))
    ensures !op.Poll? ==> Ahead(Step(b, op), Step(p, op))
    ensures op.Allow? ==> Allows(b, op.now, op.cost) == Allows(p, op.now, op.cost)
  {
    RefillMerges(b, p.last, op.now);
    hide Inflow;
    StillHere(b);
    StillHere(Step(p, op));
  }

  lemma StillHere(b: Bucket)
    ensures b.tokens <= b.capacity ==> Refilled(b, b.last) == b
  {
  }

  lemma {:induction false} PollsAhead(b: Bucket, ops: seq<Op>)
    requires b.tokens <= b.capacity && Orderly(b.last, ops)
    ensures Ahead(After(b, WithoutPolls(ops)), After(b, ops))
    ensures After(b, ops).last <= if ops == [] then b.last else ops[|ops| - 1].now
    ensures Answers(b, ops) == Answers(b, WithoutPolls(ops))
    decreases |ops|
  {
    if ops == [] {
      StillHere(b);
    } else {
      var n := |ops| - 1;
      var w, op := WithoutPolls(ops[..n]), ops[n];
      OrderlyFront(b.last, ops);
      PollsAhead(b, ops[..n]);
      NeverOverfull(b, ops[..n]);
      assert n > 0 ==> ops[n - 1].now <= op.now;
      StepStaysAhead(After(b, w), After(b, ops[..n]), op);
      assert (w + [op])[..|w|] == w && w + [] == w;
      hide Refilled, Ahead, Step, Allows;
    }
  }

  /** Asking for the number of tokens never changes the answer to a request, however often and whenever it is done. */
  lemma PollsDoNotMatter(b: Bucket, ops: seq<Op>)
    requires b.tokens <= b.capacity && Orderly(b.last, ops)
    ensures Answers(b, ops) == Answers(b, WithoutPolls(ops))
  {
    PollsAhead(b, ops);
  }

  // ---------- The bucket as it is kept ----------

  class TokenBucket {
    var capacity: real
    var tokens: real
    var refillRate: real
    var lastRefill: real
    var enabled: bool

    function View(): Bucket
      reads this
    {
      Bucket(capacity, tokens, refillRate, lastRefill, enabled)
    }

    constructor (capacity: real, refillRate: real, now: real)
      ensures this.capacity == tokens == capacity && this.refillRate == refillRate && lastRefill == now
      ensures enabled <==> capacity > 0.0 && refillRate > 0.0
      ensures View() == NewBucket(capacity, refillRate, now)
    {
      this.capacity, tokens, this.refillRate, lastRefill := capacity, capacity, refillRate, now;
      enabled := capacity > 0.0 && refillRate > 0.0;
    }

    /** What there is at `now`: the tokens and what came in since the last refill, up to the capacity. */
    function Level(now: real): (n: real)
      reads this
      ensures n <= capacity && n <= tokens + (now - lastRefill) * refillRate
      ensures n == capacity || n == tokens + (now - lastRefill) * refillRate
    {
      Refilled(View(), now).tokens
    }

    method Refill(now: real)
      modifies this
      ensures capacity == old(capacity) && refillRate == old(refillRate) && enabled == old(enabled)
      ensures tokens == old(Level(now)) && lastRefill == now
      ensures View() == Refilled(old(View()), now)
    {
      tokens := tokens + (now - lastRefill) * refillRate;
      if tokens > capacity {
        tokens := capacity;
      }
      lastRefill := now;
    }

    method AllowN(now: real, n: real) returns (ok: bool)
      modifies this
      ensures capacity == old(capacity) && refillRate == old(refillRate) && enabled == old(enabled)
      ensures ok <==> !enabled || old(Level(now)) >= n
      ensures !enabled ==> tokens == old(tokens) && lastRefill == old(lastRefill)
      ensures enabled ==> tokens == (if ok then old(Level(now)) - n else old(Level(now))) && lastRefill == now
      ensures ok == Allows(old(View()), now, n) && View() == Step(old(View()), Allow(now, n))
    {
      if !enabled {
        return true;
      }
      Refill(now);
      if tokens >= n {
        tokens := tokens - n;
        return true;
      }
      return false;
    }

    method SetRate(now: real, newCapacity: real, newRate: real)
      modifies this
      ensures capacity == newCapacity && refillRate == newRate && lastRefill == now
      ensures enabled <==> newCapacity > 0.0 && newRate > 0.0
      ensures tokens == if old(Level(now)) > newCapacity then newCapacity else old(Level(now))
      ensures View() == Step(old(View()), Op.SetRate(now, newCapacity, newRate))
    {
      Refill(now);
      capacity, refillRate := newCapacity, newRate;
      enabled := capacity > 0.0 && refillRate > 0.0;
      if tokens > capacity {
        tokens := capacity;
      }
    }

    method Tokens(now: real) returns (n: real)
      modifies this
      ensures capacity == old(capacity) && refillRate == old(refillRate) && enabled == old(enabled)
      ensures n == tokens == old(Level(now)) && lastRefill == now
      ensures View() == Step(old(View()), Poll(now))
    {
      Refill(now);
      n := tokens;
    }
  }
}
