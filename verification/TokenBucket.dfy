/** A team's token bucket: refilled lazily, charged in advance and settled
    afterwards. Balances and instants (in seconds) are reals. */
module TokenBucket {

  /** What Redis holds under the bucket's key. */
  datatype Bucket = Absent | Stored(tokens: real, ts: real)

  datatype Result = Result(allowed: bool, remaining: real, retryAfter: real)

  function Min(a: real, b: real): real {
    if a <= b then a else b
  }

  function Rate(capacity: int): real {
    capacity as real / 60.0
  }

  /** What accrues over a time span. */
  function Accrued(capacity: int, span: real): real {
    span * Rate(capacity)
  }

  /** The balance both scripts start from. */
  function Balance(capacity: int, b: Bucket, now: real): real {
    match b
    case Absent => capacity as real
    case Stored(tokens, ts) =>
      if now - ts > 0.0 then Min(capacity as real, tokens + Accrued(capacity, now - ts)) else tokens
  }

  function Consume(capacity: int, b: Bucket, amount: int, now: real): (Bucket, Result)
    requires capacity > 0
  {
    var tokens := Balance(capacity, b, now);
    if tokens >= amount as real then
      (Stored(tokens - amount as real, now), Result(true, tokens - amount as real, 0.0))
    else
      (Stored(tokens, now), Result(false, tokens, (amount as real - tokens) / Rate(capacity)))
  }

  function Settle(capacity: int, b: Bucket, delta: int, now: real): Bucket {
    Stored(Min(capacity as real, Balance(capacity, b, now) + delta as real), now)
  }

  // ----- runs -----

  /** A consume of some amount, or a settlement by some signed difference. */
  datatype Op = Take(amount: int, at: real) | Adjust(delta: int, at: real)

  function Apply(capacity: int, b: Bucket, op: Op): Bucket
    requires capacity > 0
  {
    match op
    case Take(amount, at) => Consume(capacity, b, amount, at).0
    case Adjust(delta, at) => Settle(capacity, b, delta, at)
  }

  /** What the caller sees of one operation; a settlement replies its balance. */
  function Seen(capacity: int, b: Bucket, op: Op): Result
    requires capacity > 0
  {
    match op
    case Take(amount, at) => Consume(capacity, b, amount, at).1
    case Adjust(delta, at) => Result(true, Settle(capacity, b, delta, at).tokens, 0.0)
  }

  function Run(capacity: int, b: Bucket, ops: seq<Op>): Bucket
    requires capacity > 0
    decreases |ops|
  {
    if ops == [] then b else Run(capacity, Apply(capacity, b, ops[0]), ops[1..])
  }

  function Results(capacity: int, b: Bucket, ops: seq<Op>): seq<Result>
    requires capacity > 0
    decreases |ops|
  {
    if ops == [] then []
    else [Seen(capacity, b, ops[0])] + Results(capacity, Apply(capacity, b, ops[0]), ops[1..])
  }

  /** Tokens admitted by the takes of a run. */
  function Admitted(capacity: int, b: Bucket, ops: seq<Op>): int
    requires capacity > 0
    decreases |ops|
  {
    if ops == [] then 0
    else
      (if ops[0].Take? && Seen(capacity, b, ops[0]).allowed then ops[0].amount else 0)
      + Admitted(capacity, Apply(capacity, b, ops[0]), ops[1..])
  }

  /** Net tokens its settlements asked to give back. */
  function Adjusted(ops: seq<Op>): int {
    if ops == [] then 0
    else (if ops[0].Adjust? then ops[0].delta else 0) + Adjusted(ops[1..])
  }

  /** Instants from lo to hi, never decreasing, and only amounts the limiter sends: a charge is
      positive and a settlement has a difference to settle. */
  ghost predicate Ordered(lo: real, ops: seq<Op>, hi: real)
    decreases |ops|
  {
    if ops == [] then lo <= hi
    else
      && lo <= ops[0].at && (ops[0].Take? ==> ops[0].amount > 0) && (ops[0].Adjust? ==> ops[0].delta != 0)
      && Ordered(ops[0].at, ops[1..], hi)
  }

  /** A bucket no fuller than its capacity and not from the future. */
  ghost predicate Sound(capacity: int, b: Bucket, now: real) {
    b.Stored? ==> b.tokens <= capacity as real && b.ts <= now
  }

  lemma AccruedAdds(capacity: int, a: real, b: real)
    ensures Accrued(capacity, a + b) == Accrued(capacity, a) + Accrued(capacity, b)
  {
  }

  lemma AccruedGrows(capacity: int, span: real)
    requires capacity > 0 && span >= 0.0
    ensures Accrued(capacity, span) >= 0.0
    ensures span > 0.0 ==> Accrued(capacity, span) > 0.0
  {
  }

  /** Refilling up to now and then on to later is refilling to later. */
  lemma BalanceComposes(capacity: int, b: Bucket, now: real, later: real)
    requires capacity > 0 && Sound(capacity, b, now) && now <= later
    ensures Balance(capacity, Stored(Balance(capacity, b, now), now), later) == Balance(capacity, b, later)
    ensures Balance(capacity, b, now) <= capacity as real
  {
    AccruedGrows(capacity, later - now);
    if b.Stored? {
      AccruedGrows(capacity, now - b.ts);
      AccruedAdds(capacity, now - b.ts, later - now);
      assert now - b.ts + (later - now) == later - b.ts;
    }
  }

  /** No balance grows faster than the refill rate. */
  lemma BalanceGrowth(capacity: int, b: Bucket, now: real, later: real)
    requires capacity > 0 && Sound(capacity, b, now) && now <= later
    ensures Balance(capacity, b, later) <= Balance(capacity, b, now) + Accrued(capacity, later - now)
  {
    BalanceComposes(capacity, b, now, later);
    AccruedGrows(capacity, later - now);
  }

  lemma {:induction false} RunBound(capacity: int, b: Bucket, t0: real, ops: seq<Op>, t1: real)
    requires capacity > 0 && Sound(capacity, b, t0) && Ordered(t0, ops, t1)
    ensures Sound(capacity, Run(capacity, b, ops), t1)
    ensures (Admitted(capacity, b, ops) - Adjusted(ops)) as real
            <= Balance(capacity, b, t0) + Accrued(capacity, t1 - t0) - Balance(capacity, Run(capacity, b, ops), t1)
    decreases |ops|
  {
    if ops == [] {
      BalanceGrowth(capacity, b, t0, t1);
    } else {
      var t := ops[0].at;
      var b1 := Apply(capacity, b, ops[0]);
      BalanceGrowth(capacity, b, t0, t);
      BalanceComposes(capacity, b, t0, t);
      BalanceComposes(capacity, b, t, t);
      OrderedSpan(t, ops[1..], t1);
      TakeNeverAdds(capacity, b, ops[0]);
      RunBound(capacity, b1, t, ops[1..], t1);
      AccruedAdds(capacity, t - t0, t1 - t);
      assert t - t0 + (t1 - t) == t1 - t0;
    }
  }

  lemma {:induction false} OrderedSpan(lo: real, ops: seq<Op>, hi: real)
    requires Ordered(lo, ops, hi)
    ensures lo <= hi
    decreases |ops|
  {
    if ops != [] { OrderedSpan(ops[0].at, ops[1..], hi); }
  }

  /** What one operation leaves is at most the balance less what it admitted, plus what it returned. */
  lemma TakeNeverAdds(capacity: int, b: Bucket, op: Op)
    requires capacity > 0 && Balance(capacity, b, op.at) <= capacity as real
    requires op.Take? ==> op.amount > 0
    ensures var b1 := Apply(capacity, b, op);
            && b1.Stored? && b1.ts == op.at && Balance(capacity, b1, op.at) == b1.tokens
            && (op.Take? ==>
                  b1.tokens == Balance(capacity, b, op.at) - (if Seen(capacity, b, op).allowed then op.amount else 0) as real)
            && (op.Adjust? ==> b1.tokens <= Balance(capacity, b, op.at) + op.delta as real)
            && b1.tokens <= capacity as real
  {
  }

  /** A charge is allowed exactly when the balance covers it, is the only thing that lowers the
      balance, and always reports the balance it leaves. */
  lemma ChargeIsExact(capacity: int, b: Bucket, amount: int, now: real)
    requires capacity > 0
    ensures var (b1, seen) := Consume(capacity, b, amount, now);
            && (seen.allowed <==> amount as real <= Balance(capacity, b, now))
            && Balance(capacity, b1, now) == Balance(capacity, b, now) - (if seen.allowed then amount else 0) as real
            && seen.remaining == Balance(capacity, b1, now)
            && (seen.allowed ==> seen.retryAfter == 0.0)
            && (!seen.allowed ==> seen.retryAfter > 0.0)
  {
    if amount as real > Balance(capacity, b, now) {
      Quotient(amount as real - Balance(capacity, b, now), Rate(capacity));
    }
  }

  lemma Quotient(a: real, k: real)
    requires a > 0.0 && k > 0.0
    ensures a / k > 0.0
  {
  }

  /** A bucket left alone gains its rate until it is full, and is full exactly when the rate has
      made up what was missing; a whole minute fills an empty one. */
  lemma RefillIff(capacity: int, b: Bucket, now: real)
    requires capacity > 0 && b.Stored? && Sound(capacity, b, now)
    ensures var full := capacity as real;
            && (Balance(capacity, b, now) == full <==> now - b.ts >= (full - b.tokens) / Rate(capacity))
            && (Balance(capacity, b, now) < full ==> Balance(capacity, b, now) == b.tokens + Accrued(capacity, now - b.ts))
            && Accrued(capacity, 60.0) == full
  {
    AccruedReaches(capacity, capacity as real - b.tokens, now - b.ts);
    assert Accrued(capacity, 0.0) == 0.0;
    AccruedGrows(capacity, now - b.ts);
  }

  // ----- the rate bound -----

  lemma {:induction false} RunStaysSound(capacity: int, b: Bucket, t0: real, ops: seq<Op>, t1: real)
    requires capacity > 0 && Sound(capacity, b, t0) && Ordered(t0, ops, t1)
    ensures Sound(capacity, Run(capacity, b, ops), t1)
  {
    RunBound(capacity, b, t0, ops, t1);
  }

  /** In any run and any interval of it, the tokens admitted less those given back
      never exceed the capacity, plus the refill of the interval, minus what is left. */
  lemma RateBound(capacity: int, start: real, before: seq<Op>, t0: real, during: seq<Op>, t1: real)
    requires capacity > 0 && Ordered(start, before, t0) && Ordered(t0, during, t1)
    ensures var b0 := Run(capacity, Absent, before);
            var b1 := Run(capacity, b0, during);
            && (Admitted(capacity, b0, during) - Adjusted(during)) as real
               <= capacity as real + Accrued(capacity, t1 - t0) - Balance(capacity, b1, t1)
            && Balance(capacity, b1, t1) <= capacity as real
  {
    RunStaysSound(capacity, Absent, start, before, t0);
    var b0 := Run(capacity, Absent, before);
    RunBound(capacity, b0, t0, during, t1);
    OrderedSpan(t0, during, t1);
    BalanceComposes(capacity, b0, t0, t0);
    BalanceComposes(capacity, Run(capacity, b0, during), t1, t1);
  }

  ghost predicate NeverOverdraws(ops: seq<Op>) {
    forall i :: 0 <= i < |ops| && ops[i].Adjust? ==> ops[i].delta >= 0
  }

  /** If no request uses more than it reserved, the balance is never negative. */
  lemma {:induction false} BalanceStaysNonNegative(capacity: int, b: Bucket, t0: real, ops: seq<Op>, t1: real)
    requires capacity > 0 && Ordered(t0, ops, t1) && NeverOverdraws(ops)
    requires b.Stored? ==> b.tokens >= 0.0
    ensures Balance(capacity, Run(capacity, b, ops), t1) >= 0.0
    decreases |ops|
  {
    if ops == [] {
      if b.Stored? && t1 - b.ts > 0.0 { AccruedGrows(capacity, t1 - b.ts); }
    } else {
      if b.Stored? && ops[0].at - b.ts > 0.0 { AccruedGrows(capacity, ops[0].at - b.ts); }
      assert Balance(capacity, b, ops[0].at) >= 0.0;
      assert forall i :: 0 <= i < |ops[1..]| ==> ops[1..][i] == ops[i + 1];
      BalanceStaysNonNegative(capacity, Apply(capacity, b, ops[0]), ops[0].at, ops[1..], t1);
    }
  }

  // ----- lazy refill is exact -----

  /** No operation from this instant on can tell the two buckets apart. */
  ghost predicate Same(capacity: int, b: Bucket, c: Bucket, from: real)
    requires capacity > 0
  {
    forall ops, hi :: Ordered(from, ops, hi) ==> Results(capacity, b, ops) == Results(capacity, c, ops)
  }

  ghost predicate SameBalance(capacity: int, b: Bucket, c: Bucket, from: real) {
    forall t :: t >= from ==> Balance(capacity, b, t) == Balance(capacity, c, t)
  }

  lemma SameBalanceIsSame(capacity: int, b: Bucket, c: Bucket, from: real)
    requires capacity > 0 && SameBalance(capacity, b, c, from)
    ensures Same(capacity, b, c, from)
  {
    forall ops: seq<Op>, hi | Ordered(from, ops, hi) ensures Results(capacity, b, ops) == Results(capacity, c, ops) {
      if ops != [] {
        assert Balance(capacity, b, ops[0].at) == Balance(capacity, c, ops[0].at);
        assert Apply(capacity, b, ops[0]) == Apply(capacity, c, ops[0]);
      }
    }
  }

  /** A denied request leaves no trace in the answers to anything that follows. */
  lemma DeniedIsInvisible(capacity: int, b: Bucket, amount: int, now: real)
    requires capacity > 0 && Sound(capacity, b, now)
    requires !Consume(capacity, b, amount, now).1.allowed
    ensures Same(capacity, Consume(capacity, b, amount, now).0, b, now)
  {
    var b' := Consume(capacity, b, amount, now).0;
    forall t | t >= now ensures Balance(capacity, b', t) == Balance(capacity, b, t) {
      BalanceComposes(capacity, b, now, t);
    }
    SameBalanceIsSame(capacity, b', b, now);
  }

  const BUCKET_TTL: real := 120.0

  /** Letting an idle key expire goes unnoticed exactly when the bucket was left no
      further below zero than its capacity. */
  lemma ExpiryIsInvisibleIff(capacity: int, b: Bucket)
    requires capacity > 0 && b.Stored? && Sound(capacity, b, b.ts)
    ensures Same(capacity, b, Absent, b.ts + BUCKET_TTL) <==> b.tokens >= -(capacity as real)
  {
    var end := b.ts + BUCKET_TTL;
    assert Accrued(capacity, BUCKET_TTL) == 2.0 * capacity as real;
    if b.tokens >= -(capacity as real) {
      forall t | t >= end ensures Balance(capacity, b, t) == Balance(capacity, Absent, t) {
        AccruedGrows(capacity, t - end);
        AccruedAdds(capacity, BUCKET_TTL, t - end);
        assert BUCKET_TTL + (t - end) == t - b.ts;
      }
      SameBalanceIsSame(capacity, b, Absent, end);
    } else {
      assert end - b.ts == BUCKET_TTL;
      assert Balance(capacity, b, end) < capacity as real;
      var ops := [Take(1, end)];
      assert ops[1..] == [];
      assert Ordered(end, ops, end);
      assert Results(capacity, b, ops)[0] == Seen(capacity, b, ops[0]);
      assert Results(capacity, Absent, ops)[0] == Seen(capacity, Absent, ops[0]);
    }
  }

  /** Reserving and later settling, with nothing in between, equals charging the
      actual amount at once exactly when the request used no more than it reserved,
      or the refill in between did not reach the capacity. */
  lemma SettlingIsChargingIff(capacity: int, b: Bucket, reserved: int, actual: int, t: real, t': real)
    requires capacity > 0 && Sound(capacity, b, t) && t <= t' && reserved > 0 && actual >= 0
    requires Consume(capacity, b, reserved, t).1.allowed
    ensures var settled := Settle(capacity, Consume(capacity, b, reserved, t).0, reserved - actual, t');
            var charged := Stored(Balance(capacity, b, t) - actual as real, t);
            SameBalance(capacity, settled, charged, t')
            <==> (actual <= reserved
                  || Balance(capacity, b, t) - reserved as real + Accrued(capacity, t' - t) <= capacity as real)
  {
    var settled := Settle(capacity, Consume(capacity, b, reserved, t).0, reserved - actual, t');
    var charged := Stored(Balance(capacity, b, t) - actual as real, t);
    BalanceComposes(capacity, b, t, t);
    AccruedGrows(capacity, t' - t);
    assert Accrued(capacity, 0.0) == 0.0;
    assert Sound(capacity, charged, t) && settled.ts == t';
    assert Balance(capacity, settled, t') == settled.tokens;
    if settled.tokens == Balance(capacity, charged, t') {
      forall u | u >= t' ensures Balance(capacity, settled, u) == Balance(capacity, charged, u) {
        BalanceComposes(capacity, charged, t', u);
      }
    }
  }

  // ----- retrying -----

  lemma AccruedReaches(capacity: int, deficit: real, span: real)
    requires capacity > 0
    ensures Accrued(capacity, span) >= deficit <==> span >= deficit / Rate(capacity)
  {
    var rate := Rate(capacity);
    assert rate > 0.0;
    var wait := deficit / rate;
    assert wait * rate == deficit;
    if span >= wait { ProductGrows(rate, wait, span); } else { ProductGrowsStrictly(rate, span, wait); }
  }

  lemma ProductGrows(k: real, a: real, b: real)
    requires k > 0.0 && a <= b
    ensures a * k <= b * k
  {
  }

  lemma ProductGrowsStrictly(k: real, a: real, b: real)
    requires k > 0.0 && a < b
    ensures a * k < b * k
  {
  }

  /** A denied request that fits the capacity, retried with nothing in between,
      succeeds from its retry-after on and not before; one that does not fit never does. */
  lemma RetryAfterIsExact(capacity: int, b: Bucket, amount: int, now: real, later: real)
    requires capacity > 0 && Sound(capacity, b, now) && amount > 0 && now <= later
    requires !Consume(capacity, b, amount, now).1.allowed
    ensures var (b', denied) := Consume(capacity, b, amount, now);
            Consume(capacity, b', amount, later).1.allowed
            <==> amount <= capacity && later - now >= denied.retryAfter
  {
    BalanceComposes(capacity, b, now, now);
    var tokens := Balance(capacity, b, now);
    AccruedReaches(capacity, amount as real - tokens, later - now);
    assert Accrued(capacity, 0.0) == 0.0;
  }
}
