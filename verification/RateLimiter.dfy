/** The limiter over Redis: one bucket per team and limit, charged by an atomic
    script and settled by another. It keeps no state of its own. */
module RateLimiter {
  import opened Prelude
  import opened TokenBucket

  datatype Kind = RPM | TPM

  datatype Key = Key(team: string, kind: Kind)

  datatype Reservation = Reservation(key: Key, capacity: int, reserved: int)

  class Limiter {
    var buckets: map<Key, Bucket>

    function At(key: Key): Bucket
      reads this
    {
      if key in buckets then buckets[key] else Absent
    }

    constructor ()
      ensures buckets == map[]
    {
      buckets := map[];
    }

    /** Takes an amount from a bucket; None when the arguments are refused or Redis cannot be reached. */
    method Charge(key: Key, capacity: int, amount: int, ttl: real, now: real, reachable: bool)
      returns (reply: Option<Result>)
      modifies this
      ensures reply.Some? <==> capacity > 0 && amount > 0 && ttl > 0.0 && reachable
      ensures reply.None? ==> buckets == old(buckets)
      ensures reply.Some? ==> (At(key), reply.value) == Consume(capacity, old(At(key)), amount, now)
      ensures forall other :: other != key ==> At(other) == old(At(other))
    {
      if capacity <= 0 || amount <= 0 || ttl <= 0.0 || !reachable { return None; }
      var tokens, ts := capacity as real, now;
      if key in buckets && buckets[key].Stored? {
        tokens, ts := buckets[key].tokens, buckets[key].ts;
      }
      var elapsed := now - ts;
      if elapsed > 0.0 { tokens := Min(capacity as real, tokens + Accrued(capacity, elapsed)); }
      var allowed, retryAfter := false, 0.0;
      if tokens >= amount as real {
        tokens, allowed := tokens - amount as real, true;
      } else {
        retryAfter := (amount as real - tokens) / Rate(capacity);
      }
      buckets := buckets[key := Stored(tokens, now)];
      reply := Some(Result(allowed, tokens, retryAfter));
    }

    /** Charges in advance; the handle exists only when the charge was admitted. */
    method Reserve(key: Key, capacity: int, amount: int, ttl: real, now: real, reachable: bool)
      returns (handle: Option<Reservation>, reply: Option<Result>)
      modifies this
      ensures reply.None? ==> buckets == old(buckets)
      ensures reply.Some? ==> capacity > 0 && (At(key), reply.value) == Consume(capacity, old(At(key)), amount, now)
      ensures handle == if reply.Some? && reply.value.allowed then Some(Reservation(key, capacity, amount)) else None
      ensures forall other :: other != key ==> At(other) == old(At(other))
    {
      reply := Charge(key, capacity, amount, ttl, now, reachable);
      handle := if reply.Some? && reply.value.allowed then Some(Reservation(key, capacity, amount)) else None;
    }

    /** Settles a reservation against what the request used. Without a handle, or
        with nothing to settle, the bucket is left alone. */
    method Reconcile(handle: Option<Reservation>, actual: int, now: real, reachable: bool) returns (ok: bool)
      modifies this
      ensures ok <==> handle.None? || (actual >= 0 && (handle.value.reserved == actual || reachable))
      ensures handle.None? || !ok || handle.value.reserved == actual ==> buckets == old(buckets)
      ensures handle.Some? && ok && handle.value.reserved != actual ==>
                At(handle.value.key) == Settle(handle.value.capacity, old(At(handle.value.key)), handle.value.reserved - actual, now)
      ensures forall other :: (handle.Some? ==> other != handle.value.key) ==> At(other) == old(At(other))
    {
      if handle.None? { return true; }
      if actual < 0 { return false; }
      var r := handle.value;
      var delta := r.reserved - actual;
      if delta == 0 { return true; }
      if !reachable { return false; }
      var tokens, ts := r.capacity as real, now;
      if r.key in buckets && buckets[r.key].Stored? {
        tokens, ts := buckets[r.key].tokens, buckets[r.key].ts;
      }
      var elapsed := now - ts;
      if elapsed > 0.0 { tokens := Min(r.capacity as real, tokens + Accrued(r.capacity, elapsed)); }
      tokens := Min(r.capacity as real, tokens + delta as real);
      buckets := buckets[r.key := Stored(tokens, now)];
      ok := true;
    }
  }
}
