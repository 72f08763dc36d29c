/** The passive signal: what real traffic to a provider looked like lately. */
module HealthWindow {
  import opened Ring

  /** Times and latencies are nanoseconds. */
  datatype Sample = Sample(at: int, latency: int, failed: bool, timeout: bool)

  datatype Stats = Stats(count: nat, errorRate: real, timeoutRate: real, p99: int)

  const NoStats := Stats(0, 0.0, 0.0, 0)

  const WindowNanos := 60_000_000_000

  predicate Fresh(s: Sample, now: int) {
    now - s.at <= WindowNanos
  }

  // ----- the direct definition -----

  /** What is counted among the samples. */
  datatype Question = Any | Failed | TimedOut | FasterThan(latency: int) | NoSlowerThan(latency: int)

  predicate Yes(q: Question, s: Sample) {
    match q
    case Any => true
    case Failed => s.failed
    case TimedOut => s.timeout
    case FasterThan(l) => s.latency < l
    case NoSlowerThan(l) => s.latency <= l
  }

  function Count(samples: seq<Sample>, now: int, q: Question): nat {
    if samples == [] then 0
    else
      var last := samples[|samples| - 1];
      Count(samples[..|samples| - 1], now, q) + if Fresh(last, now) && Yes(q, last) then 1 else 0
  }

  function Rate(part: nat, whole: nat): real
    requires whole > 0
  {
    part as real / whole as real
  }

  /** The latency that 99 in a hundred fresh samples do not pass, as an order statistic. */
  ghost predicate IsP99(samples: seq<Sample>, now: int, latency: int) {
    var index := 99 * Count(samples, now, Any) / 100;
    Count(samples, now, FasterThan(latency)) <= index < Count(samples, now, NoSlowerThan(latency))
  }

  /** The statistics of the last hundred samples, leaving out those older than a minute. */
  ghost predicate Describes(st: Stats, samples: seq<Sample>, now: int) {
    var n := Count(samples, now, Any);
    && st.count == n
    && (n == 0 ==> st == NoStats)
    && (n > 0 ==>
          && st.errorRate == Rate(Count(samples, now, Failed), n)
          && st.timeoutRate == Rate(Count(samples, now, TimedOut), n)
          && IsP99(samples, now, st.p99))
  }

  /** The samples at most a minute old for which the answer is yes. */
  function Matching(samples: seq<Sample>, now: int, q: Question): set<int> {
    set i | 0 <= i < |samples| && samples[i].at >= now - 60_000_000_000 && Yes(q, samples[i])
  }

  lemma {:induction false} CountIsCardinality(samples: seq<Sample>, now: int, q: Question)
    ensures Count(samples, now, q) == |Matching(samples, now, q)|
  {
    if samples != [] {
      var n := |samples| - 1;
      var rest := Matching(samples[..n], now, q);
      CountIsCardinality(samples[..n], now, q);
      assert Matching(samples, now, q) == rest + if n in Matching(samples, now, q) then {n} else {};
    }
  }

  /** At most one statistic fits. */
  lemma DescribesIsUnique(a: Stats, b: Stats, samples: seq<Sample>, now: int)
    requires Describes(a, samples, now) && Describes(b, samples, now)
    ensures a == b
  {
    if a.count > 0 {
      if a.p99 < b.p99 { CountGrows(samples, now, NoSlowerThan(a.p99), FasterThan(b.p99)); }
      if b.p99 < a.p99 { CountGrows(samples, now, NoSlowerThan(b.p99), FasterThan(a.p99)); }
    }
  }

  lemma {:induction false} CountGrows(samples: seq<Sample>, now: int, q: Question, r: Question)
    requires forall s :: Yes(q, s) ==> Yes(r, s)
    ensures Count(samples, now, q) <= Count(samples, now, r)
  {
    if samples != [] { CountGrows(samples[..|samples| - 1], now, q, r); }
  }

  lemma {:induction false} CountConcat(a: seq<Sample>, b: seq<Sample>, now: int, q: Question)
    ensures Count(a + b, now, q) == Count(a, now, q) + Count(b, now, q)
    decreases |b|
  {
    if b == [] {
      assert a + b == a;
    } else {
      assert (a + b)[..|a + b| - 1] == a + b[..|b| - 1];
      CountConcat(a, b[..|b| - 1], now, q);
    }
  }

  // ----- the computation -----

  ghost predicate Ascending(s: seq<int>) {
    forall i, j :: 0 <= i < j < |s| ==> s[i] <= s[j]
  }

  function Insert(s: seq<int>, x: int): seq<int> {
    if s == [] || s[|s| - 1] <= x then s + [x] else Insert(s[..|s| - 1], x) + [s[|s| - 1]]
  }

  /** Stands for the library's sort. */
  function Sorted(s: seq<int>): seq<int> {
    if s == [] then [] else Insert(Sorted(s[..|s| - 1]), s[|s| - 1])
  }

  function Below(s: seq<int>, v: int): nat {
    if s == [] then 0 else Below(s[..|s| - 1], v) + if s[|s| - 1] < v then 1 else 0
  }

  lemma BelowAppend(s: seq<int>, x: int, v: int)
    ensures Below(s + [x], v) == Below(s, v) + if x < v then 1 else 0
  {
  }

  ghost predicate NoneAbove(s: seq<int>, bound: int) {
    forall i :: 0 <= i < |s| ==> s[i] <= bound
  }

  lemma {:induction false} InsertSorts(s: seq<int>, x: int, bound: int)
    requires Ascending(s)
    ensures Ascending(Insert(s, x)) && |Insert(s, x)| == |s| + 1
    ensures x <= bound && NoneAbove(s, bound) ==> NoneAbove(Insert(s, x), bound)
  {
    if s != [] && s[|s| - 1] > x {
      var rest, last := s[..|s| - 1], s[|s| - 1];
      InsertSorts(rest, x, bound);
      InsertSorts(rest, x, last);
      assert NoneAbove(rest, last);
      assert NoneAbove(s, bound) ==> NoneAbove(rest, bound);
    }
  }

  lemma {:induction false} InsertBelow(s: seq<int>, x: int, v: int)
    ensures Below(Insert(s, x), v) == Below(s, v) + if x < v then 1 else 0
  {
    if s == [] || s[|s| - 1] <= x {
      BelowAppend(s, x, v);
    } else {
      InsertBelow(s[..|s| - 1], x, v);
      BelowAppend(Insert(s[..|s| - 1], x), s[|s| - 1], v);
    }
  }

  lemma {:induction false} SortedSorts(s: seq<int>)
    ensures Ascending(Sorted(s)) && |Sorted(s)| == |s|
  {
    if s != [] {
      SortedSorts(s[..|s| - 1]);
      InsertSorts(Sorted(s[..|s| - 1]), s[|s| - 1], 0);
    }
  }

  lemma {:induction false} SortedBelow(s: seq<int>, v: int)
    ensures Below(Sorted(s), v) == Below(s, v)
  {
    if s != [] {
      SortedBelow(s[..|s| - 1], v);
      InsertBelow(Sorted(s[..|s| - 1]), s[|s| - 1], v);
    }
  }

  /** In ascending order, the entry at an index has at most that many below it. */
  lemma {:induction false} BelowInOrder(s: seq<int>, i: nat, v: int)
    requires Ascending(s) && i <= |s|
    ensures (i < |s| ==> v <= s[i]) ==> Below(s, v) <= i
    ensures (i < |s| && s[i] < v) ==> Below(s, v) > i
  {
    if s != [] {
      var n := |s| - 1;
      if i <= n { BelowInOrder(s[..n], i, v); }
      if i == n && n > 0 && s[n] < v { BelowInOrder(s[..n], n - 1, v); }
      if i == n + 1 { BelowLength(s, v); }
    }
  }

  lemma {:induction false} BelowLength(s: seq<int>, v: int)
    ensures Below(s, v) <= |s|
  {
    if s != [] { BelowLength(s[..|s| - 1], v); }
  }

  /** The latencies of the fresh samples, in the order read. */
  function Latencies(samples: seq<Sample>, now: int): seq<int> {
    if samples == [] then []
    else
      var last := samples[|samples| - 1];
      Latencies(samples[..|samples| - 1], now) + if Fresh(last, now) then [last.latency] else []
  }

  lemma {:induction false} LatenciesCount(samples: seq<Sample>, now: int, v: int)
    ensures |Latencies(samples, now)| == Count(samples, now, Any)
    ensures Below(Latencies(samples, now), v) == Count(samples, now, FasterThan(v))
    ensures Below(Latencies(samples, now), v + 1) == Count(samples, now, NoSlowerThan(v))
  {
    if samples != [] {
      var rest, last := samples[..|samples| - 1], samples[|samples| - 1];
      LatenciesCount(rest, now, v);
      BelowAppend(Latencies(rest, now), last.latency, v);
      BelowAppend(Latencies(rest, now), last.latency, v + 1);
      assert Latencies(rest, now) + [] == Latencies(rest, now);
    }
  }

  lemma SortedGivesP99(samples: seq<Sample>, now: int)
    requires Count(samples, now, Any) > 0
    ensures var s := Sorted(Latencies(samples, now));
            var index := 99 * Count(samples, now, Any) / 100;
            index < |s| && IsP99(samples, now, s[index])
  {
    var l := Latencies(samples, now);
    var s := Sorted(l);
    SortedSorts(l);
    LatenciesCount(samples, now, 0);
    var index := 99 * |s| / 100;
    var v := s[index];
    LatenciesCount(samples, now, v);
    SortedBelow(l, v);
    SortedBelow(l, v + 1);
    BelowInOrder(s, index, v);
    BelowInOrder(s, index, v + 1);
  }

  /** One pass over the slots in storage order, then a sort. */
  method Compute(slots: seq<Sample>, now: int) returns (st: Stats)
    ensures Describes(st, slots, now)
  {
    var latencies: seq<int> := [];
    var errors, timeouts := 0, 0;
    for i := 0 to |slots|
      invariant latencies == Latencies(slots[..i], now)
      invariant errors == Count(slots[..i], now, Failed) && timeouts == Count(slots[..i], now, TimedOut)
    {
      var s := slots[i];
      assert slots[..i + 1][..i] == slots[..i];
      if !Fresh(s, now) { continue; }
      latencies := latencies + [s.latency];
      if s.failed { errors := errors + 1; }
      if s.timeout { timeouts := timeouts + 1; }
    }
    assert slots[..|slots|] == slots;
    LatenciesCount(slots, now, 0);
    var n := |latencies|;
    if n == 0 { return NoStats; }
    SortedSorts(latencies);
    SortedGivesP99(slots, now);
    var index := 99 * n / 100;
    if index >= n { index := n - 1; }
    st := Stats(n, Rate(errors, n), Rate(timeouts, n), Sorted(latencies)[index]);
  }

  lemma RotationDescribes(st: Stats, a: seq<Sample>, b: seq<Sample>, now: int)
    requires Describes(st, a + b, now)
    ensures Describes(st, b + a, now)
  {
    forall q ensures Count(a + b, now, q) == Count(b + a, now, q) {
      CountConcat(a, b, now, q);
      CountConcat(b, a, now, q);
    }
  }

  method WindowStats(w: Buffer<Sample>, now: int) returns (st: Stats)
    requires w.Valid()
    ensures Describes(st, Tail(w.all), now)
  {
    st := Compute(w.slots[..w.count], now);
    w.SlotOrder();
    if |w.all| >= Capacity {
      var tail := Tail(w.all);
      var cut := Capacity - w.next;
      RotationDescribes(st, tail[cut..], tail[..cut], now);
      assert tail[..cut] + tail[cut..] == tail;
    }
  }
}
