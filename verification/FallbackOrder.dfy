/** Which candidates a request may try, and in which order. */
module FallbackOrder {
  import opened HealthStatus
  import opened Prelude

  datatype Candidate = Candidate(provider: string, model: string)

  /** What the chain is built from. A missing status function trusts every provider;
      a missing allowlist permits everything. */
  datatype ChainInput = ChainInput(
    requested: Candidate,
    tier: seq<Candidate>,
    statusOf: Option<string -> Status>,
    allowed: Option<(string, string) -> bool>)

  /** The requested candidate, then its tier as declared. */
  function Declared(input: ChainInput): seq<Candidate> {
    [input.requested] + input.tier
  }

  predicate Named(c: Candidate) {
    c.provider != "" && c.model != ""
  }

  predicate Permitted(input: ChainInput, c: Candidate) {
    Named(c) && (input.allowed.Some? ==> input.allowed.value(c.provider, c.model))
  }

  function StatusIn(input: ChainInput, c: Candidate): Status {
    if input.statusOf.Some? then input.statusOf.value(c.provider) else Healthy
  }

  /** Some permitted candidate is not down. */
  ghost predicate SomeUp(input: ChainInput) {
    exists c :: c in Declared(input) && Permitted(input, c) && !StatusIn(input, c).Down?
  }

  /** Down candidates count only when there is nothing else. */
  ghost predicate Eligible(input: ChainInput, c: Candidate) {
    c in Declared(input) && Permitted(input, c) && (SomeUp(input) ==> !StatusIn(input, c).Down?)
  }

  /** Where a candidate is first declared. */
  function First(cs: seq<Candidate>, c: Candidate): (i: nat)
    requires c in cs
    ensures i < |cs| && cs[i] == c && c !in cs[..i]
  {
    if cs[0] == c then 0
    else
      var i := 1 + First(cs[1..], c);
      assert cs[..i] == [cs[0]] + cs[1..][..i - 1];
      i
  }

  /** Healthy before degraded while anything is up, and declared order otherwise. */
  ghost predicate Precedes(input: ChainInput, c: Candidate, d: Candidate)
    requires c in Declared(input) && d in Declared(input)
  {
    var sinks := SomeUp(input) && StatusIn(input, d).Degraded?;
    var sunk := SomeUp(input) && StatusIn(input, c).Degraded?;
    if sunk != sinks then sinks else First(Declared(input), c) < First(Declared(input), d)
  }

  /** The order the gateway documents: exactly the eligible candidates, each once. */
  ghost predicate IsChain(input: ChainInput, chain: seq<Candidate>) {
    && (forall c :: c in chain <==> Eligible(input, c))
    && (forall i :: 0 <= i < |chain| ==> chain[i] in Declared(input))
    && forall i, j :: 0 <= i < j < |chain| ==> Precedes(input, chain[i], chain[j])
  }

  // ----- ascending lists of candidates -----

  ghost predicate Ascending(all: seq<Candidate>, cs: seq<Candidate>) {
    && (forall i :: 0 <= i < |cs| ==> cs[i] in all)
    && forall i, j :: 0 <= i < j < |cs| ==> First(all, cs[i]) < First(all, cs[j])
  }

  lemma AscendingAppend(all: seq<Candidate>, cs: seq<Candidate>, c: Candidate)
    requires Ascending(all, cs) && c in all
    requires forall d :: d in cs ==> d in all && First(all, d) < First(all, c)
    ensures Ascending(all, cs + [c])
  {
  }

  lemma FirstIs(cs: seq<Candidate>, i: nat)
    requires i < |cs| && cs[i] !in cs[..i]
    ensures First(cs, cs[i]) == i
  {
  }

  lemma FirstBefore(cs: seq<Candidate>, c: Candidate, n: nat)
    requires n <= |cs| && c in cs[..n]
    ensures First(cs, c) < n
  {
  }

  /** The declared candidates that are named, each at its first place. */
  method Distinct(all: seq<Candidate>) returns (ordered: seq<Candidate>)
    ensures Ascending(all, ordered)
    ensures forall c :: c in ordered <==> c in all && Named(c)
  {
    ordered := [];
    var seen: set<Candidate> := {};
    for n := 0 to |all|
      invariant Ascending(all, ordered)
      invariant forall c :: c in ordered <==> c in all[..n] && Named(c)
      invariant forall c :: c in seen <==> c in ordered
    {
      var c := all[n];
      assert all[..n + 1] == all[..n] + [c];
      if Named(c) && c !in seen {
        FirstIs(all, n);
        forall d | d in ordered ensures d in all && First(all, d) < n { FirstBefore(all, d, n); }
        AscendingAppend(all, ordered, c);
        ordered, seen := ordered + [c], seen + {c};
      }
    }
    assert all[..|all|] == all;
  }

  lemma PrefixFirst(all: seq<Candidate>, cs: seq<Candidate>, n: nat)
    requires Ascending(all, cs) && n < |cs|
    ensures forall d :: d in cs[..n] ==> d in all && First(all, d) < First(all, cs[n])
  {
  }

  method KeepPermitted(input: ChainInput, ordered: seq<Candidate>) returns (permitted: seq<Candidate>)
    requires Ascending(Declared(input), ordered)
    requires forall c :: c in ordered <==> c in Declared(input) && Named(c)
    ensures Ascending(Declared(input), permitted)
    ensures forall c :: c in permitted <==> c in Declared(input) && Permitted(input, c)
  {
    permitted := [];
    for n := 0 to |ordered|
      invariant Ascending(Declared(input), permitted)
      invariant forall c :: c in permitted <==> c in ordered[..n] && Permitted(input, c)
    {
      assert ordered[..n + 1] == ordered[..n] + [ordered[n]];
      if input.allowed.None? || input.allowed.value(ordered[n].provider, ordered[n].model) {
        PrefixFirst(Declared(input), ordered, n);
        AscendingAppend(Declared(input), permitted, ordered[n]);
        permitted := permitted + [ordered[n]];
      }
    }
    assert ordered[..|ordered|] == ordered;
  }

  /** The permitted candidates of one status, in declared order. */
  method Band(input: ChainInput, permitted: seq<Candidate>, status: Status) returns (band: seq<Candidate>)
    requires Ascending(Declared(input), permitted)
    ensures Ascending(Declared(input), band)
    ensures forall c :: c in band <==> c in permitted && StatusIn(input, c) == status
  {
    band := [];
    for n := 0 to |permitted|
      invariant Ascending(Declared(input), band)
      invariant forall c :: c in band <==> c in permitted[..n] && StatusIn(input, c) == status
    {
      assert permitted[..n + 1] == permitted[..n] + [permitted[n]];
      if StatusIn(input, permitted[n]) == status {
        PrefixFirst(Declared(input), permitted, n);
        AscendingAppend(Declared(input), band, permitted[n]);
        band := band + [permitted[n]];
      }
    }
    assert permitted[..|permitted|] == permitted;
  }

  lemma BandsMakeAChain(input: ChainInput, permitted: seq<Candidate>, up: seq<Candidate>, degraded: seq<Candidate>)
    requires forall c :: c in permitted <==> c in Declared(input) && Permitted(input, c)
    requires Ascending(Declared(input), up) && Ascending(Declared(input), degraded)
    requires forall c :: c in up <==> c in permitted && StatusIn(input, c).Healthy?
    requires forall c :: c in degraded <==> c in permitted && StatusIn(input, c).Degraded?
    requires up + degraded != []
    ensures IsChain(input, up + degraded)
  {
    var chain := up + degraded;
    assert SomeUp(input) by { assert chain[0] in chain; }
    forall c ensures c in chain <==> Eligible(input, c) {
      assert c in chain <==> c in up || c in degraded;
    }
    forall i, j | 0 <= i < j < |chain| ensures Precedes(input, chain[i], chain[j]) {
      assert chain[i] == if i < |up| then up[i] else degraded[i - |up|];
      assert chain[j] == if j < |up| then up[j] else degraded[j - |up|];
      assert i < |up| ==> up[i] in up;
      assert i >= |up| ==> degraded[i - |up|] in degraded;
      assert j < |up| ==> up[j] in up;
      assert j >= |up| ==> degraded[j - |up|] in degraded;
    }
  }

  /** When both bands are empty the permitted candidates are the chain, in declared order. */
  lemma NobodyUpIsAChain(input: ChainInput, permitted: seq<Candidate>, up: seq<Candidate>, degraded: seq<Candidate>)
    requires forall c :: c in permitted <==> c in Declared(input) && Permitted(input, c)
    requires Ascending(Declared(input), permitted)
    requires forall c :: c in up <==> c in permitted && StatusIn(input, c).Healthy?
    requires forall c :: c in degraded <==> c in permitted && StatusIn(input, c).Degraded?
    requires up + degraded == []
    ensures IsChain(input, permitted)
  {
    forall c | c in Declared(input) && Permitted(input, c) ensures StatusIn(input, c).Down? {
      assert c in permitted && c !in up && c !in degraded;
    }
    assert !SomeUp(input);
    forall i, j | 0 <= i < j < |permitted| ensures Precedes(input, permitted[i], permitted[j]) {
      assert permitted[i] in permitted && permitted[j] in permitted;
    }
  }

  /** The fallback chain of a request; empty only when nothing is permitted. */
  method BuildChain(input: ChainInput) returns (chain: seq<Candidate>)
    ensures IsChain(input, chain)
    ensures chain == [] <==> !exists c :: c in Declared(input) && Permitted(input, c)
  {
    var ordered := Distinct(Declared(input));
    var permitted := KeepPermitted(input, ordered);
    if permitted == [] { return []; }
    assert permitted[0] in permitted;
    var up := Band(input, permitted, Healthy);
    var degraded := Band(input, permitted, Degraded);
    chain := up + degraded;
    if chain == [] {
      NobodyUpIsAChain(input, permitted, up, degraded);
      return permitted;
    }
    BandsMakeAChain(input, permitted, up, degraded);
    assert chain[0] in chain;
  }

  /** What the order means for a reader of the chain: nothing twice; while any permitted candidate
      is up, exactly the permitted ones that are up, all healthy ones before all degraded ones;
      otherwise every permitted one; and apart from that as declared. */
  lemma ChainReads(input: ChainInput, chain: seq<Candidate>)
    requires IsChain(input, chain)
    ensures forall i, j :: 0 <= i < j < |chain| ==> chain[i] != chain[j]
    ensures forall c :: c in chain ==> c in Declared(input) && Permitted(input, c)
    ensures forall c :: c in Declared(input) && Permitted(input, c) && !StatusIn(input, c).Down? ==> c in chain
    ensures (exists c :: c in chain && !StatusIn(input, c).Down?) ==> forall c :: c in chain ==> !StatusIn(input, c).Down?
    ensures (forall c :: c in chain ==> StatusIn(input, c).Down?) ==>
              forall c :: c in Declared(input) && Permitted(input, c) ==> c in chain
    ensures forall i, j :: 0 <= i < j < |chain| ==> !(StatusIn(input, chain[i]).Degraded? && StatusIn(input, chain[j]).Healthy?)
    ensures forall i, j :: 0 <= i < j < |chain| && StatusIn(input, chain[i]) == StatusIn(input, chain[j]) ==>
              chain[i] in Declared(input) && chain[j] in Declared(input)
              && First(Declared(input), chain[i]) < First(Declared(input), chain[j])
  {
    forall c | c in Declared(input) && Permitted(input, c) && !StatusIn(input, c).Down? ensures c in chain {
      assert Eligible(input, c);
    }
    forall i, j | 0 <= i < j < |chain| ensures Precedes(input, chain[i], chain[j]) && chain[i] in chain && chain[j] in chain {}
    if SomeUp(input) {
      var c :| c in Declared(input) && Permitted(input, c) && !StatusIn(input, c).Down?;
      assert c in chain;
    }
  }

  /** Of two chains that agree so far, neither has a later element next. */
  lemma NextIsNoLater(input: ChainInput, a: seq<Candidate>, b: seq<Candidate>, n: nat)
    requires IsChain(input, a) && IsChain(input, b) && n < |a| && n < |b| && a[..n] == b[..n]
    ensures b[n] == a[n] || Precedes(input, b[n], a[n])
  {
    assert a[n] in b by { assert a[n] in a; }
    forall k | 0 <= k < n ensures b[k] != a[n] {
      assert a[..n][k] == b[..n][k] && Precedes(input, a[k], a[n]);
    }
  }

  lemma AgreeAt(input: ChainInput, a: seq<Candidate>, b: seq<Candidate>, n: nat)
    requires IsChain(input, a) && IsChain(input, b) && n < |a| && n < |b| && a[..n] == b[..n]
    ensures a[n] == b[n]
  {
    NextIsNoLater(input, a, b, n);
    NextIsNoLater(input, b, a, n);
  }

  lemma {:induction false} AgreeUpTo(input: ChainInput, a: seq<Candidate>, b: seq<Candidate>, n: nat)
    requires IsChain(input, a) && IsChain(input, b) && n <= |a| && n <= |b|
    ensures a[..n] == b[..n]
  {
    if n > 0 {
      AgreeUpTo(input, a, b, n - 1);
      AgreeAt(input, a, b, n - 1);
      assert a[..n] == a[..n - 1] + [a[n - 1]] && b[..n] == b[..n - 1] + [b[n - 1]];
    }
  }

  lemma NotLonger(input: ChainInput, a: seq<Candidate>, b: seq<Candidate>)
    requires IsChain(input, a) && IsChain(input, b)
    ensures |b| <= |a|
  {
    if |a| < |b| {
      AgreeUpTo(input, a, b, |a|);
      assert b[|a|] in b && b[|a|] in a;
      forall i | 0 <= i < |a| ensures a[i] != b[|a|] {
        assert a[..|a|][i] == b[..|a|][i] && Precedes(input, b[i], b[|a|]);
      }
    }
  }

  /** The documented order leaves no freedom: there is only one such chain. */
  lemma ChainIsUnique(input: ChainInput, a: seq<Candidate>, b: seq<Candidate>)
    requires IsChain(input, a) && IsChain(input, b)
    ensures a == b
  {
    NotLonger(input, a, b);
    NotLonger(input, b, a);
    AgreeUpTo(input, a, b, |a|);
    assert a[..|a|] == a && b[..|b|] == b;
  }
}
