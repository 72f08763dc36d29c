/** The cache as the gateway uses it: storing a response, trimming a tenant's share
    and looking a request up in both tiers, while others work on the same store. */
module CacheLookup {
  import opened Prelude
  import opened CacheKey
  import opened CacheStore
  import opened Similarities

  /** The highest scoring candidate of the query's dimension, the first of equals. */
  method Nearest(query: seq<real>, vectors: seq<seq<real>>) returns (best: Option<nat>, score: real)
    ensures best.Some? ==>
              && best.value < |vectors| && |vectors[best.value]| == |query|
              && score == Similarity(query, vectors[best.value]) > -2.0
              && (forall i :: 0 <= i < |vectors| && |vectors[i]| == |query| ==> Similarity(query, vectors[i]) <= score)
              && forall i :: 0 <= i < best.value && |vectors[i]| == |query| ==> Similarity(query, vectors[i]) < score
    ensures best.None? ==>
              score == 0.0 && forall i :: 0 <= i < |vectors| && |vectors[i]| == |query| ==> Similarity(query, vectors[i]) <= -2.0
  {
    best, score := None, -2.0;
    for i := 0 to |vectors|
      invariant best.None? ==> score == -2.0
      invariant best.Some? ==>
                  && best.value < i && |vectors[best.value]| == |query|
                  && score == Similarity(query, vectors[best.value]) > -2.0
                  && forall j :: 0 <= j < best.value && |vectors[j]| == |query| ==> Similarity(query, vectors[j]) < score
      invariant forall j :: 0 <= j < i && |vectors[j]| == |query| ==> Similarity(query, vectors[j]) <= score
    {
      if |vectors[i]| == |query| {
        var s := Dot(query, vectors[i]);
        if s > score { best, score := Some(i), s; }
      }
    }
    if best.None? { score := 0.0; }
  }

  // ----- trimming -----

  ghost predicate UniqueIds(z: ZSet) {
    forall i, j :: 0 <= i < j < |z| ==> z[i].id != z[j].id
  }

  ghost predicate ByScore(z: ZSet) {
    forall i, j :: 0 <= i < j < |z| ==> z[i].score <= z[j].score
  }

  function IdsOf(z: ZSet): set<Bytes> {
    set m | m in z :: m.id
  }

  lemma {:induction false} ZRemoveNone(z: ZSet, ids: set<Bytes>)
    requires forall i :: 0 <= i < |z| ==> z[i].id !in ids
    ensures ZRemove(z, ids) == z
  {
    if z != [] { ZRemoveNone(z[1..], ids); }
  }

  /** Removing the identifiers of the oldest members leaves exactly the newest. */
  lemma {:induction false} ZRemovePrefix(z: ZSet, n: nat, ids: set<Bytes>)
    requires n <= |z| && UniqueIds(z)
    requires forall i :: 0 <= i < n ==> z[i].id in ids
    requires forall i :: n <= i < |z| ==> z[i].id !in ids
    ensures ZRemove(z, ids) == z[n..]
  {
    if n == 0 {
      ZRemoveNone(z, ids);
    } else {
      ZRemovePrefix(z[1..], n - 1, ids);
      assert z[1..][n - 1..] == z[n..];
    }
  }

  lemma OldestIds(z: ZSet, n: nat)
    requires n <= |z| && UniqueIds(z)
    ensures forall i :: 0 <= i < n ==> z[i].id in IdsOf(z[..n])
    ensures forall i :: n <= i < |z| ==> z[i].id !in IdsOf(z[..n])
  {
  }

  // ----- sorted sets stay sorted -----

  /** Each identifier once, oldest first. */
  ghost predicate Tidy(z: ZSet) {
    UniqueIds(z) && ByScore(z)
  }

  ghost predicate TidyMap(m: map<Bytes, ZSet>) {
    forall k :: k in m ==> Tidy(m[k])
  }

  ghost predicate Above(z: ZSet, score: int) {
    forall i :: 0 <= i < |z| ==> score <= z[i].score
  }

  lemma TidyCons(m: Member, z: ZSet)
    requires Tidy(z) && Above(z, m.score) && !InZ(z, m.id)
    ensures Tidy([m] + z)
  {
  }

  lemma TidyTail(z: ZSet)
    requires z != [] && Tidy(z)
    ensures Tidy(z[1..]) && Above(z[1..], z[0].score) && !InZ(z[1..], z[0].id)
  {
  }

  lemma {:induction false} ZRemoveTidy(z: ZSet, ids: set<Bytes>, score: int)
    requires Tidy(z)
    ensures Tidy(ZRemove(z, ids)) && (Above(z, score) ==> Above(ZRemove(z, ids), score))
  {
    if z != [] {
      TidyTail(z);
      ZRemoveTidy(z[1..], ids, score);
      ZRemoveTidy(z[1..], ids, z[0].score);
      ZRemoveShrinks(z[1..], ids, z[0].id);
      if z[0].id !in ids { TidyCons(z[0], ZRemove(z[1..], ids)); }
    }
  }

  lemma {:induction false} ZInsertTidy(z: ZSet, m: Member, score: int)
    requires Tidy(z) && !InZ(z, m.id)
    ensures Tidy(ZInsert(z, m)) && (Above(z, score) && score <= m.score ==> Above(ZInsert(z, m), score))
  {
    if z == [] || m.score < z[0].score {
      TidyCons(m, z);
    } else {
      TidyTail(z);
      assert !InZ(z[1..], m.id) by { assert forall i :: 0 <= i < |z[1..]| ==> z[1..][i] == z[i + 1]; }
      ZInsertTidy(z[1..], m, score);
      ZInsertTidy(z[1..], m, z[0].score);
      ZInsertAdds(z[1..], m, z[0].id);
      TidyCons(z[0], ZInsert(z[1..], m));
    }
  }

  lemma ZAddTidy(z: ZSet, m: Member)
    requires Tidy(z)
    ensures Tidy(ZAdd(z, m))
  {
    ZRemoveTidy(z, {m.id}, m.score);
    ZRemoveShrinks(z, {m.id}, m.id);
    ZInsertTidy(ZRemove(z, {m.id}), m, m.score);
  }

  ghost predicate NoneNewer(z: ZSet, score: int) {
    forall i :: 0 <= i < |z| ==> z[i].score <= score
  }

  lemma {:induction false} ZRemoveNoneNewer(z: ZSet, ids: set<Bytes>, score: int)
    requires NoneNewer(z, score)
    ensures NoneNewer(ZRemove(z, ids), score)
  {
    if z != [] { ZRemoveNoneNewer(z[1..], ids, score); }
  }

  lemma {:induction false} ZInsertNewestLast(z: ZSet, m: Member)
    requires NoneNewer(z, m.score)
    ensures ZInsert(z, m) == z + [m]
  {
    if z != [] { ZInsertNewestLast(z[1..], m); }
  }

  lemma ZAddNewestLast(z: ZSet, m: Member)
    requires NoneNewer(z, m.score)
    ensures var r := ZAdd(z, m); |r| > 0 && r[|r| - 1] == m
  {
    ZRemoveNoneNewer(z, {m.id}, m.score);
    ZInsertNewestLast(ZRemove(z, {m.id}), m);
  }

  lemma ScopesStayTidy(h: Hashing, st: Store, c: Command)
    requires c.Valid() && TidyMap(st.scopes)
    ensures TidyMap(Exec(h, st, c).scopes)
  {
    if c.AddToScope? {
      var k := NewKey(h, c.scope, c.req);
      ZAddTidy(Members(st.scopes, k.scopeId), Member(c.score, k.entryId));
    } else if c.RemoveFromScope? {
      ZRemoveTidy(Members(st.scopes, c.scopeId), c.ids, 0);
    }
  }

  // ----- the service -----

  datatype Fetched = Missing | Broken | Found(entry: Entry)

  lemma CollisionFreeBefore(h: Hashing, cs: seq<Command>, later: seq<Command>, s: Scope, r: Request)
    requires AllValid(later) && cs <= later && Representable(s, r) && AllValid(cs)
    requires CollisionFree(h, later, s, r)
    ensures CollisionFree(h, cs, s, r)
  {
  }

  lemma StoredForLater(cs: seq<Command>, later: seq<Command>, s: Scope, r: Request, e: Entry)
    requires cs <= later && StoredFor(cs, s, r, e)
    ensures StoredFor(later, s, r, e)
  {
  }

  /** Which of a lookup's reads fail. */
  datatype Outage = Outage(exact: bool, index: bool, entry: bool)

  predicate IsAlive(st: Store, id: Bytes) {
    id in st.entries && st.entries[id].Full?
  }

  /** The identifiers of a bucket that have an entry, newest first. */
  function Alive(st: Store, z: ZSet): seq<Bytes> {
    if z == [] then []
    else
      var m := z[|z| - 1];
      (if IsAlive(st, m.id) then [m.id] else []) + Alive(st, z[..|z| - 1])
  }

  ghost predicate Embedded(st: Store, ids: seq<Bytes>, vectors: seq<seq<real>>) {
    |ids| == |vectors|
    && forall i :: 0 <= i < |ids| ==> IsAlive(st, ids[i]) && vectors[i] == st.entries[ids[i]].entry.embedding
  }

  lemma {:induction false} AliveAreMembers(st: Store, z: ZSet, i: nat)
    requires i < |Alive(st, z)|
    ensures InZ(z, Alive(st, z)[i])
  {
    var m := z[|z| - 1];
    var first := if IsAlive(st, m.id) then 1 else 0;
    if i >= first {
      AliveAreMembers(st, z[..|z| - 1], i - first);
      var j :| 0 <= j < |z| - 1 && z[..|z| - 1][j].id == Alive(st, z[..|z| - 1])[i - first];
      assert z[j].id == Alive(st, z)[i];
    }
  }

  lemma {:induction false} MembersAreAlive(st: Store, z: ZSet, j: nat)
    requires j < |z| && IsAlive(st, z[j].id)
    ensures z[j].id in Alive(st, z)
  {
    if j < |z| - 1 {
      MembersAreAlive(st, z[..|z| - 1], j);
      assert z[..|z| - 1][j] == z[j];
    }
  }

  /** No live member of the bucket has a nearer embedding of the query's dimension. */
  ghost predicate IsNearest(st: Store, z: ZSet, query: seq<real>, threshold: real, id: Bytes) {
    && InZ(z, id) && IsAlive(st, id) && |st.entries[id].entry.embedding| == |query|
    && Similarity(query, st.entries[id].entry.embedding) >= threshold
    && forall j :: 0 <= j < |z| && IsAlive(st, z[j].id) && |st.entries[z[j].id].entry.embedding| == |query| ==>
         Similarity(query, st.entries[z[j].id].entry.embedding) <= Similarity(query, st.entries[id].entry.embedding)
  }

  lemma BestIsNearest(st: Store, z: ZSet, ids: seq<Bytes>, vectors: seq<seq<real>>,
                      query: seq<real>, threshold: real, best: nat)
    requires ids == Alive(st, z) && Embedded(st, ids, vectors)
    requires best < |ids| && |vectors[best]| == |query| && Similarity(query, vectors[best]) >= threshold
    requires forall i :: 0 <= i < |vectors| && |vectors[i]| == |query| ==>
               Similarity(query, vectors[i]) <= Similarity(query, vectors[best])
    ensures IsNearest(st, z, query, threshold, ids[best])
  {
    AliveAreMembers(st, z, best);
    forall j | 0 <= j < |z| && IsAlive(st, z[j].id) && |st.entries[z[j].id].entry.embedding| == |query|
      ensures Similarity(query, st.entries[z[j].id].entry.embedding) <= Similarity(query, vectors[best])
    {
      MembersAreAlive(st, z, j);
      var i :| 0 <= i < |ids| && ids[i] == z[j].id;
      assert vectors[i] == st.entries[z[j].id].entry.embedding;
    }
  }

  /** The identifiers of a bucket that have no entry. */
  function StaleIds(st: Store, z: ZSet): set<Bytes> {
    set m | m in z && !IsAlive(st, m.id) :: m.id
  }

  lemma StaleOneMore(st: Store, z: ZSet, n: nat)
    requires n < |z|
    ensures StaleIds(st, z[n..]) == StaleIds(st, z[n + 1..]) + if IsAlive(st, z[n].id) then {} else {z[n].id}
  {
    assert z[n..] == [z[n]] + z[n + 1..];
  }

  /** What is sent to prune them, if anything. */
  function Prune(fingerprint: Bytes, stale: set<Bytes>): seq<Command> {
    if stale == {} then [] else [RemoveFromIndex(fingerprint, stale)]
  }

  /** Some live member of the bucket is near enough to be served. */
  ghost predicate Reaches(st: Store, z: ZSet, query: seq<real>, threshold: real) {
    exists j :: 0 <= j < |z| && IsAlive(st, z[j].id) && NearEnough(query, st.entries[z[j].id].entry.embedding, threshold)
  }

  predicate NearEnough(query: seq<real>, vector: seq<real>, threshold: real) {
    |vector| == |query| && Similarity(query, vector) >= threshold && Similarity(query, vector) > -2.0
  }

  lemma ReachesIff(st: Store, z: ZSet, ids: seq<Bytes>, vectors: seq<seq<real>>, query: seq<real>, threshold: real)
    requires ids == Alive(st, z) && Embedded(st, ids, vectors)
    ensures Reaches(st, z, query, threshold) <==> exists i :: 0 <= i < |vectors| && NearEnough(query, vectors[i], threshold)
  {
    if Reaches(st, z, query, threshold) {
      var j :| 0 <= j < |z| && IsAlive(st, z[j].id) && NearEnough(query, st.entries[z[j].id].entry.embedding, threshold);
      MembersAreAlive(st, z, j);
      var i :| 0 <= i < |ids| && ids[i] == z[j].id;
      assert NearEnough(query, vectors[i], threshold);
    }
    if i :| 0 <= i < |vectors| && NearEnough(query, vectors[i], threshold) {
      AliveAreMembers(st, z, i);
      var j :| 0 <= j < |z| && z[j].id == ids[i];
      assert IsAlive(st, z[j].id) && NearEnough(query, st.entries[z[j].id].entry.embedding, threshold);
    }
  }

  function EntryAt(st: Store, id: Bytes): Option<Entry> {
    if IsAlive(st, id) then Some(st.entries[id].entry) else None
  }

  /** Everything executed up to the moment the semantic tier fetches its choice. */
  ghost function UntilFetch(h: Hashing, keep: nat, before: seq<Command>, second: seq<Command>, third: seq<Command>,
                            fp: Bytes): seq<Command>
    requires AllValid(before) && AllValid(before + second)
  {
    var z := ZKeepNewest(Members(Run(h, before).index, fp), keep);
    before + second + Prune(fp, StaleIds(Run(h, before + second), z)) + third
  }

  lemma Fetchable(h: Hashing, keep: nat, before: seq<Command>, second: seq<Command>, third: seq<Command>, fp: Bytes)
    requires AllValid(before) && AllValid(second) && AllValid(third)
    ensures AllValid(before + second) && AllValid(UntilFetch(h, keep, before, second, third, fp))
  {
  }

  /** The semantic tier's answer: nothing, unless its reads succeed and some live candidate is
      near enough; then the entry of the nearest one, if that is still there when fetched. */
  ghost predicate SemanticIs(h: Hashing, keep: nat, before: seq<Command>, second: seq<Command>, third: seq<Command>,
                             fp: Bytes, query: seq<real>, threshold: real, down: Outage, hit: Option<Entry>, id: Bytes)
  {
    && AllValid(before) && AllValid(before + second) && AllValid(UntilFetch(h, keep, before, second, third, fp))
    && var mid := Run(h, before + second);
       var z := ZKeepNewest(Members(Run(h, before).index, fp), keep);
       if down.index || down.entry || !Reaches(mid, z, query, threshold) then hit.None?
       else
         && IsNearest(mid, z, query, threshold, id)
         && hit == EntryAt(Run(h, UntilFetch(h, keep, before, second, third, fp)), id)
  }

  /** A pass that has dealt with all but the first n members. */
  ghost predicate Loaded(st: Store, z: ZSet, n: nat, ids: seq<Bytes>, vectors: seq<seq<real>>, stale: set<Bytes>)
    requires n <= |z|
  {
    && ids + Alive(st, z[..n]) == Alive(st, z)
    && Embedded(st, ids, vectors)
    && stale == StaleIds(st, z[n..])
  }

  lemma LoadedLive(st: Store, z: ZSet, n: nat, ids: seq<Bytes>, vectors: seq<seq<real>>, stale: set<Bytes>)
    requires n < |z| && Loaded(st, z, n + 1, ids, vectors, stale) && IsAlive(st, z[n].id)
    ensures Loaded(st, z, n, ids + [z[n].id], vectors + [st.entries[z[n].id].entry.embedding], stale)
  {
    assert z[..n + 1][..n] == z[..n];
    assert ids + ([z[n].id] + Alive(st, z[..n])) == (ids + [z[n].id]) + Alive(st, z[..n]);
    StaleOneMore(st, z, n);
  }

  lemma LoadedStale(st: Store, z: ZSet, n: nat, ids: seq<Bytes>, vectors: seq<seq<real>>, stale: set<Bytes>)
    requires n < |z| && Loaded(st, z, n + 1, ids, vectors, stale) && !IsAlive(st, z[n].id)
    ensures Loaded(st, z, n, ids, vectors, stale + {z[n].id})
  {
    assert z[..n + 1][..n] == z[..n];
    assert Alive(st, z[..n + 1]) == Alive(st, z[..n]);
    StaleOneMore(st, z, n);
  }

  /** One pass over a bucket, newest first: live identifiers with their embeddings, and the rest. */
  method LoadVectors(st: Store, newest: ZSet) returns (ids: seq<Bytes>, vectors: seq<seq<real>>, stale: set<Bytes>)
    ensures ids == Alive(st, newest) && Embedded(st, ids, vectors)
    ensures stale == StaleIds(st, newest)
  {
    ids, vectors, stale := [], [], {};
    var n := |newest|;
    assert newest[..n] == newest;
    while n > 0
      invariant 0 <= n <= |newest| && Loaded(st, newest, n, ids, vectors, stale)
    {
      n := n - 1;
      var id := newest[n].id;
      if IsAlive(st, id) {
        LoadedLive(st, newest, n, ids, vectors, stale);
        ids, vectors := ids + [id], vectors + [st.entries[id].entry.embedding];
      } else {
        LoadedStale(st, newest, n, ids, vectors, stale);
        stale := stale + {id};
      }
    }
    assert newest[0..] == newest && ids + [] == ids;
  }

  lemma OneMoreCommand(before: seq<Command>, cs: seq<Command>, i: nat)
    requires i < |cs| && AllValid(cs)
    ensures cs[i].Valid() && before + cs[..i] + [cs[i]] == before + cs[..i + 1]
  {
  }

  lemma SemanticServes(h: Hashing, keep: nat, before: seq<Command>, second: seq<Command>, third: seq<Command>,
                       until: seq<Command>, fp: Bytes, query: seq<real>, threshold: real, down: Outage,
                       hit: Option<Entry>, id: Bytes)
    requires AllValid(before) && AllValid(before + second) && AllValid(until) && !down.index && !down.entry
    requires until == UntilFetch(h, keep, before, second, third, fp) && hit == EntryAt(Run(h, until), id)
    requires var z := ZKeepNewest(Members(Run(h, before).index, fp), keep);
             Reaches(Run(h, before + second), z, query, threshold) && IsNearest(Run(h, before + second), z, query, threshold, id)
    ensures SemanticIs(h, keep, before, second, third, fp, query, threshold, down, hit, id)
  {
  }

  class Cache {
    const h: Hashing
    const maxCandidates: nat
    const maxScopeEntries: nat
    var store: Store                  // what Redis holds
    ghost var history: seq<Command>   // every command it has executed, by anyone

    ghost predicate Valid()
      reads this
    {
      h.Valid() && AllValid(history) && store == Run(h, history) && TidyMap(store.scopes)
    }

    constructor (h: Hashing, maxCandidates: nat, maxScopeEntries: nat)
      requires h.Valid()
      ensures Valid() && history == []
      ensures this.h == h && this.maxCandidates == maxCandidates && this.maxScopeEntries == maxScopeEntries
    {
      this.h, this.maxCandidates, this.maxScopeEntries := h, maxCandidates, maxScopeEntries;
      store, history := EmptyStore, [];
    }

    /** One Redis command, by this caller or by anyone else. */
    method Do(c: Command)
      requires Valid() && c.Valid()
      modifies this
      ensures Valid() && history == old(history) + [c] && store == Exec(h, old(store), c)
    {
      ScopesStayTidy(h, store, c);
      assert (history + [c])[..|history|] == history;
      store, history := Exec(h, store, c), history + [c];
    }

    /** Whatever others do to the store meanwhile. */
    method Others(cs: seq<Command>)
      requires Valid() && AllValid(cs)
      modifies this
      ensures Valid() && history == old(history) + cs
    {
      for i := 0 to |cs|
        invariant Valid() && history == old(history) + cs[..i]
      {
        OneMoreCommand(old(history), cs, i);
        Do(cs[i]);
      }
      assert cs[..|cs|] == cs;
    }

    method Fetch(id: Bytes) returns (f: Fetched)
      requires Valid()
      ensures f.Missing? <==> id !in store.entries
      ensures f.Broken? <==> IsRemnant(store, id)
      ensures f.Found? <==> exists e :: Holds(store, id, e)
      ensures f.Found? ==> Holds(store, id, f.entry)
    {
      if id !in store.entries { return Missing; }
      if store.entries[id].HitsOnly? { return Broken; }
      assert Holds(store, id, store.entries[id].entry);
      return Found(store.entries[id].entry);
    }

    /** The commands a store sends in one pipeline: the entry and its bucket first. */
    function EntryCommands(scope: Scope, req: Request, entry: Entry): seq<Command> {
      [SetEntry(scope, req, entry), AddToIndex(scope, req, entry.createdAt), TrimIndex(scope, req, maxCandidates)]
    }

    function TenantCommands(scope: Scope, req: Request, entry: Entry): seq<Command> {
      (if scope.team != [] then [AddToTeam(scope, req, entry.createdAt)] else [])
      + [AddToScope(scope, req, entry.createdAt)]
    }

    method PutEntry(scope: Scope, req: Request, entry: Entry)
      requires Valid() && Representable(scope, req)
      modifies this
      ensures Valid() && history == old(history) + EntryCommands(scope, req, entry)
      ensures Members(store.index, NewKey(h, scope, req).fingerprint) == BucketAfter(old(store.index), scope, req, entry)
      ensures store.entries == old(store.entries)[NewKey(h, scope, req).entryId := Full(entry, 0)]
      ensures store.scopes == old(store.scopes)
    {
      Do(SetEntry(scope, req, entry));
      Do(AddToIndex(scope, req, entry.createdAt));
      Do(TrimIndex(scope, req, maxCandidates));
    }

    method PutTenant(scope: Scope, req: Request, entry: Entry)
      requires Valid() && Representable(scope, req)
      modifies this
      ensures Valid() && history == old(history) + TenantCommands(scope, req, entry)
      ensures store.index == old(store.index) && store.entries == old(store.entries)
      ensures Members(store.scopes, ScopeId(scope)) == TenantAfter(old(store.scopes), scope, req, entry)
    {
      if scope.team != [] { Do(AddToTeam(scope, req, entry.createdAt)); }
      Do(AddToScope(scope, req, entry.createdAt));
    }

    /** The bucket once it lists the entry and has been trimmed. */
    function BucketAfter(index: map<Bytes, ZSet>, scope: Scope, req: Request, entry: Entry): (z: ZSet)
      requires Representable(scope, req)
      ensures |z| <= maxCandidates
    {
      var k := NewKey(h, scope, req);
      ZKeepNewest(ZAdd(Members(index, k.fingerprint), Member(entry.createdAt, k.entryId)), maxCandidates)
    }

    /** The tenant's index once it has learnt of the entry. */
    function TenantAfter(scopes: map<Bytes, ZSet>, scope: Scope, req: Request, entry: Entry): ZSet
      requires Representable(scope, req)
    {
      ZAdd(Members(scopes, ScopeId(scope)), Member(entry.createdAt, NewKey(h, scope, req).entryId))
    }

    method Pipeline(scope: Scope, req: Request, entry: Entry)
      requires Valid() && Representable(scope, req)
      modifies this
      ensures Valid() && history == old(history) + EntryCommands(scope, req, entry) + TenantCommands(scope, req, entry)
      ensures Members(store.index, NewKey(h, scope, req).fingerprint) == BucketAfter(old(store.index), scope, req, entry)
      ensures store.entries == old(store.entries)[NewKey(h, scope, req).entryId := Full(entry, 0)]
      ensures Members(store.scopes, ScopeId(scope)) == TenantAfter(old(store.scopes), scope, req, entry)
    {
      PutEntry(scope, req, entry);
      PutTenant(scope, req, entry);
    }

    /** The members a trim removes. */
    function Overflow(z: ZSet): ZSet {
      if |z| > maxScopeEntries then z[..|z| - maxScopeEntries] else []
    }

    /** Stores a response and keeps its bucket and its tenant within their caps. The response
        can be read afterwards exactly when it is not among the oldest that the tenant has
        too many of; the newest one never is, unless nothing may be kept at all. */
    method Put(scope: Scope, req: Request, entry: Entry)
      requires Valid() && Representable(scope, req)
      modifies this
      ensures Valid() && old(history) + EntryCommands(scope, req, entry) + TenantCommands(scope, req, entry) <= history
      ensures Members(store.index, NewKey(h, scope, req).fingerprint) == BucketAfter(old(store.index), scope, req, entry)
      ensures |Members(store.scopes, ScopeId(scope))| <= maxScopeEntries
      ensures var id := NewKey(h, scope, req).entryId;
              var gone := IdsOf(Overflow(TenantAfter(old(store.scopes), scope, req, entry)));
              && store.entries == old(store.entries)[id := Full(entry, 0)] - gone
              && (Holds(store, id, entry) <==> id !in gone)
              && (maxScopeEntries > 0 && NoneNewer(Members(old(store).scopes, ScopeId(scope)), entry.createdAt) ==>
                    Holds(store, id, entry))
    {
      ghost var id, was := NewKey(h, scope, req).entryId, store.entries;
      ghost var gone := IdsOf(Overflow(TenantAfter(store.scopes, scope, req, entry)));
      NewestStays(store.scopes, scope, req, entry);
      Pipeline(scope, req, entry);
      ghost var piped := history;
      TrimScope(ScopeId(scope));
      assert piped <= history && store.entries == was[id := Full(entry, 0)] - gone;
      StillThere(store, was, id, entry, gone);
    }

    lemma StillThere(st: Store, was: map<Bytes, Slot>, id: Bytes, entry: Entry, gone: set<Bytes>)
      requires st.entries == was[id := Full(entry, 0)] - gone
      ensures Holds(st, id, entry) <==> id !in gone
    {
    }

    lemma NewestStays(scopes: map<Bytes, ZSet>, scope: Scope, req: Request, entry: Entry)
      requires Representable(scope, req) && TidyMap(scopes)
      ensures maxScopeEntries > 0 && NoneNewer(Members(scopes, ScopeId(scope)), entry.createdAt) ==>
                NewKey(h, scope, req).entryId !in IdsOf(Overflow(TenantAfter(scopes, scope, req, entry)))
    {
      var z, m := Members(scopes, ScopeId(scope)), Member(entry.createdAt, NewKey(h, scope, req).entryId);
      assert Tidy(z);
      if maxScopeEntries > 0 && NoneNewer(z, m.score) {
        ZAddTidy(z, m);
        ZAddNewestLast(z, m);
        var all := ZAdd(z, m);
        if |all| > maxScopeEntries { OldestIds(all, |all| - maxScopeEntries); }
      }
    }

    /** Deletes the oldest entries of a tenant over its cap, and only those. */
    method TrimScope(scopeId: Bytes)
      requires Valid()
      modifies this
      ensures Valid() && old(history) <= history && store.index == old(store.index)
      ensures var z := Members(old(store).scopes, scopeId);
              && Members(store.scopes, scopeId) == z[|Overflow(z)|..]
              && store.entries == old(store.entries) - IdsOf(Overflow(z))
      ensures |Members(store.scopes, scopeId)| <= maxScopeEntries
    {
      var z := Members(store.scopes, scopeId);
      if |z| <= maxScopeEntries {
        assert IdsOf([]) == {} && store.entries - {} == store.entries;
        return;
      }
      var overflow := |z| - maxScopeEntries;
      var victims := IdsOf(z[..overflow]);
      DropVictims(scopeId, victims);
      OldestIds(z, overflow);
      ZRemovePrefix(z, overflow, victims);
    }

    method DropVictims(scopeId: Bytes, victims: set<Bytes>)
      requires Valid()
      modifies this
      ensures Valid() && old(history) <= history && store.index == old(store.index)
      ensures store.entries == old(store.entries) - victims
      ensures Members(store.scopes, scopeId) == ZRemove(Members(old(store.scopes), scopeId), victims)
    {
      Do(DeleteEntries(victims));
      Do(RemoveFromScope(scopeId, victims));
    }

    /** The bucket's newest identifiers that still have an entry, newest first, with their
        embeddings; the others are pruned from the bucket. The bucket and the embeddings
        are read at two moments. */
    method Candidates(scope: Scope, req: Request, meanwhile: seq<Command>)
      returns (ids: seq<Bytes>, vectors: seq<seq<real>>, ghost mid: Store)
      requires Valid() && Representable(scope, req) && AllValid(meanwhile)
      modifies this
      ensures Valid() && AllValid(old(history) + meanwhile) && mid == Run(h, old(history) + meanwhile)
      ensures var fp := NewKey(h, scope, req).fingerprint;
              var z := ZKeepNewest(Members(old(store).index, fp), maxCandidates);
              && ids == Alive(mid, z) && Embedded(mid, ids, vectors)
              && history == old(history) + meanwhile + Prune(fp, StaleIds(mid, z))
              && forall id :: id in StaleIds(mid, z) ==> !InZ(Members(store.index, fp), id)
    {
      var fp := NewKey(h, scope, req).fingerprint;
      var newest := ZKeepNewest(Members(store.index, fp), maxCandidates);
      Others(meanwhile);
      mid := store;
      var stale;
      ids, vectors, stale := LoadVectors(store, newest);
      if stale != {} {
        forall id ensures InZ(ZRemove(Members(mid.index, fp), stale), id) ==> id !in stale {
          ZRemoveShrinks(Members(mid.index, fp), stale, id);
        }
        Do(RemoveFromIndex(fp, stale));
      }
    }

    /** Looks a request up: the exact tier, then the nearest candidate of its bucket. Others
        may run any commands between any two of its reads, and any read may fail. An entry
        under the request's own key is always served; a remnant there ends the lookup with a
        miss; otherwise the semantic tier answers. Whatever is served was stored for a request
        of the same tenant and the same context. */
    method Lookup(scope: Scope, req: Request, vector: Option<seq<real>>, threshold: real, down: Outage,
                  first: seq<Command>, second: seq<Command>, third: seq<Command>)
      returns (hit: Option<Entry>, ghost id: Bytes)
      requires Valid() && Representable(scope, req)
      requires AllValid(first) && AllValid(second) && AllValid(third)
      modifies this
      ensures Valid() && old(history) <= history
      ensures var k := NewKey(h, scope, req);
              if down.exact then hit.None?
              else if k.entryId in old(store).entries then hit == EntryAt(old(store), k.entryId)
              else if vector.None? then hit.None?
              else
                SemanticIs(h, maxCandidates, old(history) + first, second, third, k.fingerprint,
                           vector.value, threshold, down, hit, id)
      ensures hit.Some? && CollisionFree(h, history, scope, req) ==> StoredFor(history, scope, req, hit.value)
    {
      var k := NewKey(h, scope, req);
      id := k.entryId;
      if down.exact { return None, id; }
      var exact := Fetch(k.entryId);
      if exact.Found? {
        ServeExact(scope, req, exact.entry, first);
        return Some(exact.entry), id;
      }
      if exact.Broken? || vector.None? { return None, id; }
      Others(first);
      hit, id := Semantic(scope, req, vector.value, threshold, down, second, third);
    }

    /** Counts the hit on an entry found under the request's own key. */
    method ServeExact(scope: Scope, req: Request, entry: Entry, first: seq<Command>)
      requires Valid() && Representable(scope, req) && AllValid(first)
      requires Holds(store, NewKey(h, scope, req).entryId, entry)
      modifies this
      ensures Valid() && old(history) <= history
      ensures CollisionFree(h, history, scope, req) ==> StoredFor(history, scope, req, entry)
    {
      ghost var seen := history;
      Others(first);
      Do(BumpHits(NewKey(h, scope, req).entryId));
      ExactAnswer(scope, req, seen, entry);
    }

    /** A remnant under the request's key hides the semantic tier from it, whatever is asked. */
    method RemnantHidesBucket(scope: Scope, req: Request, vector: Option<seq<real>>, threshold: real, down: Outage,
                              first: seq<Command>, second: seq<Command>, third: seq<Command>)
      returns (hit: Option<Entry>)
      requires Valid() && Representable(scope, req)
      requires AllValid(first) && AllValid(second) && AllValid(third)
      requires Orphaned(h, history, NewKey(h, scope, req).entryId)
      modifies this
      ensures hit.None?
    {
      RemnantIff(h, history, NewKey(h, scope, req).entryId);
      ghost var id;
      hit, id := Lookup(scope, req, vector, threshold, down, first, second, third);
    }

    /** The semantic tier serves the entry under the identifier whose embedding, as read,
        is nearest among the live candidates and reaches the threshold. */
    method Semantic(scope: Scope, req: Request, vector: seq<real>, threshold: real, down: Outage,
                    second: seq<Command>, third: seq<Command>)
      returns (hit: Option<Entry>, ghost id: Bytes)
      requires Valid() && Representable(scope, req) && AllValid(second) && AllValid(third)
      modifies this
      ensures Valid() && old(history) <= history
      ensures SemanticIs(h, maxCandidates, old(history), second, third, NewKey(h, scope, req).fingerprint,
                         vector, threshold, down, hit, id)
      ensures hit.Some? && CollisionFree(h, history, scope, req) ==> StoredFor(history, scope, req, hit.value)
    {
      id := [];
      ghost var listed, fp := history, NewKey(h, scope, req).fingerprint;
      Fetchable(h, maxCandidates, listed, second, third, fp);
      if down.index { return None, id; }
      var chosen, mid := Choose(scope, req, vector, threshold, second);
      if chosen.None? || down.entry { return None, id; }
      id := chosen.value;
      ghost var until := history + third;
      hit := FetchChosen(scope, req, listed, chosen.value, third);
      SemanticServes(h, maxCandidates, listed, second, third, until, fp, vector, threshold, down, hit, id);
    }

    /** Fetches an identifier that the bucket listed at some earlier moment, and counts the hit. */
    method FetchChosen(scope: Scope, req: Request, ghost listed: seq<Command>, id: Bytes, third: seq<Command>)
      returns (hit: Option<Entry>)
      requires Valid() && Representable(scope, req) && AllValid(third)
      requires listed <= history && AllValid(listed)
      requires InZ(Members(Run(h, listed).index, NewKey(h, scope, req).fingerprint), id)
      modifies this
      ensures Valid() && AllValid(old(history) + third) && old(history) + third <= history
      ensures hit == EntryAt(Run(h, old(history) + third), id)
      ensures hit.Some? && CollisionFree(h, history, scope, req) ==> StoredFor(history, scope, req, hit.value)
    {
      Others(third);
      var f := Fetch(id);
      ghost var seen := history;
      if !f.Found? { return None; }
      Do(BumpHits(id));
      SemanticAnswer(scope, req, listed, seen, id, f.entry);
      return Some(f.entry);
    }

    /** The nearest candidate, exactly when one is near enough. */
    method Choose(scope: Scope, req: Request, vector: seq<real>, threshold: real, second: seq<Command>)
      returns (chosen: Option<Bytes>, ghost mid: Store)
      requires Valid() && Representable(scope, req) && AllValid(second)
      modifies this
      ensures Valid() && AllValid(old(history) + second) && mid == Run(h, old(history) + second)
      ensures var fp := NewKey(h, scope, req).fingerprint;
              var z := ZKeepNewest(Members(old(store).index, fp), maxCandidates);
              && history == old(history) + second + Prune(fp, StaleIds(mid, z))
              && (chosen.Some? <==> Reaches(mid, z, vector, threshold))
              && (chosen.Some? ==> IsNearest(mid, z, vector, threshold, chosen.value)
                                   && InZ(Members(old(store).index, fp), chosen.value))
    {
      ghost var bucket := Members(store.index, NewKey(h, scope, req).fingerprint);
      ghost var z := ZKeepNewest(bucket, maxCandidates);
      var ids, vectors;
      ids, vectors, mid := Candidates(scope, req, second);
      ReachesIff(mid, z, ids, vectors, vector, threshold);
      var best, score := Nearest(vector, vectors);
      if best.None? || score < threshold {
        assert !exists i :: 0 <= i < |vectors| && NearEnough(vector, vectors[i], threshold);
        return None, mid;
      }
      assert NearEnough(vector, vectors[best.value], threshold);
      BestIsNearest(mid, z, ids, vectors, vector, threshold, best.value);
      KeptWasThere(bucket, maxCandidates, ids[best.value]);
      return Some(ids[best.value]), mid;
    }

    lemma ExactAnswer(scope: Scope, req: Request, seen: seq<Command>, e: Entry)
      requires Valid() && Representable(scope, req) && seen <= history && AllValid(seen)
      requires Holds(Run(h, seen), NewKey(h, scope, req).entryId, e)
      ensures CollisionFree(h, history, scope, req) ==> StoredFor(history, scope, req, e)
    {
      if CollisionFree(h, history, scope, req) {
        CollisionFreeBefore(h, seen, history, scope, req);
        ExactHitIsIsolated(h, seen, scope, req, e);
        StoredForLater(seen, history, scope, req, e);
      }
    }

    lemma SemanticAnswer(scope: Scope, req: Request, listed: seq<Command>, seen: seq<Command>, id: Bytes, e: Entry)
      requires Valid() && Representable(scope, req)
      requires listed <= seen <= history && AllValid(listed) && AllValid(seen)
      requires InZ(Members(Run(h, listed).index, NewKey(h, scope, req).fingerprint), id)
      requires Holds(Run(h, seen), id, e)
      ensures CollisionFree(h, history, scope, req) ==> StoredFor(history, scope, req, e)
    {
      if CollisionFree(h, history, scope, req) {
        CollisionFreeBefore(h, seen, history, scope, req);
        assert seen[..|listed|] == listed;
        SemanticHitIsIsolated(h, seen, |listed|, scope, req, id, e);
        StoredForLater(seen, history, scope, req, e);
      }
    }
  }
}
