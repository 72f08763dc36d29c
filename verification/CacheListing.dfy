/** What the cache keeps: which entries can be read and which identifiers are listed after any
    sequence of commands, and that what is stored is found again, by the request it was stored
    for and by requests like it. */
module CacheListing {
  import opened Prelude
  import opened CacheKey
  import opened CacheStore
  import opened CacheLookup
  import opened Similarities

  // ----- sorted sets hold what was put into them -----

  lemma {:induction false} RemoveIff(z: ZSet, ids: set<Bytes>, x: Member)
    ensures x in ZRemove(z, ids) <==> x in z && x.id !in ids
  {
    if z != [] {
      RemoveIff(z[1..], ids, x);
      assert z == [z[0]] + z[1..];
    }
  }

  lemma {:induction false} InsertIff(z: ZSet, m: Member, x: Member)
    ensures x in ZInsert(z, m) <==> x == m || x in z
  {
    if !(z == [] || m.score < z[0].score) {
      InsertIff(z[1..], m, x);
      assert z == [z[0]] + z[1..];
    }
  }

  /** Adding a member replaces the one of the same identifier and keeps all others. */
  lemma AddIff(z: ZSet, m: Member, x: Member)
    ensures x in ZAdd(z, m) <==> x == m || (x in z && x.id != m.id)
  {
    RemoveIff(z, {m.id}, x);
    InsertIff(ZRemove(z, {m.id}), m, x);
  }

  /** A trim keeps as many members as it may, and none it drops is newer than one it keeps. */
  lemma KeepsTheNewest(z: ZSet, n: nat)
    requires Tidy(z)
    ensures var kept := ZKeepNewest(z, n);
            && Tidy(kept) && |kept| == (if |z| < n then |z| else n)
            && (forall x :: x in kept ==> x in z)
            && forall x, y :: x in z && x !in kept && y in kept ==> x.score <= y.score
  {
    var kept := ZKeepNewest(z, n);
    if |z| > n {
      var k := |z| - n;
      assert forall i :: 0 <= i < n ==> kept[i] == z[k + i];
      forall i | k <= i < |z| ensures z[i] in kept { assert kept[i - k] == z[i]; }
      forall x, y | x in z && x !in kept && y in kept ensures x.score <= y.score {
        var i :| 0 <= i < |z| && z[i] == x;
        var j :| 0 <= j < n && kept[j] == y;
        assert z[k + j] == y;
      }
    }
  }

  /** The newest member survives every trim that leaves anything. */
  lemma NewestIsKept(z: ZSet, m: Member, n: nat)
    requires NoneNewer(z, m.score) && n > 0
    ensures m in ZKeepNewest(ZAdd(z, m), n)
  {
    ZAddNewestLast(z, m);
    var all := ZAdd(z, m);
    var kept := ZKeepNewest(all, n);
    assert kept[|kept| - 1] == m;
  }

  // ----- the buckets -----

  lemma BucketsStayTidy(h: Hashing, st: Store, c: Command)
    requires c.Valid() && TidyMap(st.index)
    ensures TidyMap(Exec(h, st, c).index)
  {
    if c.AddToIndex? {
      var k := NewKey(h, c.scope, c.req);
      ZAddTidy(Members(st.index, k.fingerprint), Member(c.score, k.entryId));
    } else if c.TrimIndex? {
      KeepsTheNewest(Members(st.index, NewKey(h, c.scope, c.req).fingerprint), c.keep);
    } else if c.RemoveFromIndex? {
      ZRemoveTidy(Members(st.index, c.fingerprint), c.ids, 0);
    }
  }

  /** After every sequence of commands each bucket lists an identifier once, oldest first. */
  lemma {:induction false} BucketsAreTidy(h: Hashing, cs: seq<Command>)
    requires AllValid(cs)
    ensures TidyMap(Run(h, cs).index)
  {
    if cs != [] {
      BucketsAreTidy(h, cs[..|cs| - 1]);
      BucketsStayTidy(h, Run(h, cs[..|cs| - 1]), cs[|cs| - 1]);
    }
  }

  ghost predicate InBucket(st: Store, fp: Bytes, x: Member) {
    x in Members(st.index, fp)
  }

  predicate Lists(h: Hashing, c: Command, fp: Bytes, x: Member)
    requires c.Valid()
  {
    c.AddToIndex? && NewKey(h, c.scope, c.req).fingerprint == fp && Member(c.score, NewKey(h, c.scope, c.req).entryId) == x
  }

  /** Among the members a trim of this size drops. */
  ghost predicate TooOld(z: ZSet, keep: nat, x: Member) {
    exists i :: 0 <= i < |z| - keep && z[i] == x
  }

  ghost predicate Unlists(h: Hashing, st: Store, c: Command, fp: Bytes, x: Member)
    requires c.Valid()
  {
    match c
    case AddToIndex(s, r, _) => NewKey(h, s, r).fingerprint == fp && NewKey(h, s, r).entryId == x.id
    case TrimIndex(s, r, keep) => NewKey(h, s, r).fingerprint == fp && TooOld(Members(st.index, fp), keep, x)
    case RemoveFromIndex(fingerprint, ids) => fingerprint == fp && x.id in ids
    case DropIndex(fingerprint) => fingerprint == fp
    case _ => false
  }

  lemma TrimIff(z: ZSet, keep: nat, x: Member)
    requires Tidy(z)
    ensures x in ZKeepNewest(z, keep) <==> x in z && !TooOld(z, keep, x)
  {
    var kept := ZKeepNewest(z, keep);
    if |z| > keep {
      var k := |z| - keep;
      assert forall i :: 0 <= i < keep ==> kept[i] == z[k + i];
      if x in z && !TooOld(z, keep, x) {
        var i :| 0 <= i < |z| && z[i] == x;
        assert kept[i - k] == x;
      }
    }
  }

  lemma BucketStep(h: Hashing, st: Store, c: Command, fp: Bytes, x: Member)
    requires c.Valid() && TidyMap(st.index)
    ensures InBucket(Exec(h, st, c), fp, x) <==> Lists(h, c, fp, x) || (InBucket(st, fp, x) && !Unlists(h, st, c, fp, x))
  {
    var z := Members(st.index, fp);
    match c {
      case AddToIndex(s, r, score) => AddIff(z, Member(score, NewKey(h, s, r).entryId), x);
      case TrimIndex(_, _, keep) => TrimIff(z, keep, x);
      case RemoveFromIndex(_, ids) => RemoveIff(z, ids, x);
      case _ =>
    }
  }

  /** The i-th command listed it and no later one has unlisted it. */
  ghost predicate ListedSince(h: Hashing, cs: seq<Command>, fp: Bytes, x: Member, i: nat)
    requires AllValid(cs)
  {
    && i < |cs| && Lists(h, cs[i], fp, x)
    && forall j :: i < j < |cs| ==> !UnlistedAt(h, cs, fp, x, j)
  }

  ghost predicate UnlistedAt(h: Hashing, cs: seq<Command>, fp: Bytes, x: Member, j: nat)
    requires AllValid(cs) && j < |cs|
  {
    AllValid(cs[..j]) && Unlists(h, Run(h, cs[..j]), cs[j], fp, x)
  }

  ghost predicate StillListed(h: Hashing, cs: seq<Command>, fp: Bytes, x: Member)
    requires AllValid(cs)
  {
    exists i: nat :: ListedSince(h, cs, fp, x, i)
  }

  lemma ListedSinceStep(h: Hashing, cs: seq<Command>, c: Command, fp: Bytes, x: Member, i: nat)
    requires AllValid(cs) && c.Valid() && AllValid(cs + [c]) && i < |cs|
    ensures ListedSince(h, cs + [c], fp, x, i) <==> ListedSince(h, cs, fp, x, i) && !Unlists(h, Run(h, cs), c, fp, x)
  {
    var all := cs + [c];
    assert all[..|cs|] == cs && all[|cs|] == c && all[i] == cs[i];
    forall j | 0 <= j < |cs| ensures UnlistedAt(h, all, fp, x, j) <==> UnlistedAt(h, cs, fp, x, j) {
      assert all[..j] == cs[..j] && all[j] == cs[j];
    }
    assert UnlistedAt(h, all, fp, x, |cs|) <==> Unlists(h, Run(h, cs), c, fp, x);
  }

  lemma ListedLast(h: Hashing, cs: seq<Command>, c: Command, fp: Bytes, x: Member)
    requires AllValid(cs) && c.Valid() && AllValid(cs + [c])
    ensures ListedSince(h, cs + [c], fp, x, |cs|) <==> Lists(h, c, fp, x)
  {
    assert (cs + [c])[|cs|] == c;
  }

  lemma StillListedBefore(h: Hashing, cs: seq<Command>, c: Command, fp: Bytes, x: Member)
    requires AllValid(cs) && c.Valid() && AllValid(cs + [c]) && StillListed(h, cs + [c], fp, x)
    ensures Lists(h, c, fp, x) || (StillListed(h, cs, fp, x) && !Unlists(h, Run(h, cs), c, fp, x))
  {
    var i: nat :| ListedSince(h, cs + [c], fp, x, i);
    if i < |cs| {
      ListedSinceStep(h, cs, c, fp, x, i);
    } else {
      ListedLast(h, cs, c, fp, x);
    }
  }

  lemma StillListedAfter(h: Hashing, cs: seq<Command>, c: Command, fp: Bytes, x: Member)
    requires AllValid(cs) && c.Valid() && AllValid(cs + [c])
    requires Lists(h, c, fp, x) || (StillListed(h, cs, fp, x) && !Unlists(h, Run(h, cs), c, fp, x))
    ensures StillListed(h, cs + [c], fp, x)
  {
    if Lists(h, c, fp, x) {
      ListedLast(h, cs, c, fp, x);
    } else {
      var i: nat :| ListedSince(h, cs, fp, x, i);
      ListedSinceStep(h, cs, c, fp, x, i);
    }
  }

  /** After every sequence of commands a bucket lists exactly the identifiers, with their
      scores, that some command put there and none has since replaced, trimmed, pruned or
      dropped. */
  lemma {:induction false} ListedIff(h: Hashing, cs: seq<Command>, fp: Bytes, x: Member)
    requires AllValid(cs)
    ensures InBucket(Run(h, cs), fp, x) <==> StillListed(h, cs, fp, x)
  {
    if cs != [] {
      var before, c := cs[..|cs| - 1], cs[|cs| - 1];
      assert cs == before + [c];
      ListedIff(h, before, fp, x);
      BucketsAreTidy(h, before);
      BucketStep(h, Run(h, before), c, fp, x);
      if StillListed(h, cs, fp, x) { StillListedBefore(h, before, c, fp, x); }
      if InBucket(Run(h, cs), fp, x) { StillListedAfter(h, before, c, fp, x); }
    }
  }

  // ----- the entries -----

  predicate Writes(h: Hashing, c: Command, id: Bytes, e: Entry)
    requires c.Valid()
  {
    c.SetEntry? && c.entry == e && NewKey(h, c.scope, c.req).entryId == id
  }

  lemma HoldsStep(h: Hashing, st: Store, c: Command, id: Bytes, e: Entry)
    requires c.Valid()
    ensures Holds(Exec(h, st, c), id, e) <==> Writes(h, c, id, e) || (Holds(st, id, e) && !Touches(h, c, id))
  {
  }

  /** The i-th command wrote it and no later one has touched it. */
  ghost predicate WrittenSince(h: Hashing, cs: seq<Command>, id: Bytes, e: Entry, i: nat)
    requires AllValid(cs)
  {
    i < |cs| && Writes(h, cs[i], id, e) && forall j :: i < j < |cs| ==> !TouchedAt(h, cs, id, j)
  }

  ghost predicate TouchedAt(h: Hashing, cs: seq<Command>, id: Bytes, j: nat)
    requires AllValid(cs) && j < |cs|
  {
    Touches(h, cs[j], id)
  }

  ghost predicate StillWritten(h: Hashing, cs: seq<Command>, id: Bytes, e: Entry)
    requires AllValid(cs)
  {
    exists i: nat :: WrittenSince(h, cs, id, e, i)
  }

  lemma WrittenSinceStep(h: Hashing, cs: seq<Command>, c: Command, id: Bytes, e: Entry, i: nat)
    requires AllValid(cs) && c.Valid() && AllValid(cs + [c]) && i < |cs|
    ensures WrittenSince(h, cs + [c], id, e, i) <==> WrittenSince(h, cs, id, e, i) && !Touches(h, c, id)
  {
    var all := cs + [c];
    assert all[i] == cs[i];
    forall j | 0 <= j < |cs| ensures TouchedAt(h, all, id, j) <==> TouchedAt(h, cs, id, j) { assert all[j] == cs[j]; }
    assert TouchedAt(h, all, id, |cs|) <==> Touches(h, c, id);
  }

  lemma WrittenLast(h: Hashing, cs: seq<Command>, c: Command, id: Bytes, e: Entry)
    requires AllValid(cs) && c.Valid() && AllValid(cs + [c])
    ensures WrittenSince(h, cs + [c], id, e, |cs|) <==> Writes(h, c, id, e)
  {
    assert (cs + [c])[|cs|] == c;
  }

  lemma StillWrittenBefore(h: Hashing, cs: seq<Command>, c: Command, id: Bytes, e: Entry)
    requires AllValid(cs) && c.Valid() && AllValid(cs + [c]) && StillWritten(h, cs + [c], id, e)
    ensures Writes(h, c, id, e) || (StillWritten(h, cs, id, e) && !Touches(h, c, id))
  {
    var i: nat :| WrittenSince(h, cs + [c], id, e, i);
    if i < |cs| {
      WrittenSinceStep(h, cs, c, id, e, i);
    } else {
      WrittenLast(h, cs, c, id, e);
    }
  }

  lemma StillWrittenAfter(h: Hashing, cs: seq<Command>, c: Command, id: Bytes, e: Entry)
    requires AllValid(cs) && c.Valid() && AllValid(cs + [c])
    requires Writes(h, c, id, e) || (StillWritten(h, cs, id, e) && !Touches(h, c, id))
    ensures StillWritten(h, cs + [c], id, e)
  {
    if Writes(h, c, id, e) {
      WrittenLast(h, cs, c, id, e);
    } else {
      var i: nat :| WrittenSince(h, cs, id, e, i);
      WrittenSinceStep(h, cs, c, id, e, i);
    }
  }

  /** After every sequence of commands an entry can be read if and only if some command wrote
      it and none has since overwritten, deleted or expired it; hits never change it. */
  lemma {:induction false} HoldsIff(h: Hashing, cs: seq<Command>, id: Bytes, e: Entry)
    requires AllValid(cs)
    ensures Holds(Run(h, cs), id, e) <==> StillWritten(h, cs, id, e)
  {
    if cs != [] {
      var before, c := cs[..|cs| - 1], cs[|cs| - 1];
      assert cs == before + [c];
      HoldsIff(h, before, id, e);
      HoldsStep(h, Run(h, before), c, id, e);
      if StillWritten(h, cs, id, e) { StillWrittenBefore(h, before, c, id, e); }
      if Holds(Run(h, cs), id, e) { StillWrittenAfter(h, before, c, id, e); }
    }
  }

  lemma HeldUntilTouched(h: Hashing, cs: seq<Command>, more: seq<Command>, id: Bytes, e: Entry)
    requires AllValid(cs) && AllValid(more) && AllValid(cs + more) && Holds(Run(h, cs), id, e)
    requires forall j :: 0 <= j < |more| ==> !Touches(h, more[j], id)
    ensures Holds(Run(h, cs + more), id, e)
  {
    HoldsIff(h, cs, id, e);
    var i: nat :| WrittenSince(h, cs, id, e, i);
    var all := cs + more;
    assert all[i] == cs[i];
    forall j | i < j < |all| ensures !TouchedAt(h, all, id, j) {
      if j < |cs| {
        assert all[j] == cs[j] && !TouchedAt(h, cs, id, j);
      } else {
        assert all[j] == more[j - |cs|];
      }
    }
    assert WrittenSince(h, all, id, e, i);
    HoldsIff(h, all, id, e);
  }

  // ----- the tenant indexes -----

  lemma ScopeStep(h: Hashing, st: Store, c: Command, s: Bytes, x: Member)
    requires c.Valid()
    ensures x in Members(Exec(h, st, c).scopes, s) <==>
              || (c.AddToScope? && NewKey(h, c.scope, c.req).scopeId == s && x == Member(c.score, NewKey(h, c.scope, c.req).entryId))
              || (&& x in Members(st.scopes, s)
                  && !(c.AddToScope? && NewKey(h, c.scope, c.req).scopeId == s && NewKey(h, c.scope, c.req).entryId == x.id)
                  && !(c.RemoveFromScope? && c.scopeId == s && x.id in c.ids)
                  && c != DropScope(s))
  {
    var z := Members(st.scopes, s);
    if c.AddToScope? {
      AddIff(z, Member(c.score, NewKey(h, c.scope, c.req).entryId), x);
    } else if c.RemoveFromScope? {
      RemoveIff(z, c.ids, x);
    }
  }

  lemma TeamStep(h: Hashing, st: Store, c: Command, t: Bytes, x: Member)
    requires c.Valid()
    ensures x in Members(Exec(h, st, c).teams, t) <==>
              || (c.AddToTeam? && NewKey(h, c.scope, c.req).teamId == t && x == Member(c.score, NewKey(h, c.scope, c.req).entryId))
              || (&& x in Members(st.teams, t)
                  && !(c.AddToTeam? && NewKey(h, c.scope, c.req).teamId == t && NewKey(h, c.scope, c.req).entryId == x.id)
                  && c != DropTeam(t))
  {
    if c.AddToTeam? { AddIff(Members(st.teams, t), Member(c.score, NewKey(h, c.scope, c.req).entryId), x); }
  }

  // ----- what is stored is found again -----

  const NoOutage := Outage(false, false, false)

  /** The newest response of a tenant, once stored, answers its own request for as long as
      nothing touches it, whatever else happens. */
  method StoreThenLookup(cache: Cache, scope: Scope, req: Request, entry: Entry, meanwhile: seq<Command>,
                         vector: Option<seq<real>>, threshold: real, first: seq<Command>)
    returns (hit: Option<Entry>)
    requires cache.Valid() && Representable(scope, req) && AllValid(meanwhile) && AllValid(first)
    requires cache.maxScopeEntries > 0 && NoneNewer(Members(cache.store.scopes, ScopeId(scope)), entry.createdAt)
    requires forall j :: 0 <= j < |meanwhile| ==> !Touches(cache.h, meanwhile[j], NewKey(cache.h, scope, req).entryId)
    modifies cache
    ensures cache.Valid() && hit == Some(entry)
  {
    cache.Put(scope, req, entry);
    ghost var stored := cache.history;
    cache.Others(meanwhile);
    HeldUntilTouched(cache.h, stored, meanwhile, NewKey(cache.h, scope, req).entryId, entry);
    ghost var id;
    hit, id := cache.Lookup(scope, req, vector, threshold, NoOutage, first, [], []);
  }

  /** And it answers any other request of the same bucket whose embedding is near enough, unless
      the bucket holds an answer that is nearer still. */
  method StoreThenParaphrase(cache: Cache, scope: Scope, req: Request, entry: Entry,
                             other: Request, vector: seq<real>, threshold: real)
    returns (hit: Option<Entry>)
    requires cache.Valid() && Representable(scope, req) && Representable(scope, other)
    requires cache.maxScopeEntries > 0 && NoneNewer(Members(cache.store.scopes, ScopeId(scope)), entry.createdAt)
    requires var k := NewKey(cache.h, scope, req); var l := NewKey(cache.h, scope, other);
             && k.fingerprint == l.fingerprint && k.entryId != l.entryId && l.entryId !in cache.store.entries
             && cache.maxCandidates > 0 && NoneNewer(Members(cache.store.index, k.fingerprint), entry.createdAt)
    requires NearEnough(vector, entry.embedding, threshold)
    modifies cache
    ensures cache.Valid() && hit.Some? && |hit.value.embedding| == |vector|
    ensures Similarity(vector, hit.value.embedding) >= Similarity(vector, entry.embedding)
  {
    ghost var k, m := NewKey(cache.h, scope, req), Member(entry.createdAt, NewKey(cache.h, scope, req).entryId);
    NewestIsKept(Members(cache.store.index, k.fingerprint), m, cache.maxCandidates);
    cache.Put(scope, req, entry);
    ghost var st, cs := cache.store, cache.history;
    ghost var z := ZKeepNewest(Members(st.index, k.fingerprint), cache.maxCandidates);
    assert cs + [] == cs;
    ghost var id;
    hit, id := cache.Lookup(scope, other, Some(vector), threshold, NoOutage, [], [], []);
    Answered(cache.h, cache.maxCandidates, st, cs, z, k.fingerprint, m, entry, vector, threshold, hit, id);
  }

  lemma Answered(h: Hashing, keep: nat, st: Store, cs: seq<Command>, z: ZSet, fp: Bytes, m: Member, entry: Entry,
                 vector: seq<real>, threshold: real, hit: Option<Entry>, id: Bytes)
    requires AllValid(cs) && st == Run(h, cs) && z == ZKeepNewest(Members(st.index, fp), keep) && m in z
    requires Holds(st, m.id, entry) && NearEnough(vector, entry.embedding, threshold)
    requires SemanticIs(h, keep, cs, [], [], fp, vector, threshold, NoOutage, hit, id)
    ensures hit.Some? && |hit.value.embedding| == |vector|
    ensures Similarity(vector, hit.value.embedding) >= Similarity(vector, entry.embedding)
  {
    var j :| 0 <= j < |z| && z[j] == m;
    assert cs + [] == cs;
    assert Reaches(st, z, vector, threshold) by {
      assert IsAlive(st, z[j].id) && NearEnough(vector, st.entries[z[j].id].entry.embedding, threshold);
    }
    assert IsNearest(st, z, vector, threshold, id);
    PruneKeepsEntries(h, cs, fp, StaleIds(st, z), id);
    assert UntilFetch(h, keep, cs, [], [], fp) == cs + Prune(fp, StaleIds(st, z));
    assert IsAlive(st, z[j].id);
  }

  lemma PruneKeepsEntries(h: Hashing, cs: seq<Command>, fp: Bytes, stale: set<Bytes>, id: Bytes)
    requires AllValid(cs)
    ensures AllValid(cs + Prune(fp, stale)) && EntryAt(Run(h, cs + Prune(fp, stale)), id) == EntryAt(Run(h, cs), id)
  {
    if stale == {} {
      assert cs + [] == cs;
    } else {
      RunOneMore(h, cs, RemoveFromIndex(fp, stale));
    }
  }
}
