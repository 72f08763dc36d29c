/** The two-tier cache in Redis, command by command. Commands of any number of
    writers, readers, trims, purges and expiries may follow each other in any order,
    and a pipeline may stop anywhere; the claims hold for every such sequence. */
module CacheStore {
  import opened Prelude
  import opened CacheKey

  datatype Entry = Entry(response: Bytes, model: Bytes, provider: Bytes, createdAt: int, embedding: seq<real>)

  /** An entry hash. Counting a hit on a key that has just expired leaves a hash
      that holds nothing but the counter. */
  datatype Slot = Full(entry: Entry, hits: int) | HitsOnly(hits: int)

  datatype Member = Member(score: int, id: Bytes)

  /** A sorted set, lowest score first. */
  type ZSet = seq<Member>

  predicate InZ(z: ZSet, id: Bytes) {
    exists i :: 0 <= i < |z| && z[i].id == id
  }

  function ZRemove(z: ZSet, ids: set<Bytes>): ZSet {
    if z == [] then [] else (if z[0].id in ids then [] else [z[0]]) + ZRemove(z[1..], ids)
  }

  function ZInsert(z: ZSet, m: Member): ZSet {
    if z == [] || m.score < z[0].score then [m] + z else [z[0]] + ZInsert(z[1..], m)
  }

  function ZAdd(z: ZSet, m: Member): ZSet {
    ZInsert(ZRemove(z, {m.id}), m)
  }

  /** Keeps the members of highest score. */
  function ZKeepNewest(z: ZSet, n: nat): ZSet {
    if |z| <= n then z else z[|z| - n..]
  }

  function Members(m: map<Bytes, ZSet>, k: Bytes): ZSet {
    if k in m then m[k] else []
  }

  datatype Store = Store(
    entries: map<Bytes, Slot>,
    index: map<Bytes, ZSet>,
    teams: map<Bytes, ZSet>,
    scopes: map<Bytes, ZSet>)

  const EmptyStore := Store(map[], map[], map[], map[])

  datatype Command =
    | SetEntry(scope: Scope, req: Request, entry: Entry)
    | AddToIndex(scope: Scope, req: Request, score: int)
    | TrimIndex(scope: Scope, req: Request, keep: nat)
    | AddToTeam(scope: Scope, req: Request, score: int)
    | AddToScope(scope: Scope, req: Request, score: int)
    | DeleteEntries(ids: set<Bytes>)                           // deleted or expired
    | RemoveFromIndex(fingerprint: Bytes, ids: set<Bytes>)
    | DropIndex(fingerprint: Bytes)                            // expired or purged
    | RemoveFromScope(scopeId: Bytes, ids: set<Bytes>)
    | DropScope(scopeId: Bytes)
    | DropTeam(teamId: Bytes)
    | BumpHits(id: Bytes)
  {
    ghost predicate Valid() {
      SetEntry? || AddToIndex? || TrimIndex? || AddToTeam? || AddToScope? ==> Representable(scope, req)
    }
  }

  ghost predicate AllValid(cs: seq<Command>) {
    forall i :: 0 <= i < |cs| ==> cs[i].Valid()
  }

  function Exec(h: Hashing, st: Store, c: Command): Store
    requires c.Valid()
  {
    match c
    case SetEntry(scope, req, entry) => st.(entries := st.entries[NewKey(h, scope, req).entryId := Full(entry, 0)])
    case AddToIndex(scope, req, score) =>
      var k := NewKey(h, scope, req);
      st.(index := st.index[k.fingerprint := ZAdd(Members(st.index, k.fingerprint), Member(score, k.entryId))])
    case TrimIndex(scope, req, keep) =>
      var fp := NewKey(h, scope, req).fingerprint;
      st.(index := st.index[fp := ZKeepNewest(Members(st.index, fp), keep)])
    case AddToTeam(scope, req, score) =>
      var k := NewKey(h, scope, req);
      st.(teams := st.teams[k.teamId := ZAdd(Members(st.teams, k.teamId), Member(score, k.entryId))])
    case AddToScope(scope, req, score) =>
      var k := NewKey(h, scope, req);
      st.(scopes := st.scopes[k.scopeId := ZAdd(Members(st.scopes, k.scopeId), Member(score, k.entryId))])
    case DeleteEntries(ids) => st.(entries := st.entries - ids)
    case RemoveFromIndex(fp, ids) => st.(index := st.index[fp := ZRemove(Members(st.index, fp), ids)])
    case DropIndex(fp) => st.(index := st.index - {fp})
    case RemoveFromScope(s, ids) => st.(scopes := st.scopes[s := ZRemove(Members(st.scopes, s), ids)])
    case DropScope(s) => st.(scopes := st.scopes - {s})
    case DropTeam(t) => st.(teams := st.teams - {t})
    case BumpHits(id) =>
      var slot := if id in st.entries then st.entries[id] else HitsOnly(0);
      st.(entries := st.entries[id := slot.(hits := slot.hits + 1)])
  }

  ghost function Run(h: Hashing, cs: seq<Command>): Store
    requires AllValid(cs)
  {
    if cs == [] then EmptyStore else Exec(h, Run(h, cs[..|cs| - 1]), cs[|cs| - 1])
  }

  // ----- where everything comes from -----

  /** Some command of the run wrote this entry under this identifier. */
  ghost predicate Written(h: Hashing, cs: seq<Command>, id: Bytes, e: Entry)
    requires AllValid(cs)
  {
    exists i :: 0 <= i < |cs| && cs[i].SetEntry? && cs[i].entry == e && NewKey(h, cs[i].scope, cs[i].req).entryId == id
  }

  /** Some command of the run listed this identifier under this fingerprint. */
  ghost predicate Listed(h: Hashing, cs: seq<Command>, fp: Bytes, id: Bytes)
    requires AllValid(cs)
  {
    exists i :: 0 <= i < |cs| && cs[i].AddToIndex?
                && NewKey(h, cs[i].scope, cs[i].req).fingerprint == fp && NewKey(h, cs[i].scope, cs[i].req).entryId == id
  }

  ghost predicate Holds(st: Store, id: Bytes, e: Entry) {
    id in st.entries && st.entries[id].Full? && st.entries[id].entry == e
  }

  lemma {:induction false} ZRemoveShrinks(z: ZSet, ids: set<Bytes>, id: Bytes)
    ensures InZ(ZRemove(z, ids), id) ==> InZ(z, id) && id !in ids
  {
    if z != [] && InZ(ZRemove(z, ids), id) {
      var rest := ZRemove(z[1..], ids);
      ZRemoveShrinks(z[1..], ids, id);
      var all := (if z[0].id in ids then [] else [z[0]]) + rest;
      var i :| 0 <= i < |all| && all[i].id == id;
      if z[0].id !in ids && i == 0 {
        assert z[0].id == id;
      } else {
        assert rest[if z[0].id in ids then i else i - 1].id == id;
        var j :| 0 <= j < |z[1..]| && z[1..][j].id == id;
        assert z[j + 1].id == id;
      }
    }
  }

  lemma {:induction false} ZInsertAdds(z: ZSet, m: Member, id: Bytes)
    ensures InZ(ZInsert(z, m), id) ==> id == m.id || InZ(z, id)
  {
    if !(z == [] || m.score < z[0].score) {
      ZInsertAdds(z[1..], m, id);
      var rest := ZInsert(z[1..], m);
      if InZ([z[0]] + rest, id) && z[0].id != id {
        var i :| 0 <= i < |[z[0]] + rest| && ([z[0]] + rest)[i].id == id;
        assert rest[i - 1].id == id;
        if id != m.id {
          var j :| 0 <= j < |z[1..]| && z[1..][j].id == id;
          assert z[j + 1].id == id;
        }
      }
    } else {
      var all := [m] + z;
      if InZ(all, id) && id != m.id {
        var i :| 0 <= i < |all| && all[i].id == id;
        assert z[i - 1].id == id;
      }
    }
  }

  lemma EntryOrigin(h: Hashing, cs: seq<Command>, c: Command, id: Bytes, e: Entry)
    requires AllValid(cs) && c.Valid() && AllValid(cs + [c])
    requires Holds(Run(h, cs), id, e) ==> Written(h, cs, id, e)
    requires Holds(Exec(h, Run(h, cs), c), id, e)
    ensures Written(h, cs + [c], id, e)
  {
    var all := cs + [c];
    assert all[|cs|] == c;
    if Holds(Run(h, cs), id, e) {
      var i :| 0 <= i < |cs| && cs[i].SetEntry? && cs[i].entry == e && NewKey(h, cs[i].scope, cs[i].req).entryId == id;
      assert all[i] == cs[i];
    } else {
      assert c.SetEntry?;
    }
  }

  lemma IndexOrigin(h: Hashing, cs: seq<Command>, c: Command, fp: Bytes, id: Bytes)
    requires AllValid(cs) && c.Valid() && AllValid(cs + [c])
    requires InZ(Members(Run(h, cs).index, fp), id) ==> Listed(h, cs, fp, id)
    requires InZ(Members(Exec(h, Run(h, cs), c).index, fp), id)
    ensures Listed(h, cs + [c], fp, id)
  {
    var all := cs + [c];
    var st := Run(h, cs);
    var z := Members(st.index, fp);
    assert all[|cs|] == c;
    if c.AddToIndex? {
      var k := NewKey(h, c.scope, c.req);
      ZRemoveShrinks(z, {k.entryId}, id);
      ZInsertAdds(ZRemove(z, {k.entryId}), Member(c.score, k.entryId), id);
    } else if c.TrimIndex? {
      KeptWasThere(z, c.keep, id);
    } else if c.RemoveFromIndex? {
      ZRemoveShrinks(z, c.ids, id);
    }
    if InZ(z, id) {
      var i :| 0 <= i < |cs| && cs[i].AddToIndex?
               && NewKey(h, cs[i].scope, cs[i].req).fingerprint == fp && NewKey(h, cs[i].scope, cs[i].req).entryId == id;
      assert all[i] == cs[i];
    }
  }

  lemma KeptWasThere(z: ZSet, n: nat, id: Bytes)
    ensures InZ(ZKeepNewest(z, n), id) ==> InZ(z, id)
  {
  }

  /** Every entry that can be read was written, and every identifier that can be found
      in a bucket was listed there, by some command of the run. */
  lemma {:induction false} EverythingHasAnOrigin(h: Hashing, cs: seq<Command>)
    requires AllValid(cs)
    ensures forall id, e :: Holds(Run(h, cs), id, e) ==> Written(h, cs, id, e)
    ensures forall fp, id :: InZ(Members(Run(h, cs).index, fp), id) ==> Listed(h, cs, fp, id)
  {
    if cs == [] {
    } else {
      var before, c := cs[..|cs| - 1], cs[|cs| - 1];
      EverythingHasAnOrigin(h, before);
      assert cs == before + [c];
      forall id, e | Holds(Run(h, cs), id, e) ensures Written(h, cs, id, e) {
        EntryOrigin(h, before, c, id, e);
      }
      forall fp, id | InZ(Members(Run(h, cs).index, fp), id) ensures Listed(h, cs, fp, id) {
        IndexOrigin(h, before, c, fp, id);
      }
    }
  }

  // ----- isolation -----

  ghost predicate Derives(c: Command) {
    c.SetEntry? || c.AddToIndex?
  }

  /** The digest does not collide on anything the run or this request feeds it. */
  ghost predicate CollisionFree(h: Hashing, cs: seq<Command>, s: Scope, r: Request)
    requires AllValid(cs) && Representable(s, r)
  {
    && (forall i :: 0 <= i < |cs| && Derives(cs[i]) ==> NoCollision(h, cs[i].scope, cs[i].req, s, r))
    && forall i, j :: 0 <= i < |cs| && 0 <= j < |cs| && Derives(cs[i]) && Derives(cs[j]) ==>
         NoCollision(h, cs[i].scope, cs[i].req, cs[j].scope, cs[j].req)
  }

  /** The entry was stored for a request of the same tenant and the same context. */
  ghost predicate StoredFor(cs: seq<Command>, s: Scope, r: Request, e: Entry) {
    exists i :: 0 <= i < |cs| && cs[i].SetEntry? && cs[i].entry == e && SameContext(cs[i].scope, cs[i].req, s, r)
  }

  /** Moreover its prompt, as normalised, was the same. */
  ghost predicate StoredForPrompt(h: Hashing, cs: seq<Command>, s: Scope, r: Request, e: Entry)
    requires AllValid(cs) && Representable(s, r)
  {
    exists i :: 0 <= i < |cs| && cs[i].SetEntry? && cs[i].entry == e && SameContext(cs[i].scope, cs[i].req, s, r)
                && NewKey(h, cs[i].scope, cs[i].req).query == NewKey(h, s, r).query
  }

  /** What the exact tier finds. */
  lemma ExactHitIsIsolated(h: Hashing, cs: seq<Command>, s: Scope, r: Request, e: Entry)
    requires h.Valid() && AllValid(cs) && Representable(s, r) && CollisionFree(h, cs, s, r)
    requires Holds(Run(h, cs), NewKey(h, s, r).entryId, e)
    ensures StoredFor(cs, s, r, e) && StoredForPrompt(h, cs, s, r, e)
  {
    var i := WriterOf(h, cs, NewKey(h, s, r).entryId, e);
    KeysEqualIff(h, cs[i].scope, cs[i].req, s, r);
  }

  /** What the semantic tier finds: an identifier read from the bucket at some moment,
      and the entry under it at that moment or any later one. */
  lemma SemanticHitIsIsolated(h: Hashing, cs: seq<Command>, n: nat, s: Scope, r: Request, id: Bytes, e: Entry)
    requires h.Valid() && n <= |cs| && AllValid(cs) && AllValid(cs[..n])
    requires Representable(s, r) && CollisionFree(h, cs, s, r)
    requires InZ(Members(Run(h, cs[..n]).index, NewKey(h, s, r).fingerprint), id)
    requires Holds(Run(h, cs), id, e)
    ensures StoredFor(cs, s, r, e)
  {
    var i := WriterOf(h, cs, id, e);
    var j := ListerOf(h, cs[..n], NewKey(h, s, r).fingerprint, id);
    assert cs[j] == cs[..n][j] && Derives(cs[i]) && Derives(cs[j]);
    SameThroughIndex(h, cs[i], cs[j], s, r);
  }

  lemma WriterOf(h: Hashing, cs: seq<Command>, id: Bytes, e: Entry) returns (i: nat)
    requires AllValid(cs) && Holds(Run(h, cs), id, e)
    ensures i < |cs| && cs[i].SetEntry? && cs[i].entry == e && NewKey(h, cs[i].scope, cs[i].req).entryId == id
  {
    EverythingHasAnOrigin(h, cs);
    assert Written(h, cs, id, e);
    i :| 0 <= i < |cs| && cs[i].SetEntry? && cs[i].entry == e && NewKey(h, cs[i].scope, cs[i].req).entryId == id;
  }

  lemma ListerOf(h: Hashing, cs: seq<Command>, fp: Bytes, id: Bytes) returns (j: nat)
    requires AllValid(cs) && InZ(Members(Run(h, cs).index, fp), id)
    ensures j < |cs| && cs[j].AddToIndex? && NewKey(h, cs[j].scope, cs[j].req).fingerprint == fp
            && NewKey(h, cs[j].scope, cs[j].req).entryId == id
  {
    EverythingHasAnOrigin(h, cs);
    assert Listed(h, cs, fp, id);
    j :| 0 <= j < |cs| && cs[j].AddToIndex?
         && NewKey(h, cs[j].scope, cs[j].req).fingerprint == fp && NewKey(h, cs[j].scope, cs[j].req).entryId == id;
  }

  /** The write and the listing share an entry, the listing and the request a bucket. */
  lemma SameThroughIndex(h: Hashing, write: Command, list: Command, s: Scope, r: Request)
    requires h.Valid() && write.SetEntry? && write.Valid() && list.AddToIndex? && list.Valid() && Representable(s, r)
    requires NoCollision(h, list.scope, list.req, s, r) && NoCollision(h, write.scope, write.req, list.scope, list.req)
    requires NewKey(h, list.scope, list.req).fingerprint == NewKey(h, s, r).fingerprint
    requires NewKey(h, write.scope, write.req).entryId == NewKey(h, list.scope, list.req).entryId
    ensures SameContext(write.scope, write.req, s, r)
  {
    KeysEqualIff(h, list.scope, list.req, s, r);
    KeysEqualIff(h, write.scope, write.req, list.scope, list.req);
  }

  // ----- what an expired entry's hit leaves behind -----

  /** A hash with nothing but a hit counter, which cannot be decoded. */
  predicate IsRemnant(st: Store, id: Bytes) {
    id in st.entries && st.entries[id].HitsOnly?
  }

  /** Writes, deletes or expires this entry. */
  predicate Touches(h: Hashing, c: Command, id: Bytes)
    requires c.Valid()
  {
    || (c.SetEntry? && NewKey(h, c.scope, c.req).entryId == id)
    || (c.DeleteEntries? && id in c.ids)
  }

  lemma RemnantStep(h: Hashing, st: Store, c: Command, id: Bytes)
    requires c.Valid()
    ensures IsRemnant(Exec(h, st, c), id)
            <==> (c == BumpHits(id) && id !in st.entries) || (IsRemnant(st, id) && !Touches(h, c, id))
  {
  }

  /** Some hit was counted on this entry while it was absent, and nothing has touched it since. */
  ghost predicate Orphaned(h: Hashing, cs: seq<Command>, id: Bytes)
    requires AllValid(cs)
  {
    exists i: nat :: OrphanedAt(h, cs, id, i)
  }

  ghost predicate OrphanedAt(h: Hashing, cs: seq<Command>, id: Bytes, i: nat)
    requires AllValid(cs)
  {
    && i < |cs| && cs[i] == BumpHits(id) && AllValid(cs[..i]) && id !in Run(h, cs[..i]).entries
    && forall j :: i < j < |cs| ==> cs[j].Valid() && !Touches(h, cs[j], id)
  }

  lemma OrphanedAtStep(h: Hashing, cs: seq<Command>, c: Command, id: Bytes, i: nat)
    requires AllValid(cs) && c.Valid() && AllValid(cs + [c]) && i < |cs|
    ensures OrphanedAt(h, cs + [c], id, i) <==> OrphanedAt(h, cs, id, i) && !Touches(h, c, id)
  {
    var all := cs + [c];
    assert all[..i] == cs[..i] && all[|cs|] == c && forall j :: 0 <= j < |cs| ==> all[j] == cs[j];
  }

  lemma OrphanedStep(h: Hashing, cs: seq<Command>, c: Command, id: Bytes)
    requires AllValid(cs) && c.Valid() && AllValid(cs + [c])
    ensures Orphaned(h, cs + [c], id)
            <==> (c == BumpHits(id) && id !in Run(h, cs).entries) || (Orphaned(h, cs, id) && !Touches(h, c, id))
  {
    var all := cs + [c];
    assert OrphanedAt(h, all, id, |cs|) <==> c == BumpHits(id) && id !in Run(h, cs).entries by {
      assert all[..|cs|] == cs && all[|cs|] == c;
    }
    if Orphaned(h, cs, id) {
      var i: nat :| OrphanedAt(h, cs, id, i);
      OrphanedAtStep(h, cs, c, id, i);
    }
    if Orphaned(h, all, id) {
      var i: nat :| OrphanedAt(h, all, id, i);
      if i < |cs| { OrphanedAtStep(h, cs, c, id, i); }
    }
  }

  /** After every sequence of commands, an entry is a remnant if and only if a hit was
      counted on it while it was absent and nothing has touched it since. */
  lemma {:induction false} RemnantIff(h: Hashing, cs: seq<Command>, id: Bytes)
    requires AllValid(cs)
    ensures IsRemnant(Run(h, cs), id) <==> Orphaned(h, cs, id)
  {
    if cs != [] {
      var before, c := cs[..|cs| - 1], cs[|cs| - 1];
      assert cs == before + [c];
      RemnantIff(h, before, id);
      RemnantStep(h, Run(h, before), c, id);
      OrphanedStep(h, before, c, id);
    }
  }

  /** For every entry: stored, expired, and then counted as hit by a lookup that had read it. */
  lemma ExpiredHitLeavesRemnant(h: Hashing, scope: Scope, req: Request, entry: Entry)
    requires Representable(scope, req)
    ensures var id := NewKey(h, scope, req).entryId;
            var cs := [SetEntry(scope, req, entry), DeleteEntries({id}), BumpHits(id)];
            && AllValid(cs) && Run(h, cs).entries == map[id := HitsOnly(1)]
  {
    var id := NewKey(h, scope, req).entryId;
    var a, b, c := SetEntry(scope, req, entry), DeleteEntries({id}), BumpHits(id);
    ExpiredIsGone(h, scope, req, entry, id);
    RunOneMore(h, [a, b], c);
    assert [a, b] + [c] == [a, b, c];
  }

  lemma ExpiredIsGone(h: Hashing, scope: Scope, req: Request, entry: Entry, id: Bytes)
    requires Representable(scope, req) && id == NewKey(h, scope, req).entryId
    ensures var cs := [SetEntry(scope, req, entry), DeleteEntries({id})]; AllValid(cs) && Run(h, cs).entries == map[]
  {
    var a, b := SetEntry(scope, req, entry), DeleteEntries({id});
    StoredIsThere(h, scope, req, entry, id);
    RunOneMore(h, [a], b);
    assert [a] + [b] == [a, b];
  }

  lemma StoredIsThere(h: Hashing, scope: Scope, req: Request, entry: Entry, id: Bytes)
    requires Representable(scope, req) && id == NewKey(h, scope, req).entryId
    ensures var cs := [SetEntry(scope, req, entry)]; AllValid(cs) && Run(h, cs).entries == map[id := Full(entry, 0)]
  {
    var a := SetEntry(scope, req, entry);
    RunOneMore(h, [], a);
    assert [] + [a] == [a];
  }

  lemma {:induction false} RunOneMore(h: Hashing, cs: seq<Command>, c: Command)
    requires AllValid(cs) && c.Valid()
    ensures AllValid(cs + [c]) && Run(h, cs + [c]) == Exec(h, Run(h, cs), c)
  {
    assert (cs + [c])[..|cs|] == cs;
  }
}
