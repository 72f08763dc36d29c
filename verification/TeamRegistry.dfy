/** The in-memory team registry: two indexes, by key hash and by identifier, that admin
    operations keep in step while requests hold on to teams they were given earlier. */
module TeamRegistry {
  import opened Prelude

  datatype KeySource = FromConfig | RotatedKey | RevokedKey

  /** `profile` stands for everything the registry never changes. */
  datatype Team = Team(
    id: string, profile: string, keyHash: string, keySource: KeySource, keyMasked: string, keyCreatedAt: Option<int>,
    rpm: int, tpm: int, budgetMicros: int)

  datatype Patch = Patch(rpm: Option<int>, tpm: Option<int>, budgetMicros: Option<int>)

  predicate LimitsValid(t: Team) {
    t.rpm > 0 && t.tpm > 0 && t.budgetMicros > 0
  }

  function OrElse(o: Option<int>, default: int): int {
    if o.Some? then o.value else default
  }

  /** The patched team, if its limits are valid. */
  function Apply(p: Patch, t: Team): (r: Option<Team>)
    ensures r.Some? <==> OrElse(p.rpm, t.rpm) > 0 && OrElse(p.tpm, t.tpm) > 0 && OrElse(p.budgetMicros, t.budgetMicros) > 0
    ensures r.Some? ==>
              && LimitsValid(r.value)
              && r.value.(rpm := t.rpm, tpm := t.tpm, budgetMicros := t.budgetMicros) == t
              && (if p.rpm.Some? then r.value.rpm == p.rpm.value else r.value.rpm == t.rpm)
              && (if p.tpm.Some? then r.value.tpm == p.tpm.value else r.value.tpm == t.tpm)
              && (if p.budgetMicros.Some? then r.value.budgetMicros == p.budgetMicros.value
                  else r.value.budgetMicros == t.budgetMicros)
    ensures LimitsValid(t) && p == Patch(None, None, None) ==> r == Some(t)
  {
    var rpm, tpm := OrElse(p.rpm, t.rpm), OrElse(p.tpm, t.tpm);
    var u := t.(rpm := rpm, tpm := tpm, budgetMicros := OrElse(p.budgetMicros, t.budgetMicros));
    if LimitsValid(u) then Some(u) else None
  }

  datatype Index = Index(byHash: map<string, Team>, byId: map<string, Team>)

  datatype Outcome = Done(team: Team) | UnknownTeam | InvalidLimits | EmptyHash | HashTaken | TeamExists

  datatype Op =
    | Update(id: string, patch: Patch)
    | Rotate(id: string, newHash: string, masked: string, now: int)
    | Revoke(id: string)
    | Add(team: Team)
    | Remove(id: string)

  function Updated(ix: Index, id: string, patch: Patch): (Index, Outcome) {
    if id !in ix.byId then (ix, UnknownTeam)
    else
      var r := Apply(patch, ix.byId[id]);
      if r.None? then (ix, InvalidLimits)
      else (Index(ix.byHash[r.value.keyHash := r.value], ix.byId[id := r.value]), Done(r.value))
  }

  function WithKey(t: Team, hash: string, masked: string, now: int): Team {
    t.(keyHash := hash, keySource := RotatedKey, keyMasked := masked, keyCreatedAt := Some(now))
  }

  function Rotated(ix: Index, id: string, newHash: string, masked: string, now: int): (Index, Outcome) {
    if id !in ix.byId then (ix, UnknownTeam)
    else if newHash == "" then (ix, EmptyHash)
    else if newHash in ix.byHash && ix.byHash[newHash].id != id then (ix, HashTaken)
    else
      var t := WithKey(ix.byId[id], newHash, masked, now);
      (Index((ix.byHash - {ix.byId[id].keyHash})[newHash := t], ix.byId[id := t]), Done(t))
  }

  function WithoutKey(t: Team): Team {
    t.(keyHash := "", keySource := RevokedKey, keyMasked := "", keyCreatedAt := None)
  }

  function Revoked(ix: Index, id: string): (Index, Outcome) {
    if id !in ix.byId then (ix, UnknownTeam)
    else
      var t := WithoutKey(ix.byId[id]);
      (Index(ix.byHash - {ix.byId[id].keyHash}, ix.byId[id := t]), Done(t))
  }

  function Added(ix: Index, t: Team): (Index, Outcome) {
    if t.id in ix.byId then (ix, TeamExists)
    else if t.keyHash != "" && t.keyHash in ix.byHash then (ix, HashTaken)
    else (Index(if t.keyHash != "" then ix.byHash[t.keyHash := t] else ix.byHash, ix.byId[t.id := t]), Done(t))
  }

  function Removed(ix: Index, id: string): (Index, Outcome) {
    if id !in ix.byId then (ix, UnknownTeam)
    else
      var t := ix.byId[id];
      (Index(if t.keyHash != "" then ix.byHash - {t.keyHash} else ix.byHash, ix.byId - {id}), Done(t))
  }

  function Step(ix: Index, op: Op): (Index, Outcome) {
    match op
    case Update(id, patch) => Updated(ix, id, patch)
    case Rotate(id, newHash, masked, now) => Rotated(ix, id, newHash, masked, now)
    case Revoke(id) => Revoked(ix, id)
    case Add(team) => Added(ix, team)
    case Remove(id) => Removed(ix, id)
  }

  function Resolve(ix: Index, hash: string): Option<Team> {
    if hash in ix.byHash && ix.byHash[hash].keyHash != "" then Some(ix.byHash[hash]) else None
  }

  // ----- the indexes agree -----

  ghost predicate Listed(ix: Index, t: Team) {
    t.id in ix.byId && ix.byId[t.id] == t
  }

  /** Every listed team is under its own identifier, every team with a key is under its
      hash, and every hash leads to a listed team with that hash. Nothing is said of
      the empty hash except that it leads to no key. */
  ghost predicate Agrees(ix: Index) {
    && (forall id :: id in ix.byId ==> ix.byId[id].id == id)
    && (forall id :: id in ix.byId && ix.byId[id].keyHash != "" ==>
          ix.byId[id].keyHash in ix.byHash && ix.byHash[ix.byId[id].keyHash] == ix.byId[id])
    && (forall h :: h in ix.byHash ==> ix.byHash[h].keyHash == h)
    && (forall h :: h in ix.byHash && h != "" ==> Listed(ix, ix.byHash[h]))
  }

  lemma UpdatedAgrees(ix: Index, id: string, patch: Patch)
    requires Agrees(ix)
    ensures Agrees(Updated(ix, id, patch).0)
  {
  }

  lemma RotatedAgrees(ix: Index, id: string, newHash: string, masked: string, now: int)
    requires Agrees(ix)
    ensures Agrees(Rotated(ix, id, newHash, masked, now).0)
  {
  }

  lemma RevokedAgrees(ix: Index, id: string)
    requires Agrees(ix)
    ensures Agrees(Revoked(ix, id).0)
  {
  }

  lemma AddedAgrees(ix: Index, t: Team)
    requires Agrees(ix)
    ensures Agrees(Added(ix, t).0)
  {
  }

  lemma RemovedAgrees(ix: Index, id: string)
    requires Agrees(ix)
    ensures Agrees(Removed(ix, id).0)
  {
  }

  lemma StepKeepsAgreement(ix: Index, op: Op)
    requires Agrees(ix)
    ensures Agrees(Step(ix, op).0)
  {
    match op
    case Update(id, patch) => UpdatedAgrees(ix, id, patch);
    case Rotate(id, newHash, masked, now) => RotatedAgrees(ix, id, newHash, masked, now);
    case Revoke(id) => RevokedAgrees(ix, id);
    case Add(team) => AddedAgrees(ix, team);
    case Remove(id) => RemovedAgrees(ix, id);
  }

  function Run(ix: Index, ops: seq<Op>): Index {
    if ops == [] then ix else Step(Run(ix, ops[..|ops| - 1]), ops[|ops| - 1]).0
  }

  lemma {:induction false} RunKeepsAgreement(ix: Index, ops: seq<Op>)
    requires Agrees(ix)
    ensures Agrees(Run(ix, ops))
  {
    if ops != [] {
      RunKeepsAgreement(ix, ops[..|ops| - 1]);
      StepKeepsAgreement(Run(ix, ops[..|ops| - 1]), ops[|ops| - 1]);
    }
  }

  /** What a linear scan of the listed teams would find. */
  ghost predicate ScanFinds(ix: Index, hash: string, t: Team) {
    Listed(ix, t) && hash != "" && t.keyHash == hash
  }

  lemma ResolveIsScan(ix: Index, hash: string, t: Team)
    requires Agrees(ix)
    ensures Resolve(ix, hash) == Some(t) <==> ScanFinds(ix, hash, t)
  {
  }

  // ----- which keys work -----

  /** An update reaches the team's key, and no other. */
  lemma KeysAfterUpdate(ix: Index, id: string, patch: Patch, hash: string)
    requires Agrees(ix) && Updated(ix, id, patch).1.Done?
    ensures var (after, done) := Updated(ix, id, patch);
            && id in ix.byId && done.team.id == id && Apply(patch, ix.byId[id]) == Some(done.team)
            && after.byId == ix.byId[id := done.team]
            && Resolve(after, hash) == if hash != "" && hash == ix.byId[id].keyHash then Some(done.team) else Resolve(ix, hash)
  {
  }

  /** A rotation is done exactly when the team is known and the new key is a key nobody else has.
      The new key then leads to the team, its old one nowhere, and all others as before. */
  lemma KeysAfterRotation(ix: Index, id: string, newHash: string, masked: string, now: int, hash: string)
    requires Agrees(ix)
    ensures var (after, r) := Rotated(ix, id, newHash, masked, now);
            && (r.Done? <==> id in ix.byId && newHash != ""
                             && (Resolve(ix, newHash).None? || Resolve(ix, newHash).value.id == id))
            && (!r.Done? ==> after == ix)
            && (r.Done? ==>
                  && r.team.(keyHash := ix.byId[id].keyHash, keySource := ix.byId[id].keySource,
                             keyMasked := ix.byId[id].keyMasked, keyCreatedAt := ix.byId[id].keyCreatedAt) == ix.byId[id]
                  && after.byId == ix.byId[id := r.team]
                  && Resolve(after, hash) == if hash == newHash then Some(r.team)
                                             else if hash == ix.byId[id].keyHash then None
                                             else Resolve(ix, hash))
  {
  }

  /** A revocation is done exactly when the team is known. Its key then leads nowhere; the team
      stays listed, without a key, and every other key works as before. */
  lemma KeysAfterRevocation(ix: Index, id: string, hash: string)
    requires Agrees(ix)
    ensures var (after, r) := Revoked(ix, id);
            && (r.Done? <==> id in ix.byId)
            && (!r.Done? ==> after == ix)
            && (r.Done? ==>
                  && r.team.keyHash == "" && r.team.id == id && r.team.profile == ix.byId[id].profile
                  && after.byId == ix.byId[id := r.team]
                  && Resolve(after, hash) == if hash == ix.byId[id].keyHash then None else Resolve(ix, hash))
  {
  }

  /** A team is added exactly when its identifier is free and its key, if any, is nobody's. */
  lemma KeysAfterAdding(ix: Index, t: Team, hash: string)
    requires Agrees(ix)
    ensures var (after, r) := Added(ix, t);
            && (r.Done? <==> t.id !in ix.byId && (t.keyHash == "" || Resolve(ix, t.keyHash).None?))
            && (!r.Done? ==> after == ix)
            && (r.Done? ==>
                  && r.team == t && after.byId == ix.byId[t.id := t]
                  && Resolve(after, hash) == if hash != "" && hash == t.keyHash then Some(t) else Resolve(ix, hash))
  {
  }

  lemma KeysAfterRemoval(ix: Index, id: string, hash: string)
    requires Agrees(ix)
    ensures var (after, r) := Removed(ix, id);
            && (r.Done? <==> id in ix.byId)
            && (!r.Done? ==> after == ix)
            && (r.Done? ==>
                  && r.team == ix.byId[id] && after.byId == ix.byId - {id}
                  && Resolve(after, hash) == if hash == ix.byId[id].keyHash then None else Resolve(ix, hash))
  {
  }

  /** Gives a team this key. */
  predicate Grants(op: Op, hash: string) {
    (op.Rotate? && op.newHash == hash) || (op.Add? && op.team.keyHash == hash)
  }

  function Subject(op: Op): string {
    if op.Add? then op.team.id else op.id
  }

  lemma KeyAfterStep(ix: Index, op: Op, hash: string)
    requires Agrees(ix)
    ensures Resolve(ix, hash).None? && !Grants(op, hash) ==> Resolve(Step(ix, op).0, hash).None?
    ensures Resolve(ix, hash).Some? && Subject(op) != Resolve(ix, hash).value.id ==>
              Resolve(Step(ix, op).0, hash) == Resolve(ix, hash)
  {
    match op
    case Update(id, patch) =>
      if Updated(ix, id, patch).1.Done? { KeysAfterUpdate(ix, id, patch, hash); }
    case Rotate(id, newHash, masked, now) => KeysAfterRotation(ix, id, newHash, masked, now, hash);
    case Revoke(id) => KeysAfterRevocation(ix, id, hash);
    case Add(team) => KeysAfterAdding(ix, team, hash);
    case Remove(id) => KeysAfterRemoval(ix, id, hash);
  }

  /** Over every run: a key that leads nowhere, because it was revoked, replaced or never given,
      leads nowhere until it is given to a team again. */
  lemma {:induction false} DeadKeyStaysDead(ix: Index, ops: seq<Op>, hash: string)
    requires Agrees(ix) && Resolve(ix, hash).None?
    requires forall i :: 0 <= i < |ops| ==> !Grants(ops[i], hash)
    ensures Resolve(Run(ix, ops), hash).None?
  {
    if ops != [] {
      var before := ops[..|ops| - 1];
      DeadKeyStaysDead(ix, before, hash);
      RunKeepsAgreement(ix, before);
      KeyAfterStep(Run(ix, before), ops[|ops| - 1], hash);
    }
  }

  /** And a key that works keeps leading to the very same team for as long as no operation is
      about that team. */
  lemma {:induction false} LiveKeyStaysLive(ix: Index, ops: seq<Op>, hash: string, t: Team)
    requires Agrees(ix) && Resolve(ix, hash) == Some(t)
    requires forall i :: 0 <= i < |ops| ==> Subject(ops[i]) != t.id
    ensures Resolve(Run(ix, ops), hash) == Some(t)
  {
    if ops != [] {
      var before := ops[..|ops| - 1];
      LiveKeyStaysLive(ix, before, hash, t);
      RunKeepsAgreement(ix, before);
      KeyAfterStep(Run(ix, before), ops[|ops| - 1], hash);
    }
  }

  // ----- building -----

  ghost predicate DistinctHashes(teams: seq<Team>) {
    forall i, j :: 0 <= i < j < |teams| && teams[i].keyHash != "" ==> teams[i].keyHash != teams[j].keyHash
  }

  ghost predicate DistinctIds(teams: seq<Team>) {
    forall i, j :: 0 <= i < j < |teams| ==> teams[i].id != teams[j].id
  }

  /** A team with a key is followed by another team of the same identifier. */
  ghost predicate SomeKeyShadowed(teams: seq<Team>) {
    exists i, j :: 0 <= i < j < |teams| && teams[i].keyHash != "" && teams[i].id == teams[j].id
  }

  function Build(teams: seq<Team>): Index {
    if teams == [] then Index(map[], map[])
    else
      var ix, t := Build(teams[..|teams| - 1]), teams[|teams| - 1];
      Index(if t.keyHash == "" then ix.byHash else ix.byHash[t.keyHash := t], ix.byId[t.id := t])
  }

  /** The hash index holds exactly the teams with a key, each under its hash. */
  ghost predicate IndexesKeys(m: map<string, Team>, teams: seq<Team>) {
    && (forall h :: h in m ==> h != "" && m[h].keyHash == h && m[h] in teams)
    && forall t :: t in teams && t.keyHash != "" ==> t.keyHash in m && m[t.keyHash] == t
  }

  lemma IndexOneMore(m: map<string, Team>, teams: seq<Team>, t: Team)
    requires IndexesKeys(m, teams) && (t.keyHash != "" ==> t.keyHash !in m)
    ensures IndexesKeys(if t.keyHash == "" then m else m[t.keyHash := t], teams + [t])
  {
  }

  lemma {:induction false} BuiltHashes(teams: seq<Team>)
    requires DistinctHashes(teams)
    ensures IndexesKeys(Build(teams).byHash, teams)
  {
    if teams != [] {
      var before, t := teams[..|teams| - 1], teams[|teams| - 1];
      BuiltHashes(before);
      var m := Build(before).byHash;
      IndexOneMore(m, before, t);
      assert teams == before + [t];
    }
  }

  lemma {:induction false} BuiltIds(teams: seq<Team>)
    ensures var m := Build(teams).byId;
            && (forall id :: id in m ==> m[id].id == id && m[id] in teams)
            && forall t :: t in teams ==> t.id in m
  {
    if teams != [] {
      var before, t := teams[..|teams| - 1], teams[|teams| - 1];
      BuiltIds(before);
      assert teams == before + [t];
    }
  }

  lemma {:induction false} LastOfItsIdIsListed(teams: seq<Team>, i: nat)
    requires i < |teams| && forall j :: i < j < |teams| ==> teams[j].id != teams[i].id
    ensures Listed(Build(teams), teams[i])
  {
    if i < |teams| - 1 {
      LastOfItsIdIsListed(teams[..|teams| - 1], i);
    }
  }

  lemma {:induction false} ShadowedIsNotListed(teams: seq<Team>, i: nat, j: nat)
    requires i < j < |teams| && DistinctHashes(teams) && teams[i].keyHash != "" && teams[i].id == teams[j].id
    ensures !Listed(Build(teams), teams[i])
  {
    if j < |teams| - 1 {
      if teams[|teams| - 1].id != teams[i].id { ShadowedIsNotListed(teams[..|teams| - 1], i, j); }
    }
  }

  /** Adding one team to the build: it shares a key exactly when its hash is indexed. */
  lemma BuildOneMore(teams: seq<Team>, i: nat)
    requires i < |teams| && DistinctHashes(teams[..i])
    ensures Build(teams[..i + 1]) ==
            var ix, t := Build(teams[..i]), teams[i];
            Index(if t.keyHash == "" then ix.byHash else ix.byHash[t.keyHash := t], ix.byId[t.id := t])
    ensures teams[i].keyHash == "" || teams[i].keyHash !in Build(teams[..i]).byHash ==> DistinctHashes(teams[..i + 1])
    ensures teams[i].keyHash != "" && teams[i].keyHash in Build(teams[..i]).byHash ==> !DistinctHashes(teams)
  {
    var before, t := teams[..i], teams[i];
    assert teams[..i + 1] == before + [t] && teams[..i + 1][..i] == before;
    BuiltHashes(before);
    assert forall k :: 0 <= k < i ==> before[k] == teams[k];
    if t.keyHash != "" && t.keyHash in Build(before).byHash {
      var k :| 0 <= k < i && before[k] == Build(before).byHash[t.keyHash];
      assert teams[k].keyHash == t.keyHash;
    }
  }

  /** A freshly built registry agrees exactly when no key belongs to a team that a later
      team of the same identifier has replaced. */
  lemma BuildAgreesIff(teams: seq<Team>)
    requires DistinctHashes(teams)
    ensures Agrees(Build(teams)) <==> !SomeKeyShadowed(teams)
  {
    var ix := Build(teams);
    BuiltHashes(teams);
    BuiltIds(teams);
    if SomeKeyShadowed(teams) {
      var i, j :| 0 <= i < j < |teams| && teams[i].keyHash != "" && teams[i].id == teams[j].id;
      ShadowedIsNotListed(teams, i, j);
      assert ix.byHash[teams[i].keyHash] == teams[i];
    } else {
      forall h | h in ix.byHash ensures Listed(ix, ix.byHash[h]) {
        var i :| 0 <= i < |teams| && teams[i] == ix.byHash[h];
        LastOfItsIdIsListed(teams, i);
      }
    }
  }

  /** Over every sequence of operations from teams with distinct identifiers, a key
      resolves to a team exactly when a scan of the list finds that team. */
  lemma AuthenticationIsScan(teams: seq<Team>, ops: seq<Op>, hash: string, t: Team)
    requires DistinctHashes(teams) && DistinctIds(teams)
    ensures var ix := Run(Build(teams), ops);
            && (Resolve(ix, hash) == Some(t) <==> ScanFinds(ix, hash, t))
            && forall a, b :: ScanFinds(ix, hash, a) && ScanFinds(ix, hash, b) ==> a == b
  {
    BuildAgreesIff(teams);
    RunKeepsAgreement(Build(teams), ops);
    var ix := Run(Build(teams), ops);
    forall u ensures Resolve(ix, hash) == Some(u) <==> ScanFinds(ix, hash, u) { ResolveIsScan(ix, hash, u); }
  }

  // ----- the registry -----

  /** A published team. Requests hold references to these. */
  class Published {
    var value: Team

    constructor (value: Team)
      ensures this.value == value
    {
      this.value := value;
    }
  }

  ghost function Deref(m: map<string, Published>): map<string, Team>
    reads m.Values
  {
    map k | k in m :: m[k].value
  }

  lemma DerefPut(m: map<string, Published>, k: string, p: Published)
    ensures Deref(m[k := p]) == Deref(m)[k := p.value]
  {
  }

  lemma DerefDrop(m: map<string, Published>, ks: set<string>)
    ensures Deref(m - ks) == Deref(m) - ks
  {
  }

  /** No operation names a published team in its frame, so none is ever changed: a
      request keeps seeing the team it was given. */
  class Registry {
    var byHash: map<string, Published>
    var byId: map<string, Published>

    ghost function Value(): Index
      reads this, byHash.Values, byId.Values
    {
      Index(Deref(byHash), Deref(byId))
    }

    ghost predicate Valid()
      reads this, byHash.Values, byId.Values
    {
      Agrees(Value())
    }

    constructor ()
      ensures byHash == map[] && byId == map[] && Valid()
    {
      byHash, byId := map[], map[];
    }

    /** Indexes the teams, unless two of them share a key. */
    method Load(teams: seq<Team>) returns (ok: bool)
      modifies this
      ensures ok <==> DistinctHashes(teams)
      ensures ok ==> Value() == Build(teams) && (Valid() <==> !SomeKeyShadowed(teams))
      ensures !ok ==> byHash == old(byHash) && byId == old(byId)
    {
      var hashes: map<string, Published>, ids: map<string, Published> := map[], map[];
      for i := 0 to |teams|
        invariant DistinctHashes(teams[..i]) && byHash == old(byHash) && byId == old(byId)
        invariant Index(Deref(hashes), Deref(ids)) == Build(teams[..i])
      {
        var t := teams[i];
        BuildOneMore(teams, i);
        var team := new Published(t);
        DerefPut(ids, t.id, team);
        ids := ids[t.id := team];
        if t.keyHash == "" { continue; }
        if t.keyHash in hashes { return false; }
        DerefPut(hashes, t.keyHash, team);
        hashes := hashes[t.keyHash := team];
      }
      assert teams[..|teams|] == teams;
      byHash, byId := hashes, ids;
      BuildAgreesIff(teams);
      return true;
    }

    method Authenticate(hash: string) returns (team: Option<Published>)
      requires Valid()
      ensures team.Some? ==> ScanFinds(Value(), hash, team.value.value)
      ensures team.None? ==> forall t :: !ScanFinds(Value(), hash, t)
    {
      if hash in byHash && byHash[hash].value.keyHash != "" {
        assert Deref(byHash)[hash] == byHash[hash].value;
        return Some(byHash[hash]);
      }
      forall t ensures !ScanFinds(Value(), hash, t) { ResolveIsScan(Value(), hash, t); }
      return None;
    }

    method Get(id: string) returns (team: Option<Team>)
      requires Valid()
      ensures team.Some? <==> id in byId
      ensures team.Some? ==> team.value.id == id && Listed(Value(), team.value)
    {
      if id !in byId { return None; }
      assert Deref(byId)[id] == byId[id].value;
      return Some(byId[id].value);
    }

    /** Every team once, in some order. */
    method List() returns (out: seq<Team>)
      requires Valid()
      ensures |out| == |byId| && forall t :: t in out <==> Listed(Value(), t)
    {
      out := [];
      var todo := byId.Keys;
      ghost var ix := Value();
      while todo != {}
        invariant todo <= byId.Keys && |out| + |todo| == |byId.Keys|
        invariant forall t :: t in out <==> Listed(ix, t) && t.id !in todo
        decreases |todo|
      {
        var id :| id in todo;
        assert ix.byId[id] == byId[id].value && ix.byId[id].id == id;
        out := out + [byId[id].value];
        todo := todo - {id};
      }
    }

    /** Puts a fresh team under its identifier, forgets some hashes and may index its own. */
    method Publish(t: Team, forget: set<string>, keyed: bool)
      modifies this
      ensures Value() == var ix := old(Value());
                         var hashes := ix.byHash - forget;
                         Index(if keyed then hashes[t.keyHash := t] else hashes, ix.byId[t.id := t])
    {
      var team := new Published(t);
      DerefDrop(byHash, forget);
      DerefPut(byHash - forget, t.keyHash, team);
      DerefPut(byId, t.id, team);
      byHash := byHash - forget;
      byId := byId[t.id := team];
      if keyed { byHash := byHash[t.keyHash := team]; }
    }

    method Update(id: string, patch: Patch) returns (r: Outcome)
      requires Valid()
      modifies this
      ensures Valid() && (Value(), r) == Updated(old(Value()), id, patch)
    {
      ghost var ix := Value();
      UpdatedAgrees(ix, id, patch);
      if id !in byId { return UnknownTeam; }
      assert ix.byId[id] == byId[id].value;
      var updated := Apply(patch, byId[id].value);
      if updated.None? { return InvalidLimits; }
      Publish(updated.value, {}, true);
      assert ix.byHash - {} == ix.byHash;
      return Done(updated.value);
    }

    method RotateKey(id: string, newHash: string, masked: string, now: int) returns (r: Outcome)
      requires Valid()
      modifies this
      ensures Valid() && (Value(), r) == Rotated(old(Value()), id, newHash, masked, now)
    {
      ghost var ix := Value();
      RotatedAgrees(ix, id, newHash, masked, now);
      assert newHash in byHash ==> ix.byHash[newHash] == byHash[newHash].value;
      if id !in byId { return UnknownTeam; }
      if newHash == "" { return EmptyHash; }
      if newHash in byHash && byHash[newHash].value.id != id { return HashTaken; }
      assert ix.byId[id] == byId[id].value;
      var existing := byId[id].value;
      var t := WithKey(existing, newHash, masked, now);
      Publish(t, {existing.keyHash}, true);
      return Done(t);
    }

    method RevokeKey(id: string) returns (r: Outcome)
      requires Valid()
      modifies this
      ensures Valid() && (Value(), r) == Revoked(old(Value()), id)
    {
      ghost var ix := Value();
      RevokedAgrees(ix, id);
      if id !in byId { return UnknownTeam; }
      assert ix.byId[id] == byId[id].value;
      var existing := byId[id].value;
      var t := WithoutKey(existing);
      Publish(t, {existing.keyHash}, false);
      return Done(t);
    }

    method Add(t: Team) returns (r: Outcome)
      requires Valid()
      modifies this
      ensures Valid() && (Value(), r) == Added(old(Value()), t)
    {
      ghost var ix := Value();
      AddedAgrees(ix, t);
      if t.id in byId { return TeamExists; }
      if t.keyHash != "" && t.keyHash in byHash { return HashTaken; }
      Publish(t, {}, t.keyHash != "");
      assert ix.byHash - {} == ix.byHash;
      return Done(t);
    }

    method Drop(id: string, forget: set<string>)
      modifies this
      ensures Value() == Index(old(Value()).byHash - forget, old(Value()).byId - {id})
    {
      DerefDrop(byHash, forget);
      DerefDrop(byId, {id});
      byId, byHash := byId - {id}, byHash - forget;
    }

    method Remove(id: string) returns (r: Outcome)
      requires Valid()
      modifies this
      ensures Valid() && (Value(), r) == Removed(old(Value()), id)
    {
      ghost var ix := Value();
      RemovedAgrees(ix, id);
      if id !in byId { return UnknownTeam; }
      assert ix.byId[id] == byId[id].value;
      var existing := byId[id].value;
      Drop(id, if existing.keyHash != "" then {existing.keyHash} else {});
      assert ix.byHash - {} == ix.byHash;
      return Done(existing);
    }
  }
}
