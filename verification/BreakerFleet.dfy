/** Replicas whose breakers share one store. Each method call, with the store
    call it makes, is one atomic step; a store call may be lost or may report an
    error after it took effect. */
module BreakerFleet {
  import opened Prelude
  import opened BreakerMachine
  import opened BreakerStore

  /** The last refresh of the shared verdict: when, and what it read if it could. */
  datatype Cache = NoCache | Cached(at: int, verdict: Option<Shared>)

  datatype Replica = Replica(m: Machine, unpublished: bool, cache: Cache)

  function NewReplica(cfg: Config): Replica {
    Replica(Initial(cfg), false, NoCache)
  }

  predicate UsesStore(r: Replica) {
    !r.unpublished
  }

  /** The verdict to act on, from the cache while it is fresh and from the store otherwise. */
  function SharedVerdict(cfg: Config, r: Replica, s: Store, now: int, loaded: bool): (Replica, Option<Shared>) {
    if r.cache.Cached? && now - r.cache.at < cfg.stateCacheTTL then (r, r.cache.verdict)
    else
      var v := if loaded then Some(Load(s, now)) else None;
      (r.(cache := Cached(now, v)), v)
  }

  function Mirror(m: Machine, v: Shared, now: int): Machine {
    var m1 := if v.state != m.state then SetState(m, v.state, now) else m;
    m1.(reopens := v.reopens, successStreak := v.successes)
  }

  function AllowShared(cfg: Config, r0: Replica, s: Store, v: Shared, now: int, claim: Delivery): (Replica, Store, bool) {
    var r := r0.(m := Mirror(r0.m, v, now));
    match v.state
    case Closed => (r, s, true)
    case Open => (r, s, false)
    case HalfOpen =>
      var (s', won) := ClaimSharedProbe(s, cfg.probeTimeout, now);
      match claim
      case Delivered => (r, s', won)
      case AppliedButErrored => (r, s', false)
      case Lost => (r, s, false)
  }

  function Allowed(cfg: Config, r: Replica, s: Store, now: int, loaded: bool, claim: Delivery): (Replica, Store, bool) {
    if !UsesStore(r) then
      var (m, ok) := AllowLocal(cfg, r.m, now);
      (r.(m := m), s, ok)
    else
      var (r1, v) := SharedVerdict(cfg, r, s, now, loaded);
      if v.Some? then AllowShared(cfg, r1, s, v.value, now, claim)
      else
        var (m, ok) := AllowLocal(cfg, r1.m, now);
        (r1.(m := m), s, ok)
  }

  function PublishProbeSuccess(cfg: Config, r: Replica, s: Store, now: int, d: Delivery): (Replica, Store) {
    var (s', v) := RecordProbeSuccess(s, cfg.successThreshold, now);
    match d
    case Lost => (r.(cache := NoCache), s)
    case AppliedButErrored => (r.(cache := NoCache), s')
    case Delivered =>
      var m1 := r.m.(successStreak := v.successes);
      var m2 := if v.state != m1.state then SetState(m1, v.state, now) else m1;
      if v.state.Closed? then
        (Replica(m2.(reopens := 0, cooldown := cfg.cooldownBase), false, Cached(now, Some(v))), s')
      else
        (r.(m := m2, cache := Cached(now, Some(v))), s')
  }

  function Succeeded(cfg: Config, r: Replica, s: Store, now: int, d: Delivery): (Replica, Store) {
    if r.m.state.HalfOpen? && UsesStore(r) then
      PublishProbeSuccess(cfg, r.(m := ReleaseProbe(r.m)), s, now, d)
    else
      (r.(m := SuccessLocal(cfg, r.m, now)), s)
  }

  /** Whether a failure reported now begins an Open episode. */
  predicate Opens(cfg: Config, m: Machine, now: int) {
    !m.state.Open? && FailureLocal(cfg, m, now).state.Open?
  }

  function PublishOpen(r: Replica, s: Store, now: int, d: Delivery): (Replica, Store) {
    var s' := OpenEpisode(r.m.cooldown, r.m.reopens, now);
    match d
    case Delivered => (r.(unpublished := false, cache := Cached(now, Some(Shared(Open, r.m.reopens, 0)))), s')
    case AppliedButErrored => (r.(unpublished := true, cache := NoCache), s')
    case Lost => (r.(unpublished := true, cache := NoCache), s)
  }

  function Failed(cfg: Config, r: Replica, s: Store, now: int, d: Delivery): (Replica, Store) {
    var r' := r.(m := FailureLocal(cfg, r.m, now));
    if Opens(cfg, r.m, now) && UsesStore(r) then PublishOpen(r', s, now, d) else (r', s)
  }

  function ResetBy(cfg: Config, r: Replica, s: Store, now: int, d: Delivery): (Replica, Store) {
    (Replica(ResetLocal(cfg, r.m, now), false, Cached(now, Some(Shared(Closed, 0, 0)))),
     if d.Lost? then s else Cleared)
  }

  // ----- steps -----

  /** One call on one replica, with the fate of the store calls it may make. */
  datatype Call =
    | CallAllow(loaded: bool, claim: Delivery)
    | CallSuccess(publish: Delivery)
    | CallFailure(publish: Delivery)
    | CallReset(publish: Delivery)

  function Do(cfg: Config, r: Replica, s: Store, now: int, c: Call): (Replica, Store, bool) {
    match c
    case CallAllow(loaded, claim) => Allowed(cfg, r, s, now, loaded, claim)
    case CallSuccess(d) => var (r', s') := Succeeded(cfg, r, s, now, d); (r', s', false)
    case CallFailure(d) => var (r', s') := Failed(cfg, r, s, now, d); (r', s', false)
    case CallReset(d) => var (r', s') := ResetBy(cfg, r, s, now, d); (r', s', false)
  }

  // ----- after a failed publish -----

  /** What the same call is to a breaker without a store. */
  function LocalEvent(c: Call, now: int): Event {
    match c
    case CallAllow(_, _) => Allow(now)
    case CallSuccess(_) => Success(now)
    case CallFailure(_) => Failure(now)
    case CallReset(_) => Reset(now)
  }

  /** A call on one replica, at an instant, against whatever the store then holds. */
  datatype Visit = Visit(at: int, store: Store, call: Call)

  /** The answers of one replica to a sequence of visits, and how it ends up. */
  function Replay(cfg: Config, r: Replica, visits: seq<Visit>): (Replica, seq<bool>)
    decreases |visits|
  {
    if visits == [] then (r, [])
    else
      var v := visits[0];
      var (r', _, ok) := Do(cfg, r, v.store, v.at, v.call);
      var (last, oks) := Replay(cfg, r', visits[1..]);
      (last, [ok] + oks)
  }

  function ReplayLocal(cfg: Config, m: Machine, visits: seq<Visit>): (Machine, seq<bool>)
    decreases |visits|
  {
    if visits == [] then (m, [])
    else
      var v := visits[0];
      var (m', ok) := Step(cfg, m, LocalEvent(v.call, v.at));
      var (last, oks) := ReplayLocal(cfg, m', visits[1..]);
      (last, [ok] + oks)
  }

  /** A replica that could not publish its Open episode. */
  lemma FailedPublishDetaches(cfg: Config, r: Replica, s: Store, now: int, d: Delivery)
    requires UsesStore(r) && Opens(cfg, r.m, now)
    ensures var (r', _) := Failed(cfg, r, s, now, d);
            && r'.m == FailureLocal(cfg, r.m, now)
            && (r'.unpublished <==> !d.Delivered?)
  {
  }

  /** From then on, until it is reset, no sequence of calls and no state of the
      store tells it apart from a breaker that has no store: it answers alike,
      stays alike, writes nothing to the store and never rejoins by itself. */
  lemma {:induction false} DetachedIsLocal(cfg: Config, r: Replica, visits: seq<Visit>)
    requires r.unpublished
    requires forall i :: 0 <= i < |visits| ==> !visits[i].call.CallReset?
    ensures var (r', oks) := Replay(cfg, r, visits);
            && (r'.m, oks) == ReplayLocal(cfg, r.m, visits)
            && r'.unpublished && r'.cache == r.cache
    ensures forall i :: 0 <= i < |visits| ==>
              Do(cfg, Replay(cfg, r, visits[..i]).0, visits[i].store, visits[i].at, visits[i].call).1 == visits[i].store
    decreases |visits|
  {
    if visits != [] {
      var v := visits[0];
      var (r1, s1, ok) := Do(cfg, r, v.store, v.at, v.call);
      assert r1.unpublished && s1 == v.store && (r1.m, ok) == Step(cfg, r.m, LocalEvent(v.call, v.at));
      DetachedIsLocal(cfg, r1, visits[1..]);
      forall i | 0 <= i < |visits|
        ensures Do(cfg, Replay(cfg, r, visits[..i]).0, visits[i].store, visits[i].at, visits[i].call).1 == visits[i].store
      {
        if i > 0 {
          assert visits[..i][1..] == visits[1..][..i - 1];
          assert visits[i] == visits[1..][i - 1];
        } else {
          assert visits[..0] == [];
        }
      }
    }
  }

  // ----- many replicas -----

  datatype Fleet = Fleet(now: int, store: Store, replicas: seq<Replica>)

  datatype Move = Move(who: nat, at: int, call: Call)

  function Moved(cfg: Config, f: Fleet, mv: Move): (Fleet, bool)
    requires mv.who < |f.replicas|
  {
    var (r, s, ok) := Do(cfg, f.replicas[mv.who], f.store, mv.at, mv.call);
    (Fleet(mv.at, s, f.replicas[mv.who := r]), ok)
  }

  /** A run of the fleet: new replicas over a store in any state, then any calls in
      any order on a clock that does not run backwards. */
  ghost predicate IsRun(cfg: Config, fs: seq<Fleet>, moves: seq<Move>) {
    && |fs| == |moves| + 1
    && (forall k :: 0 <= k < |fs[0].replicas| ==> fs[0].replicas[k] == NewReplica(cfg))
    && forall i {:trigger moves[i]} :: 0 <= i < |moves| ==> IsMove(cfg, fs[i], moves[i], fs[i + 1])
  }

  ghost predicate IsMove(cfg: Config, f: Fleet, mv: Move, f': Fleet) {
    mv.who < |f.replicas| && f.now <= mv.at && f' == Moved(cfg, f, mv).0
  }

  /** Calls that put a verdict into the cache: a refresh, a published report, a reset. */
  predicate Installs(cfg: Config, r: Replica, now: int, c: Call) {
    match c
    case CallAllow(loaded, _) => UsesStore(r) && loaded && !(r.cache.Cached? && now - r.cache.at < cfg.stateCacheTTL)
    case CallSuccess(d) => UsesStore(r) && r.m.state.HalfOpen? && d.Delivered?
    case CallFailure(d) => UsesStore(r) && Opens(cfg, r.m, now) && d.Delivered?
    case CallReset(_) => true
  }

  ghost predicate Holds(r: Replica, at: int, state: State) {
    r.cache.Cached? && r.cache.at == at && r.cache.verdict.Some? && r.cache.verdict.value.state == state
  }

  /** A verdict put into the cache is what the store itself says right after the call. */
  ghost predicate Truthful(cfg: Config, r: Replica, s: Store, now: int, c: Call) {
    var (r', s', _) := Do(cfg, r, s, now, c);
    Installs(cfg, r, now, c) ==> Holds(r', now, Load(s', now).state)
  }

  /** A success that lands on an episode still Open, without completing its streak. */
  predicate LateSuccess(cfg: Config, r: Replica, s: Store, now: int, c: Call) {
    && c.CallSuccess? && c.publish.Delivered?
    && UsesStore(r) && r.m.state.HalfOpen?
    && Load(s, now).state.Open?
    && s.episode.value.successes + 1 < cfg.successThreshold
  }

  /** An episode whose cooldown is gone as soon as Redis truncates it to milliseconds. */
  predicate VoidEpisode(cfg: Config, r: Replica, s: Store, now: int, c: Call) {
    && c.CallFailure? && c.publish.Delivered?
    && UsesStore(r) && Opens(cfg, r.m, now)
    && NextCooldown(cfg, r.m.reopens + 1) < NS_PER_MS
  }

  /** A reset that never reached a store holding an episode. */
  predicate MissedReset(cfg: Config, r: Replica, s: Store, now: int, c: Call) {
    && c.CallReset? && c.publish.Lost?
    && !Load(s, now).state.Closed?
  }

  predicate Honest(cfg: Config, r: Replica, s: Store, now: int, c: Call) {
    !LateSuccess(cfg, r, s, now, c) && !VoidEpisode(cfg, r, s, now, c) && !MissedReset(cfg, r, s, now, c)
  }

  lemma FreshEpisodeVerdict(cooldown: int, reopens: int, now: int)
    requires cooldown > 0
    ensures Load(OpenEpisode(cooldown, reopens, now), now).state
            == if cooldown >= NS_PER_MS then Open else HalfOpen
  {
  }

  /** A call installs a verdict the store does not share in exactly three cases. */
  lemma TruthfulExactlyWhenHonest(cfg: Config, r: Replica, s: Store, now: int, c: Call)
    requires cfg.Valid()
    ensures Truthful(cfg, r, s, now, c) <==> Honest(cfg, r, s, now, c)
  {
  }

  /** What a call that installs a verdict leaves in the cache. */
  lemma InstalledState(cfg: Config, r: Replica, s: Store, now: int, c: Call)
    requires cfg.Valid() && Installs(cfg, r, now, c)
    ensures var (r', s', _) := Do(cfg, r, s, now, c);
            Holds(r', now, if LateSuccess(cfg, r, s, now, c) then HalfOpen
                           else if MissedReset(cfg, r, s, now, c) then Closed
                           else if VoidEpisode(cfg, r, s, now, c) then Open
                           else Load(s', now).state)
  {
    TruthfulExactlyWhenHonest(cfg, r, s, now, c);
  }

  /** For every state and every call that installs a verdict: while that verdict lasts and the
      store is Open, the replica's next call goes out if and only if the installing call was
      a late success or a missed reset. */
  lemma CachedVerdictAdmitsIff(cfg: Config, r: Replica, s: Store, t: int, c: Call, t': int)
    requires cfg.Valid() && Installs(cfg, r, t, c) && t <= t' < t + cfg.stateCacheTTL
    requires var (r', s', _) := Do(cfg, r, s, t, c); UsesStore(r') && Load(s', t').state.Open?
    ensures var (r', s', _) := Do(cfg, r, s, t, c);
            Allowed(cfg, r', s', t', true, Delivered).2 <==> LateSuccess(cfg, r, s, t, c) || MissedReset(cfg, r, s, t, c)
  {
  }

  // ----- where a cached verdict comes from -----

  predicate FreshAt(cfg: Config, r: Replica, now: int) {
    r.cache.Cached? && now - r.cache.at < cfg.stateCacheTTL
  }

  /** Calls that write the cache: those that install a verdict, and a refresh that fails. */
  predicate Writes(cfg: Config, r: Replica, now: int, c: Call) {
    Installs(cfg, r, now, c) || (c.CallAllow? && !c.loaded && UsesStore(r) && !FreshAt(cfg, r, now))
  }

  lemma CallOnCache(cfg: Config, r: Replica, s: Store, now: int, c: Call)
    ensures var r' := Do(cfg, r, s, now, c).0;
            if Writes(cfg, r, now, c)
            then r'.cache.Cached? && r'.cache.at == now && (r'.cache.verdict.None? <==> !Installs(cfg, r, now, c))
            else r'.cache == r.cache || r'.cache.NoCache?
  {
  }

  /** The move that wrote what a replica has cached. */
  ghost function Origin(cfg: Config, fs: seq<Fleet>, moves: seq<Move>, k: nat, n: nat): Option<nat>
    requires IsRun(cfg, fs, moves) && n < |fs|
  {
    if n == 0 then None
    else
      var before := Origin(cfg, fs, moves, k, n - 1);
      var mv := moves[n - 1];
      assert IsMove(cfg, fs[n - 1], mv, fs[n - 1 + 1]);
      if mv.who != k then before
      else if Writes(cfg, fs[n - 1].replicas[k], mv.at, mv.call) then Some(n - 1)
      else if fs[n].replicas[k].cache.NoCache? then None
      else before
  }

  /** Move o, of this replica, wrote the cache as it still is. */
  ghost predicate WroteCache(cfg: Config, fs: seq<Fleet>, moves: seq<Move>, k: nat, o: nat, cache: Cache)
    requires IsRun(cfg, fs, moves)
  {
    && o < |moves| && moves[o].who == k && IsMove(cfg, fs[o], moves[o], fs[o + 1])
    && Writes(cfg, fs[o].replicas[k], moves[o].at, moves[o].call)
    && cache == fs[o + 1].replicas[k].cache
  }

  lemma {:induction false} CacheHasOrigin(cfg: Config, fs: seq<Fleet>, moves: seq<Move>, k: nat, n: nat)
    requires IsRun(cfg, fs, moves) && n < |fs| && k < |fs[n].replicas|
    ensures var o, cache := Origin(cfg, fs, moves, k, n), fs[n].replicas[k].cache;
            if o.None? then cache.NoCache? else o.value < n && WroteCache(cfg, fs, moves, k, o.value, cache)
  {
    if n > 0 {
      var mv := moves[n - 1];
      assert IsMove(cfg, fs[n - 1], mv, fs[n - 1 + 1]);
      CacheHasOrigin(cfg, fs, moves, k, n - 1);
      if mv.who == k { CallOnCache(cfg, fs[n - 1].replicas[k], fs[n - 1].store, mv.at, mv.call); }
    }
  }

  /** The replica acting at n acts on a cached verdict, written by move o. */
  ghost predicate ActsOnCache(cfg: Config, fs: seq<Fleet>, moves: seq<Move>, n: nat, o: nat)
    requires IsRun(cfg, fs, moves) && n < |moves|
  {
    && IsMove(cfg, fs[n], moves[n], fs[n + 1])
    && FreshAt(cfg, fs[n].replicas[moves[n].who], moves[n].at)
    && Origin(cfg, fs, moves, moves[n].who, n) == Some(o)
  }

  lemma OriginIsRecent(cfg: Config, fs: seq<Fleet>, moves: seq<Move>, n: nat) returns (o: nat)
    requires IsRun(cfg, fs, moves) && n < |moves| && IsMove(cfg, fs[n], moves[n], fs[n + 1])
    requires FreshAt(cfg, fs[n].replicas[moves[n].who], moves[n].at)
    ensures o < n && ActsOnCache(cfg, fs, moves, n, o) && Lately(cfg, moves, n, o)
    ensures WroteCache(cfg, fs, moves, moves[n].who, o, fs[n].replicas[moves[n].who].cache)
    ensures fs[o + 1].now == moves[o].at == fs[n].replicas[moves[n].who].cache.at
  {
    var k := moves[n].who;
    CacheHasOrigin(cfg, fs, moves, k, n);
    o := Origin(cfg, fs, moves, k, n).value;
    assert IsMove(cfg, fs[o], moves[o], fs[o + 1]);
    CallOnCache(cfg, fs[o].replicas[k], fs[o].store, moves[o].at, moves[o].call);
  }

  // ----- every verdict acted on was the store's -----

  /** A move of the same replica, at most one cache lifetime before move n. */
  predicate Lately(cfg: Config, moves: seq<Move>, n: nat, i: nat)
    requires n < |moves|
  {
    i <= n && moves[i].who == moves[n].who && moves[n].at - moves[i].at < cfg.stateCacheTTL
  }

  ghost predicate HonestAt(cfg: Config, fs: seq<Fleet>, moves: seq<Move>, i: nat)
    requires IsRun(cfg, fs, moves) && i < |moves|
  {
    IsMove(cfg, fs[i], moves[i], fs[i + 1])
    && Honest(cfg, fs[i].replicas[moves[i].who], fs[i].store, moves[i].at, moves[i].call)
  }

  ghost predicate LateSuccessAt(cfg: Config, fs: seq<Fleet>, moves: seq<Move>, i: nat)
    requires IsRun(cfg, fs, moves) && i < |moves|
  {
    IsMove(cfg, fs[i], moves[i], fs[i + 1])
    && LateSuccess(cfg, fs[i].replicas[moves[i].who], fs[i].store, moves[i].at, moves[i].call)
  }

  ghost predicate MissedResetAt(cfg: Config, fs: seq<Fleet>, moves: seq<Move>, i: nat)
    requires IsRun(cfg, fs, moves) && i < |moves|
  {
    IsMove(cfg, fs[i], moves[i], fs[i + 1])
    && MissedReset(cfg, fs[i].replicas[moves[i].who], fs[i].store, moves[i].at, moves[i].call)
  }

  /** The verdict an attached replica's Allow acts on at this point of the run. */
  function ActsOn(cfg: Config, f: Fleet, mv: Move): Option<Shared>
    requires mv.who < |f.replicas| && mv.call.CallAllow?
  {
    SharedVerdict(cfg, f.replicas[mv.who], f.store, mv.at, mv.call.loaded).1
  }

  /** If none of a replica's own calls of the last cache lifetime was exceptional, the verdict
      it acts on was the store's own less than one cache lifetime earlier: now, or at an
      earlier moment of the run. */
  lemma VerdictsAreRecent(cfg: Config, fs: seq<Fleet>, moves: seq<Move>, n: nat)
    requires cfg.Valid() && IsRun(cfg, fs, moves) && n < |moves| && IsMove(cfg, fs[n], moves[n], fs[n + 1])
    requires moves[n].call.CallAllow? && UsesStore(fs[n].replicas[moves[n].who])
    requires forall i :: 0 <= i < n && Lately(cfg, moves, n, i) ==> HonestAt(cfg, fs, moves, i)
    ensures var v := ActsOn(cfg, fs[n], moves[n]);
            v.Some? ==>
              || v.value == Load(fs[n].store, moves[n].at)
              || exists j :: 0 <= j <= n && moves[n].at - fs[j].now < cfg.stateCacheTTL
                             && Load(fs[j].store, fs[j].now).state == v.value.state
  {
    var r := fs[n].replicas[moves[n].who];
    if FreshAt(cfg, r, moves[n].at) && r.cache.verdict.Some? {
      var o := OriginIsRecent(cfg, fs, moves, n);
      assert HonestAt(cfg, fs, moves, o);
      CallOnCache(cfg, fs[o].replicas[moves[o].who], fs[o].store, moves[o].at, moves[o].call);
      TruthfulExactlyWhenHonest(cfg, fs[o].replicas[moves[o].who], fs[o].store, moves[o].at, moves[o].call);
      var j := o + 1;
      assert Load(fs[j].store, fs[j].now).state == r.cache.verdict.value.state;
    }
  }

  /** Reads that fail send a replica back to its own machine; its own of the last cache
      lifetime did not. */
  ghost predicate ReadsLately(cfg: Config, moves: seq<Move>, n: nat)
    requires n < |moves|
  {
    forall i :: 0 <= i <= n && Lately(cfg, moves, n, i) && moves[i].call.CallAllow? ==> moves[i].call.loaded
  }

  /** The store has been Open for a cache lifetime. */
  ghost predicate OpenLately(cfg: Config, fs: seq<Fleet>, moves: seq<Move>, n: nat)
    requires n < |moves| && n < |fs|
  {
    && Load(fs[n].store, moves[n].at).state.Open?
    && forall j :: 0 <= j <= n && moves[n].at - fs[j].now < cfg.stateCacheTTL ==> Load(fs[j].store, fs[j].now).state.Open?
  }

  /** The replica still acts on what a missed reset left in its cache, or on what a late success
      left there and then wins the free slot. */
  ghost predicate Misled(cfg: Config, fs: seq<Fleet>, moves: seq<Move>, n: nat, o: nat)
    requires IsRun(cfg, fs, moves) && o < n < |moves|
  {
    && ActsOnCache(cfg, fs, moves, n, o) && moves[n].call.CallAllow?
    && (|| MissedResetAt(cfg, fs, moves, o)
        || (&& LateSuccessAt(cfg, fs, moves, o) && moves[n].call.claim.Delivered?
            && ClaimSharedProbe(fs[n].store, cfg.probeTimeout, moves[n].at).1))
  }

  /** What the verdict written by move o lets through while the store is Open. */
  lemma OpenOriginDecides(cfg: Config, fs: seq<Fleet>, moves: seq<Move>, n: nat, o: nat)
    requires cfg.Valid() && IsRun(cfg, fs, moves) && o < n < |moves| && ActsOnCache(cfg, fs, moves, n, o)
    requires WroteCache(cfg, fs, moves, moves[n].who, o, fs[n].replicas[moves[n].who].cache)
    requires moves[n].call.CallAllow? && UsesStore(fs[n].replicas[moves[n].who])
    requires Installs(cfg, fs[o].replicas[moves[n].who], moves[o].at, moves[o].call)
    requires Load(fs[o + 1].store, moves[o].at).state.Open?
    ensures Moved(cfg, fs[n], moves[n]).1 <==> Misled(cfg, fs, moves, n, o)
  {
    assert IsMove(cfg, fs[o], moves[o], fs[o + 1]);
    InstalledState(cfg, fs[o].replicas[moves[n].who], fs[o].store, moves[o].at, moves[o].call);
  }

  /** Over every run: once the store has been Open for a cache lifetime, and with the replica's
      own reads of that lifetime successful, an attached replica admits a call if and only if
      what it still acts on was left by a missed reset or a late success of its own. */
  lemma AdmitsWhileOpenIff(cfg: Config, fs: seq<Fleet>, moves: seq<Move>, n: nat)
    requires cfg.Valid() && IsRun(cfg, fs, moves) && n < |moves| && IsMove(cfg, fs[n], moves[n], fs[n + 1])
    requires UsesStore(fs[n].replicas[moves[n].who]) && ReadsLately(cfg, moves, n) && OpenLately(cfg, fs, moves, n)
    ensures Moved(cfg, fs[n], moves[n]).1 <==> exists o :: 0 <= o < n && Misled(cfg, fs, moves, n, o)
  {
    var k := moves[n].who;
    if moves[n].call.CallAllow? {
      assert Lately(cfg, moves, n, n);
      if FreshAt(cfg, fs[n].replicas[k], moves[n].at) {
        var o := OriginIsRecent(cfg, fs, moves, n);
        var j := o + 1;
        assert Load(fs[j].store, fs[j].now).state.Open?;
        OpenOriginDecides(cfg, fs, moves, n, o);
        assert forall p :: 0 <= p < n && Misled(cfg, fs, moves, n, p) ==> p == o;
      }
    }
  }

  /** So none does, unless a call of its own in that lifetime was a late success or a missed
      reset; older ones, other replicas' and void episodes do no harm. */
  lemma OpenStopsTheFleet(cfg: Config, fs: seq<Fleet>, moves: seq<Move>, n: nat)
    requires cfg.Valid() && IsRun(cfg, fs, moves) && n < |moves| && IsMove(cfg, fs[n], moves[n], fs[n + 1])
    requires UsesStore(fs[n].replicas[moves[n].who]) && ReadsLately(cfg, moves, n) && OpenLately(cfg, fs, moves, n)
    requires forall i :: 0 <= i < n && Lately(cfg, moves, n, i) ==>
               !LateSuccessAt(cfg, fs, moves, i) && !MissedResetAt(cfg, fs, moves, i)
    ensures !Moved(cfg, fs[n], moves[n]).1
  {
    AdmitsWhileOpenIff(cfg, fs, moves, n);
    forall o | 0 <= o < n ensures !Misled(cfg, fs, moves, n, o) {
      if ActsOnCache(cfg, fs, moves, n, o) {
        var p := OriginIsRecent(cfg, fs, moves, n);
        assert p == o;
      }
    }
  }

  /** What an attached replica's Allow does with the verdict it acts on: it takes the verdict's
      state and count over, and admits the call if the verdict is Closed, or HalfOpen and it is
      told that it won the free slot. */
  lemma AdmitsByVerdict(cfg: Config, f: Fleet, mv: Move)
    requires mv.who < |f.replicas| && mv.call.CallAllow? && UsesStore(f.replicas[mv.who]) && ActsOn(cfg, f, mv).Some?
    ensures var v, (f', ok) := ActsOn(cfg, f, mv).value, Moved(cfg, f, mv);
            var m := f'.replicas[mv.who].m;
            && m.state == v.state && m.reopens == v.reopens && m.successStreak == v.successes
            && (ok <==> v.state.Closed?
                        || (v.state.HalfOpen? && mv.call.claim.Delivered?
                            && ClaimSharedProbe(f.store, cfg.probeTimeout, mv.at).1))
            && (!v.state.HalfOpen? ==> f'.store == f.store)
  {
  }

  /** The store has been Closed for a cache lifetime. */
  ghost predicate ClosedLately(cfg: Config, fs: seq<Fleet>, moves: seq<Move>, n: nat)
    requires n < |moves| && n < |fs|
  {
    && Load(fs[n].store, moves[n].at).state.Closed?
    && forall j :: 0 <= j <= n && moves[n].at - fs[j].now < cfg.stateCacheTTL ==> Load(fs[j].store, fs[j].now).state.Closed?
  }

  lemma ClosedOriginIsClosed(cfg: Config, fs: seq<Fleet>, moves: seq<Move>, n: nat, o: nat)
    requires cfg.Valid() && IsRun(cfg, fs, moves) && o < n < |moves|
    requires WroteCache(cfg, fs, moves, moves[n].who, o, fs[n].replicas[moves[n].who].cache)
    requires Installs(cfg, fs[o].replicas[moves[n].who], moves[o].at, moves[o].call)
    requires Load(fs[o + 1].store, moves[o].at).state.Closed?
    ensures moves[n].who < |fs[n].replicas| ==> Holds(fs[n].replicas[moves[n].who], moves[o].at, Closed)
  {
    assert IsMove(cfg, fs[o], moves[o], fs[o + 1]);
    var r, st := fs[o].replicas[moves[n].who], fs[o].store;
    InstalledState(cfg, r, st, moves[o].at, moves[o].call);
    if moves[o].call.CallFailure? {
      FreshEpisodeVerdict(NextCooldown(cfg, r.m.reopens + 1), r.m.reopens + 1, moves[o].at);
    }
  }

  /** Over every run, once the store has been Closed for a cache lifetime, an attached replica
      whose reads succeeded in it admits every call. */
  lemma ClosedStoreAdmits(cfg: Config, fs: seq<Fleet>, moves: seq<Move>, n: nat)
    requires cfg.Valid() && IsRun(cfg, fs, moves) && n < |moves| && IsMove(cfg, fs[n], moves[n], fs[n + 1])
    requires UsesStore(fs[n].replicas[moves[n].who]) && ReadsLately(cfg, moves, n) && ClosedLately(cfg, fs, moves, n)
    requires moves[n].call.CallAllow?
    ensures Moved(cfg, fs[n], moves[n]).1
  {
    assert Lately(cfg, moves, n, n);
    if FreshAt(cfg, fs[n].replicas[moves[n].who], moves[n].at) {
      var o := OriginIsRecent(cfg, fs, moves, n);
      var j := o + 1;
      assert Load(fs[j].store, fs[j].now).state.Closed?;
      CallOnCache(cfg, fs[o].replicas[moves[o].who], fs[o].store, moves[o].at, moves[o].call);
      ClosedOriginIsClosed(cfg, fs, moves, n, o);
    }
    AdmitsByVerdict(cfg, fs[n], moves[n]);
  }

  /** A reset leaves its replica Closed, attached, without memory of failures or episodes and
      with a Closed verdict cached; and the store Closed with a free slot, unless it was lost. */
  lemma ResetStartsAfresh(cfg: Config, r: Replica, s: Store, now: int, d: Delivery, t: int)
    ensures var (r', s') := ResetBy(cfg, r, s, now, d);
            && r'.m.state.Closed? && r'.m.failures == [] && r'.m.reopens == 0 && !r'.m.probeInFlight && UsesStore(r')
            && Holds(r', now, Closed)
            && (d.Lost? ==> s' == s)
            && (!d.Lost? ==> Load(s', t) == Shared(Closed, 0, 0) && forall ttl :: ClaimSharedProbe(s', ttl, t).1)
  {
  }

  // ----- what a late success does -----

  ghost predicate ReadsSucceed(moves: seq<Move>) {
    forall i :: 0 <= i < |moves| && moves[i].call.CallAllow? ==> moves[i].call.loaded
  }

  /** A run whose reads all succeed, at the end of which an attached replica admits
      a call although the store has been Open for a whole cache lifetime. */
  ghost predicate AdmitsWhileOpen(cfg: Config, fs: seq<Fleet>, moves: seq<Move>) {
    && IsRun(cfg, fs, moves) && ReadsSucceed(moves) && moves != []
    && var n := |moves| - 1;
    && IsMove(cfg, fs[n], moves[n], fs[n + 1]) && UsesStore(fs[n].replicas[moves[n].who])
    && Load(fs[n].store, moves[n].at).state.Open?
    && (forall j :: 0 <= j <= n && moves[n].at - fs[j].now < cfg.stateCacheTTL ==>
                      Load(fs[j].store, fs[j].now).state.Open?)
    && Moved(cfg, fs[n], moves[n]).1
  }

  const LateConfig := Config(1, 1_000_000_000, 1_000_000_000, 10_000_000_000, 2, 60_000_000_000, 100_000_000)

  /** Replica 1 opens the breaker; replica 0 wins the probe; replica 1's own late
      failure reopens it; replica 0's probe then succeeds, and its next call goes out. */
  const LateMoves := [
    Move(1, 0, CallFailure(Delivered)),
    Move(0, 1_000_000_000, CallAllow(true, Delivered)),
    Move(1, 1_100_000_000, CallAllow(true, Delivered)),
    Move(1, 1_200_000_000, CallFailure(Delivered)),
    Move(0, 2_000_000_000, CallSuccess(Delivered)),
    Move(0, 2_050_000_000, CallAllow(true, Delivered))]

  const Probing := Machine(HalfOpen, [], 0, false, 0, 0, 1_000_000_000, 1)
  const Prober := Replica(Probing, false, Cached(1_000_000_000, Some(Shared(HalfOpen, 1, 0))))
  const Opener := Replica(Probing.(state := Open), false, Cached(0, Some(Shared(Open, 1, 0))))
  const Reopener := Replica(Machine(Open, [], 0, false, 0, 1_200_000_000, 2_000_000_000, 2), false,
                            Cached(1_200_000_000, Some(Shared(Open, 2, 0))))
  const FirstEpisode := Episode(1000, 1, 0, 601_000)
  const SecondEpisode := Episode(3200, 2, 0, 603_200)
  const StaleReply := Cached(2_000_000_000, Some(Shared(HalfOpen, 0, 1)))

  const Late0 := Fleet(0, Cleared, [NewReplica(LateConfig), NewReplica(LateConfig)])
  const Late1 := Fleet(0, Store(Some(FirstEpisode), None), [NewReplica(LateConfig), Opener])
  const Late2 := Fleet(1_000_000_000, Store(Some(FirstEpisode), Some(61_000)), [Prober, Opener])
  const Late3 := Fleet(1_100_000_000, Store(Some(FirstEpisode), Some(61_000)),
                       [Prober, Prober.(cache := Cached(1_100_000_000, Some(Shared(HalfOpen, 1, 0))))])
  const Late4 := Fleet(1_200_000_000, Store(Some(SecondEpisode), None), [Prober, Reopener])
  const Late5 := Fleet(2_000_000_000, Store(Some(SecondEpisode.(successes := 1)), None),
                       [Replica(Probing.(successStreak := 1), false, StaleReply), Reopener])
  const Late6 := Fleet(2_050_000_000, Store(Some(SecondEpisode.(successes := 1)), Some(62_050)),
                       [Replica(Probing.(successStreak := 1, reopens := 0), false, StaleReply), Reopener])

  /** The step of one replica is the step of the fleet. */
  lemma MoveOf(cfg: Config, f: Fleet, mv: Move, f': Fleet)
    requires mv.who < |f.replicas| == |f'.replicas| && f.now <= mv.at == f'.now
    requires f'.replicas == f.replicas[mv.who := f'.replicas[mv.who]]
    requires var (r, s, _) := Do(cfg, f.replicas[mv.who], f.store, mv.at, mv.call);
             r == f'.replicas[mv.who] && s == f'.store
    ensures IsMove(cfg, f, mv, f')
  {
  }

  lemma LateOpen()
    ensures IsMove(LateConfig, Late0, LateMoves[0], Late1)
  {
    assert PruneBefore([0], -1_000_000_000) == [0] && Pow2(0) == 1;
    MoveOf(LateConfig, Late0, LateMoves[0], Late1);
  }

  lemma LateProbe()
    ensures IsMove(LateConfig, Late1, LateMoves[1], Late2)
  {
  }

  lemma LateRefusal()
    ensures IsMove(LateConfig, Late2, LateMoves[2], Late3)
  {
  }

  lemma LateReopen()
    ensures IsMove(LateConfig, Late3, LateMoves[3], Late4)
  {
    assert Pow2(1) == 2;
    MoveOf(LateConfig, Late3, LateMoves[3], Late4);
  }

  lemma LateReport()
    ensures IsMove(LateConfig, Late4, LateMoves[4], Late5)
  {
  }

  lemma LateAdmission()
    ensures IsMove(LateConfig, Late5, LateMoves[5], Late6) && Moved(LateConfig, Late5, LateMoves[5]).1
  {
  }

  const LateFleets := [Late0, Late1, Late2, Late3, Late4, Late5, Late6]

  lemma LateIsRun()
    ensures IsRun(LateConfig, LateFleets, LateMoves)
  {
    forall i {:trigger LateMoves[i]} | 0 <= i < |LateMoves|
      ensures IsMove(LateConfig, LateFleets[i], LateMoves[i], LateFleets[i + 1])
    {
      if i == 0 { LateOpen(); }
      else if i == 1 { LateProbe(); }
      else if i == 2 { LateRefusal(); }
      else if i == 3 { LateReopen(); }
      else if i == 4 { LateReport(); }
      else { LateAdmission(); }
    }
  }

  lemma LateStoreIsOpen()
    ensures Load(Late5.store, 2_050_000_000).state.Open?
    ensures forall j :: 0 <= j <= 5 && 2_050_000_000 - LateFleets[j].now < LateConfig.stateCacheTTL ==>
              Load(LateFleets[j].store, LateFleets[j].now).state.Open?
  {
  }

  ghost predicate OnlyLateSuccess(cfg: Config, fs: seq<Fleet>, moves: seq<Move>, at: nat)
    requires IsRun(cfg, fs, moves) && at < |moves|
  {
    forall i {:trigger moves[i]} :: 0 <= i < |moves| ==>
      && IsMove(cfg, fs[i], moves[i], fs[i + 1])
      && var r := fs[i].replicas[moves[i].who];
      && (i == at ==> LateSuccess(cfg, r, fs[i].store, moves[i].at, moves[i].call))
      && (i != at ==> Honest(cfg, r, fs[i].store, moves[i].at, moves[i].call))
  }

  lemma LateIsOnlyDishonest()
    requires IsRun(LateConfig, LateFleets, LateMoves)
    ensures OnlyLateSuccess(LateConfig, LateFleets, LateMoves, 4)
  {
    forall i {:trigger LateMoves[i]} | 0 <= i < |LateMoves|
      ensures IsMove(LateConfig, LateFleets[i], LateMoves[i], LateFleets[i + 1])
      ensures var r := LateFleets[i].replicas[LateMoves[i].who];
              && (i == 4 ==> LateSuccess(LateConfig, r, LateFleets[i].store, LateMoves[i].at, LateMoves[i].call))
              && (i != 4 ==> Honest(LateConfig, r, LateFleets[i].store, LateMoves[i].at, LateMoves[i].call))
    {
      if i == 0 { LateOpen(); assert Pow2(0) == 1; }
      else if i == 3 { LateReopen(); assert Pow2(1) == 2; }
      else if i == 4 { LateReport(); }
    }
  }

  /** Such a run exists, and its fifth call, the late success, is its only dishonest one. */
  lemma LateSuccessAdmitsWhileOpen()
    ensures exists fs :: AdmitsWhileOpen(LateConfig, fs, LateMoves) && OnlyLateSuccess(LateConfig, fs, LateMoves, 4)
  {
    LateIsRun();
    LateIsOnlyDishonest();
    LateStoreIsOpen();
    LateAdmission();
    assert LateFleets[5] == Late5 && LateFleets[6] == Late6;
    assert AdmitsWhileOpen(LateConfig, LateFleets, LateMoves);
  }
}
