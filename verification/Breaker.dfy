/** The breaker as the gateway runs it: fields changed in place, one store call
    at most per decision. Every method is proved to take the step of the machine,
    or of the replica, that the run theorems are about. */
module Breaker {
  import opened Prelude
  import opened BreakerMachine
  import opened BreakerStore
  import opened BreakerFleet

  /** The keys of one provider and model in Redis. */
  class RedisStore {
    var episode: Option<Episode>
    var probeUntilMs: Option<int>

    function Value(): Store
      reads this
    {
      Store(episode, probeUntilMs)
    }

    constructor ()
      ensures Value() == Cleared
    {
      episode, probeUntilMs := None, None;
    }

    method Open(cooldown: int, reopens: int, now: int, d: Delivery) returns (ok: bool)
      modifies this
      ensures ok == d.Delivered?
      ensures Value() == if d.Lost? then old(Value()) else OpenEpisode(cooldown, reopens, now)
    {
      ok := d.Delivered?;
      if d.Lost? { return; }
      episode := Some(Episode(Ms(now) + Ms(cooldown), reopens, 0, Ms(now) + Ms(cooldown + STATE_TTL_SLACK)));
      probeUntilMs := None;
    }

    method ProbeSuccess(threshold: int, now: int, d: Delivery) returns (reply: Option<Shared>)
      modifies this
      ensures Value() == if d.Lost? then old(Value()) else RecordProbeSuccess(old(Value()), threshold, now).0
      ensures reply == if d.Delivered? then Some(RecordProbeSuccess(old(Value()), threshold, now).1) else None
    {
      if d.Lost? { return None; }
      var verdict;
      if !Live(Value(), now) {
        episode, verdict := None, Shared(Closed, 0, 0);
      } else {
        var n := episode.value.successes + 1;
        if n >= threshold {
          episode, verdict := None, Shared(Closed, 0, n);
        } else {
          episode, verdict := Some(episode.value.(successes := n)), Shared(HalfOpen, 0, n);
        }
      }
      probeUntilMs := None;
      reply := if d.Delivered? then Some(verdict) else None;
    }

    method Claim(ttl: int, now: int, d: Delivery) returns (won: bool)
      modifies this
      ensures Value() == if d.Lost? then old(Value()) else ClaimSharedProbe(old(Value()), ttl, now).0
      ensures won == (d.Delivered? && ClaimSharedProbe(old(Value()), ttl, now).1)
    {
      won := false;
      if d.Lost? || (probeUntilMs.Some? && Ms(now) <= probeUntilMs.value) { return; }
      probeUntilMs := Some(Ms(now) + if ttl < NS_PER_MS then 1 else Ms(ttl));
      won := d.Delivered?;
    }

    method Clear(d: Delivery) returns (ok: bool)
      modifies this
      ensures ok == d.Delivered?
      ensures Value() == if d.Lost? then old(Value()) else Cleared
    {
      ok := d.Delivered?;
      if !d.Lost? { episode, probeUntilMs := None, None; }
    }
  }

  class CircuitBreaker {
    const cfg: Config
    const store: RedisStore?

    var state: State
    var failures: seq<int>
    var successStreak: int
    var probeInFlight: bool
    var probeStartedAt: int
    var openedAt: int
    var cooldown: int
    var reopens: int
    var unpublished: bool
    var cached: Option<Shared>
    var cachedAt: Option<int>

    function Local(): Machine
      reads this
    {
      Machine(state, failures, successStreak, probeInFlight, probeStartedAt, openedAt, cooldown, reopens)
    }

    function View(): Replica
      reads this
    {
      Replica(Local(), unpublished, if cachedAt.None? then NoCache else Cached(cachedAt.value, cached))
    }

    constructor (cfg: Config, store: RedisStore?)
      requires cfg.Valid()
      ensures this.cfg == cfg && this.store == store
      ensures View() == NewReplica(cfg)
    {
      this.cfg, this.store := cfg, store;
      state, failures, successStreak := Closed, [], 0;
      probeInFlight, probeStartedAt, openedAt := false, 0, 0;
      cooldown, reopens := cfg.cooldownBase, 0;
      unpublished, cached, cachedAt := false, None, None;
    }

    /** Advances over the stale prefix of the window. */
    static method Prune(ts: seq<int>, cutoff: int) returns (kept: seq<int>)
      ensures kept == PruneBefore(ts, cutoff)
    {
      var i := 0;
      while i < |ts| && ts[i] < cutoff
        invariant 0 <= i <= |ts|
        invariant PruneBefore(ts, cutoff) == PruneBefore(ts[i..], cutoff)
      {
        assert ts[i..][1..] == ts[i + 1..];
        i := i + 1;
      }
      return ts[i..];
    }

    method Transition(next: State, now: int)
      modifies this
      ensures View() == old(View()).(m := SetState(old(Local()), next, now))
    {
      state := next;
      if next.Open? { openedAt := now; }
      probeInFlight := false;
    }

    method AllowAlone(now: int) returns (ok: bool)
      modifies this
      ensures (Local(), ok) == AllowLocal(cfg, old(Local()), now)
      ensures View() == old(View()).(m := Local())
    {
      if state.Open? && now - openedAt >= cooldown { Transition(HalfOpen, now); }
      match state
      case Closed => ok := true;
      case Open => ok := false;
      case HalfOpen =>
        if probeInFlight && now - probeStartedAt < cfg.probeTimeout { return false; }
        probeInFlight, probeStartedAt := true, now;
        ok := true;
    }

    method Refresh(now: int, loaded: bool) returns (verdict: Option<Shared>)
      requires store != null
      modifies this
      ensures (View(), verdict) == SharedVerdict(cfg, old(View()), store.Value(), now, loaded)
    {
      if cachedAt.Some? && now - cachedAt.value < cfg.stateCacheTTL { return cached; }
      cachedAt := Some(now);
      cached := if loaded then Some(Load(store.Value(), now)) else None;
      verdict := cached;
    }

    method AllowWith(verdict: Shared, now: int, claim: Delivery) returns (ok: bool)
      requires store != null
      modifies this, store
      ensures (View(), store.Value(), ok) == AllowShared(cfg, old(View()), old(store.Value()), verdict, now, claim)
    {
      if verdict.state != state { Transition(verdict.state, now); }
      reopens, successStreak := verdict.reopens, verdict.successes;
      match verdict.state
      case Closed => ok := true;
      case Open => ok := false;
      case HalfOpen => ok := store.Claim(cfg.probeTimeout, now, claim);
    }

    method Allow(now: int, loaded: bool, claim: Delivery) returns (ok: bool)
      modifies this, store
      ensures store != null ==>
                (View(), store.Value(), ok) == Allowed(cfg, old(View()), old(store.Value()), now, loaded, claim)
      ensures store == null ==> (Local(), ok) == AllowLocal(cfg, old(Local()), now)
    {
      if store != null && !unpublished {
        var verdict := Refresh(now, loaded);
        if verdict.Some? {
          ok := AllowWith(verdict.value, now, claim);
          return;
        }
      }
      ok := AllowAlone(now);
    }

    method PublishSuccess(now: int, d: Delivery)
      requires store != null && !unpublished
      modifies this, store
      ensures (View(), store.Value()) == PublishProbeSuccess(cfg, old(View()), old(store.Value()), now, d)
    {
      var reply := store.ProbeSuccess(cfg.successThreshold, now, d);
      if reply.None? {
        cachedAt := None;
        return;
      }
      var verdict := reply.value;
      cached, cachedAt := reply, Some(now);
      successStreak := verdict.successes;
      if verdict.state != state { Transition(verdict.state, now); }
      if verdict.state.Closed? {
        reopens, cooldown, unpublished := 0, cfg.cooldownBase, false;
      }
    }

    method RecordSuccess(now: int, d: Delivery)
      modifies this, store
      ensures store != null ==> (View(), store.Value()) == Succeeded(cfg, old(View()), old(store.Value()), now, d)
      ensures store == null ==> Local() == SuccessLocal(cfg, old(Local()), now)
    {
      probeInFlight := false;
      if !state.HalfOpen? { return; }
      if store != null && !unpublished {
        PublishSuccess(now, d);
        return;
      }
      successStreak := successStreak + 1;
      if successStreak >= cfg.successThreshold {
        reopens, cooldown := 0, cfg.cooldownBase;
        Transition(Closed, now);
      }
    }

    method OpenBreaker(now: int)
      modifies this
      ensures View() == old(View()).(m := OpenUp(cfg, old(Local()), now))
    {
      reopens := reopens + 1;
      cooldown := NextCooldown(cfg, reopens);
      successStreak, failures := 0, [];
      Transition(Open, now);
    }

    /** Applies a failure to this replica alone, and tells whether it opened an episode. */
    method FailAlone(now: int) returns (began: bool)
      modifies this
      ensures View() == old(View()).(m := FailureLocal(cfg, old(Local()), now))
      ensures began == Opens(cfg, old(Local()), now)
    {
      probeInFlight := false;
      if state.Open? { return false; }
      if state.Closed? {
        failures := Prune(failures + [now], now - cfg.window);
        if |failures| < cfg.failureThreshold { return false; }
      }
      OpenBreaker(now);
      began := true;
    }

    method RecordFailure(now: int, d: Delivery)
      modifies this, store
      ensures store != null ==> (View(), store.Value()) == Failed(cfg, old(View()), old(store.Value()), now, d)
      ensures store == null ==> Local() == FailureLocal(cfg, old(Local()), now)
    {
      var began := FailAlone(now);
      if began && store != null && !unpublished {
        var ok := store.Open(cooldown, reopens, now, d);
        if !ok {
          unpublished, cachedAt := true, None;
          return;
        }
        cached, cachedAt, unpublished := Some(Shared(Open, reopens, 0)), Some(now), false;
      }
    }

    method Reset(now: int, d: Delivery) returns (ok: bool)
      modifies this, store
      ensures ok == (store == null || d.Delivered?)
      ensures store != null ==> (View(), store.Value()) == ResetBy(cfg, old(View()), old(store.Value()), now, d)
      ensures store == null ==> Local() == ResetLocal(cfg, old(Local()), now)
    {
      ok := true;
      if store != null {
        ok := store.Clear(d);
        cached, cachedAt := Some(Shared(Closed, 0, 0)), Some(now);
      }
      failures, successStreak, reopens, cooldown := [], 0, 0, cfg.cooldownBase;
      probeInFlight, unpublished := false, false;
      if !state.Closed? { Transition(Closed, now); }
    }
  }
}
