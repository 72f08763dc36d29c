/** The state breakers of several replicas share in Redis: one episode hash and
    one probe key per provider and model, each changed only by an atomic script.
    Redis keeps milliseconds; callers pass nanoseconds. */
module BreakerStore {
  import opened Prelude
  import opened BreakerMachine

  /** A verdict as the scripts reply it. */
  datatype Shared = Shared(state: State, reopens: int, successes: int)

  datatype Episode = Episode(untilMs: int, reopens: int, successes: int, expiresMs: int)

  datatype Store = Store(episode: Option<Episode>, probeUntilMs: Option<int>)

  const NS_PER_MS: int := 1_000_000
  const STATE_TTL_SLACK: int := 600_000_000_000

  function Ms(ns: int): int {
    ns / NS_PER_MS
  }

  predicate Live(s: Store, now: int) {
    s.episode.Some? && Ms(now) <= s.episode.value.expiresMs
  }

  /** The load script: no episode is Closed, a deadline ahead is Open, a deadline
      behind is HalfOpen. */
  function Load(s: Store, now: int): Shared {
    if !Live(s, now) then Shared(Closed, 0, 0)
    else
      var e := s.episode.value;
      Shared(if Ms(now) < e.untilMs then Open else HalfOpen, e.reopens, e.successes)
  }

  /** The open script: a blind write of a new episode, which also frees the probe key. */
  function OpenEpisode(cooldown: int, reopens: int, now: int): Store {
    Store(Some(Episode(Ms(now) + Ms(cooldown), reopens, 0, Ms(now) + Ms(cooldown + STATE_TTL_SLACK))), None)
  }

  /** The probe success script. It compares the streak with the threshold but
      never looks at the deadline, and its reply carries no episode count. */
  function RecordProbeSuccess(s: Store, threshold: int, now: int): (Store, Shared) {
    if !Live(s, now) then (Store(None, None), Shared(Closed, 0, 0))
    else
      var n := s.episode.value.successes + 1;
      if n >= threshold then
        (Store(None, None), Shared(Closed, 0, n))
      else
        (Store(Some(s.episode.value.(successes := n)), None), Shared(HalfOpen, 0, n))
  }

  /** SET NX PX on the probe key. */
  function ClaimSharedProbe(s: Store, ttl: int, now: int): (Store, bool) {
    if s.probeUntilMs.Some? && Ms(now) <= s.probeUntilMs.value then (s, false)
    else (s.(probeUntilMs := Some(Ms(now) + if ttl < NS_PER_MS then 1 else Ms(ttl))), true)
  }

  const Cleared := Store(None, None)

  // ----- what the scripts make of each other -----

  /** What an episode reads as from the moment it is written: Open for its cooldown, HalfOpen
      until the key expires, Closed from then on. */
  lemma EpisodeTimeline(cooldown: int, reopens: int, t0: int, t: int)
    requires cooldown >= 0 && t0 <= t
    ensures Load(OpenEpisode(cooldown, reopens, t0), t)
            == if Ms(t) < Ms(t0) + Ms(cooldown) then Shared(Open, reopens, 0)
               else if Ms(t) <= Ms(t0) + Ms(cooldown + STATE_TTL_SLACK) then Shared(HalfOpen, reopens, 0)
               else Shared(Closed, 0, 0)
  {
    assert Ms(cooldown) <= Ms(cooldown + STATE_TTL_SLACK);
  }

  /** A success on a live episode closes it if and only if it completes the streak; otherwise
      it is counted and changes nothing else. Either way the slot is free again. */
  lemma SuccessClosesIff(s: Store, threshold: int, now: int, t: int)
    requires Live(s, now)
    ensures var (s', v) := RecordProbeSuccess(s, threshold, now);
            var completes := s.episode.value.successes + 1 >= threshold;
            && (v.state.Closed? <==> completes) && (Load(s', now).state.Closed? <==> completes)
            && v.successes == Load(s, now).successes + 1
            && (completes ==> Load(s', t) == Shared(Closed, 0, 0))
            && (!completes ==> Load(s', t) == if Live(s, t) then Load(s, t).(successes := v.successes) else Load(s, t))
            && forall ttl :: ClaimSharedProbe(s', ttl, now).1
  {
  }

  /** A slot that has been won is refused for as long as the key lives, and free after that. */
  lemma SharedSlotIff(s: Store, ttl: int, t: int, t': int)
    requires ClaimSharedProbe(s, ttl, t).1
    ensures var (s', _) := ClaimSharedProbe(s, ttl, t);
            && s'.episode == s.episode
            && forall any :: ClaimSharedProbe(s', any, t').1 <==> Ms(t') - Ms(t) > (if ttl < NS_PER_MS then 1 else Ms(ttl))
  {
  }

  /** A new episode, and a reset, leave the slot free. */
  lemma NewEpisodeFreesSlot(cooldown: int, reopens: int, t: int, ttl: int, t': int)
    ensures ClaimSharedProbe(OpenEpisode(cooldown, reopens, t), ttl, t').1 && ClaimSharedProbe(Cleared, ttl, t').1
    ensures Load(Cleared, t') == Shared(Closed, 0, 0)
  {
  }
}
