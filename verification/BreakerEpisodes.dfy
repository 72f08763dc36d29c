/** One Open episode of the shared store across a fleet: how many probes it lets out, and
    which number the next one gets. */
module BreakerEpisodes {
  import opened Prelude
  import opened BreakerMachine
  import opened BreakerStore
  import opened BreakerFleet

  // ----- the life of an episode -----

  /** A success that the store counts or that closes the episode. */
  predicate Records(r: Replica, c: Call) {
    c.CallSuccess? && UsesStore(r) && r.m.state.HalfOpen? && !c.publish.Lost?
  }

  /** The call writes a new episode or removes the present one. */
  predicate Replaces(cfg: Config, r: Replica, s: Store, now: int, c: Call) {
    match c
    case CallAllow(_, _) => false
    case CallSuccess(_) => Records(r, c) && (!Live(s, now) || s.episode.value.successes + 1 >= cfg.successThreshold)
    case CallFailure(d) => UsesStore(r) && Opens(cfg, r.m, now) && !d.Lost?
    case CallReset(d) => !d.Lost?
  }

  ghost predicate Undisturbed(cfg: Config, fs: seq<Fleet>, moves: seq<Move>, i: nat, n: nat)
    requires IsRun(cfg, fs, moves) && i <= n < |fs|
  {
    forall j {:trigger moves[j]} :: i <= j < n ==>
      IsMove(cfg, fs[j], moves[j], fs[j + 1])
      && !Replaces(cfg, fs[j].replicas[moves[j].who], fs[j].store, moves[j].at, moves[j].call)
  }

  /** Two stores hold the same episode, apart from the successes counted in it. */
  ghost predicate SameEpisode(s: Store, s': Store) {
    && s.episode.Some? && s'.episode.Some?
    && s'.episode.value == s.episode.value.(successes := s'.episode.value.successes)
    && s.episode.value.successes <= s'.episode.value.successes
  }

  lemma CallKeepsEpisode(cfg: Config, r: Replica, s: Store, now: int, c: Call)
    requires s.episode.Some? && !Replaces(cfg, r, s, now, c)
    ensures var s' := Do(cfg, r, s, now, c).1;
            && SameEpisode(s, s')
            && s'.episode.value.successes == s.episode.value.successes + if Records(r, c) then 1 else 0
  {
  }

  lemma {:induction false} EpisodeStays(cfg: Config, fs: seq<Fleet>, moves: seq<Move>, i: nat, n: nat)
    requires IsRun(cfg, fs, moves) && i <= n < |fs| && Undisturbed(cfg, fs, moves, i, n) && fs[i].store.episode.Some?
    ensures SameEpisode(fs[i].store, fs[n].store) && fs[i].now <= fs[n].now
    decreases n - i
  {
    if i < n {
      EpisodeStays(cfg, fs, moves, i, n - 1);
      var mv := moves[n - 1];
      assert IsMove(cfg, fs[n - 1], mv, fs[n - 1 + 1]);
      CallKeepsEpisode(cfg, fs[n - 1].replicas[mv.who], fs[n - 1].store, mv.at, mv.call);
    }
  }

  /** A call that replaces the episode leaves none behind, or writes the next one: with the
      number after the replica's own, its cooldown from now on, no success and a free slot. */
  lemma ReplacesReplaces(cfg: Config, r: Replica, s: Store, now: int, c: Call)
    requires Replaces(cfg, r, s, now, c)
    ensures var (r', s', _) := Do(cfg, r, s, now, c);
            if c.CallFailure? then
              && s'.episode.Some? && s'.probeUntilMs.None? && s'.episode.value.successes == 0
              && s'.episode.value.reopens == r.m.reopens + 1 == r'.m.reopens
              && s'.episode.value.untilMs == Ms(now) + Ms(NextCooldown(cfg, r.m.reopens + 1))
            else s'.episode.None? && s'.probeUntilMs.None?
  {
  }

  /** For every recorded success on a live episode: the store is Closed afterwards, and with a
      reply that arrives the replica and what it has cached are too, if and only if the success
      completes the streak. */
  lemma SharedSuccessClosesIff(cfg: Config, r: Replica, s: Store, now: int, c: Call)
    requires Records(r, c) && Live(s, now)
    ensures var (r', s', _) := Do(cfg, r, s, now, c);
            var completes := s.episode.value.successes + 1 >= cfg.successThreshold;
            && (Load(s', now).state.Closed? <==> completes)
            && (c.publish.Delivered? ==>
                  && (r'.m.state.Closed? <==> completes) && (Holds(r', now, Closed) <==> completes)
                  && (completes ==> r'.m.reopens == 0 && r'.m.cooldown == cfg.cooldownBase))
  {
    SuccessClosesIff(s, cfg.successThreshold, now, now);
  }

  ghost function Recorded(cfg: Config, fs: seq<Fleet>, moves: seq<Move>, i: nat, n: nat): nat
    requires IsRun(cfg, fs, moves) && i <= n < |fs|
    decreases n - i
  {
    if i == n then 0
    else
      var mv := moves[n - 1];
      assert IsMove(cfg, fs[n - 1], mv, fs[n - 1 + 1]);
      Recorded(cfg, fs, moves, i, n - 1) + if Records(fs[n - 1].replicas[mv.who], mv.call) then 1 else 0
  }

  lemma {:induction false} SuccessesAreCounted(cfg: Config, fs: seq<Fleet>, moves: seq<Move>, i: nat, n: nat)
    requires IsRun(cfg, fs, moves) && i <= n < |fs| && Undisturbed(cfg, fs, moves, i, n) && fs[i].store.episode.Some?
    ensures fs[n].store.episode.Some?
    ensures fs[n].store.episode.value.successes == fs[i].store.episode.value.successes + Recorded(cfg, fs, moves, i, n)
    decreases n - i
  {
    if i < n {
      SuccessesAreCounted(cfg, fs, moves, i, n - 1);
      var mv := moves[n - 1];
      assert IsMove(cfg, fs[n - 1], mv, fs[n - 1 + 1]);
      CallKeepsEpisode(cfg, fs[n - 1].replicas[mv.who], fs[n - 1].store, mv.at, mv.call);
    }
  }

  /** Over every run: of all the successes recorded in one live episode by all replicas, exactly
      the one that completes the streak closes it, for the store and for the replica told. */
  lemma ClosesExactlyAtSharedStreak(cfg: Config, fs: seq<Fleet>, moves: seq<Move>, i: nat, n: nat)
    requires IsRun(cfg, fs, moves) && i <= n < |moves| && Undisturbed(cfg, fs, moves, i, n) && BeginsEpisode(fs[i].store)
    requires IsMove(cfg, fs[n], moves[n], fs[n + 1])
    requires Records(fs[n].replicas[moves[n].who], moves[n].call) && Live(fs[n].store, moves[n].at)
    ensures var completes := Recorded(cfg, fs, moves, i, n) + 1 >= cfg.successThreshold;
            && (Load(fs[n + 1].store, moves[n].at).state.Closed? <==> completes)
            && (moves[n].call.publish.Delivered? ==> (fs[n + 1].replicas[moves[n].who].m.state.Closed? <==> completes))
  {
    SuccessesAreCounted(cfg, fs, moves, i, n);
    SharedSuccessClosesIff(cfg, fs[n].replicas[moves[n].who], fs[n].store, moves[n].at, moves[n].call);
  }

  /** Over every run: a published episode reads as Open for its replica's cooldown and as HalfOpen
      after it, until the key expires or a call replaces it. */
  lemma PublishedEpisodeTimeline(cfg: Config, fs: seq<Fleet>, moves: seq<Move>, i: nat, n: nat, t: int)
    requires cfg.Valid() && IsRun(cfg, fs, moves) && i < n < |fs| && IsMove(cfg, fs[i], moves[i], fs[i + 1])
    requires Publishes(cfg, fs[i], moves[i]) && Undisturbed(cfg, fs, moves, i + 1, n) && moves[i].at <= t
    ensures var number := fs[i].replicas[moves[i].who].m.reopens + 1;
            var cooldown := NextCooldown(cfg, number);
            && (Load(fs[n].store, t).state
                == if Ms(t) < Ms(moves[i].at) + Ms(cooldown) then Open
                   else if Ms(t) <= Ms(moves[i].at) + Ms(cooldown + STATE_TTL_SLACK) then HalfOpen else Closed)
            && (!Load(fs[n].store, t).state.Closed? ==> Load(fs[n].store, t).reopens == number)
  {
    var r := fs[i].replicas[moves[i].who];
    PublishWrites(cfg, r, fs[i].store, moves[i].at, moves[i].call);
    EpisodeTimeline(NextCooldown(cfg, r.m.reopens + 1), r.m.reopens + 1, moves[i].at, t);
    var j := i + 1;
    EpisodeStays(cfg, fs, moves, j, n);
  }

  lemma PublishWrites(cfg: Config, r: Replica, s: Store, now: int, c: Call)
    requires c.CallFailure? && !c.publish.Lost? && UsesStore(r) && Opens(cfg, r.m, now)
    ensures Do(cfg, r, s, now, c).1 == OpenEpisode(NextCooldown(cfg, r.m.reopens + 1), r.m.reopens + 1, now)
  {
  }

  // ----- probes of one episode -----

  /** How long a claim keeps the shared slot, in milliseconds. */
  function Lifetime(cfg: Config): int {
    if cfg.probeTimeout < NS_PER_MS then 1 else Ms(cfg.probeTimeout)
  }

  /** An attached replica admits a call because it won the shared slot. */
  predicate Wins(cfg: Config, f: Fleet, mv: Move)
    requires mv.who < |f.replicas|
  {
    && mv.call.CallAllow? && UsesStore(f.replicas[mv.who])
    && ActsOn(cfg, f, mv).Some? && ActsOn(cfg, f, mv).value.state.HalfOpen?
    && Moved(cfg, f, mv).1
  }

  ghost function Won(cfg: Config, fs: seq<Fleet>, moves: seq<Move>, i: nat, n: nat): nat
    requires IsRun(cfg, fs, moves) && i <= n < |fs|
    decreases n - i
  {
    if i == n then 0
    else
      var mv := moves[n - 1];
      assert IsMove(cfg, fs[n - 1], mv, fs[n - 1 + 1]);
      Won(cfg, fs, moves, i, n - 1) + if Wins(cfg, fs[n - 1], mv) then 1 else 0
  }

  /** What a slot that has been won so often, against so many successes, says of the time. */
  ghost predicate SlotPays(cfg: Config, start: int, s: Store, now: int, won: int) {
    && s.episode.Some?
    && var owed := (won - s.episode.value.successes) * Lifetime(cfg);
       match s.probeUntilMs
       case None => owed <= Ms(now) - start
       case Some(until) => owed <= until - start && until - Lifetime(cfg) <= Ms(now)
  }

  lemma MsMonotone(a: int, b: int)
    requires a <= b
    ensures Ms(a) <= Ms(b)
  {
  }

  lemma SlotPaysLater(cfg: Config, start: int, s: Store, now: int, later: int, won: int)
    requires SlotPays(cfg, start, s, now, won) && now <= later
    ensures SlotPays(cfg, start, s, later, won)
  {
    MsMonotone(now, later);
  }

  /** A claim, won, refused, lost or taken without an answer. */
  lemma ClaimPays(cfg: Config, start: int, s: Store, now: int, won: int)
    requires cfg.Valid() && SlotPays(cfg, start, s, now, won)
    ensures var (s', ok) := ClaimSharedProbe(s, cfg.probeTimeout, now);
            && SlotPays(cfg, start, s', now, won)
            && (ok ==> SlotPays(cfg, start, s', now, won + 1))
  {
    var n := won - s.episode.value.successes;
    assert (n + 1) * Lifetime(cfg) == n * Lifetime(cfg) + Lifetime(cfg);
  }

  lemma SuccessPays(cfg: Config, start: int, s: Store, now: int, won: int)
    requires cfg.Valid() && SlotPays(cfg, start, s, now, won)
    ensures SlotPays(cfg, start, Store(Some(s.episode.value.(successes := s.episode.value.successes + 1)), None), now, won)
  {
    var n := won - s.episode.value.successes;
    assert (n - 1) * Lifetime(cfg) == n * Lifetime(cfg) - Lifetime(cfg);
  }

  /** An Allow, by whatever verdict. */
  lemma AllowPays(cfg: Config, start: int, f: Fleet, mv: Move, won: int)
    requires cfg.Valid() && mv.who < |f.replicas| && f.now <= mv.at && mv.call.CallAllow?
    requires SlotPays(cfg, start, f.store, f.now, won)
    ensures SlotPays(cfg, start, Moved(cfg, f, mv).0.store, mv.at, won + if Wins(cfg, f, mv) then 1 else 0)
  {
    SlotPaysLater(cfg, start, f.store, f.now, mv.at, won);
    ClaimPays(cfg, start, f.store, mv.at, won);
  }

  lemma MovePays(cfg: Config, start: int, f: Fleet, mv: Move, f': Fleet, won: int)
    requires cfg.Valid() && IsMove(cfg, f, mv, f') && SlotPays(cfg, start, f.store, f.now, won)
    requires !Replaces(cfg, f.replicas[mv.who], f.store, mv.at, mv.call)
    ensures SlotPays(cfg, start, f'.store, f'.now, won + if Wins(cfg, f, mv) then 1 else 0)
  {
    if mv.call.CallAllow? {
      AllowPays(cfg, start, f, mv, won);
    } else {
      SlotPaysLater(cfg, start, f.store, f.now, mv.at, won);
      if Records(f.replicas[mv.who], mv.call) { SuccessPays(cfg, start, f.store, mv.at, won); }
    }
  }

  lemma {:induction false} RunPays(cfg: Config, fs: seq<Fleet>, moves: seq<Move>, i: nat, n: nat)
    requires cfg.Valid() && IsRun(cfg, fs, moves) && i <= n < |fs| && Undisturbed(cfg, fs, moves, i, n)
    requires BeginsEpisode(fs[i].store)
    ensures SlotPays(cfg, Ms(fs[i].now), fs[n].store, fs[n].now, Won(cfg, fs, moves, i, n))
    decreases n - i
  {
    if i < n {
      RunPays(cfg, fs, moves, i, n - 1);
      assert IsMove(cfg, fs[n - 1], moves[n - 1], fs[n - 1 + 1]);
      MovePays(cfg, Ms(fs[i].now), fs[n - 1], moves[n - 1], fs[n], Won(cfg, fs, moves, i, n - 1));
    }
  }

  /** An episode as it is written: no success counted, nobody in the slot. */
  predicate BeginsEpisode(s: Store) {
    s.episode.Some? && s.episode.value.successes == 0 && s.probeUntilMs.None?
  }

  /** Over every run, the slot of one store episode is won at most once, plus once per
      success recorded in it, plus once per elapsed lifetime of a claim. */
  lemma ProbesOfOneEpisode(cfg: Config, fs: seq<Fleet>, moves: seq<Move>, i: nat, n: nat)
    requires cfg.Valid() && IsRun(cfg, fs, moves) && i <= n < |fs| && Undisturbed(cfg, fs, moves, i, n)
    requires BeginsEpisode(fs[i].store)
    ensures fs[n].store.episode.Some?
    ensures Won(cfg, fs, moves, i, n)
            <= 1 + fs[n].store.episode.value.successes + (Ms(fs[n].now) - Ms(fs[i].now)) / Lifetime(cfg)
  {
    RunPays(cfg, fs, moves, i, n);
    var k := Won(cfg, fs, moves, i, n) - fs[n].store.episode.value.successes;
    assert (k - 1) * Lifetime(cfg) == k * Lifetime(cfg) - Lifetime(cfg);
    QuotientBound(k - 1, Ms(fs[n].now) - Ms(fs[i].now), Lifetime(cfg));
  }

  // ----- all admissions of one episode -----

  /** An attached replica admits a call, for whatever reason. */
  predicate Admits(cfg: Config, f: Fleet, mv: Move)
    requires mv.who < |f.replicas|
  {
    mv.call.CallAllow? && UsesStore(f.replicas[mv.who]) && Moved(cfg, f, mv).1
  }

  ghost function Admissions(cfg: Config, fs: seq<Fleet>, moves: seq<Move>, i: nat, n: nat): nat
    requires IsRun(cfg, fs, moves) && i <= n < |fs|
    decreases n - i
  {
    if i == n then 0
    else
      var mv := moves[n - 1];
      assert IsMove(cfg, fs[n - 1], mv, fs[n - 1 + 1]);
      Admissions(cfg, fs, moves, i, n - 1) + if Admits(cfg, fs[n - 1], mv) then 1 else 0
  }

  lemma {:induction false} TimeGoesOn(cfg: Config, fs: seq<Fleet>, moves: seq<Move>, i: nat, n: nat)
    requires IsRun(cfg, fs, moves) && i <= n < |fs|
    ensures fs[i].now <= fs[n].now
    decreases n - i
  {
    if i < n {
      TimeGoesOn(cfg, fs, moves, i, n - 1);
      assert IsMove(cfg, fs[n - 1], moves[n - 1], fs[n - 1 + 1]);
    }
  }

  /** While an episode lasts the store never says Closed. */
  lemma LiveEpisodeIsNotClosed(cfg: Config, fs: seq<Fleet>, moves: seq<Move>, i: nat, j: nat, now: int)
    requires IsRun(cfg, fs, moves) && i <= j < |fs| && Undisturbed(cfg, fs, moves, i, j) && fs[i].store.episode.Some?
    requires Ms(now) <= fs[i].store.episode.value.expiresMs
    ensures !Load(fs[j].store, now).state.Closed?
  {
    EpisodeStays(cfg, fs, moves, i, j);
  }

  /** Reads by anyone from move lo up to move hi succeed. */
  ghost predicate ReadsWithin(moves: seq<Move>, lo: nat, hi: nat)
    requires lo <= hi <= |moves|
  {
    forall j :: lo <= j < hi && moves[j].call.CallAllow? ==> moves[j].call.loaded
  }

  ghost predicate NoMissedReset(cfg: Config, fs: seq<Fleet>, moves: seq<Move>, lo: nat, hi: nat)
    requires IsRun(cfg, fs, moves) && lo <= hi <= |moves|
  {
    forall j :: lo <= j < hi ==> !MissedResetAt(cfg, fs, moves, j)
  }

  /** The replica still acts on what a missed reset of its own left in its cache. */
  ghost predicate ActsOnMissedReset(cfg: Config, fs: seq<Fleet>, moves: seq<Move>, n: nat, o: nat)
    requires IsRun(cfg, fs, moves) && o < n < |moves|
  {
    && ActsOnCache(cfg, fs, moves, n, o) && MissedResetAt(cfg, fs, moves, o)
    && moves[n].call.CallAllow? && UsesStore(fs[n].replicas[moves[n].who])
  }

  /** What the verdict written by move o lets through while the store is not Closed. */
  lemma OriginDecides(cfg: Config, fs: seq<Fleet>, moves: seq<Move>, n: nat, o: nat)
    requires cfg.Valid() && IsRun(cfg, fs, moves) && o < n < |moves| && ActsOnCache(cfg, fs, moves, n, o)
    requires WroteCache(cfg, fs, moves, moves[n].who, o, fs[n].replicas[moves[n].who].cache)
    requires moves[n].call.CallAllow? && UsesStore(fs[n].replicas[moves[n].who])
    requires Installs(cfg, fs[o].replicas[moves[n].who], moves[o].at, moves[o].call)
    requires !Load(fs[o + 1].store, moves[o].at).state.Closed?
    ensures Admits(cfg, fs[n], moves[n]) && !Wins(cfg, fs[n], moves[n]) <==> ActsOnMissedReset(cfg, fs, moves, n, o)
  {
    assert IsMove(cfg, fs[o], moves[o], fs[o + 1]);
    InstalledState(cfg, fs[o].replicas[moves[n].who], fs[o].store, moves[o].at, moves[o].call);
  }

  /** One cache lifetime into a live episode, with the reads since it began successful, an
      attached replica admits a call without winning the slot if and only if it still acts on
      a missed reset of its own. */
  lemma AdmitsWithoutSlotIff(cfg: Config, fs: seq<Fleet>, moves: seq<Move>, i: nat, n: nat)
    requires cfg.Valid() && IsRun(cfg, fs, moves) && i <= n < |moves| && ReadsWithin(moves, i, n + 1)
    requires Undisturbed(cfg, fs, moves, i, n) && fs[i].store.episode.Some? && moves[n].who < |fs[n].replicas|
    requires moves[n].at - fs[i].now >= cfg.stateCacheTTL && Ms(moves[n].at) <= fs[i].store.episode.value.expiresMs
    ensures Admits(cfg, fs[n], moves[n]) && !Wins(cfg, fs[n], moves[n])
            <==> exists o :: 0 <= o < n && ActsOnMissedReset(cfg, fs, moves, n, o)
  {
    var mv := moves[n];
    assert IsMove(cfg, fs[n], mv, fs[n + 1]);
    if mv.call.CallAllow? && UsesStore(fs[n].replicas[mv.who]) {
      LiveEpisodeIsNotClosed(cfg, fs, moves, i, n, mv.at);
      if FreshAt(cfg, fs[n].replicas[mv.who], mv.at) {
        var o := OriginIsRecent(cfg, fs, moves, n);
        OriginIsWithin(cfg, fs, moves, i, o, n);
        OriginDecides(cfg, fs, moves, n, o);
        assert forall p :: 0 <= p < n && ActsOnMissedReset(cfg, fs, moves, n, p) ==> p == o;
      }
    }
  }

  /** What a replica still acts on one cache lifetime into an episode was written since it began. */
  lemma OriginIsWithin(cfg: Config, fs: seq<Fleet>, moves: seq<Move>, i: nat, o: nat, n: nat)
    requires IsRun(cfg, fs, moves) && i <= n < |moves| && o < n && Undisturbed(cfg, fs, moves, i, n)
    requires fs[i].store.episode.Some? && Ms(moves[n].at) <= fs[i].store.episode.value.expiresMs
    requires fs[i].now < moves[o].at == fs[o + 1].now
    ensures i <= o && !Load(fs[o + 1].store, moves[o].at).state.Closed?
  {
    var j := o + 1;
    assert IsMove(cfg, fs[n], moves[n], fs[n + 1]);
    RecentIsLater(cfg, fs, moves, i, j, n, moves[n].at);
    LiveEpisodeIsNotClosed(cfg, fs, moves, i, j, moves[o].at);
  }

  /** So it admits only by winning the slot, unless a reset since the episode began was missed. */
  lemma AdmitsByWinning(cfg: Config, fs: seq<Fleet>, moves: seq<Move>, i: nat, n: nat)
    requires cfg.Valid() && IsRun(cfg, fs, moves) && i <= n < |moves|
    requires ReadsWithin(moves, i, n + 1) && NoMissedReset(cfg, fs, moves, i, n)
    requires Undisturbed(cfg, fs, moves, i, n) && fs[i].store.episode.Some? && moves[n].who < |fs[n].replicas|
    requires moves[n].at - fs[i].now >= cfg.stateCacheTTL && Ms(moves[n].at) <= fs[i].store.episode.value.expiresMs
    ensures Admits(cfg, fs[n], moves[n]) ==> Wins(cfg, fs[n], moves[n])
  {
    AdmitsWithoutSlotIff(cfg, fs, moves, i, n);
    assert IsMove(cfg, fs[n], moves[n], fs[n + 1]);
    forall o | 0 <= o < n ensures !ActsOnMissedReset(cfg, fs, moves, n, o) {
      if ActsOnCache(cfg, fs, moves, n, o) {
        var p := OriginIsRecent(cfg, fs, moves, n);
        OriginIsWithin(cfg, fs, moves, i, p, n);
      }
    }
  }

  lemma RecentIsLater(cfg: Config, fs: seq<Fleet>, moves: seq<Move>, i: nat, j: nat, n: nat, now: int)
    requires IsRun(cfg, fs, moves) && i <= n < |fs| && j <= n && fs[i].now < fs[j].now && fs[n].now <= now
    requires Undisturbed(cfg, fs, moves, i, n)
    ensures i < j && Undisturbed(cfg, fs, moves, i, j) && Ms(fs[j].now) <= Ms(now)
  {
    if j < i { TimeGoesOn(cfg, fs, moves, j, i); }
    TimeGoesOn(cfg, fs, moves, j, n);
    MsMonotone(fs[j].now, now);
  }

  lemma {:induction false} AdmissionsAreWins(cfg: Config, fs: seq<Fleet>, moves: seq<Move>, i: nat, from: nat, n: nat)
    requires cfg.Valid() && IsRun(cfg, fs, moves) && i <= from <= n < |fs|
    requires ReadsWithin(moves, i, n) && NoMissedReset(cfg, fs, moves, i, n)
    requires Undisturbed(cfg, fs, moves, i, n) && fs[i].store.episode.Some?
    requires fs[from].now - fs[i].now >= cfg.stateCacheTTL && Ms(fs[n].now) <= fs[i].store.episode.value.expiresMs
    ensures Admissions(cfg, fs, moves, from, n) <= Won(cfg, fs, moves, i, n)
    decreases n - from
  {
    if from < n {
      var mv := moves[n - 1];
      assert IsMove(cfg, fs[n - 1], mv, fs[n - 1 + 1]);
      MsMonotone(fs[n - 1].now, fs[n].now);
      TimeGoesOn(cfg, fs, moves, from, n - 1);
      AdmissionsAreWins(cfg, fs, moves, i, from, n - 1);
      AdmitsByWinning(cfg, fs, moves, i, n - 1);
    }
  }

  /** From one cache lifetime after an episode began, and while it lives, all the calls that
      all attached replicas admit are at most one, plus the successes recorded in it, plus
      the elapsed lifetimes of a claim; late successes and void episodes included. */
  lemma FleetHalfOpenAdmissions(cfg: Config, fs: seq<Fleet>, moves: seq<Move>, i: nat, from: nat, n: nat)
    requires cfg.Valid() && IsRun(cfg, fs, moves) && i <= from <= n < |fs|
    requires ReadsWithin(moves, i, n) && NoMissedReset(cfg, fs, moves, i, n)
    requires Undisturbed(cfg, fs, moves, i, n) && BeginsEpisode(fs[i].store)
    requires fs[from].now - fs[i].now >= cfg.stateCacheTTL && Ms(fs[n].now) <= fs[i].store.episode.value.expiresMs
    ensures fs[n].store.episode.Some?
    ensures Admissions(cfg, fs, moves, from, n)
            <= 1 + fs[n].store.episode.value.successes + (Ms(fs[n].now) - Ms(fs[i].now)) / Lifetime(cfg)
  {
    AdmissionsAreWins(cfg, fs, moves, i, from, n);
    ProbesOfOneEpisode(cfg, fs, moves, i, n);
  }

  // ----- the number of the next episode -----

  /** A probing replica reports a success that does not close the episode, asks again, and
      fails. The episode it then opens continues the store's count if and only if it asked
      after the cache lifetime, or the count was zero. */
  lemma EpisodeCountContinuesIff(cfg: Config, r: Replica, s: Store, t0: int, t: int, t': int, claim: Delivery)
    requires cfg.Valid() && UsesStore(r) && r.m.state.HalfOpen? && t0 <= t
    requires Load(s, t0).state.HalfOpen? && Load(s, t).state.HalfOpen?
    requires Load(s, t0).successes + 1 < cfg.successThreshold
    ensures var (r1, s1) := Succeeded(cfg, r, s, t0, Delivered);
            var (r2, s2, _) := Allowed(cfg, r1, s1, t, true, claim);
            var (r3, s3) := Failed(cfg, r2, s2, t', Delivered);
            && s3.episode.Some? && s3.episode.value.reopens == r2.m.reopens + 1
            && r3.m.cooldown == NextCooldown(cfg, s3.episode.value.reopens)
            && (s3.episode.value.reopens == Load(s, t).reopens + 1
                <==> t - t0 >= cfg.stateCacheTTL || Load(s, t).reopens == 0)
  {
  }

  /** Where a verdict or an episode count of a replica comes from: nowhere, which counts as
      zero; a verdict read at some move; the reply to a success; an episode it opened itself. */
  datatype Source = Blank | Read(at: nat) | Reply(at: nat) | Own(at: nat)

  ghost function CacheSource(cfg: Config, fs: seq<Fleet>, moves: seq<Move>, k: nat, n: nat): Source
    requires IsRun(cfg, fs, moves) && n < |fs|
  {
    if n == 0 then Blank
    else
      var before := CacheSource(cfg, fs, moves, k, n - 1);
      var mv := moves[n - 1];
      assert IsMove(cfg, fs[n - 1], mv, fs[n - 1 + 1]);
      if mv.who != k then before else CacheSourceAfter(cfg, fs[n - 1].replicas[k], mv, n - 1, before)
  }

  function CacheSourceAfter(cfg: Config, r: Replica, mv: Move, at: nat, before: Source): Source {
    match mv.call
    case CallAllow(loaded, _) =>
      if !UsesStore(r) || (r.cache.Cached? && mv.at - r.cache.at < cfg.stateCacheTTL) then before
      else if loaded then Read(at) else Blank
    case CallSuccess(d) =>
      if !UsesStore(r) || !r.m.state.HalfOpen? then before else if d.Delivered? then Reply(at) else Blank
    case CallFailure(d) =>
      if !UsesStore(r) || !Opens(cfg, r.m, mv.at) then before else if d.Delivered? then Own(at) else Blank
    case CallReset(_) => Blank
  }

  ghost function CountSource(cfg: Config, fs: seq<Fleet>, moves: seq<Move>, k: nat, n: nat): Source
    requires IsRun(cfg, fs, moves) && n < |fs|
  {
    if n == 0 then Blank
    else
      var before := CountSource(cfg, fs, moves, k, n - 1);
      var mv := moves[n - 1];
      assert IsMove(cfg, fs[n - 1], mv, fs[n - 1 + 1]);
      if mv.who != k then before
      else
        CountSourceAfter(cfg, fs[n - 1].replicas[k], fs[n].replicas[k], mv, n - 1, before, CacheSource(cfg, fs, moves, k, n))
  }

  /** Acting on a verdict takes its count over, opening counts on, closing starts afresh. */
  function CountSourceAfter(cfg: Config, r: Replica, r': Replica, mv: Move, at: nat, before: Source, cached: Source): Source {
    match mv.call
    case CallAllow(_, _) =>
      if UsesStore(r) && r'.cache.Cached? && r'.cache.verdict.Some? then cached else before
    case CallSuccess(_) => if r.m.state.HalfOpen? && r'.m.state.Closed? then Blank else before
    case CallFailure(_) => if Opens(cfg, r.m, mv.at) then Own(at) else before
    case CallReset(_) => Blank
  }

  /** The episode count a source stands for. */
  ghost function CountOf(cfg: Config, fs: seq<Fleet>, moves: seq<Move>, k: nat, src: Source): int
    requires IsRun(cfg, fs, moves)
  {
    match src
    case Blank => 0
    case Reply(_) => 0
    case Read(j) => if j < |moves| then Load(fs[j].store, moves[j].at).reopens else 0
    case Own(j) => if j < |moves| && k < |fs[j + 1].replicas| then fs[j + 1].replicas[k].m.reopens else 0
  }

  ghost predicate Traced(cfg: Config, fs: seq<Fleet>, moves: seq<Move>, k: nat, r: Replica, cached: Source, count: Source)
    requires IsRun(cfg, fs, moves)
  {
    && r.m.reopens == CountOf(cfg, fs, moves, k, count)
    && (r.cache.Cached? && r.cache.verdict.Some? ==> r.cache.verdict.value.reopens == CountOf(cfg, fs, moves, k, cached))
  }

  predicate FreshCache(cfg: Config, r: Replica, now: int) {
    r.cache.Cached? && now - r.cache.at < cfg.stateCacheTTL
  }

  predicate HasVerdict(r: Replica) {
    r.cache.Cached? && r.cache.verdict.Some?
  }

  lemma AllowCounts(cfg: Config, r: Replica, s: Store, now: int, loaded: bool, claim: Delivery)
    ensures var r' := Allowed(cfg, r, s, now, loaded, claim).0;
            && r'.cache == (if !UsesStore(r) || FreshCache(cfg, r, now) then r.cache
                            else Cached(now, if loaded then Some(Load(s, now)) else None))
            && r'.m.reopens == if UsesStore(r) && HasVerdict(r') then r'.cache.verdict.value.reopens else r.m.reopens
  {
  }

  lemma SuccessCounts(cfg: Config, r: Replica, s: Store, now: int, d: Delivery)
    ensures var r' := Succeeded(cfg, r, s, now, d).0;
            && (!UsesStore(r) || !r.m.state.HalfOpen? ==> r'.cache == r.cache)
            && (UsesStore(r) && r.m.state.HalfOpen? && HasVerdict(r') ==> d.Delivered? && r'.cache.verdict.value.reopens == 0)
            && r'.m.reopens == if r.m.state.HalfOpen? && r'.m.state.Closed? then 0 else r.m.reopens
  {
  }

  lemma FailureCounts(cfg: Config, r: Replica, s: Store, now: int, d: Delivery)
    ensures var r' := Failed(cfg, r, s, now, d).0;
            && (!UsesStore(r) || !Opens(cfg, r.m, now) ==> r'.cache == r.cache)
            && (UsesStore(r) && Opens(cfg, r.m, now) && HasVerdict(r') ==>
                  d.Delivered? && r'.cache.verdict.value.reopens == r'.m.reopens)
            && (!Opens(cfg, r.m, now) ==> r'.m.reopens == r.m.reopens)
  {
  }

  lemma TracedStep(cfg: Config, fs: seq<Fleet>, moves: seq<Move>, k: nat, n: nat, cached: Source, count: Source)
    requires IsRun(cfg, fs, moves) && n < |moves| && IsMove(cfg, fs[n], moves[n], fs[n + 1])
    requires moves[n].who == k && Traced(cfg, fs, moves, k, fs[n].replicas[k], cached, count)
    ensures var r, r' := fs[n].replicas[k], fs[n + 1].replicas[k];
            var cached' := CacheSourceAfter(cfg, r, moves[n], n, cached);
            Traced(cfg, fs, moves, k, r', cached', CountSourceAfter(cfg, r, r', moves[n], n, count, cached'))
  {
    var r, s, now := fs[n].replicas[k], fs[n].store, moves[n].at;
    var r' := fs[n + 1].replicas[k];
    assert r' == Do(cfg, r, s, now, moves[n].call).0;
    TracedCall(cfg, fs, moves, k, n, cached, count, r, r', s);
  }

  lemma TracedAllow(cfg: Config, fs: seq<Fleet>, moves: seq<Move>, k: nat, n: nat, cached: Source, count: Source,
                    r: Replica, r': Replica, s: Store)
    requires IsRun(cfg, fs, moves) && n < |moves| && k < |fs[n + 1].replicas| && Traced(cfg, fs, moves, k, r, cached, count)
    requires r' == Do(cfg, r, s, moves[n].at, moves[n].call).0 && r' == fs[n + 1].replicas[k] && s == fs[n].store
    requires moves[n].call.CallAllow?
    ensures var cached' := CacheSourceAfter(cfg, r, moves[n], n, cached);
            Traced(cfg, fs, moves, k, r', cached', CountSourceAfter(cfg, r, r', moves[n], n, count, cached'))
  {
    AllowCounts(cfg, r, s, moves[n].at, moves[n].call.loaded, moves[n].call.claim);
  }

  lemma TracedSuccess(cfg: Config, fs: seq<Fleet>, moves: seq<Move>, k: nat, n: nat, cached: Source, count: Source,
                      r: Replica, r': Replica, s: Store)
    requires IsRun(cfg, fs, moves) && n < |moves| && k < |fs[n + 1].replicas| && Traced(cfg, fs, moves, k, r, cached, count)
    requires r' == Do(cfg, r, s, moves[n].at, moves[n].call).0 && r' == fs[n + 1].replicas[k] && s == fs[n].store
    requires moves[n].call.CallSuccess?
    ensures var cached' := CacheSourceAfter(cfg, r, moves[n], n, cached);
            Traced(cfg, fs, moves, k, r', cached', CountSourceAfter(cfg, r, r', moves[n], n, count, cached'))
  {
    SuccessCounts(cfg, r, s, moves[n].at, moves[n].call.publish);
  }

  lemma TracedFailure(cfg: Config, fs: seq<Fleet>, moves: seq<Move>, k: nat, n: nat, cached: Source, count: Source,
                      r: Replica, r': Replica, s: Store)
    requires IsRun(cfg, fs, moves) && n < |moves| && k < |fs[n + 1].replicas| && Traced(cfg, fs, moves, k, r, cached, count)
    requires r' == Do(cfg, r, s, moves[n].at, moves[n].call).0 && r' == fs[n + 1].replicas[k] && s == fs[n].store
    requires moves[n].call.CallFailure?
    ensures var cached' := CacheSourceAfter(cfg, r, moves[n], n, cached);
            Traced(cfg, fs, moves, k, r', cached', CountSourceAfter(cfg, r, r', moves[n], n, count, cached'))
  {
    FailureCounts(cfg, r, s, moves[n].at, moves[n].call.publish);
  }

  lemma TracedCall(cfg: Config, fs: seq<Fleet>, moves: seq<Move>, k: nat, n: nat, cached: Source, count: Source,
                   r: Replica, r': Replica, s: Store)
    requires IsRun(cfg, fs, moves) && n < |moves| && k < |fs[n + 1].replicas| && Traced(cfg, fs, moves, k, r, cached, count)
    requires r' == Do(cfg, r, s, moves[n].at, moves[n].call).0 && r' == fs[n + 1].replicas[k] && s == fs[n].store
    ensures var cached' := CacheSourceAfter(cfg, r, moves[n], n, cached);
            Traced(cfg, fs, moves, k, r', cached', CountSourceAfter(cfg, r, r', moves[n], n, count, cached'))
  {
    match moves[n].call
    case CallAllow(_, _) => TracedAllow(cfg, fs, moves, k, n, cached, count, r, r', s);
    case CallSuccess(_) => TracedSuccess(cfg, fs, moves, k, n, cached, count, r, r', s);
    case CallFailure(_) => TracedFailure(cfg, fs, moves, k, n, cached, count, r, r', s);
    case CallReset(_) =>
  }

  lemma {:induction false} RunIsTraced(cfg: Config, fs: seq<Fleet>, moves: seq<Move>, k: nat, n: nat)
    requires IsRun(cfg, fs, moves) && n < |fs| && k < |fs[n].replicas|
    ensures Traced(cfg, fs, moves, k, fs[n].replicas[k], CacheSource(cfg, fs, moves, k, n), CountSource(cfg, fs, moves, k, n))
  {
    if n > 0 {
      var mv := moves[n - 1];
      assert IsMove(cfg, fs[n - 1], mv, fs[n - 1 + 1]);
      RunIsTraced(cfg, fs, moves, k, n - 1);
      if mv.who == k {
        TracedStep(cfg, fs, moves, k, n - 1, CacheSource(cfg, fs, moves, k, n - 1), CountSource(cfg, fs, moves, k, n - 1));
      } else {
        assert fs[n].replicas[k] == fs[n - 1].replicas[k];
      }
    }
  }

  /** An episode a replica opened itself, and the number the store had for it. */
  ghost predicate WasPublished(fs: seq<Fleet>, k: nat, src: Source) {
    src.Own? ==>
      && src.at + 1 < |fs| && k < |fs[src.at + 1].replicas| && fs[src.at + 1].store.episode.Some?
      && fs[src.at + 1].store.episode.value.reopens == fs[src.at + 1].replicas[k].m.reopens
  }

  /** What an attached replica counts from, if its own, was published. */
  ghost predicate OwnInv(fs: seq<Fleet>, k: nat, r: Replica, cached: Source, count: Source) {
    WasPublished(fs, k, cached) && (UsesStore(r) ==> WasPublished(fs, k, count))
  }

  lemma FailurePublishes(cfg: Config, r: Replica, s: Store, now: int, d: Delivery)
    ensures var (r', s') := Failed(cfg, r, s, now, d);
            && (Opens(cfg, r.m, now) && UsesStore(r) && d.Delivered? ==>
                  s'.episode.Some? && s'.episode.value.reopens == r'.m.reopens)
            && (UsesStore(r') ==> UsesStore(r) && (Opens(cfg, r.m, now) ==> d.Delivered?))
  {
  }

  lemma AttachmentStays(cfg: Config, r: Replica, s: Store, now: int, c: Call)
    ensures !c.CallReset? && !UsesStore(r) ==> !UsesStore(Do(cfg, r, s, now, c).0)
  {
  }

  lemma OwnStep(cfg: Config, fs: seq<Fleet>, k: nat, mv: Move, n: nat, cached: Source, count: Source,
                r: Replica, r': Replica, s: Store, s': Store)
    requires OwnInv(fs, k, r, cached, count) && n + 1 < |fs| && k < |fs[n + 1].replicas|
    requires r' == Do(cfg, r, s, mv.at, mv.call).0 && s' == Do(cfg, r, s, mv.at, mv.call).1
    requires r' == fs[n + 1].replicas[k] && s' == fs[n + 1].store
    ensures var cached' := CacheSourceAfter(cfg, r, mv, n, cached);
            OwnInv(fs, k, r', cached', CountSourceAfter(cfg, r, r', mv, n, count, cached'))
  {
    AttachmentStays(cfg, r, s, mv.at, mv.call);
    if mv.call.CallFailure? { FailurePublishes(cfg, r, s, mv.at, mv.call.publish); }
  }

  lemma {:induction false} RunOwns(cfg: Config, fs: seq<Fleet>, moves: seq<Move>, k: nat, n: nat)
    requires IsRun(cfg, fs, moves) && n < |fs| && k < |fs[n].replicas|
    ensures OwnInv(fs, k, fs[n].replicas[k], CacheSource(cfg, fs, moves, k, n), CountSource(cfg, fs, moves, k, n))
  {
    if n > 0 {
      var mv := moves[n - 1];
      assert IsMove(cfg, fs[n - 1], mv, fs[n - 1 + 1]);
      RunOwns(cfg, fs, moves, k, n - 1);
      if mv.who == k {
        OwnStep(cfg, fs, k, mv, n - 1, CacheSource(cfg, fs, moves, k, n - 1), CountSource(cfg, fs, moves, k, n - 1),
                fs[n - 1].replicas[k], fs[n].replicas[k], fs[n - 1].store, fs[n].store);
      }
    }
  }

  /** The move publishes an episode that its replica has just opened. */
  ghost predicate Publishes(cfg: Config, f: Fleet, mv: Move) {
    && mv.who < |f.replicas| && mv.call.CallFailure? && !mv.call.publish.Lost?
    && UsesStore(f.replicas[mv.who]) && Opens(cfg, f.replicas[mv.who].m, mv.at)
  }

  /** Over every run, a published episode has the number after the one its replica got from
      its source. */
  lemma PublishedNumber(cfg: Config, fs: seq<Fleet>, moves: seq<Move>, n: nat)
    requires IsRun(cfg, fs, moves) && n < |moves| && Publishes(cfg, fs[n], moves[n])
    ensures fs[n + 1].store.episode.Some?
    ensures fs[n + 1].store.episode.value.reopens
            == 1 + CountOf(cfg, fs, moves, moves[n].who, CountSource(cfg, fs, moves, moves[n].who, n))
  {
    assert IsMove(cfg, fs[n], moves[n], fs[n + 1]);
    RunIsTraced(cfg, fs, moves, moves[n].who, n);
  }

  /** Within one live episode of the store, over every run, a published number continues the
      store's if and only if the source had the store's count: always when it was read from
      that episode or the replica opened it itself, and only for a count of zero when it is
      the reply to a success. */
  lemma PublishedNumberContinuesIff(cfg: Config, fs: seq<Fleet>, moves: seq<Move>, i: nat, n: nat)
    requires IsRun(cfg, fs, moves) && i <= n < |moves| && Publishes(cfg, fs[n], moves[n])
    requires fs[i].store.episode.Some? && Undisturbed(cfg, fs, moves, i, n) && Live(fs[n].store, moves[n].at)
    ensures var src := CountSource(cfg, fs, moves, moves[n].who, n);
            var continues := fs[n + 1].store.episode.Some?
                             && fs[n + 1].store.episode.value.reopens == Load(fs[n].store, moves[n].at).reopens + 1;
            && (continues <==> CountOf(cfg, fs, moves, moves[n].who, src) == Load(fs[n].store, moves[n].at).reopens)
            && (src.Read? && i <= src.at < n ==> continues)
            && (src.Own? && src.at + 1 == i ==> continues)
            && (src.Reply? || src.Blank? ==> (continues <==> Load(fs[n].store, moves[n].at).reopens == 0))
  {
    PublishedNumber(cfg, fs, moves, n);
    var src := CountSource(cfg, fs, moves, moves[n].who, n);
    if src.Read? && i <= src.at < n {
      EpisodeStays(cfg, fs, moves, i, n);
      ReadWithin(cfg, fs, moves, i, src.at, n);
    } else if src.Own? && src.at + 1 == i {
      RunOwns(cfg, fs, moves, moves[n].who, n);
      EpisodeStays(cfg, fs, moves, i, n);
    }
  }

  /** What was read during a live episode is that episode. */
  lemma ReadWithin(cfg: Config, fs: seq<Fleet>, moves: seq<Move>, i: nat, j: nat, n: nat)
    requires IsRun(cfg, fs, moves) && i <= j < n < |moves| && Undisturbed(cfg, fs, moves, i, n)
    requires fs[i].store.episode.Some? && Live(fs[n].store, moves[n].at)
    ensures Load(fs[j].store, moves[j].at).reopens == Load(fs[n].store, moves[n].at).reopens
  {
    EpisodeStays(cfg, fs, moves, i, j);
    EpisodeStays(cfg, fs, moves, i, n);
    assert IsMove(cfg, fs[j], moves[j], fs[j + 1]) && IsMove(cfg, fs[n], moves[n], fs[n + 1]);
    var m := j + 1;
    TimeGoesOn(cfg, fs, moves, m, n);
    MsMonotone(moves[j].at, moves[n].at);
  }
}
