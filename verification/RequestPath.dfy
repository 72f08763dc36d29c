/** From the model a caller names to the provider calls made for it: routing,
    authorization, resolution, chain and walk, for one authenticated team. */
module RequestPath {
  import opened Prelude
  import opened HealthStatus
  import opened FallbackOrder
  import opened FallbackWalk

  datatype Team = Team(allowedProviders: seq<string>, allowedModels: seq<string>)

  predicate TeamAllows(team: Team, provider: string, model: string) {
    provider in team.allowedProviders && model in team.allowedModels
  }

  /** The configuration a request reads: who serves a model, and the tiers. */
  datatype Resolver = Resolver(
    forModel: string -> Option<string>,
    tierFor: string -> seq<Candidate>,
    tierNamed: string -> seq<Candidate>)

  const AUTO := "auto"

  datatype Policy = Policy(simple: string, complex: string)
  {
    predicate Routes(model: string) {
      model == AUTO || (model != "" && (model == simple || model == complex))
    }

    /** Only upwards, and only to a different tier. */
    function Escalate(tier: string): Option<string> {
      if tier == simple && complex != "" && complex != simple then Some(complex) else None
    }
  }

  function InputFor(team: Team, statusOf: Option<string -> Status>, requested: Candidate, tier: seq<Candidate>): ChainInput {
    ChainInput(requested, tier, statusOf, Some((p, m) => TeamAllows(team, p, m)))
  }

  datatype Selection = Selected(candidate: Candidate) | TierUnknown | TierEmpty

  /** The team may use something in the tier. */
  ghost predicate Offers(team: Team, tier: seq<Candidate>) {
    exists c :: c in tier && Named(c) && TeamAllows(team, c.provider, c.model)
  }

  /** Everything better has an open breaker; and if this one does too, then all do and
      nothing is better. */
  ghost predicate IsBest(input: ChainInput, open: Candidate -> bool, c: Candidate) {
    && Eligible(input, c)
    && (forall d :: Eligible(input, d) && d != c && Precedes(input, d, c) ==> open(d))
    && (open(c) ==> forall d :: Eligible(input, d) ==> open(d) && (d != c ==> Precedes(input, c, d)))
  }

  ghost predicate IsChoice(team: Team, statusOf: Option<string -> Status>, tier: seq<Candidate>,
                           open: Candidate -> bool, c: Candidate)
  {
    && c in tier && TeamAllows(team, c.provider, c.model)
    && IsBest(InputFor(team, statusOf, Candidate("", ""), tier), open, c)
  }

  /** An unnamed request adds nothing to the tier. */
  lemma TierOffers(team: Team, statusOf: Option<string -> Status>, tier: seq<Candidate>)
    ensures var input := InputFor(team, statusOf, Candidate("", ""), tier);
            Offers(team, tier) <==> exists c :: c in Declared(input) && Permitted(input, c)
  {
    var input := InputFor(team, statusOf, Candidate("", ""), tier);
    forall c ensures c in tier && Named(c) <==> c in Declared(input) && Named(c) {}
    if c :| c in tier && Named(c) && TeamAllows(team, c.provider, c.model) {
      assert c in Declared(input) && Permitted(input, c);
    }
  }

  lemma BestIsChoice(team: Team, statusOf: Option<string -> Status>, tier: seq<Candidate>,
                     open: Candidate -> bool, c: Candidate)
    requires IsBest(InputFor(team, statusOf, Candidate("", ""), tier), open, c)
    ensures Offers(team, tier) && IsChoice(team, statusOf, tier, open, c)
  {
    assert c in tier && Named(c) && TeamAllows(team, c.provider, c.model);
  }

  /** The best permitted candidate of a tier whose breaker is not open, or the best
      permitted one when all of theirs are. */
  method SelectCandidate(team: Team, statusOf: Option<string -> Status>, tier: seq<Candidate>, open: Candidate -> bool)
    returns (s: Selection)
    ensures s.TierUnknown? <==> tier == []
    ensures s.TierEmpty? <==> tier != [] && !Offers(team, tier)
    ensures s.Selected? ==> Offers(team, tier) && IsChoice(team, statusOf, tier, open, s.candidate)
  {
    if tier == [] { return TierUnknown; }
    var input := InputFor(team, statusOf, Candidate("", ""), tier);
    var chain := BuildChain(input);
    TierOffers(team, statusOf, tier);
    if chain == [] { return TierEmpty; }
    for i := 0 to |chain|
      invariant forall j :: 0 <= j < i ==> open(chain[j])
    {
      if !open(chain[i]) {
        FirstClosedIsBest(input, chain, i, open);
        BestIsChoice(team, statusOf, tier, open, chain[i]);
        return Selected(chain[i]);
      }
    }
    HeadIsBest(input, chain, open);
    BestIsChoice(team, statusOf, tier, open, chain[0]);
    return Selected(chain[0]);
  }

  lemma FirstClosedIsBest(input: ChainInput, chain: seq<Candidate>, i: nat, open: Candidate -> bool)
    requires IsChain(input, chain) && i < |chain| && !open(chain[i]) && forall j :: 0 <= j < i ==> open(chain[j])
    ensures IsBest(input, open, chain[i])
  {
  }

  lemma HeadIsBest(input: ChainInput, chain: seq<Candidate>, open: Candidate -> bool)
    requires IsChain(input, chain) && chain != [] && forall j :: 0 <= j < |chain| ==> open(chain[j])
    ensures IsBest(input, open, chain[0])
  {
  }

  datatype Routed = Explicit | Chosen(candidate: Candidate, tier: string) | UnknownTier | NothingPermitted

  /** The tier a routing keyword stands for: itself, or what the prompt looks like. */
  function Planned(policy: Policy, model: string, looksComplex: bool): string {
    if model != AUTO then model else if looksComplex then policy.complex else policy.simple
  }

  /** Where an inferred tier may turn when it has nothing to offer. */
  function Upwards(policy: Policy, model: string, tier: string): Option<string> {
    if model != AUTO then None else policy.Escalate(tier)
  }

  /** Which tiers a model name may come to: a tier named outright is never left; a prompt that
      looks simple starts in the simple tier and may move up to a different complex one; a
      prompt that looks complex stays in the complex tier. */
  lemma TiersOf(policy: Policy, model: string, looksComplex: bool)
    ensures var tier := Planned(policy, model, looksComplex);
            var up := Upwards(policy, model, tier);
            && (model != AUTO ==> tier == model && up.None?)
            && (model == AUTO && looksComplex ==> tier == policy.complex && up.None?)
            && (model == AUTO && !looksComplex ==> tier == policy.simple && (up.Some? <==> policy.complex !in {"", policy.simple}))
            && (up.Some? ==> up.value == policy.complex)
    ensures policy.Routes(model) <==> model == "auto" || (model != "" && model in [policy.simple, policy.complex])
  {
  }

  /** Turns a routing keyword into a concrete model. A named model is never changed;
      only an inferred tier may escalate, and only when it has nothing to offer. */
  method Route(team: Team, statusOf: Option<string -> Status>, resolver: Resolver, policy: Policy,
               model: string, looksComplex: bool, open: Candidate -> bool)
    returns (r: Routed)
    ensures r.Explicit? <==> !policy.Routes(model)
    ensures var tier := Planned(policy, model, looksComplex);
            var up := Upwards(policy, model, tier);
            policy.Routes(model) ==>
              && (r.Chosen? ==> r.tier == tier || (Some(r.tier) == up && !Offers(team, resolver.tierNamed(tier))))
              && (r.Chosen? ==> IsChoice(team, statusOf, resolver.tierNamed(r.tier), open, r.candidate))
              && (!r.Chosen? ==> !Offers(team, resolver.tierNamed(tier)))
              && (!r.Chosen? && up.Some? ==> !Offers(team, resolver.tierNamed(up.value)))
              && (!r.Chosen? ==> r == if resolver.tierNamed(tier) == [] then UnknownTier else NothingPermitted)
  {
    if !policy.Routes(model) { return Explicit; }
    var pinned := model != AUTO;
    var tier := Planned(policy, model, looksComplex);
    var s := SelectCandidate(team, statusOf, resolver.tierNamed(tier), open);
    if !s.Selected? && !pinned && policy.Escalate(tier).Some? {
      var up := policy.Escalate(tier).value;
      var t := SelectCandidate(team, statusOf, resolver.tierNamed(up), open);
      if t.Selected? { return Chosen(t.candidate, up); }
    }
    match s
    case Selected(c) => return Chosen(c, tier);
    case TierUnknown => return UnknownTier;
    case TierEmpty => return NothingPermitted;
  }

  datatype Response = Completed(served: Candidate) | NotFound | Forbidden | Failed

  /** Every call of the walk is for a candidate this team may use. */
  ghost predicate OnlyPermitted(team: Team, chain: seq<Candidate>, log: seq<Event>) {
    forall i :: 0 <= i < |log| && log[i].Called? ==>
      log[i].place < |chain| && log[i].model == chain[log[i].place].model
      && TeamAllows(team, chain[log[i].place].provider, log[i].model)
  }

  /** What the registry answers during the walk: each model of the chain is served, if at
      all, by a provider the team may use. */
  predicate SafeView(team: Team, chain: seq<Candidate>, resolve: (nat, string) -> Option<string>) {
    forall i :: 0 <= i < |chain| ==> SafeAt(team, chain, resolve, i)
  }

  predicate SafeAt(team: Team, chain: seq<Candidate>, resolve: (nat, string) -> Option<string>, i: nat)
    requires i < |chain|
  {
    resolve(i, chain[i].model).Some? ==> resolve(i, chain[i].model).value in team.allowedProviders
  }

  /** Who is asked first for a model, and who else its tier names. */
  function ChainInputFor(team: Team, statusOf: Option<string -> Status>, resolver: Resolver, model: string): ChainInput
    requires resolver.forModel(model).Some?
  {
    InputFor(team, statusOf, Candidate(resolver.forModel(model).value, model), resolver.tierFor(model))
  }

  /** How a request for a concrete model is answered: refused outright, served by the first
      candidate of its chain that met no obstacle, or failed because nothing was left to try. */
  ghost predicate Answered(team: Team, statusOf: Option<string -> Status>, resolver: Resolver, w: World, limits: Limits,
                           base: int, model: string, response: Response, chain: seq<Candidate>,
                           failures: seq<Failure>, log: seq<Event>)
  {
    var known := resolver.forModel(model).Some?;
    var asked := model in team.allowedModels && known;
    && (response.NotFound? <==> model in team.allowedModels && !known)
    && (response.Forbidden? <==> model !in team.allowedModels || (known && chain == []))
    && (if asked then IsChain(ChainInputFor(team, statusOf, resolver, model), chain) else chain == [])
    && Audited(w, chain, |chain|, log)
    && (limits.Valid() && chain != [] ==>
          var whole := WholeWalk(w, limits, chain, model, base); failures == whole.at.failures && log == whole.at.log)
    && FailuresInOrder(chain, failures, log) && AllExplained(w, limits, chain, model, base, failures)
    && (limits.Valid() ==> Effort(w, limits, log))
    && (response.Completed? <==> Succeeded(w, chain, log))
    && (response.Completed? ==> |failures| < |chain| && response.served == chain[|failures|])
    && (response.Failed? ==> NothingLeft(w, limits, chain, failures))
    && (ReachesFirst(w, chain, model) ==> CallsTo(log, 0) > 0)
  }

  lemma WalkOnlyPermitted(team: Team, chain: seq<Candidate>, w: World, log: seq<Event>)
    requires Audited(w, chain, |chain|, log)
    requires forall i :: 0 <= i < |chain| ==> TeamAllows(team, chain[i].provider, chain[i].model)
    ensures OnlyPermitted(team, chain, log) && (SafeView(team, chain, w.resolve) ==> ProvidersPermitted(team, log))
  {
    forall i | 0 <= i < |log| && log[i].Called?
      ensures log[i].place < |chain| && log[i].model == chain[log[i].place].model
      ensures TeamAllows(team, chain[log[i].place].provider, log[i].model)
      ensures SafeView(team, chain, w.resolve) ==> TeamAllows(team, log[i].provider, log[i].model)
    {
      assert EventOk(w, chain, |chain|, log, i);
      if SafeView(team, chain, w.resolve) { assert SafeAt(team, chain, w.resolve, log[i].place); }
    }
  }

  ghost predicate ProvidersPermitted(team: Team, log: seq<Event>) {
    forall i :: 0 <= i < |log| && log[i].Called? ==> TeamAllows(team, log[i].provider, log[i].model)
  }

  /** A request for a concrete model, from the allowlist to its last provider call. */
  method ServeModel(team: Team, statusOf: Option<string -> Status>, resolver: Resolver, model: string,
                    w: World, limits: Limits, base: int)
    returns (response: Response, chain: seq<Candidate>, failures: seq<Failure>, log: seq<Event>)
    requires limits.Valid()
    ensures OnlyPermitted(team, chain, log) && (SafeView(team, chain, w.resolve) ==> ProvidersPermitted(team, log))
    ensures Calls(log) <= limits.maxTotalAttempts
    ensures response.Completed? ==>
              response.served.provider in team.allowedProviders && response.served.model in team.allowedModels
    ensures Answered(team, statusOf, resolver, w, limits, base, model, response, chain, failures, log)
  {
    chain, failures, log := [], [], [];
    if model !in team.allowedModels { return Forbidden, chain, failures, log; }
    var provider := resolver.forModel(model);
    if provider.None? { return NotFound, chain, failures, log; }
    chain := BuildChain(ChainInputFor(team, statusOf, resolver, model));
    if chain == [] { return Forbidden, chain, failures, log; }
    forall i | 0 <= i < |chain| ensures TeamAllows(team, chain[i].provider, chain[i].model) {
      assert chain[i] in chain;
    }
    var walk, extras;
    walk, failures, extras, log := RunChain(w, limits, chain, model, base);
    WalkOnlyPermitted(team, chain, w, log);
    if walk.Exhausted? { ExhaustedHasNoSuccess(w, limits, chain, model, base, failures, log); }
    response := if walk.Served? then Completed(walk.candidate) else Failed;
  }

  /** The model is that of the best choice of the planned tier, or of the tier above it when
      the planned one offers nothing. */
  ghost predicate RoutedTo(team: Team, statusOf: Option<string -> Status>, resolver: Resolver, policy: Policy,
                           model: string, looksComplex: bool, open: Candidate -> bool, target: string)
  {
    var planned := Planned(policy, model, looksComplex);
    exists c: Candidate, t: string ::
      && c.model == target && IsChoice(team, statusOf, resolver.tierNamed(t), open, c)
      && (t == planned || (Upwards(policy, model, planned) == Some(t) && !Offers(team, resolver.tierNamed(planned))))
  }

  ghost predicate NothingOffered(team: Team, resolver: Resolver, policy: Policy, model: string, looksComplex: bool) {
    var planned := Planned(policy, model, looksComplex);
    var up := Upwards(policy, model, planned);
    !Offers(team, resolver.tierNamed(planned)) && (up.Some? ==> !Offers(team, resolver.tierNamed(up.value)))
  }

  /** A request from routing to its last provider call. Whatever health, breakers,
      budget, routing and escalation do, it calls only for candidates the team's
      allowlists permit; and only permitted providers, if what the registry answers during
      the walk is safe for the team. A model named outright is the model that is served; a
      routing keyword is served as the best choice of its tier, or of the one above when its
      tier offers nothing, and refused when neither does. */
  method Serve(team: Team, statusOf: Option<string -> Status>, resolver: Resolver, policy: Option<Policy>,
               model: string, looksComplex: bool, open: Candidate -> bool, w: World, limits: Limits, base: int)
    returns (response: Response, target: Option<string>, chain: seq<Candidate>, failures: seq<Failure>, log: seq<Event>)
    requires limits.Valid()
    ensures OnlyPermitted(team, chain, log) && (SafeView(team, chain, w.resolve) ==> ProvidersPermitted(team, log))
    ensures Calls(log) <= limits.maxTotalAttempts
    ensures response.Completed? ==>
              response.served.provider in team.allowedProviders && response.served.model in team.allowedModels
    ensures policy.None? || !policy.value.Routes(model) ==> target == Some(model)
    ensures target.Some? ==> Answered(team, statusOf, resolver, w, limits, base, target.value, response, chain, failures, log)
    ensures policy.Some? && policy.value.Routes(model) && target.Some? ==>
              RoutedTo(team, statusOf, resolver, policy.value, model, looksComplex, open, target.value)
    ensures target.None? ==>
              && log == [] && policy.Some? && policy.value.Routes(model)
              && NothingOffered(team, resolver, policy.value, model, looksComplex)
              && response == if resolver.tierNamed(Planned(policy.value, model, looksComplex)) == [] then Failed else Forbidden
  {
    target, chain, failures, log := Some(model), [], [], [];
    if policy.Some? {
      var r := Route(team, statusOf, resolver, policy.value, model, looksComplex, open);
      if r.UnknownTier? { return Failed, None, chain, failures, log; }
      if r.NothingPermitted? { return Forbidden, None, chain, failures, log; }
      if r.Chosen? { target := Some(r.candidate.model); }
    }
    response, chain, failures, log := ServeModel(team, statusOf, resolver, target.value, w, limits, base);
  }

  // ----- exactly when the allowlist is escaped -----

  ghost predicate OnlyCallsOf(w: World, chain: seq<Candidate>, log: seq<Event>) {
    forall e :: e in log && e.Called? ==> IsCallOf(w, chain, e)
  }

  lemma AnswerIsCalls(w: World, chain: seq<Candidate>, log: seq<Event>, i: nat, provider: string, n: nat)
    requires OnlyCallsOf(w, chain, log) && i < |chain| && w.resolve(i, chain[i].model) == Some(provider)
    ensures OnlyCallsOf(w, chain, log + Answer(w, i, provider, chain[i].model, n))
  {
    var calls := CallEvents(w, i, provider, chain[i].model, n);
    forall e | e in calls ensures IsCallOf(w, chain, e) {
      var k :| 0 <= k < n && calls[k] == e;
    }
  }

  /** Every call goes to the provider the registry then names for the candidate's model. */
  lemma {:induction false} WalkOnlyCalls(w: World, limits: Limits, chain: seq<Candidate>, requested: string, base: int, p: Progress)
    requires limits.Valid() && OnlyCallsOf(w, chain, p.log)
    ensures OnlyCallsOf(w, chain, WalkFrom(w, limits, chain, requested, base, p).at.log)
    decreases |chain| - |p.failures|
  {
    if !Ended(w, limits, chain, p.failures) {
      var i := |p.failures|;
      if Obstacle(w, chain, requested, base, i).None? {
        AnswerIsCalls(w, chain, p.log, i, w.resolve(i, chain[i].model).value,
                      Attempts(w, i, Allowance(limits, TotalAttempts(p.failures))));
      }
      var (step, q) := Next(w, limits, chain, requested, base, p);
      if step.GoOn? { WalkOnlyCalls(w, limits, chain, requested, base, q); }
    }
  }

  predicate IsCallOf(w: World, chain: seq<Candidate>, e: Event) {
    e.Called? && e.place < |chain| && e.model == chain[e.place].model && w.resolve(e.place, e.model) == Some(e.provider)
  }

  /** Whatever else the world answers, no call of a walk under this registry goes to a
      provider the team may not use. */
  ghost predicate NeverEscapes(team: Team, limits: Limits, chain: seq<Candidate>, requested: string, base: int,
                               resolve: (nat, string) -> Option<string>)
    requires limits.Valid()
  {
    forall w: World :: w.resolve == resolve ==>
      ProvidersPermitted(team, WholeWalk(w, limits, chain, requested, base).at.log)
  }

  /** A world in which only one place of the chain gets past its breaker, and answers. */
  function OnlyPlace(resolve: (nat, string) -> Option<string>, i: nat): World {
    World(_ => true, false, p => p == i, _ => None, _ => Unavailable, resolve, (_, _) => Ok, (_, _) => false, _ => false)
  }

  /** Passing over the places before it, that walk comes to one call and its report. */
  lemma {:induction false} OnlyPlaceAnswers(limits: Limits, chain: seq<Candidate>, requested: string, base: int,
                                            resolve: (nat, string) -> Option<string>, i: nat, p: Progress)
    requires limits.Valid() && |p.failures| <= i < |chain| && TotalAttempts(p.failures) == 0 && p.log == []
    requires resolve(i, chain[i].model).Some?
    ensures var w := OnlyPlace(resolve, i);
            WalkFrom(w, limits, chain, requested, base, p).at.log
            == Answer(w, i, resolve(i, chain[i].model).value, chain[i].model, Attempts(w, i, Allowance(limits, 0)))
    decreases i - |p.failures|
  {
    var w, j := OnlyPlace(resolve, i), |p.failures|;
    var (step, q) := Next(w, limits, chain, requested, base, p);
    if j < i {
      assert Obstacle(w, chain, requested, base, j) == Some(BreakerOpen);
      AttemptsGrow(p.failures, Failure(chain[j], 0, BreakerOpen));
      OnlyPlaceAnswers(limits, chain, requested, base, resolve, i, q);
    } else {
      assert Obstacle(w, chain, requested, base, i).None? && step.Serve?;
    }
  }

  /** For every chain and every place where the registry now names a provider the team may not
      use, there is a world in which the walk calls that provider. */
  lemma UnsafePlaceIsCalled(team: Team, limits: Limits, chain: seq<Candidate>, requested: string, base: int,
                            resolve: (nat, string) -> Option<string>, i: nat)
    requires limits.Valid() && i < |chain| && !SafeAt(team, chain, resolve, i)
    ensures !ProvidersPermitted(team, WholeWalk(OnlyPlace(resolve, i), limits, chain, requested, base).at.log)
  {
    var w := OnlyPlace(resolve, i);
    var log := WholeWalk(w, limits, chain, requested, base).at.log;
    OnlyPlaceAnswers(limits, chain, requested, base, resolve, i, NothingYet);
    assert log[0] == Called(i, resolve(i, chain[i].model).value, chain[i].model, Ok);
    assert log[0].Called? && !TeamAllows(team, log[0].provider, log[0].model);
  }

  /** For every chain of permitted models and every registry the walk may meet: all providers
      called are permitted in all worlds if and only if the registry's answers are safe. */
  lemma AllowlistHoldsIff(team: Team, limits: Limits, chain: seq<Candidate>, requested: string, base: int,
                          resolve: (nat, string) -> Option<string>)
    requires limits.Valid() && forall i :: 0 <= i < |chain| ==> chain[i].model in team.allowedModels
    ensures NeverEscapes(team, limits, chain, requested, base, resolve) <==> SafeView(team, chain, resolve)
  {
    if SafeView(team, chain, resolve) {
      forall w: World | w.resolve == resolve ensures ProvidersPermitted(team, WholeWalk(w, limits, chain, requested, base).at.log) {
        WalkOnlyCalls(w, limits, chain, requested, base, NothingYet);
        var log := WholeWalk(w, limits, chain, requested, base).at.log;
        forall k | 0 <= k < |log| && log[k].Called? ensures TeamAllows(team, log[k].provider, log[k].model) {
          assert log[k] in log && IsCallOf(w, chain, log[k]) && SafeAt(team, chain, resolve, log[k].place);
        }
      }
    } else {
      var i :| 0 <= i < |chain| && !SafeAt(team, chain, resolve, i);
      UnsafePlaceIsCalled(team, limits, chain, requested, base, resolve, i);
      assert OnlyPlace(resolve, i).resolve == resolve;
    }
  }

  /** The escape, through the whole request: for every team, every registry the chain was built
      from, and every place of that chain whose model the registry has since given to a
      provider the team may not use. */
  method ReloadEscapesAllowlist(team: Team, statusOf: Option<string -> Status>, resolver: Resolver, model: string,
                                ghost chain: seq<Candidate>, i: nat, resolve: (nat, string) -> Option<string>,
                                limits: Limits, base: int)
    returns (w: World, log: seq<Event>)
    requires limits.Valid() && model in team.allowedModels && resolver.forModel(model).Some?
    requires IsChain(ChainInputFor(team, statusOf, resolver, model), chain)
    requires i < |chain| && !SafeAt(team, chain, resolve, i)
    ensures w.resolve == resolve && !ProvidersPermitted(team, log)
  {
    w := OnlyPlace(resolve, i);
    var response, built, failures;
    response, built, failures, log := ServeModel(team, statusOf, resolver, model, w, limits, base);
    ChainIsUnique(ChainInputFor(team, statusOf, resolver, model), built, chain);
    UnsafePlaceIsCalled(team, limits, chain, model, base, resolve, i);
  }
}
