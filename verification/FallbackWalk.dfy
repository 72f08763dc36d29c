/** One request walking its chain: breakers, budget, resolution, retries and
    fallback, against a world that may answer each question in any way. */
module FallbackWalk {
  import opened Prelude
  import opened FallbackOrder
  import Ledger = BudgetLedger

  /** How one provider call ends. A request's own fault fails the same way everywhere. */
  datatype Outcome = Ok | Err(retryable: bool, requestFault: bool)

  datatype Verdict = Allowed | OverCap | Unavailable

  /** The answers the rest of the system gives, by place in the chain and by attempt. */
  datatype World = World(
    guarded: nat -> bool,                     // the candidate has a breaker
    budgeted: bool,                           // and a budget to re-check
    allow: nat -> bool,                       // the breaker of the candidate lets it through
    price: string -> Option<int>,             // estimate for a model, if it can be priced
    reserve: nat -> Verdict,                  // the tracker's answer to its top-up
    resolve: (nat, string) -> Option<string>, // the provider that serves its model
    call: (nat, nat) -> Outcome,
    interrupted: (nat, nat) -> bool,          // the caller leaves during the back-off after an attempt
    cancelled: nat -> bool)                   // the caller has left before the candidate is reached

  datatype Limits = Limits(maxAttempts: int, maxTotalAttempts: int)
  {
    predicate Valid() { 1 <= maxAttempts <= maxTotalAttempts }
  }

  datatype Reason = BreakerOpen | OverBudget | Unresolved | CallFailed(outcome: Outcome)

  datatype Failure = Failure(candidate: Candidate, attempts: nat, reason: Reason)

  /** What the request does that others can see. */
  datatype Event =
    | Called(place: nat, provider: string, model: string, outcome: Outcome)
    | Reported(place: nat, success: bool)

  function Calls(log: seq<Event>): nat {
    if log == [] then 0 else Calls(log[..|log| - 1]) + if log[|log| - 1].Called? then 1 else 0
  }

  function CallsTo(log: seq<Event>, place: nat): nat {
    if log == [] then 0
    else
      var e := log[|log| - 1];
      CallsTo(log[..|log| - 1], place) + if e.Called? && e.place == place then 1 else 0
  }

  function ReportsOn(log: seq<Event>, place: nat): nat {
    if log == [] then 0
    else
      var e := log[|log| - 1];
      ReportsOn(log[..|log| - 1], place) + if e.Reported? && e.place == place then 1 else 0
  }

  lemma LogGrows(log: seq<Event>, e: Event)
    ensures Calls(log + [e]) == Calls(log) + if e.Called? then 1 else 0
    ensures forall p :: CallsTo(log + [e], p) == CallsTo(log, p) + if e.Called? && e.place == p then 1 else 0
    ensures forall p :: ReportsOn(log + [e], p) == ReportsOn(log, p) + if e.Reported? && e.place == p then 1 else 0
  {
  }

  function TotalAttempts(failures: seq<Failure>): nat {
    if failures == [] then 0
    else TotalAttempts(failures[..|failures| - 1]) + failures[|failures| - 1].attempts
  }

  lemma AttemptsGrow(failures: seq<Failure>, f: Failure)
    ensures TotalAttempts(failures + [f]) == TotalAttempts(failures) + f.attempts
  {
  }

  // ----- retries -----

  /** After this attempt another one is due, if any is left. */
  predicate RetryDue(w: World, place: nat, n: nat) {
    w.call(place, n).Err? && w.call(place, n).retryable && !w.interrupted(place, n)
  }

  /** How many calls a candidate gets: up to the first that leaves no retry due, or as many
      as are allowed. */
  function Attempts(w: World, place: nat, max: nat): (n: nat)
    requires max >= 1
    ensures 1 <= n <= max && (n < max ==> !RetryDue(w, place, n))
    ensures forall k :: 1 <= k < n ==> RetryDue(w, place, k)
  {
    AttemptsFrom(w, place, max, 1)
  }

  function AttemptsFrom(w: World, place: nat, max: nat, from: nat): (n: nat)
    requires 1 <= from <= max
    ensures from <= n <= max && (n < max ==> !RetryDue(w, place, n))
    ensures forall k :: from <= k < n ==> RetryDue(w, place, k)
    decreases max - from
  {
    if from == max || !RetryDue(w, place, from) then from else AttemptsFrom(w, place, max, from + 1)
  }

  lemma AttemptsAre(w: World, place: nat, max: nat, n: nat)
    requires 1 <= n <= max && (n < max ==> !RetryDue(w, place, n))
    requires forall k :: 1 <= k < n ==> RetryDue(w, place, k)
    ensures n == Attempts(w, place, max)
  {
  }

  /** The first n calls of a candidate. */
  function CallEvents(w: World, place: nat, provider: string, model: string, n: nat): (es: seq<Event>)
    ensures |es| == n
    ensures forall i :: 0 <= i < n ==> es[i] == Called(place, provider, model, w.call(place, i + 1))
  {
    if n == 0 then [] else CallEvents(w, place, provider, model, n - 1) + [Called(place, provider, model, w.call(place, n))]
  }

  lemma {:induction false} CallEventsCount(log: seq<Event>, w: World, place: nat, provider: string, model: string, n: nat, p: nat)
    ensures var all := log + CallEvents(w, place, provider, model, n);
            && Calls(all) == Calls(log) + n
            && CallsTo(all, p) == CallsTo(log, p) + (if p == place then n else 0)
            && ReportsOn(all, p) == ReportsOn(log, p)
  {
    if n == 0 {
      assert log + [] == log;
    } else {
      var before, e := log + CallEvents(w, place, provider, model, n - 1), Called(place, provider, model, w.call(place, n));
      var all := log + CallEvents(w, place, provider, model, n);
      CallEventsCount(log, w, place, provider, model, n - 1, p);
      assert all == before + [e] && all[..|all| - 1] == before;
    }
  }

  /** Retries one candidate until it answers, fails for good, runs out of attempts
      or the caller leaves, and not earlier. */
  method Retry(w: World, place: nat, provider: string, model: string, max: nat)
    returns (outcome: Outcome, attempts: nat, calls: seq<Event>)
    requires max >= 1
    ensures attempts == Attempts(w, place, max) && outcome == w.call(place, attempts)
    ensures calls == CallEvents(w, place, provider, model, attempts)
  {
    attempts, calls := 0, [];
    while true
      invariant 0 <= attempts < max && calls == CallEvents(w, place, provider, model, attempts)
      invariant forall k :: 1 <= k <= attempts ==> RetryDue(w, place, k)
      decreases max - attempts
    {
      attempts := attempts + 1;
      outcome := w.call(place, attempts);
      calls := calls + [Called(place, provider, model, outcome)];
      if outcome.Ok? || attempts == max || !outcome.retryable || w.interrupted(place, attempts) {
        AttemptsAre(w, place, max, attempts);
        return;
      }
    }
  }

  // ----- the budget of the request -----

  function Sum(amounts: seq<int>): int {
    if amounts == [] then 0 else Sum(amounts[..|amounts| - 1]) + amounts[|amounts| - 1]
  }

  lemma SumGrows(amounts: seq<int>, a: int)
    ensures Sum(amounts + [a]) == Sum(amounts) + a
  {
  }

  /** Whether the budget lets a candidate through, and what more it makes the request hold. */
  predicate Affordable(w: World, place: nat, requested: string, model: string, base: int) {
    || !w.budgeted || model == requested
    || (w.price(model).Some? && (w.price(model).value <= base || w.reserve(place).Allowed?))
  }

  /** The budget turns away exactly the candidates, other than the requested one, that cannot be
      priced, and those dearer than the base hold whose difference cannot be held. */
  lemma AffordableIff(w: World, place: nat, requested: string, model: string, base: int)
    ensures !Affordable(w, place, requested, model, base) <==>
              && w.budgeted && model != requested
              && (w.price(model) == None || (base < w.price(model).value && w.reserve(place) != Allowed))
  {
  }

  function TopUp(w: World, requested: string, model: string, base: int): seq<int> {
    if w.budgeted && model != requested && w.price(model).Some? && w.price(model).value > base
    then [w.price(model).value - base] else []
  }

  function Amounts(holds: seq<Ledger.Hold>): seq<int> {
    if holds == [] then [] else Amounts(holds[..|holds| - 1]) + [holds[|holds| - 1].amount]
  }

  /** When the world's answer to the top-up is the ledger's, so is the whole admission. */
  lemma AdmissionIsLedger(w: World, place: nat, requested: string, model: string, base: int,
                          c: Ledger.Counters, key: Ledger.Key, cap: int)
    requires w.budgeted && model != requested && w.price(model).Some?
    requires w.reserve(place).Allowed? <==> Ledger.Reserve(c, key, cap, w.price(model).value - base).1
    ensures var (_, more, ok) := Ledger.TopUp(c, key, cap, base, w.price(model).value);
            && (ok <==> Affordable(w, place, requested, model, base))
            && (ok ==> Amounts(more) == TopUp(w, requested, model, base))
  {
  }

  /** Holds more for a costlier candidate, or refuses it. */
  method AdmitCandidate(w: World, place: nat, requested: string, model: string, base: int, extras0: seq<int>)
    returns (ok: bool, extras: seq<int>)
    ensures ok <==> Affordable(w, place, requested, model, base)
    ensures extras == extras0 + if ok then TopUp(w, requested, model, base) else []
    ensures ok && Sum(extras0) >= 0 ==> Covers(w, requested, base + Sum(extras), model)
    ensures Sum(extras) >= Sum(extras0)
  {
    extras := extras0;
    assert extras0 + [] == extras0;
    if !w.budgeted || model == requested { return true, extras; }
    if w.price(model).None? { return false, extras; }
    var delta := w.price(model).value - base;
    if delta <= 0 { return true, extras; }
    if !w.reserve(place).Allowed? { return false, extras; }
    SumGrows(extras, delta);
    return true, extras + [delta];
  }

  /** A candidate other than the requested one costs no more than the request holds. */
  predicate Covers(w: World, requested: string, held: int, model: string) {
    w.budgeted && model != requested ==> w.price(model).Some? && w.price(model).value <= held
  }

  // ----- the walk -----

  predicate PastBreaker(w: World, place: nat) {
    w.guarded(place) ==> w.allow(place)
  }

  /** A call goes to the provider that serves the candidate's model, and only past
      its breaker; a report follows the candidate's last call and says how it ended. */
  ghost predicate EventOk(w: World, chain: seq<Candidate>, n: nat, log: seq<Event>, i: nat)
    requires n <= |chain| && i < |log|
  {
    var e := log[i];
    && e.place < n
    && (e.Called? ==>
          && e.model == chain[e.place].model && w.resolve(e.place, e.model) == Some(e.provider)
          && (w.guarded(e.place) ==> w.allow(e.place)))
    && (e.Reported? ==>
          i > 0 && log[i - 1].Called? && log[i - 1].place == e.place && (e.success <==> log[i - 1].outcome.Ok?))
  }

  /** One report on a candidate that was called, none on one that was not. */
  ghost predicate ReportsOwed(w: World, log: seq<Event>, place: nat) {
    ReportsOn(log, place) == if w.guarded(place) && CallsTo(log, place) > 0 then 1 else 0
  }

  /** The events of a walk that has dealt with the first n candidates. */
  ghost predicate Audited(w: World, chain: seq<Candidate>, n: nat, log: seq<Event>)
    requires n <= |chain|
  {
    && (forall i :: 0 <= i < |log| ==> EventOk(w, chain, n, log, i))
    && (forall p: nat :: ReportsOwed(w, log, p))
    && (forall p: nat :: p >= n ==> CallsTo(log, p) == 0)
  }

  lemma SkipKeepsAudit(w: World, chain: seq<Candidate>, n: nat, m: nat, log: seq<Event>)
    requires n <= m <= |chain| && Audited(w, chain, n, log)
    ensures Audited(w, chain, m, log)
  {
    forall i | 0 <= i < |log| ensures EventOk(w, chain, m, log, i) {
      assert EventOk(w, chain, n, log, i);
    }
  }

  /** One candidate's calls, and the one report they owe. */
  function Answer(w: World, place: nat, provider: string, model: string, n: nat): seq<Event> {
    CallEvents(w, place, provider, model, n) + if w.guarded(place) then [Reported(place, w.call(place, n).Ok?)] else []
  }

  lemma AnswerCounts(w: World, log: seq<Event>, place: nat, provider: string, model: string, n: nat)
    ensures var all := log + Answer(w, place, provider, model, n);
            && Calls(all) == Calls(log) + n
            && (forall p :: CallsTo(all, p) == CallsTo(log, p) + if p == place then n else 0)
            && (forall p :: ReportsOn(all, p) == ReportsOn(log, p) + if w.guarded(p) && p == place then 1 else 0)
  {
    var all := log + Answer(w, place, provider, model, n);
    AnswerCountsAt(w, log, place, provider, model, n, 0);
    forall p: nat
      ensures CallsTo(all, p) == CallsTo(log, p) + if p == place then n else 0
      ensures ReportsOn(all, p) == ReportsOn(log, p) + if w.guarded(p) && p == place then 1 else 0
    {
      AnswerCountsAt(w, log, place, provider, model, n, p);
    }
  }

  lemma AnswerCountsAt(w: World, log: seq<Event>, place: nat, provider: string, model: string, n: nat, p: nat)
    ensures var all := log + Answer(w, place, provider, model, n);
            && Calls(all) == Calls(log) + n
            && CallsTo(all, p) == CallsTo(log, p) + (if p == place then n else 0)
            && ReportsOn(all, p) == ReportsOn(log, p) + if w.guarded(p) && p == place then 1 else 0
  {
    var calls, report := CallEvents(w, place, provider, model, n), Reported(place, w.call(place, n).Ok?);
    CallEventsCount(log, w, place, provider, model, n, p);
    if w.guarded(place) {
      LogGrows(log + calls, report);
      Regroup(log, calls, [report]);
    } else {
      assert calls + [] == calls;
    }
  }

  lemma AnswerEvents(w: World, chain: seq<Candidate>, place: nat, m: nat, log: seq<Event>, provider: string, n: nat)
    requires m == place + 1 <= |chain| && n >= 1 && PastBreaker(w, place) && w.resolve(place, chain[place].model) == Some(provider)
    requires forall i :: 0 <= i < |log| ==> EventOk(w, chain, place, log, i)
    ensures var all := log + Answer(w, place, provider, chain[place].model, n);
            forall i :: 0 <= i < |all| ==> EventOk(w, chain, m, all, i)
  {
    var answer := Answer(w, place, provider, chain[place].model, n);
    var all := log + answer;
    forall i | 0 <= i < |all| ensures EventOk(w, chain, m, all, i) {
      if i < |log| {
        assert EventOk(w, chain, place, log, i);
        assert all[i] == log[i] && (i > 0 ==> all[i - 1] == log[i - 1]);
      } else {
        assert all[i] == answer[i - |log|];
        assert i - |log| > 0 ==> all[i - 1] == answer[i - |log| - 1];
      }
    }
  }

  lemma AnswerKeepsAudit(w: World, chain: seq<Candidate>, place: nat, log: seq<Event>, provider: string, n: nat)
    requires place < |chain| && n >= 1 && PastBreaker(w, place) && w.resolve(place, chain[place].model) == Some(provider)
    requires Audited(w, chain, place, log)
    ensures Audited(w, chain, place + 1, log + Answer(w, place, provider, chain[place].model, n))
  {
    AnswerEvents(w, chain, place, place + 1, log, provider, n);
    AnswerCounts(w, log, place, provider, chain[place].model, n);
    var all := log + Answer(w, place, provider, chain[place].model, n);
    forall p: nat ensures ReportsOwed(w, all, p) {
      assert ReportsOwed(w, log, p);
    }
  }

  datatype Walk = Served(place: nat, candidate: Candidate) | Exhausted

  /** The failures so far are those of the first candidates, with the calls each took. */
  ghost predicate FailuresInOrder(chain: seq<Candidate>, failures: seq<Failure>, log: seq<Event>) {
    |failures| <= |chain| && forall j :: 0 <= j < |failures| ==> FailureAt(chain, failures, log, j)
  }

  ghost predicate FailureAt(chain: seq<Candidate>, failures: seq<Failure>, log: seq<Event>, j: nat)
    requires j < |failures| <= |chain|
  {
    failures[j].candidate == chain[j] && failures[j].attempts == CallsTo(log, j)
  }

  /** Nothing stands between the request and a call of its first candidate. */
  predicate ReachesFirst(w: World, chain: seq<Candidate>, requested: string) {
    && chain != [] && chain[0].model == requested
    && PastBreaker(w, 0) && w.resolve(0, requested).Some?
  }

  ghost predicate Walking(w: World, limits: Limits, chain: seq<Candidate>, requested: string,
                          failures: seq<Failure>, extras: seq<int>, log: seq<Event>)
  {
    && Calls(log) == TotalAttempts(failures) <= limits.maxTotalAttempts
    && FailuresInOrder(chain, failures, log)
    && Audited(w, chain, |failures|, log)
    && Sum(extras) >= 0
    && (failures != [] && ReachesFirst(w, chain, requested) ==> CallsTo(log, 0) > 0)
  }

  // ----- why the walk did what it did -----

  /** How many calls are left to a candidate after so many. */
  function Allowance(limits: Limits, spent: nat): (max: nat)
    requires limits.Valid() && spent < limits.maxTotalAttempts
    ensures max >= 1
  {
    var remaining := limits.maxTotalAttempts - spent;
    if remaining < limits.maxAttempts then remaining else limits.maxAttempts
  }

  /** The candidate is let through by its breaker and the budget, and somebody serves it. */
  predicate Clear(w: World, chain: seq<Candidate>, requested: string, base: int, place: nat)
    requires place < |chain|
  {
    && PastBreaker(w, place) && Affordable(w, place, requested, chain[place].model, base)
    && w.resolve(place, chain[place].model).Some?
  }

  /** The calls of this candidate were all it was due: every retry that was due was made. */
  ghost predicate Exerted(w: World, limits: Limits, place: nat, spent: nat, attempts: nat) {
    limits.Valid() && spent < limits.maxTotalAttempts && attempts == Attempts(w, place, Allowance(limits, spent))
  }

  /** The walk comes to a candidate only with calls left and the caller still there. */
  predicate Reached(w: World, limits: Limits, place: nat, spent: nat) {
    spent < limits.maxTotalAttempts && (place > 0 ==> !w.cancelled(place))
  }

  /** Each failure is the first obstacle its candidate met. */
  ghost predicate Explained(w: World, limits: Limits, chain: seq<Candidate>, requested: string, base: int,
                            place: nat, spent: nat, f: Failure)
    requires place < |chain|
  {
    && Reached(w, limits, place, spent)
    && var model := chain[place].model;
    match f.reason
    case BreakerOpen => f.attempts == 0 && w.guarded(place) && !w.allow(place)
    case OverBudget => f.attempts == 0 && PastBreaker(w, place) && !Affordable(w, place, requested, model, base)
    case Unresolved =>
      && f.attempts == 0 && PastBreaker(w, place) && Affordable(w, place, requested, model, base)
      && w.resolve(place, model).None?
    case CallFailed(outcome) =>
      && Clear(w, chain, requested, base, place) && Exerted(w, limits, place, spent, f.attempts)
      && outcome == w.call(place, f.attempts) && outcome.Err?
  }

  /** The top-ups taken for the first n candidates. */
  function TopUps(w: World, chain: seq<Candidate>, requested: string, base: int, n: nat): seq<int>
    requires n <= |chain|
  {
    if n == 0 then []
    else
      var model := chain[n - 1].model;
      TopUps(w, chain, requested, base, n - 1)
      + if PastBreaker(w, n - 1) && Affordable(w, n - 1, requested, model, base) then TopUp(w, requested, model, base)
        else []
  }

  ghost predicate AllExplained(w: World, limits: Limits, chain: seq<Candidate>, requested: string, base: int,
                               failures: seq<Failure>)
  {
    && |failures| <= |chain|
    && forall j :: 0 <= j < |failures| ==> ExplainedAt(w, limits, chain, requested, base, failures, j)
  }

  ghost predicate ExplainedAt(w: World, limits: Limits, chain: seq<Candidate>, requested: string, base: int,
                              failures: seq<Failure>, j: nat)
    requires j < |failures| <= |chain|
  {
    Explained(w, limits, chain, requested, base, j, TotalAttempts(failures[..j]), failures[j])
  }

  predicate IsFault(f: Failure) {
    f.reason.CallFailed? && f.reason.outcome.Err? && f.reason.outcome.requestFault
  }

  ghost predicate NoFault(failures: seq<Failure>) {
    forall j :: 0 <= j < |failures| ==> !IsFault(failures[j])
  }

  /** Nothing is left to try: the chain, the attempts or the caller's patience ran out,
      or the request itself was at fault. */
  ghost predicate NothingLeft(w: World, limits: Limits, chain: seq<Candidate>, failures: seq<Failure>) {
    || |failures| == |chain|
    || TotalAttempts(failures) == limits.maxTotalAttempts
    || (failures != [] && w.cancelled(|failures|))
    || (failures != [] && IsFault(failures[|failures| - 1]))
  }

  /** The last call of some candidate answered. */
  ghost predicate Succeeded(w: World, chain: seq<Candidate>, log: seq<Event>) {
    exists p :: 0 <= p < |chain| && CallsTo(log, p) > 0 && w.call(p, CallsTo(log, p)).Ok?
  }

  lemma ExhaustedHasNoSuccess(w: World, limits: Limits, chain: seq<Candidate>, requested: string, base: int,
                              failures: seq<Failure>, log: seq<Event>)
    requires FailuresInOrder(chain, failures, log) && AllExplained(w, limits, chain, requested, base, failures)
    requires Audited(w, chain, |failures|, log)
    ensures !Succeeded(w, chain, log)
  {
    forall p | 0 <= p < |chain| ensures CallsTo(log, p) > 0 ==> !w.call(p, CallsTo(log, p)).Ok? {
      if p < |failures| {
        assert ExplainedAt(w, limits, chain, requested, base, failures, p) && FailureAt(chain, failures, log, p);
      }
    }
  }

  // ----- a reference to hold the walk against -----

  datatype Step = GoOn | Stop | Serve

  /** What a walk has to show so far. */
  datatype Progress = Progress(failures: seq<Failure>, extras: seq<int>, log: seq<Event>)

  const NothingYet := Progress([], [], [])

  datatype Result = Result(walk: Walk, at: Progress)

  /** The first obstacle a candidate meets: breaker, budget and registry, in this order. */
  function Obstacle(w: World, chain: seq<Candidate>, requested: string, base: int, i: nat): Option<Reason>
    requires i < |chain|
  {
    if !PastBreaker(w, i) then Some(BreakerOpen)
    else if !Affordable(w, i, requested, chain[i].model, base) then Some(OverBudget)
    else if w.resolve(i, chain[i].model).None? then Some(Unresolved)
    else None
  }

  function ExtrasAfter(w: World, chain: seq<Candidate>, requested: string, base: int, i: nat, extras: seq<int>): seq<int>
    requires i < |chain|
  {
    extras + if PastBreaker(w, i) && Affordable(w, i, requested, chain[i].model, base)
             then TopUp(w, requested, chain[i].model, base) else []
  }

  predicate Ended(w: World, limits: Limits, chain: seq<Candidate>, failures: seq<Failure>) {
    var i := |failures|;
    i >= |chain| || TotalAttempts(failures) >= limits.maxTotalAttempts || (i > 0 && w.cancelled(i))
  }

  /** Past a candidate that met an obstacle. */
  function Passed(w: World, chain: seq<Candidate>, requested: string, base: int, p: Progress, reason: Reason): Progress
    requires |p.failures| < |chain|
  {
    var i := |p.failures|;
    Progress(p.failures + [Failure(chain[i], 0, reason)], ExtrasAfter(w, chain, requested, base, i, p.extras), p.log)
  }

  /** After n calls of a candidate that met none. */
  function Tried(w: World, chain: seq<Candidate>, requested: string, base: int, p: Progress, n: nat): Progress
    requires |p.failures| < |chain| && Obstacle(w, chain, requested, base, |p.failures|).None?
  {
    var i := |p.failures|;
    var outcome := w.call(i, n);
    Progress(p.failures + if outcome.Ok? then [] else [Failure(chain[i], n, CallFailed(outcome))],
             ExtrasAfter(w, chain, requested, base, i, p.extras),
             p.log + Answer(w, i, w.resolve(i, chain[i].model).value, chain[i].model, n))
  }

  function StepAfter(outcome: Outcome): Step {
    if outcome.Ok? then Serve else if outcome.requestFault then Stop else GoOn
  }

  /** One more candidate. */
  function Next(w: World, limits: Limits, chain: seq<Candidate>, requested: string, base: int, p: Progress): (Step, Progress)
    requires limits.Valid() && |p.failures| < |chain| && TotalAttempts(p.failures) < limits.maxTotalAttempts
  {
    match Obstacle(w, chain, requested, base, |p.failures|)
    case Some(reason) => (GoOn, Passed(w, chain, requested, base, p, reason))
    case None =>
      var n := Attempts(w, |p.failures|, Allowance(limits, TotalAttempts(p.failures)));
      (StepAfter(w.call(|p.failures|, n)), Tried(w, chain, requested, base, p, n))
  }

  /** The rest of a walk. */
  function WalkFrom(w: World, limits: Limits, chain: seq<Candidate>, requested: string, base: int, p: Progress): Result
    requires limits.Valid()
    decreases |chain| - |p.failures|
  {
    if Ended(w, limits, chain, p.failures) then Result(Exhausted, p)
    else
      var (step, q) := Next(w, limits, chain, requested, base, p);
      match step
      case Serve => Result(Served(|p.failures|, chain[|p.failures|]), q)
      case Stop => Result(Exhausted, q)
      case GoOn => WalkFrom(w, limits, chain, requested, base, q)
  }

  function WholeWalk(w: World, limits: Limits, chain: seq<Candidate>, requested: string, base: int): Result
    requires limits.Valid()
  {
    WalkFrom(w, limits, chain, requested, base, NothingYet)
  }

  // ----- what every walk satisfies -----

  /** One more candidate failed, after all its calls or without any. */
  lemma FailureKeepsWalking(w: World, limits: Limits, chain: seq<Candidate>, requested: string,
                            failures: seq<Failure>, extras: seq<int>, log0: seq<Event>, f: Failure, log: seq<Event>)
    requires |failures| < |chain| && Walking(w, limits, chain, requested, failures, extras, log0)
    requires f.candidate == chain[|failures|] && TotalAttempts(failures) + f.attempts <= limits.maxTotalAttempts
    requires f.attempts == 0 && failures == [] ==> !ReachesFirst(w, chain, requested)
    requires Audited(w, chain, |failures| + 1, log) && Calls(log) == Calls(log0) + f.attempts
    requires forall p :: CallsTo(log, p) == CallsTo(log0, p) + if p == |failures| then f.attempts else 0
    ensures Walking(w, limits, chain, requested, failures + [f], extras, log)
  {
    AttemptsGrow(failures, f);
    assert CallsTo(log0, |failures|) == 0;
    var all := failures + [f];
    forall j | 0 <= j < |all| ensures FailureAt(chain, all, log, j) {
      if j < |failures| { assert FailureAt(chain, failures, log0, j); }
    }
  }

  /** What is known after a candidate that failed. */
  ghost predicate Onward(w: World, limits: Limits, chain: seq<Candidate>, requested: string, base: int,
                         failures: seq<Failure>, extras: seq<int>, log: seq<Event>)
  {
    && Walking(w, limits, chain, requested, failures, extras, log)
    && AllExplained(w, limits, chain, requested, base, failures)
    && extras == TopUps(w, chain, requested, base, |failures|)
  }

  /** What is known once a candidate has served. */
  ghost predicate Serving(w: World, limits: Limits, chain: seq<Candidate>, requested: string, base: int,
                          failures: seq<Failure>, extras: seq<int>, log: seq<Event>)
  {
    && FailuresInOrder(chain, failures, log) && AllExplained(w, limits, chain, requested, base, failures)
    && |failures| < |chain| && Audited(w, chain, |failures| + 1, log)
    && var place := |failures|;
    && var attempts := CallsTo(log, place);
    && Reached(w, limits, place, TotalAttempts(failures))
    && Clear(w, chain, requested, base, place) && Exerted(w, limits, place, TotalAttempts(failures), attempts)
    && w.call(place, attempts).Ok?
    && Calls(log) == TotalAttempts(failures) + attempts <= limits.maxTotalAttempts
    && extras == TopUps(w, chain, requested, base, place + 1)
    && Covers(w, requested, base + Sum(extras), chain[place].model)
    && (ReachesFirst(w, chain, requested) ==> CallsTo(log, 0) > 0)
  }

  lemma ExplainOneMore(w: World, limits: Limits, chain: seq<Candidate>, requested: string, base: int,
                       failures: seq<Failure>, f: Failure)
    requires AllExplained(w, limits, chain, requested, base, failures) && |failures| < |chain|
    requires Explained(w, limits, chain, requested, base, |failures|, TotalAttempts(failures), f)
    ensures AllExplained(w, limits, chain, requested, base, failures + [f])
  {
    var all := failures + [f];
    forall j | 0 <= j < |all| ensures ExplainedAt(w, limits, chain, requested, base, all, j) {
      if j < |failures| {
        assert ExplainedAt(w, limits, chain, requested, base, failures, j);
        assert all[..j] == failures[..j] && all[j] == failures[j];
      } else {
        assert all[..j] == failures;
      }
    }
  }

  lemma Regroup(a: seq<Event>, b: seq<Event>, c: seq<Event>)
    ensures a + (b + c) == (a + b) + c
  {
  }

  /** A candidate passed over without a call. */
  lemma SkipIsOnward(w: World, limits: Limits, chain: seq<Candidate>, requested: string, base: int,
                     failures: seq<Failure>, extras0: seq<int>, extras: seq<int>, log: seq<Event>, f: Failure)
    requires |failures| < |chain| && Onward(w, limits, chain, requested, base, failures, extras0, log)
    requires !Clear(w, chain, requested, base, |failures|) && f.candidate == chain[|failures|] && f.attempts == 0
    requires Explained(w, limits, chain, requested, base, |failures|, TotalAttempts(failures), f)
    requires Sum(extras) >= 0 && extras == TopUps(w, chain, requested, base, |failures| + 1)
    ensures Onward(w, limits, chain, requested, base, failures + [f], extras, log)
  {
    SkipKeepsAudit(w, chain, |failures|, |failures| + 1, log);
    FailureKeepsWalking(w, limits, chain, requested, failures, extras, log, f, log);
    ExplainOneMore(w, limits, chain, requested, base, failures, f);
  }

  /** A candidate that was called and failed. */
  lemma FailureIsOnward(w: World, limits: Limits, chain: seq<Candidate>, requested: string, base: int,
                        failures: seq<Failure>, extras0: seq<int>, extras: seq<int>, log0: seq<Event>, log: seq<Event>, f: Failure)
    requires |failures| < |chain| && Onward(w, limits, chain, requested, base, failures, extras0, log0)
    requires f.candidate == chain[|failures|] && f.reason.CallFailed?
    requires Explained(w, limits, chain, requested, base, |failures|, TotalAttempts(failures), f)
    requires Audited(w, chain, |failures| + 1, log) && Calls(log) == Calls(log0) + f.attempts
    requires forall p :: CallsTo(log, p) == CallsTo(log0, p) + if p == |failures| then f.attempts else 0
    requires Sum(extras) >= 0 && extras == TopUps(w, chain, requested, base, |failures| + 1)
    ensures Onward(w, limits, chain, requested, base, failures + [f], extras, log)
  {
    FailureKeepsWalking(w, limits, chain, requested, failures, extras, log0, f, log);
    ExplainOneMore(w, limits, chain, requested, base, failures, f);
  }

  lemma AnswerIsServing(w: World, limits: Limits, chain: seq<Candidate>, requested: string, base: int,
                        failures: seq<Failure>, extras0: seq<int>, extras: seq<int>, log0: seq<Event>, log: seq<Event>, attempts: nat)
    requires |failures| < |chain| && Onward(w, limits, chain, requested, base, failures, extras0, log0)
    requires Clear(w, chain, requested, base, |failures|)
    requires Reached(w, limits, |failures|, TotalAttempts(failures))
    requires Exerted(w, limits, |failures|, TotalAttempts(failures), attempts) && w.call(|failures|, attempts).Ok?
    requires Audited(w, chain, |failures| + 1, log) && Calls(log) == Calls(log0) + attempts
    requires forall p :: CallsTo(log, p) == CallsTo(log0, p) + if p == |failures| then attempts else 0
    requires extras == TopUps(w, chain, requested, base, |failures| + 1)
    requires Covers(w, requested, base + Sum(extras), chain[|failures|].model)
    ensures Serving(w, limits, chain, requested, base, failures, extras, log)
  {
    assert CallsTo(log0, |failures|) == 0;
    forall j | 0 <= j < |failures| ensures FailureAt(chain, failures, log, j) {
      assert FailureAt(chain, failures, log0, j);
    }
  }

  /** The walk gave up. */
  ghost predicate GaveUp(w: World, limits: Limits, chain: seq<Candidate>, requested: string, base: int,
                         failures: seq<Failure>, extras: seq<int>, log: seq<Event>)
  {
    && Onward(w, limits, chain, requested, base, failures, extras, log)
    && NothingLeft(w, limits, chain, failures)
  }

  lemma GivesUp(w: World, limits: Limits, chain: seq<Candidate>, requested: string, base: int,
                failures: seq<Failure>, extras: seq<int>, log: seq<Event>)
    requires GaveUp(w, limits, chain, requested, base, failures, extras, log) && limits.Valid()
    ensures FailuresInOrder(chain, failures, log) && AllExplained(w, limits, chain, requested, base, failures)
    ensures Calls(log) == TotalAttempts(failures) <= limits.maxTotalAttempts
    ensures Audited(w, chain, |chain|, log)
    ensures ReachesFirst(w, chain, requested) ==> CallsTo(log, 0) > 0
  {
    SkipKeepsAudit(w, chain, |failures|, |chain|, log);
  }

  lemma Serves(w: World, limits: Limits, chain: seq<Candidate>, requested: string, base: int,
               failures: seq<Failure>, extras: seq<int>, log: seq<Event>)
    requires Serving(w, limits, chain, requested, base, failures, extras, log)
    ensures FailuresInOrder(chain, failures, log) && AllExplained(w, limits, chain, requested, base, failures)
    ensures Calls(log) <= limits.maxTotalAttempts && Audited(w, chain, |chain|, log)
    ensures ReachesFirst(w, chain, requested) ==> CallsTo(log, 0) > 0
  {
    SkipKeepsAudit(w, chain, |failures| + 1, |chain|, log);
  }

  /** A failure that is the request's own fault ends the walk, any other lets it go on. */
  lemma OneMoreFailure(w: World, limits: Limits, chain: seq<Candidate>, failures: seq<Failure>, f: Failure)
    requires NoFault(failures)
    ensures TotalAttempts(failures + [f]) == TotalAttempts(failures) + f.attempts
    ensures !IsFault(f) ==> NoFault(failures + [f])
    ensures IsFault(f) ==>
              NothingLeft(w, limits, chain, failures + [f]) && NoFault((failures + [f])[..|failures + [f]| - 1])
  {
    var all := failures + [f];
    assert all[..|all| - 1] == failures && all[|all| - 1] == f;
  }

  // ----- every retry that was due, and no other -----

  /** No candidate is called more often than allowed, nor again without a retry being due; and
      one that still has a retry due has had all its attempts, or the request has. */
  ghost predicate EffortAt(w: World, limits: Limits, log: seq<Event>, p: nat) {
    var n := CallsTo(log, p);
    && n <= limits.maxAttempts
    && (forall k :: 1 <= k < n ==> Transient(w.call(p, k)) && !w.interrupted(p, k))
    && (n > 0 && Transient(w.call(p, n)) && !w.interrupted(p, n) ==>
          n == limits.maxAttempts || Calls(log) == limits.maxTotalAttempts)
  }

  predicate Transient(o: Outcome) {
    o.Err? && o.retryable
  }

  ghost predicate Effort(w: World, limits: Limits, log: seq<Event>) {
    forall p: nat :: EffortAt(w, limits, log, p)
  }

  lemma ExertedIsEffort(w: World, limits: Limits, place: nat, spent: nat, n: nat, log: seq<Event>)
    requires Exerted(w, limits, place, spent, n) && CallsTo(log, place) == n
    requires spent + n <= Calls(log) <= limits.maxTotalAttempts
    ensures EffortAt(w, limits, log, place)
  {
    forall k | 1 <= k < n ensures Transient(w.call(place, k)) && !w.interrupted(place, k) {
      assert RetryDue(w, place, k);
    }
  }

  lemma {:induction false} AttemptsSoFar(failures: seq<Failure>, j: nat)
    requires j < |failures|
    ensures TotalAttempts(failures[..j]) + failures[j].attempts <= TotalAttempts(failures)
  {
    var n := |failures| - 1;
    if j < n {
      AttemptsSoFar(failures[..n], j);
      assert failures[..n][..j] == failures[..j];
    }
  }

  lemma FailureIsEffort(w: World, limits: Limits, chain: seq<Candidate>, requested: string, base: int,
                        failures: seq<Failure>, log: seq<Event>, p: nat)
    requires limits.Valid() && p < |failures|
    requires FailuresInOrder(chain, failures, log) && AllExplained(w, limits, chain, requested, base, failures)
    requires TotalAttempts(failures) <= Calls(log) <= limits.maxTotalAttempts
    ensures EffortAt(w, limits, log, p)
  {
    assert FailureAt(chain, failures, log, p) && ExplainedAt(w, limits, chain, requested, base, failures, p);
    AttemptsSoFar(failures, p);
    if failures[p].reason.CallFailed? {
      ExertedIsEffort(w, limits, p, TotalAttempts(failures[..p]), failures[p].attempts, log);
    }
  }

  lemma ExhaustedIsEffort(w: World, limits: Limits, chain: seq<Candidate>, requested: string, base: int,
                          failures: seq<Failure>, extras: seq<int>, log: seq<Event>)
    requires limits.Valid() && Onward(w, limits, chain, requested, base, failures, extras, log)
    ensures Effort(w, limits, log)
  {
    forall p: nat ensures EffortAt(w, limits, log, p) {
      if p < |failures| { FailureIsEffort(w, limits, chain, requested, base, failures, log, p); }
    }
  }

  lemma ServedIsEffort(w: World, limits: Limits, chain: seq<Candidate>, requested: string, base: int,
                       failures: seq<Failure>, extras: seq<int>, log: seq<Event>)
    requires Serving(w, limits, chain, requested, base, failures, extras, log)
    ensures Effort(w, limits, log)
  {
    forall p: nat ensures EffortAt(w, limits, log, p) {
      if p < |failures| {
        FailureIsEffort(w, limits, chain, requested, base, failures, log, p);
      } else if p == |failures| {
        ExertedIsEffort(w, limits, p, TotalAttempts(failures), CallsTo(log, p), log);
      }
    }
  }

  /** What every finished walk satisfies: no more provider calls than the limit; the failures
      are those of the first candidates, in order, each with the first obstacle it met; every
      retry that was due and no other; one report on each candidate called and none on any
      other; a candidate that serves is covered by what is held; and nothing is left when it
      gives up. */
  ghost predicate Finished(w: World, limits: Limits, chain: seq<Candidate>, requested: string, base: int,
                           walk: Walk, failures: seq<Failure>, extras: seq<int>, log: seq<Event>)
  {
    && Calls(log) <= limits.maxTotalAttempts
    && FailuresInOrder(chain, failures, log) && AllExplained(w, limits, chain, requested, base, failures)
    && Audited(w, chain, |chain|, log) && Effort(w, limits, log)
    && (failures != [] ==> NoFault(failures[..|failures| - 1]))
    && (ReachesFirst(w, chain, requested) ==> CallsTo(log, 0) > 0)
    && match walk
       case Exhausted => GaveUp(w, limits, chain, requested, base, failures, extras, log)
       case Served(place, candidate) =>
         && place == |failures| < |chain| && candidate == chain[place]
         && Serving(w, limits, chain, requested, base, failures, extras, log)
  }

  lemma FinishedExhausted(w: World, limits: Limits, chain: seq<Candidate>, requested: string, base: int,
                          failures: seq<Failure>, extras: seq<int>, log: seq<Event>)
    requires limits.Valid() && Onward(w, limits, chain, requested, base, failures, extras, log)
    requires NothingLeft(w, limits, chain, failures) && (failures != [] ==> NoFault(failures[..|failures| - 1]))
    ensures Finished(w, limits, chain, requested, base, Exhausted, failures, extras, log)
  {
    GivesUp(w, limits, chain, requested, base, failures, extras, log);
    ExhaustedIsEffort(w, limits, chain, requested, base, failures, extras, log);
  }

  lemma FinishedServed(w: World, limits: Limits, chain: seq<Candidate>, requested: string, base: int,
                       failures: seq<Failure>, extras: seq<int>, log: seq<Event>)
    requires Serving(w, limits, chain, requested, base, failures, extras, log) && NoFault(failures)
    ensures Finished(w, limits, chain, requested, base, Served(|failures|, chain[|failures|]), failures, extras, log)
  {
    Serves(w, limits, chain, requested, base, failures, extras, log);
    ServedIsEffort(w, limits, chain, requested, base, failures, extras, log);
  }

  lemma NoFaultBefore(failures: seq<Failure>)
    requires NoFault(failures)
    ensures failures != [] ==> NoFault(failures[..|failures| - 1])
  {
  }

  lemma ExtrasAreTopUps(w: World, chain: seq<Candidate>, requested: string, base: int, i: nat, extras: seq<int>)
    requires i < |chain| && extras == TopUps(w, chain, requested, base, i) && Sum(extras) >= 0
    ensures var after := ExtrasAfter(w, chain, requested, base, i, extras);
            && after == TopUps(w, chain, requested, base, i + 1) && Sum(after) >= 0
            && (PastBreaker(w, i) && Affordable(w, i, requested, chain[i].model, base) ==>
                  Covers(w, requested, base + Sum(after), chain[i].model))
  {
    var more := TopUp(w, requested, chain[i].model, base);
    assert extras + [] == extras;
    if more != [] { SumGrows(extras, more[0]); }
  }

  /** A walk that is in order so far. */
  ghost predicate InOrder(w: World, limits: Limits, chain: seq<Candidate>, requested: string, base: int, p: Progress) {
    Onward(w, limits, chain, requested, base, p.failures, p.extras, p.log) && NoFault(p.failures)
  }

  /** A walk that ended in order. */
  ghost predicate EndsInOrder(w: World, limits: Limits, chain: seq<Candidate>, requested: string, base: int, r: Result) {
    Finished(w, limits, chain, requested, base, r.walk, r.at.failures, r.at.extras, r.at.log)
  }

  lemma TurnSkips(w: World, limits: Limits, chain: seq<Candidate>, requested: string, base: int, p: Progress, reason: Reason)
    requires limits.Valid() && !Ended(w, limits, chain, p.failures)
    requires InOrder(w, limits, chain, requested, base, p)
    requires Obstacle(w, chain, requested, base, |p.failures|) == Some(reason)
    ensures InOrder(w, limits, chain, requested, base, Passed(w, chain, requested, base, p, reason))
  {
    var i := |p.failures|;
    var f := Failure(chain[i], 0, reason);
    var extras := ExtrasAfter(w, chain, requested, base, i, p.extras);
    ExtrasAreTopUps(w, chain, requested, base, i, p.extras);
    SkipIsOnward(w, limits, chain, requested, base, p.failures, p.extras, extras, p.log, f);
    OneMoreFailure(w, limits, chain, p.failures, f);
  }

  lemma TurnServes(w: World, limits: Limits, chain: seq<Candidate>, requested: string, base: int, p: Progress, n: nat)
    requires limits.Valid() && !Ended(w, limits, chain, p.failures) && InOrder(w, limits, chain, requested, base, p)
    requires Obstacle(w, chain, requested, base, |p.failures|).None?
    requires Exerted(w, limits, |p.failures|, TotalAttempts(p.failures), n) && w.call(|p.failures|, n).Ok?
    ensures EndsInOrder(w, limits, chain, requested, base,
                        Result(Served(|p.failures|, chain[|p.failures|]), Tried(w, chain, requested, base, p, n)))
  {
    var i := |p.failures|;
    var provider := w.resolve(i, chain[i].model).value;
    var log := p.log + Answer(w, i, provider, chain[i].model, n);
    var extras := ExtrasAfter(w, chain, requested, base, i, p.extras);
    ExtrasAreTopUps(w, chain, requested, base, i, p.extras);
    AnswerKeepsAudit(w, chain, i, p.log, provider, n);
    AnswerCounts(w, p.log, i, provider, chain[i].model, n);
    AnswerIsServing(w, limits, chain, requested, base, p.failures, p.extras, extras, p.log, log, n);
    FinishedServed(w, limits, chain, requested, base, p.failures, extras, log);
    assert p.failures + [] == p.failures;
  }

  lemma TriedIsOnward(w: World, limits: Limits, chain: seq<Candidate>, requested: string, base: int, p: Progress, n: nat)
    requires limits.Valid() && !Ended(w, limits, chain, p.failures) && InOrder(w, limits, chain, requested, base, p)
    requires Obstacle(w, chain, requested, base, |p.failures|).None?
    requires Exerted(w, limits, |p.failures|, TotalAttempts(p.failures), n) && w.call(|p.failures|, n).Err?
    ensures var q := Tried(w, chain, requested, base, p, n);
            Onward(w, limits, chain, requested, base, q.failures, q.extras, q.log)
  {
    var i := |p.failures|;
    var provider := w.resolve(i, chain[i].model).value;
    var f := Failure(chain[i], n, CallFailed(w.call(i, n)));
    var log := p.log + Answer(w, i, provider, chain[i].model, n);
    var extras := ExtrasAfter(w, chain, requested, base, i, p.extras);
    ExtrasAreTopUps(w, chain, requested, base, i, p.extras);
    AnswerKeepsAudit(w, chain, i, p.log, provider, n);
    AnswerCounts(w, p.log, i, provider, chain[i].model, n);
    FailureIsOnward(w, limits, chain, requested, base, p.failures, p.extras, extras, p.log, log, f);
  }

  lemma {:induction false} TurnFails(w: World, limits: Limits, chain: seq<Candidate>, requested: string, base: int,
                                     p: Progress, n: nat)
    requires limits.Valid() && !Ended(w, limits, chain, p.failures) && InOrder(w, limits, chain, requested, base, p)
    requires Obstacle(w, chain, requested, base, |p.failures|).None?
    requires Exerted(w, limits, |p.failures|, TotalAttempts(p.failures), n) && w.call(|p.failures|, n).Err?
    ensures var q := Tried(w, chain, requested, base, p, n);
            if w.call(|p.failures|, n).requestFault then EndsInOrder(w, limits, chain, requested, base, Result(Exhausted, q))
            else InOrder(w, limits, chain, requested, base, q)
  {
    var f := Failure(chain[|p.failures|], n, CallFailed(w.call(|p.failures|, n)));
    TriedIsOnward(w, limits, chain, requested, base, p, n);
    OneMoreFailure(w, limits, chain, p.failures, f);
    var q := Tried(w, chain, requested, base, p, n);
    if IsFault(f) { FinishedExhausted(w, limits, chain, requested, base, q.failures, q.extras, q.log); }
  }

  /** One more candidate leaves the walk in order, or ended in order. */
  lemma {:induction false} Turn(w: World, limits: Limits, chain: seq<Candidate>, requested: string, base: int, p: Progress)
    requires limits.Valid() && !Ended(w, limits, chain, p.failures) && InOrder(w, limits, chain, requested, base, p)
    ensures var (step, q) := Next(w, limits, chain, requested, base, p);
            match step
            case GoOn => InOrder(w, limits, chain, requested, base, q)
            case Stop => EndsInOrder(w, limits, chain, requested, base, Result(Exhausted, q))
            case Serve => EndsInOrder(w, limits, chain, requested, base, Result(Served(|p.failures|, chain[|p.failures|]), q))
  {
    var i := |p.failures|;
    var obstacle := Obstacle(w, chain, requested, base, i);
    if obstacle.Some? {
      TurnSkips(w, limits, chain, requested, base, p, obstacle.value);
    } else {
      var n := Attempts(w, i, Allowance(limits, TotalAttempts(p.failures)));
      if w.call(i, n).Ok? {
        TurnServes(w, limits, chain, requested, base, p, n);
      } else {
        TurnFails(w, limits, chain, requested, base, p, n);
      }
    }
  }

  lemma EndsHere(w: World, limits: Limits, chain: seq<Candidate>, requested: string, base: int, p: Progress)
    requires limits.Valid() && Ended(w, limits, chain, p.failures) && InOrder(w, limits, chain, requested, base, p)
    ensures EndsInOrder(w, limits, chain, requested, base, Result(Exhausted, p))
  {
    NoFaultBefore(p.failures);
    FinishedExhausted(w, limits, chain, requested, base, p.failures, p.extras, p.log);
  }

  /** A walk that is in order so far ends in order. */
  lemma {:induction false} WalkFinishes(w: World, limits: Limits, chain: seq<Candidate>, requested: string, base: int, p: Progress)
    requires limits.Valid() && InOrder(w, limits, chain, requested, base, p)
    ensures EndsInOrder(w, limits, chain, requested, base, WalkFrom(w, limits, chain, requested, base, p))
    decreases |chain| - |p.failures|
  {
    if Ended(w, limits, chain, p.failures) {
      EndsHere(w, limits, chain, requested, base, p);
    } else {
      Turn(w, limits, chain, requested, base, p);
      var (step, q) := Next(w, limits, chain, requested, base, p);
      if step.GoOn? { WalkFinishes(w, limits, chain, requested, base, q); }
    }
  }

  // ----- walking -----

  /** Calls one candidate under the retry policy, within the calls left, and tells its breaker
      how that ended. */
  method CallCandidate(w: World, limits: Limits, cand: Candidate, place: nat, provider: string, spent: nat, log0: seq<Event>)
    returns (outcome: Outcome, attempts: nat, log: seq<Event>)
    requires limits.Valid() && spent < limits.maxTotalAttempts
    ensures Exerted(w, limits, place, spent, attempts) && outcome == w.call(place, attempts)
    ensures log == log0 + Answer(w, place, provider, cand.model, attempts)
  {
    var remaining := limits.maxTotalAttempts - spent;
    var max := if remaining < limits.maxAttempts then remaining else limits.maxAttempts;
    var calls;
    outcome, attempts, calls := Retry(w, place, provider, cand.model, max);
    log := log0 + calls;
    if w.guarded(place) { log := log + [Reported(place, outcome.Ok?)]; }
    Regroup(log0, calls, [Reported(place, outcome.Ok?)]);
    assert calls + [] == calls;
  }

  /** Breaker, budget and registry, in this order: the first obstacle a candidate meets,
      or the provider to call. */
  method Screen(w: World, chain: seq<Candidate>, requested: string, base: int, i: nat, extras0: seq<int>)
    returns (blocked: Option<Reason>, provider: string, extras: seq<int>)
    requires i < |chain|
    ensures blocked == Obstacle(w, chain, requested, base, i)
    ensures blocked.None? ==> w.resolve(i, chain[i].model) == Some(provider)
    ensures extras == ExtrasAfter(w, chain, requested, base, i, extras0)
  {
    extras, provider := extras0, "";
    assert extras0 + [] == extras0;
    if w.guarded(i) && !w.allow(i) { return Some(BreakerOpen), provider, extras; }
    var ok;
    ok, extras := AdmitCandidate(w, i, requested, chain[i].model, base, extras0);
    if !ok { return Some(OverBudget), provider, extras; }
    var p := w.resolve(i, chain[i].model);
    if p.None? { return Some(Unresolved), provider, extras; }
    return None, p.value, extras;
  }

  /** Deals with the next candidate of the chain, as the reference does. */
  method Visit(w: World, limits: Limits, chain: seq<Candidate>, requested: string, base: int, p: Progress)
    returns (step: Step, q: Progress)
    requires limits.Valid() && |p.failures| < |chain| && TotalAttempts(p.failures) < limits.maxTotalAttempts
    ensures (step, q) == Next(w, limits, chain, requested, base, p)
  {
    var i := |p.failures|;
    var blocked, provider, extras := Screen(w, chain, requested, base, i, p.extras);
    if blocked.Some? { return GoOn, Progress(p.failures + [Failure(chain[i], 0, blocked.value)], extras, p.log); }
    var previous := if i > 0 then Some(p.failures[i - 1]) else None;   // named in the fallback log line
    var outcome, attempts, log := CallCandidate(w, limits, chain[i], i, provider, TotalAttempts(p.failures), p.log);
    if outcome.Ok? {
      assert p.failures + [] == p.failures;
      return Serve, Progress(p.failures, extras, log);
    }
    return if outcome.requestFault then Stop else GoOn,
      Progress(p.failures + [Failure(chain[i], attempts, CallFailed(outcome))], extras, log);
  }

  /** The loop over the chain: the reference walk, whatever the world answers. */
  method WalkChain(w: World, limits: Limits, chain: seq<Candidate>, requested: string, base: int)
    returns (walk: Walk, p: Progress)
    requires limits.Valid()
    ensures Result(walk, p) == WholeWalk(w, limits, chain, requested, base)
  {
    p := NothingYet;
    for i := 0 to |chain|
      invariant |p.failures| == i
      invariant WalkFrom(w, limits, chain, requested, base, p) == WholeWalk(w, limits, chain, requested, base)
    {
      if limits.maxTotalAttempts - TotalAttempts(p.failures) <= 0 || (i > 0 && w.cancelled(i)) { break; }
      var step, q := Visit(w, limits, chain, requested, base, p);
      p := q;
      match step {
        case Serve => return Served(i, chain[i]), p;
        case Stop => return Exhausted, p;
        case GoOn =>
      }
    }
    walk := Exhausted;
  }

  /** Walks the chain in order. Whatever the world answers, the walk is the reference walk, and
      it ends as a walk should. */
  method RunChain(w: World, limits: Limits, chain: seq<Candidate>, requested: string, base: int)
    returns (walk: Walk, failures: seq<Failure>, extras: seq<int>, log: seq<Event>)
    requires limits.Valid()
    ensures Result(walk, Progress(failures, extras, log)) == WholeWalk(w, limits, chain, requested, base)
    ensures Finished(w, limits, chain, requested, base, walk, failures, extras, log)
  {
    WalkFinishes(w, limits, chain, requested, base, NothingYet);
    var p;
    walk, p := WalkChain(w, limits, chain, requested, base);
    failures, extras, log := p.failures, p.extras, p.log;
  }

  /** A candidate that the walk dealt with and whose breaker let it through is left without a
      report if and only if the budget refused it or nobody serves its model: its claim on a
      probe slot is then nobody's to answer. */
  lemma UnreportedIff(w: World, limits: Limits, chain: seq<Candidate>, requested: string, base: int,
                      failures: seq<Failure>, log: seq<Event>, place: nat)
    requires w.guarded(place) && Audited(w, chain, |chain|, log)
    requires FailuresInOrder(chain, failures, log) && AllExplained(w, limits, chain, requested, base, failures)
    requires place < |failures| && PastBreaker(w, place)
    ensures ReportsOn(log, place) == 0
            <==> !Affordable(w, place, requested, chain[place].model, base) || w.resolve(place, chain[place].model).None?
  {
    assert ExplainedAt(w, limits, chain, requested, base, failures, place);
    assert FailureAt(chain, failures, log, place);
    assert ReportsOwed(w, log, place);
  }
}
