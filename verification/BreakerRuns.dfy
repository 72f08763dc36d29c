/** What a breaker without a store guarantees over every sequence of calls.
    The claims speak of an audit kept by an outside observer, who sees only each
    call, the state before and after it, and whether it was admitted. */
module BreakerRuns {
  import opened BreakerMachine

  /** One observed call. */
  datatype Record = Record(event: Event, before: State, after: State, admitted: bool)

  datatype Audit = Audit(
    calls: nat,
    lastCall: int,              // instant of the latest call, once there is one
    closedFailures: seq<int>,   // failures reported since the breaker last became Closed or was reset
    opens: nat,                 // Open episodes entered since the last close or reset
    firstOpen: int,             // when the first of those began
    openStart: int,             // when the latest of those began
    probingSince: int,          // when the current HalfOpen episode began
    admissions: nat,            // calls admitted in the current HalfOpen episode
    successes: nat)             // successes reported in the current HalfOpen episode

  const NoAudit := Audit(0, 0, [], 0, 0, 0, 0, 0, 0)

  function Observe(a0: Audit, r: Record): Audit {
    var t := r.event.now;
    var a := a0.(calls := a0.calls + 1, lastCall := t);
    if r.event.Reset? then
      NoAudit.(calls := a.calls, lastCall := t)
    else if r.before.Closed? && r.after.Closed? then
      if r.event.Failure? then a.(closedFailures := a.closedFailures + [t]) else a
    else if r.after.Closed? then
      NoAudit.(calls := a.calls, lastCall := t)
    else if r.after.Open? && !r.before.Open? then
      a.(opens := a.opens + 1, firstOpen := if a.opens == 0 then t else a.firstOpen, openStart := t)
    else if r.after.HalfOpen? then
      var b := if r.before.HalfOpen? then a else a.(probingSince := t, admissions := 0, successes := 0);
      if r.admitted then b.(admissions := b.admissions + 1)
      else if r.event.Success? then b.(successes := b.successes + 1)
      else b
    else a
  }

  /** The breaker and its audit after a sequence of calls on a new breaker. */
  function Run(cfg: Config, events: seq<Event>): (Machine, Audit) {
    if events == [] then (Initial(cfg), NoAudit)
    else
      var (m, a) := Run(cfg, events[..|events| - 1]);
      var e := events[|events| - 1];
      var (m', admitted) := Step(cfg, m, e);
      (m', Observe(a, Record(e, m.state, m'.state, admitted)))
  }

  /** The clock never runs backwards. */
  ghost predicate Monotone(events: seq<Event>) {
    forall i, j :: 0 <= i <= j < |events| ==> events[i].now <= events[j].now
  }

  /** The timestamps no older than the cutoff, wherever they stand. */
  function Within(ts: seq<int>, cutoff: int): seq<int> {
    if ts == [] then []
    else (if ts[0] < cutoff then [] else [ts[0]]) + Within(ts[1..], cutoff)
  }

  /** Total length of the first n cooldowns in a row. */
  function CooldownSum(cfg: Config, n: nat): int {
    if n == 0 then 0 else CooldownSum(cfg, n - 1) + IdealCooldown(cfg, n)
  }

  function NextCooldownSum(cfg: Config, n: nat): int {
    if n == 0 then 0 else NextCooldownSum(cfg, n - 1) + NextCooldown(cfg, n)
  }

  // ----- the failure window -----

  ghost predicate Sorted(ts: seq<int>) {
    forall i, j :: 0 <= i <= j < |ts| ==> ts[i] <= ts[j]
  }

  lemma {:induction false} WithinAppend(ts: seq<int>, t: int, cutoff: int)
    requires t >= cutoff
    ensures Within(ts + [t], cutoff) == Within(ts, cutoff) + [t]
  {
    if ts == [] {
      assert ts + [t] == [t];
      assert [t][1..] == [];
    } else {
      var all := ts + [t];
      assert all[1..] == ts[1..] + [t] && all[0] == ts[0];
      WithinAppend(ts[1..], t, cutoff);
      var head := if ts[0] < cutoff then [] else [ts[0]];
      assert head + (Within(ts[1..], cutoff) + [t]) == (head + Within(ts[1..], cutoff)) + [t];
    }
  }

  lemma {:induction false} WithinWithin(ts: seq<int>, lo: int, hi: int)
    requires lo <= hi
    ensures Within(Within(ts, lo), hi) == Within(ts, hi)
  {
    if ts != [] {
      WithinWithin(ts[1..], lo, hi);
      var rest := Within(ts[1..], lo);
      assert ts[0] >= lo ==> ([ts[0]] + rest)[1..] == rest;
      assert ts[0] < lo ==> [] + rest == rest;
    }
  }

  lemma {:induction false} WithinSorted(ts: seq<int>, cutoff: int, t: int)
    requires Sorted(ts) && UpTo(ts, t)
    ensures Sorted(Within(ts, cutoff)) && UpTo(Within(ts, cutoff), t)
    ensures ts != [] ==> From(Within(ts, cutoff), ts[0])
  {
    if ts != [] {
      var rest := Within(ts[1..], cutoff);
      assert Sorted(ts[1..]) && UpTo(ts[1..], t) && From(ts, ts[0]);
      WithinSorted(ts[1..], cutoff, t);
      assert From(rest, ts[0]);
      if ts[0] >= cutoff {
        SortedPrepend(ts[0], rest);
      } else {
        assert Within(ts, cutoff) == rest;
      }
    }
  }

  ghost predicate From(ts: seq<int>, t: int) {
    forall i :: 0 <= i < |ts| ==> t <= ts[i]
  }

  lemma SortedPrepend(t: int, ts: seq<int>)
    requires Sorted(ts) && From(ts, t)
    ensures Sorted([t] + ts)
  {
  }

  /** On an ascending window, dropping the stale prefix is filtering. */
  lemma {:induction false} PruneIsFilter(ts: seq<int>, cutoff: int)
    requires Sorted(ts)
    ensures PruneBefore(ts, cutoff) == Within(ts, cutoff)
  {
    if ts == [] {
    } else if ts[0] < cutoff {
      PruneIsFilter(ts[1..], cutoff);
    } else {
      KeepAll(ts, cutoff);
    }
  }

  lemma {:induction false} KeepAll(ts: seq<int>, cutoff: int)
    requires From(ts, cutoff)
    ensures Within(ts, cutoff) == ts
  {
    if ts != [] { KeepAll(ts[1..], cutoff); }
  }

  lemma SortedAppend(ts: seq<int>, t: int)
    requires Sorted(ts) && UpTo(ts, t)
    ensures Sorted(ts + [t]) && UpTo(ts + [t], t)
  {
  }

  ghost predicate UpTo(ts: seq<int>, t: int) {
    forall i :: 0 <= i < |ts| ==> ts[i] <= t
  }

  /** The part of a history no older than the window, as of its latest entry. */
  function Recent(history: seq<int>, window: int): seq<int> {
    if history == [] then [] else Within(history, history[|history| - 1] - window)
  }

  lemma {:induction false} WithinKeepsEnough(ts: seq<int>, lo: int, hi: int, now: int)
    requires lo <= hi && Sorted(ts) && UpTo(ts, now)
    ensures Sorted(Within(ts, lo)) && UpTo(Within(ts, lo), now) && Within(Within(ts, lo), hi) == Within(ts, hi)
  {
    WithinSorted(ts, lo, now);
    WithinWithin(ts, lo, hi);
  }

  /** What is kept is ordered, up to now, and all that a later cutoff still asks for. */
  lemma {:induction false} RecentKeepsEnough(history: seq<int>, now: int, window: int)
    requires window > 0 && Sorted(history) && UpTo(history, now)
    ensures var kept := Recent(history, window);
            Sorted(kept) && UpTo(kept, now) && Within(kept, now - window) == Within(history, now - window)
  {
    if history == [] {
      assert Recent(history, window) == history;
    } else {
      var lo := history[|history| - 1] - window;
      assert Recent(history, window) == Within(history, lo);
      WithinKeepsEnough(history, lo, now - window, now);
    }
  }

  lemma {:induction false} RecentOfOneMore(history: seq<int>, now: int, window: int)
    ensures Recent(history + [now], window) == Within(history + [now], now - window)
  {
    var all := history + [now];
    assert all[|all| - 1] == now;
  }

  /** Pruning an ordered window for one more failure is filtering it. */
  lemma {:induction false} PruneOneMore(kept: seq<int>, now: int, cutoff: int)
    requires Sorted(kept) && UpTo(kept, now) && cutoff <= now
    ensures PruneBefore(kept + [now], cutoff) == Within(kept, cutoff) + [now]
  {
    SortedAppend(kept, now);
    PruneIsFilter(kept + [now], cutoff);
    WithinAppend(kept, now, cutoff);
  }

  /** Pruning the kept window for one more failure is filtering the whole history. */
  lemma {:induction false} WindowStep(history: seq<int>, now: int, window: int)
    requires window > 0 && Sorted(history) && UpTo(history, now)
    ensures PruneBefore(Recent(history, window) + [now], now - window) == Within(history + [now], now - window)
    ensures Recent(history + [now], window) == Within(history + [now], now - window)
  {
    RecentKeepsEnough(history, now, window);
    PruneOneMore(Recent(history, window), now, now - window);
    WithinAppend(history, now, now - window);
    RecentOfOneMore(history, now, window);
  }

  // ----- the invariant -----

  ghost predicate ClosedInv(cfg: Config, m: Machine, a: Audit) {
    && a.opens == 0
    && Sorted(a.closedFailures)
    && UpTo(a.closedFailures, a.lastCall)
    && m.failures == Recent(a.closedFailures, cfg.window)
  }

  ghost predicate OpenInv(cfg: Config, m: Machine, a: Audit) {
    && a.opens >= 1
    && m.failures == []
    && m.successStreak == 0
    && m.cooldown == NextCooldown(cfg, a.opens)
    && m.openedAt == a.openStart <= a.lastCall
    && a.openStart - a.firstOpen >= NextCooldownSum(cfg, a.opens - 1)
  }

  /** Admissions of this episode that no reported success paid for. */
  ghost function Spare(m: Machine, a: Audit): int {
    a.admissions + (if m.probeInFlight then 0 else 1) - 1 - a.successes
  }

  ghost predicate HalfOpenInv(cfg: Config, m: Machine, a: Audit) {
    && a.opens >= 1
    && m.failures == []
    && m.successStreak == a.successes < cfg.successThreshold
    && a.probingSince - a.firstOpen >= NextCooldownSum(cfg, a.opens)
    && a.probingSince <= m.probeStartedAt <= a.lastCall
    && Spare(m, a) * cfg.probeTimeout <= m.probeStartedAt - a.probingSince
  }

  ghost predicate Inv(cfg: Config, m: Machine, a: Audit)
    requires cfg.Valid()
  {
    && m.reopens == a.opens
    && 0 < m.cooldown <= cfg.cooldownMax
    && match m.state
       case Closed => ClosedInv(cfg, m, a)
       case Open => OpenInv(cfg, m, a)
       case HalfOpen => HalfOpenInv(cfg, m, a)
  }

  ghost function After(cfg: Config, m: Machine, a: Audit, e: Event): (Machine, Audit) {
    var (m', admitted) := Step(cfg, m, e);
    (m', Observe(a, Record(e, m.state, m'.state, admitted)))
  }

  lemma AllowKeepsInv(cfg: Config, m: Machine, a: Audit, now: int)
    requires cfg.Valid() && Inv(cfg, m, a) && (a.calls > 0 ==> a.lastCall <= now)
    requires a.calls == 0 ==> m.state.Closed? && a.closedFailures == []
    ensures var (m', a') := After(cfg, m, a, Allow(now)); Inv(cfg, m', a')
  {
    match m.state
    case Closed =>
    case Open => AllowWhileOpenKeepsInv(cfg, m, a, now);
    case HalfOpen => AllowWhileProbingKeepsInv(cfg, m, a, now);
  }

  lemma AllowWhileOpenKeepsInv(cfg: Config, m: Machine, a: Audit, now: int)
    requires cfg.Valid() && Inv(cfg, m, a) && a.lastCall <= now && m.state.Open?
    ensures var (m', a') := After(cfg, m, a, Allow(now)); Inv(cfg, m', a')
  {
    var (m', a') := After(cfg, m, a, Allow(now));
    if m'.state.HalfOpen? {
      assert Spare(m', a') == 0 && a'.opens == a.opens;
      assert NextCooldownSum(cfg, a.opens) == NextCooldownSum(cfg, a.opens - 1) + NextCooldown(cfg, a.opens);
    }
  }

  lemma AllowWhileProbingKeepsInv(cfg: Config, m: Machine, a: Audit, now: int)
    requires cfg.Valid() && Inv(cfg, m, a) && a.lastCall <= now && m.state.HalfOpen?
    ensures var (m', a') := After(cfg, m, a, Allow(now)); Inv(cfg, m', a')
  {
    var (m', a') := After(cfg, m, a, Allow(now));
    var k := cfg.probeTimeout;
    if m'.probeStartedAt != m.probeStartedAt && m.probeInFlight {
      assert Spare(m', a') == Spare(m, a) + 1;
      assert (Spare(m, a) + 1) * k == Spare(m, a) * k + k;
    } else {
      assert Spare(m', a') == Spare(m, a);
    }
    assert HalfOpenInv(cfg, m', a');
  }

  lemma SuccessKeepsInv(cfg: Config, m: Machine, a: Audit, now: int)
    requires cfg.Valid() && Inv(cfg, m, a) && (a.calls > 0 ==> a.lastCall <= now)
    requires a.calls == 0 ==> m.state.Closed? && a.closedFailures == []
    ensures var (m', a') := After(cfg, m, a, Success(now)); Inv(cfg, m', a')
  {
    if m.state.HalfOpen? {
      var (m', a') := After(cfg, m, a, Success(now));
      if m'.state.HalfOpen? {
        MulMonotone(cfg.probeTimeout, Spare(m', a'), Spare(m, a));
      }
    }
  }

  lemma FailureKeepsInv(cfg: Config, m: Machine, a: Audit, now: int)
    requires cfg.Valid() && Inv(cfg, m, a) && (a.calls > 0 ==> a.lastCall <= now)
    requires a.calls == 0 ==> m.state.Closed? && a.closedFailures == []
    ensures var (m', a') := After(cfg, m, a, Failure(now)); Inv(cfg, m', a')
  {
    match m.state
    case Open =>
    case HalfOpen => ProbeFailureKeepsInv(cfg, m, a, now);
    case Closed => ClosedFailureKeepsInv(cfg, m, a, now);
  }

  lemma ProbeFailureKeepsInv(cfg: Config, m: Machine, a: Audit, now: int)
    requires cfg.Valid() && Inv(cfg, m, a) && a.lastCall <= now && m.state.HalfOpen?
    ensures var (m', a') := After(cfg, m, a, Failure(now)); Inv(cfg, m', a')
  {
    var (m', a') := After(cfg, m, a, Failure(now));
    assert a'.opens == a.opens + 1;
  }

  /** The window after one more failure is the filtered history. */
  lemma CountedFailure(cfg: Config, m: Machine, a: Audit, now: int)
    requires cfg.Valid() && ClosedInv(cfg, m, a)
    requires a.closedFailures != [] ==> a.lastCall <= now
    ensures ClosedInv(cfg,
                      m.(failures := PruneBefore(m.failures + [now], now - cfg.window)),
                      a.(closedFailures := a.closedFailures + [now], lastCall := now))
  {
    var h := a.closedFailures;
    SortedAppend(h, now);
    WindowStep(h, now, cfg.window);
  }

  lemma ClosedFailureKeepsInv(cfg: Config, m: Machine, a: Audit, now: int)
    requires cfg.Valid() && Inv(cfg, m, a) && (a.calls > 0 ==> a.lastCall <= now)
    requires a.calls == 0 ==> a.closedFailures == []
    requires m.state.Closed?
    ensures var (m', a') := After(cfg, m, a, Failure(now)); Inv(cfg, m', a')
  {
    var (m', a') := After(cfg, m, a, Failure(now));
    if m'.state.Closed? {
      CountedFailure(cfg, m, a, now);
      assert a'.closedFailures == a.closedFailures + [now];
    } else {
      assert a'.opens == 1 && a'.openStart == a'.firstOpen == now && NextCooldownSum(cfg, 0) == 0;
    }
  }

  lemma {:induction false} RunInv(cfg: Config, events: seq<Event>)
    requires cfg.Valid() && Monotone(events)
    ensures var (m, a) := Run(cfg, events);
            && Inv(cfg, m, a)
            && a.calls == |events|
            && (events != [] ==> a.lastCall == events[|events| - 1].now)
            && (events == [] ==> m.state.Closed? && a.closedFailures == [])
  {
    if events != [] {
      var before := events[..|events| - 1];
      var e := events[|events| - 1];
      assert Monotone(before);
      RunInv(cfg, before);
      var (m, a) := Run(cfg, before);
      assert before != [] ==> a.lastCall == events[|events| - 2].now <= e.now;
      match e
      case Allow(now) => AllowKeepsInv(cfg, m, a, now);
      case Success(now) => SuccessKeepsInv(cfg, m, a, now);
      case Failure(now) => FailureKeepsInv(cfg, m, a, now);
      case Reset(now) =>
    }
  }

  // ----- what every run guarantees -----

  ghost predicate Continues(events: seq<Event>, now: int) {
    Monotone(events) && forall i :: 0 <= i < |events| ==> events[i].now <= now
  }

  lemma ContinuesLast(cfg: Config, events: seq<Event>, now: int)
    requires cfg.Valid() && Continues(events, now)
    ensures var (m, a) := Run(cfg, events);
            && Inv(cfg, m, a)
            && (a.calls > 0 ==> a.lastCall <= now)
            && (a.calls == 0 ==> m.state.Closed? && a.closedFailures == [])
  {
    RunInv(cfg, events);
  }

  /** A failure reported while Closed opens the breaker exactly when enough of
      the failures reported since it last became Closed are inside the window. */
  lemma OpensExactlyAtThreshold(cfg: Config, events: seq<Event>, now: int)
    requires cfg.Valid() && Continues(events, now)
    requires Run(cfg, events).0.state.Closed?
    ensures var (m, a) := Run(cfg, events);
            Step(cfg, m, Failure(now)).0.state
            == if |Within(a.closedFailures + [now], now - cfg.window)| >= cfg.failureThreshold then Open else Closed
  {
    ContinuesLast(cfg, events, now);
    var (m, a) := Run(cfg, events);
    FailureWhileClosed(cfg, m, a, now);
  }

  lemma FailureWhileClosed(cfg: Config, m: Machine, a: Audit, now: int)
    requires cfg.Valid() && Inv(cfg, m, a) && m.state.Closed?
    requires a.closedFailures != [] ==> a.lastCall <= now
    ensures FailureLocal(cfg, m, now).state
            == if |Within(a.closedFailures + [now], now - cfg.window)| >= cfg.failureThreshold then Open else Closed
  {
    WindowStep(a.closedFailures, now, cfg.window);
  }

  /** A Closed breaker admits every call and is none the worse for it. */
  lemma ClosedAdmits(cfg: Config, m: Machine, now: int)
    requires m.state.Closed?
    ensures Step(cfg, m, Allow(now)) == (m, true)
  {
  }

  /** The j-th Open episode in a row refuses every call for the j-th cooldown,
      and admits the first call after it. */
  lemma OpenRefusesForItsCooldown(cfg: Config, events: seq<Event>, now: int)
    requires cfg.Valid() && cfg.NoOverflow() && Continues(events, now)
    requires Run(cfg, events).0.state.Open?
    ensures var (m, a) := Run(cfg, events);
            Step(cfg, m, Allow(now)).1 <==> now - a.openStart >= IdealCooldown(cfg, a.opens)
  {
    ContinuesLast(cfg, events, now);
    CooldownExactWithoutOverflow(cfg, Run(cfg, events).1.opens);
  }

  lemma {:induction false} SumsAgree(cfg: Config, n: nat)
    requires cfg.Valid() && cfg.NoOverflow()
    ensures NextCooldownSum(cfg, n) == CooldownSum(cfg, n)
  {
    if n > 0 {
      SumsAgree(cfg, n - 1);
      CooldownExactWithoutOverflow(cfg, n);
    }
  }

  /** n Open episodes in a row span at least the sum of their cooldowns. */
  lemma {:induction false} EpisodesSpanTheirCooldowns(cfg: Config, events: seq<Event>)
    requires cfg.Valid() && cfg.NoOverflow() && Monotone(events)
    ensures var (m, a) := Run(cfg, events); Spans(cfg, m.state, a)
  {
    RunInv(cfg, events);
    var (m, a) := Run(cfg, events);
    SpanOf(cfg, m, a);
  }

  /** The time from the first Open episode of a row to the latest one, or to its end. */
  ghost predicate Spans(cfg: Config, state: State, a: Audit) {
    && (state.Open? ==> a.opens >= 1 && a.openStart - a.firstOpen >= CooldownSum(cfg, a.opens - 1))
    && (state.HalfOpen? ==> a.probingSince - a.firstOpen >= CooldownSum(cfg, a.opens))
  }

  lemma SpanOf(cfg: Config, m: Machine, a: Audit)
    requires cfg.Valid() && cfg.NoOverflow() && Inv(cfg, m, a)
    ensures Spans(cfg, m.state, a)
  {
    if m.state.Open? { SumsAgree(cfg, a.opens - 1); }
    if m.state.HalfOpen? { SumsAgree(cfg, a.opens); }
  }

  /** Only a success can close a probing breaker, and exactly the one that
      completes the streak: any failure in between reopened it. */
  lemma ClosesExactlyAtStreak(cfg: Config, events: seq<Event>, e: Event)
    requires cfg.Valid() && Continues(events, e.now) && !e.Reset?
    requires !Run(cfg, events).0.state.Closed?
    ensures var (m, a) := Run(cfg, events);
            Step(cfg, m, e).0.state.Closed?
            <==> m.state.HalfOpen? && e.Success? && a.successes + 1 == cfg.successThreshold
  {
    ContinuesLast(cfg, events, e.now);
  }

  /** Admissions of one HalfOpen episode: one, plus one per reported success,
      plus one per elapsed probe timeout. */
  lemma HalfOpenAdmissions(cfg: Config, events: seq<Event>)
    requires cfg.Valid() && Monotone(events)
    requires Run(cfg, events).0.state.HalfOpen?
    ensures var a := Run(cfg, events).1;
            && a.admissions <= 1 + a.successes + (a.lastCall - a.probingSince) / cfg.probeTimeout
            && a.successes < cfg.successThreshold
  {
    RunInv(cfg, events);
    var (m, a) := Run(cfg, events);
    var n := a.admissions - 1 - a.successes;
    MulMonotone(cfg.probeTimeout, n, Spare(m, a));
    QuotientBound(n, a.lastCall - a.probingSince, cfg.probeTimeout);
  }

  /** No run leaves the breaker refusing calls for good. */
  lemma NeverWedges(cfg: Config, events: seq<Event>, now: int)
    requires cfg.Valid() && Continues(events, now)
    requires events != [] ==>
               && now - events[|events| - 1].now >= cfg.cooldownMax
               && now - events[|events| - 1].now >= cfg.probeTimeout
    ensures Step(cfg, Run(cfg, events).0, Allow(now)).1
  {
    ContinuesLast(cfg, events, now);
    RunInv(cfg, events);
  }
}
