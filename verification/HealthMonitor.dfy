/** A provider's status: active pings and the passive window folded into one verdict,
    quick to degrade and slow to recover. */
module HealthMonitor {
  import opened Prelude
  import opened HealthStatus
  import opened HealthWindow
  import opened Ring

  datatype Config = Config(degradedErrorRate: real, downErrorRate: real, downConsecutiveFailures: nat, recoveryStreak: nat) {
    predicate Valid() {
      && 0.0 < degradedErrorRate < downErrorRate < 1.0
      && downConsecutiveFailures > 0 && recoveryStreak > 0
    }
  }

  /** One evaluation: a ping, the passive window and the breakers, at one moment. */
  datatype Observation = Observation(now: int, pingOk: bool, stats: Stats, breakerOpen: bool)

  datatype State = State(status: Status, fails: nat, streak: nat, baseline: Option<real>)

  datatype Transition = Transition(at: int, from: Status, to: Status, reason: string)

  function Start(status: Status): State {
    State(status, 0, 0, None)
  }

  function Classify(cfg: Config, fails: nat, baseline: Option<real>, o: Observation): (Status, string) {
    if fails >= cfg.downConsecutiveFailures then (Down, "consecutive_ping_failures")
    else if o.stats.count > 0 && o.stats.errorRate >= cfg.downErrorRate then (Down, "error_rate_hard_threshold")
    else if o.breakerOpen then (Degraded, "circuit_breaker_open")
    else if o.stats.count > 0 && o.stats.errorRate >= cfg.degradedErrorRate then (Degraded, "error_rate_threshold")
    else if baseline.Some? && o.stats.count > 0 && o.stats.p99 as real >= 3.0 * baseline.value then
      (Degraded, "p99_above_baseline")
    else (Healthy, "within_thresholds")
  }

  function Fails(st: State, o: Observation): nat {
    if o.pingOk then 0 else st.fails + 1
  }

  /** The verdict of this evaluation on its own. */
  function Raw(cfg: Config, st: State, o: Observation): Status {
    Classify(cfg, Fails(st, o), st.baseline, o).0
  }

  predicate Clean(cfg: Config, st: State, o: Observation) {
    o.pingOk && Raw(cfg, st, o).Healthy?
  }

  function NextBaseline(b: Option<real>, stats: Stats): Option<real> {
    if stats.count == 0 then b
    else if b.None? then Some(stats.p99 as real)
    else Some(0.2 * stats.p99 as real + 0.8 * b.value)
  }

  function Step(cfg: Config, st: State, o: Observation): (State, Option<Transition>) {
    var fails := Fails(st, o);
    var (raw, reason) := Classify(cfg, fails, st.baseline, o);
    var base := st.(fails := fails, baseline := NextBaseline(st.baseline, o.stats));
    if !raw.Healthy? then
      (base.(status := raw, streak := 0),
       if raw != st.status then Some(Transition(o.now, st.status, raw, reason)) else None)
    else if st.status.Healthy? then (base, None)
    else if !o.pingOk then (base.(streak := 0), None)
    else if st.streak + 1 < cfg.recoveryStreak then (base.(streak := st.streak + 1), None)
    else (base.(status := Healthy, streak := 0), Some(Transition(o.now, st.status, Healthy, "recovered")))
  }

  function Run(cfg: Config, start: Status, obs: seq<Observation>): State {
    if obs == [] then Start(start) else Step(cfg, Run(cfg, start, obs[..|obs| - 1]), obs[|obs| - 1]).0
  }

  function Log(cfg: Config, start: Status, obs: seq<Observation>): seq<Transition> {
    if obs == [] then []
    else
      var before, last := obs[..|obs| - 1], obs[|obs| - 1];
      var t := Step(cfg, Run(cfg, start, before), last).1;
      Log(cfg, start, before) + if t.Some? then [t.value] else []
  }

  lemma RunOneMore(cfg: Config, start: Status, obs: seq<Observation>, o: Observation)
    ensures var (st, t) := Step(cfg, Run(cfg, start, obs), o);
            && Run(cfg, start, obs + [o]) == st
            && Log(cfg, start, obs + [o]) == Log(cfg, start, obs) + if t.Some? then [t.value] else []
  {
    assert (obs + [o])[..|obs|] == obs;
  }

  // ----- what an evaluation finds, in terms of what was observed -----

  /** How many of the latest pings failed in a row. */
  function TrailingFails(obs: seq<Observation>): nat {
    if obs == [] || obs[|obs| - 1].pingOk then 0 else TrailingFails(obs[..|obs| - 1]) + 1
  }

  /** The latencies read so far, of windows with any sample in them. */
  function Readings(obs: seq<Observation>): seq<int> {
    if obs == [] then []
    else
      var last := obs[|obs| - 1];
      Readings(obs[..|obs| - 1]) + if last.stats.count > 0 then [last.stats.p99] else []
  }

  /** The first reading, and then four parts of what was and one part of what is. */
  function Smoothed(xs: seq<int>): real
    requires xs != []
  {
    if |xs| == 1 then xs[0] as real else 0.8 * Smoothed(xs[..|xs| - 1]) + 0.2 * xs[|xs| - 1] as real
  }

  lemma {:induction false} RunRemembers(cfg: Config, start: Status, obs: seq<Observation>)
    ensures var st := Run(cfg, start, obs);
            && st.fails == TrailingFails(obs)
            && st.baseline == Remembered(Readings(obs))
  {
    if obs != [] {
      var before, last := obs[..|obs| - 1], obs[|obs| - 1];
      RunRemembers(cfg, start, before);
      StepRemembers(cfg, Run(cfg, start, before), last);
      assert Readings(before) + [] == Readings(before);
      OneMoreReading(Readings(before), last.stats);
    }
  }

  /** What the baseline stands for. */
  function Remembered(xs: seq<int>): Option<real> {
    if xs == [] then None else Some(Smoothed(xs))
  }

  lemma OneMoreReading(xs: seq<int>, stats: Stats)
    ensures NextBaseline(Remembered(xs), stats) == Remembered(xs + if stats.count > 0 then [stats.p99] else [])
  {
    assert xs + [] == xs && (xs + [stats.p99])[..|xs|] == xs;
  }

  lemma StepRemembers(cfg: Config, st: State, o: Observation)
    ensures var after := Step(cfg, st, o).0;
            after.fails == Fails(st, o) && after.baseline == NextBaseline(st.baseline, o.stats)
  {
  }

  predicate ErrorsAtLeast(o: Observation, rate: real) {
    o.stats.count > 0 && o.stats.errorRate >= rate
  }

  /** Three times as slow as it used to be. */
  predicate Slow(o: Observation, readings: seq<int>) {
    o.stats.count > 0 && readings != [] && o.stats.p99 as real >= 3.0 * Smoothed(readings)
  }

  /** Over every run, each verdict exactly when it is due: Down on enough failed pings in a row
      or a hard error rate; otherwise Degraded on an open breaker, a raised error rate or three
      times the smoothed latency; otherwise Healthy. */
  lemma VerdictIff(cfg: Config, start: Status, obs: seq<Observation>, o: Observation)
    ensures var raw := Raw(cfg, Run(cfg, start, obs), o);
            var down := TrailingFails(obs + [o]) >= cfg.downConsecutiveFailures || ErrorsAtLeast(o, cfg.downErrorRate);
            var degraded := o.breakerOpen || ErrorsAtLeast(o, cfg.degradedErrorRate) || Slow(o, Readings(obs));
            && (raw.Down? <==> down)
            && (raw.Degraded? <==> !down && degraded)
            && (raw.Healthy? <==> !down && !degraded)
  {
    RunRemembers(cfg, start, obs);
    assert (obs + [o])[..|obs|] == obs;
  }

  /** The reason recorded with a verdict is the first of these that applies. */
  lemma ReasonIff(cfg: Config, start: Status, obs: seq<Observation>, o: Observation)
    ensures var st := Run(cfg, start, obs);
            var reason := Classify(cfg, Fails(st, o), st.baseline, o).1;
            && (reason == "consecutive_ping_failures" <==> TrailingFails(obs + [o]) >= cfg.downConsecutiveFailures)
            && (reason == "error_rate_hard_threshold" <==>
                  TrailingFails(obs + [o]) < cfg.downConsecutiveFailures && ErrorsAtLeast(o, cfg.downErrorRate))
            && (reason == "circuit_breaker_open" <==> !Raw(cfg, st, o).Down? && o.breakerOpen)
            && (reason == "error_rate_threshold" <==>
                  !Raw(cfg, st, o).Down? && !o.breakerOpen && ErrorsAtLeast(o, cfg.degradedErrorRate))
            && (reason == "within_thresholds" <==> Raw(cfg, st, o).Healthy?)
  {
    RunRemembers(cfg, start, obs);
    assert (obs + [o])[..|obs|] == obs;
  }

  // ----- degrading is immediate -----

  /** After an evaluation the status is the evaluation's own verdict, or is unchanged
      because that verdict was Healthy and recovery is still pending. */
  lemma VerdictTakesEffect(cfg: Config, st: State, o: Observation)
    ensures var after := Step(cfg, st, o).0.status;
            && (!Raw(cfg, st, o).Healthy? ==> after == Raw(cfg, st, o))
            && (Raw(cfg, st, o).Healthy? && !Clean(cfg, st, o) ==> after == st.status)
            && (after != st.status && after.Healthy? ==> Clean(cfg, st, o))
  {
  }

  /** A change of status is reported exactly when there is one, with its moment and its reason. */
  lemma ChangesAreReported(cfg: Config, st: State, o: Observation)
    ensures var (after, t) := Step(cfg, st, o);
            && (t.Some? <==> after.status != st.status)
            && (t.Some? ==>
                  && t.value.at == o.now && t.value.from == st.status && t.value.to == after.status
                  && t.value.reason == if after.status.Healthy? then "recovered"
                                       else Classify(cfg, Fails(st, o), st.baseline, o).1)
  {
  }

  // ----- recovering takes a whole streak -----

  ghost predicate CleanAt(cfg: Config, start: Status, obs: seq<Observation>, i: nat)
    requires i < |obs|
  {
    var st := Run(cfg, start, obs[..i]);
    !st.status.Healthy? && Clean(cfg, st, obs[i])
  }

  /** The last n evaluations all found an unhealthy provider clean. */
  ghost predicate CleanTail(cfg: Config, start: Status, obs: seq<Observation>, n: nat) {
    n <= |obs| && forall i :: |obs| - n <= i < |obs| ==> CleanAt(cfg, start, obs, i)
  }

  lemma CleanTailStep(cfg: Config, start: Status, obs: seq<Observation>, n: nat)
    requires obs != [] && n > 0
    ensures CleanTail(cfg, start, obs, n) <==>
              CleanTail(cfg, start, obs[..|obs| - 1], n - 1) && CleanAt(cfg, start, obs, |obs| - 1)
  {
    var before := obs[..|obs| - 1];
    forall i | 0 <= i < |before| ensures CleanAt(cfg, start, before, i) == CleanAt(cfg, start, obs, i) {
      assert before[..i] == obs[..i];
    }
  }

  /** The counter is the longest clean tail of an unhealthy provider, short of a streak. */
  lemma {:induction false} StreakIsCleanTail(cfg: Config, start: Status, obs: seq<Observation>)
    requires cfg.Valid()
    ensures var st := Run(cfg, start, obs);
            && st.streak < cfg.recoveryStreak && (st.status.Healthy? ==> st.streak == 0)
            && CleanTail(cfg, start, obs, st.streak)
  {
    if obs != [] {
      var before := obs[..|obs| - 1];
      StreakIsCleanTail(cfg, start, before);
      var st := Run(cfg, start, obs);
      if st.streak > 0 {
        CleanTailStep(cfg, start, obs, st.streak);
      }
    }
  }

  lemma {:induction false} CleanTailIsCounted(cfg: Config, start: Status, obs: seq<Observation>, n: nat)
    requires cfg.Valid() && CleanTail(cfg, start, obs, n) && !Run(cfg, start, obs).status.Healthy?
    ensures n <= Run(cfg, start, obs).streak
    decreases n
  {
    if n > 0 {
      CleanTailStep(cfg, start, obs, n);
      CleanTailIsCounted(cfg, start, obs[..|obs| - 1], n - 1);
    }
  }

  /** An unhealthy provider turns healthy exactly at the end of a full streak of
      consecutive clean evaluations, counted from when it became unhealthy. */
  lemma RecoversExactlyAfterStreak(cfg: Config, start: Status, obs: seq<Observation>)
    requires cfg.Valid() && obs != [] && !Run(cfg, start, obs[..|obs| - 1]).status.Healthy?
    ensures Run(cfg, start, obs).status.Healthy? <==> CleanTail(cfg, start, obs, cfg.recoveryStreak)
  {
    var before := obs[..|obs| - 1];
    var st := Run(cfg, start, before);
    StreakIsCleanTail(cfg, start, before);
    CleanTailStep(cfg, start, obs, cfg.recoveryStreak);
    if CleanTail(cfg, start, obs, cfg.recoveryStreak) {
      CleanTailIsCounted(cfg, start, before, cfg.recoveryStreak - 1);
    }
  }

  function Recoveries(log: seq<Transition>): nat {
    if log == [] then 0 else Recoveries(log[..|log| - 1]) + if log[|log| - 1].to.Healthy? then 1 else 0
  }

  lemma RecoveriesAppend(log: seq<Transition>, t: Transition)
    ensures Recoveries(log + [t]) == Recoveries(log) + if t.to.Healthy? then 1 else 0
  {
    assert (log + [t])[..|log|] == log;
  }

  /** What one evaluation does to the count of recoveries and to the streak. */
  lemma StepPays(cfg: Config, st: State, o: Observation, n: nat)
    requires cfg.Valid() && st.streak < cfg.recoveryStreak
    ensures var (after, t) := Step(cfg, st, o);
            var m := n + if t.Some? && t.value.to.Healthy? then 1 else 0;
            m * cfg.recoveryStreak + after.streak <= n * cfg.recoveryStreak + st.streak + 1
  {
    OneMore(n, cfg.recoveryStreak);
  }

  /** Every recovery is paid for by a streak of evaluations of its own. */
  lemma {:induction false} RecoveriesAreSparse(cfg: Config, start: Status, obs: seq<Observation>)
    requires cfg.Valid()
    ensures Recoveries(Log(cfg, start, obs)) * cfg.recoveryStreak + Run(cfg, start, obs).streak <= |obs|
  {
    if obs != [] {
      var before, last := obs[..|obs| - 1], obs[|obs| - 1];
      RecoveriesAreSparse(cfg, start, before);
      StreakIsCleanTail(cfg, start, before);
      var st, log := Run(cfg, start, before), Log(cfg, start, before);
      var t := Step(cfg, st, last).1;
      StepPays(cfg, st, last, Recoveries(log));
      if t.Some? { RecoveriesAppend(log, t.value); } else { assert log + [] == log; }
    }
  }

  lemma OneMore(n: nat, k: nat)
    ensures (n + 1) * k == n * k + k
  {
  }

  // ----- the log of transitions -----

  /** The i-th transition starts where the one before ended, and really changes something. */
  ghost predicate LinkedAt(start: Status, log: seq<Transition>, i: nat)
    requires i < |log|
  {
    log[i].from != log[i].to && log[i].from == if i == 0 then start else log[i - 1].to
  }

  ghost predicate Linked(start: Status, log: seq<Transition>) {
    forall i :: 0 <= i < |log| ==> LinkedAt(start, log, i)
  }

  lemma LinkedAppend(start: Status, log: seq<Transition>, t: Transition)
    requires Linked(start, log) && t.from != t.to && t.from == if log == [] then start else log[|log| - 1].to
    ensures Linked(start, log + [t])
  {
    var r := log + [t];
    forall i | 0 <= i < |r| ensures LinkedAt(start, r, i) {
      if i < |log| { assert LinkedAt(start, log, i); }
    }
  }

  lemma {:induction false} LogIsLinked(cfg: Config, start: Status, obs: seq<Observation>)
    ensures var log := Log(cfg, start, obs);
            Linked(start, log) && Run(cfg, start, obs).status == if log == [] then start else log[|log| - 1].to
  {
    if obs != [] {
      var before, last := obs[..|obs| - 1], obs[|obs| - 1];
      LogIsLinked(cfg, start, before);
      var log := Log(cfg, start, before);
      var t := Step(cfg, Run(cfg, start, before), last).1;
      assert t.None? ==> log + [] == log;
      if t.Some? { LinkedAppend(start, log, t.value); }
    }
  }

  /** Newest first, each entry starts where the next, older one ended. */
  ghost predicate ReadsBackwards(recent: seq<Transition>) {
    forall i :: 0 <= i < |recent| - 1 ==> recent[i].from == recent[i + 1].to
  }

  lemma TailReadsBackwards(start: Status, log: seq<Transition>)
    requires Linked(start, log)
    ensures ReadsBackwards(NewestFirst(Tail(log)))
  {
    var tail := Tail(log);
    var recent := NewestFirst(tail);
    var cut := |log| - |tail|;
    forall i | 0 <= i < |recent| - 1 ensures recent[i].from == recent[i + 1].to {
      var k := |log| - 1 - i;
      assert LinkedAt(start, log, k);
      NewestFirstAt(tail, i);
      NewestFirstAt(tail, i + 1);
      assert recent[i] == tail[|tail| - 1 - i] == log[k] && recent[i + 1] == log[k - 1];
    }
  }

  lemma {:induction false} RecentIsLinked(cfg: Config, start: Status, obs: seq<Observation>)
    ensures var recent := NewestFirst(Tail(Log(cfg, start, obs)));
            ReadsBackwards(recent) && (recent != [] ==> recent[0].to == Run(cfg, start, obs).status)
  {
    var log := Log(cfg, start, obs);
    LogIsLinked(cfg, start, obs);
    TailReadsBackwards(start, log);
    if log != [] { NewestFirstAt(Tail(log), 0); }
  }

  // ----- the monitor of one provider -----

  /** The status after a verdict: any other verdict than Healthy at once, Healthy only at the
      end of a streak. */
  function NextStatus(cfg: Config, status: Status, streak: nat, raw: Status, pingOk: bool): Status {
    if !raw.Healthy? then raw
    else if !status.Healthy? && pingOk && streak + 1 >= cfg.recoveryStreak then Healthy
    else status
  }

  function NextStreak(cfg: Config, status: Status, streak: nat, raw: Status, pingOk: bool): nat {
    if !raw.Healthy? then 0
    else if status.Healthy? then streak
    else if pingOk && streak + 1 < cfg.recoveryStreak then streak + 1
    else 0
  }

  lemma VerdictIsStep(cfg: Config, st: State, o: Observation, raw: Status, reason: string)
    requires (raw, reason) == Classify(cfg, Fails(st, o), st.baseline, o)
    ensures var status := NextStatus(cfg, st.status, st.streak, raw, o.pingOk);
            var after := State(status, Fails(st, o), NextStreak(cfg, st.status, st.streak, raw, o.pingOk),
                               NextBaseline(st.baseline, o.stats));
            var why := if raw.Healthy? then "recovered" else reason;
            Step(cfg, st, o) == (after, if status == st.status then None else Some(Transition(o.now, st.status, status, why)))
  {
  }

  class Monitor {
    const cfg: Config
    const window: Buffer<Sample>
    const history: Buffer<Transition>
    var status: Status
    var consecutiveFails: nat
    var recoveryStreak: nat
    var baselineP99: real
    var haveBaseline: bool
    ghost const start: Status
    ghost var observed: seq<Observation>

    function Value(): State
      reads this
    {
      State(status, consecutiveFails, recoveryStreak, if haveBaseline then Some(baselineP99) else None)
    }

    ghost predicate Valid()
      reads this, window, window.slots, history, history.slots
    {
      && cfg.Valid() && window.Valid() && history.Valid()
      && Value() == Run(cfg, start, observed)
      && history.all == Log(cfg, start, observed)
    }

    /** Starts from the status restored from Redis, or Healthy. */
    constructor (cfg: Config, restored: Option<Status>)
      requires cfg.Valid()
      ensures Valid() && this.cfg == cfg && observed == [] && window.all == []
      ensures start == if restored.Some? then restored.value else Healthy
      ensures fresh(window) && fresh(window.slots) && fresh(history) && fresh(history.slots)
    {
      this.cfg := cfg;
      var s := if restored.Some? then restored.value else Healthy;
      window := new Buffer(Sample(0, 0, false, false));
      history := new Buffer(Transition(0, Healthy, Healthy, ""));
      status, start := s, s;
      consecutiveFails, recoveryStreak, baselineP99, haveBaseline := 0, 0, 0.0, false;
      observed := [];
    }

    method SetStatus(now: int, to: Status, reason: string)
      requires history.Valid()
      modifies this`status, history, history.slots
      ensures history.Valid() && status == to
      ensures history.all == old(history.all) + [Transition(now, old(status), to, reason)]
    {
      var from := status;
      status := to;
      history.Append(Transition(now, from, to, reason));
    }

    method Transit(now: int, raw: Status, reason: string, pingOk: bool)
      requires history.Valid()
      modifies this`status, this`recoveryStreak, history, history.slots
      ensures history.Valid()
      ensures status == NextStatus(cfg, old(status), old(recoveryStreak), raw, pingOk)
      ensures recoveryStreak == NextStreak(cfg, old(status), old(recoveryStreak), raw, pingOk)
      ensures history.all
              == if status == old(status) then old(history.all)
                 else old(history.all) + [Transition(now, old(status), status, if raw.Healthy? then "recovered" else reason)]
    {
      if !raw.Healthy? {
        recoveryStreak := 0;
        if raw != status { SetStatus(now, raw, reason); }
        return;
      }
      if status.Healthy? { return; }
      if !pingOk {
        recoveryStreak := 0;
        return;
      }
      recoveryStreak := recoveryStreak + 1;
      if recoveryStreak < cfg.recoveryStreak { return; }
      SetStatus(now, Healthy, "recovered");
      recoveryStreak := 0;
    }

    method UpdateBaseline(stats: Stats)
      modifies this`baselineP99, this`haveBaseline
      ensures Value().baseline == NextBaseline(old(Value()).baseline, stats)
    {
      if stats.count == 0 { return; }
      if !haveBaseline {
        baselineP99, haveBaseline := stats.p99 as real, true;
        return;
      }
      baselineP99 := 0.2 * stats.p99 as real + 0.8 * baselineP99;
    }

    /** Classifies, applies the verdict, then lets the reading into the baseline. */
    method Judge(o: Observation)
      requires history.Valid()
      modifies this`status, this`consecutiveFails, this`recoveryStreak, this`baselineP99, this`haveBaseline
      modifies history, history.slots
      ensures history.Valid()
      ensures var (st, t) := Step(cfg, old(Value()), o);
              Value() == st && history.all == old(history.all) + if t.Some? then [t.value] else []
    {
      ghost var st := Value();
      consecutiveFails := if o.pingOk then 0 else consecutiveFails + 1;
      var (raw, reason) := Classify(cfg, consecutiveFails, Value().baseline, o);
      Transit(o.now, raw, reason, o.pingOk);
      UpdateBaseline(o.stats);
      assert old(history.all) + [] == old(history.all);
      VerdictIsStep(cfg, st, o, raw, reason);
    }

    /** One evaluation. What it judges is the last hundred samples of the last minute. */
    method Observe(now: int, pingOk: bool, breakerOpen: bool)
      requires Valid()
      modifies this, history, history.slots
      ensures Valid() && window.all == old(window.all)
      ensures |observed| == |old(observed)| + 1 && observed[..|old(observed)|] == old(observed)
      ensures var o := observed[|old(observed)|];
              o == Observation(now, pingOk, o.stats, breakerOpen) && Describes(o.stats, Tail(window.all), now)
    {
      var stats := WindowStats(window, now);
      var o := Observation(now, pingOk, stats, breakerOpen);
      Note(o);
    }

    method Note(o: Observation)
      requires Valid()
      modifies this, history, history.slots
      ensures Valid() && window.all == old(window.all) && observed == old(observed) + [o]
    {
      RunOneMore(cfg, start, observed, o);
      Judge(o);
      observed := observed + [o];
    }

    /** The retained transitions, newest first, each starting where the next ended. */
    method RecentTransitions() returns (recent: seq<Transition>)
      requires Valid()
      ensures recent == NewestFirst(Tail(Log(cfg, start, observed))) && ReadsBackwards(recent)
      ensures recent != [] ==> recent[0].to == status
    {
      recent := history.Recent();
      RecentIsLinked(cfg, start, observed);
    }

    method Record(at: int, latency: int, failed: bool, timeout: bool)
      requires Valid()
      modifies window, window.slots
      ensures Valid() && observed == old(observed)
      ensures window.all == old(window.all) + [Sample(at, latency, failed, failed && timeout)]
    {
      window.Append(Sample(at, latency, failed, failed && timeout));
    }
  }
}
