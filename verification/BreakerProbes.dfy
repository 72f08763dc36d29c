/** Who holds the probe slot of a breaker without a store. Calls have an identity here,
    so that a report says which admitted call it answers; the breaker itself never
    learns of it. */
module BreakerProbes {
  import opened BreakerMachine

  /** A question is known by its place in the sequence, and a report names that place. */
  datatype Call =
    | Ask(now: int)
    | Report(now: int, of: nat, success: bool)
    | Clear(now: int)

  function EventOf(c: Call): Event {
    match c
    case Ask(now) => Allow(now)
    case Report(now, _, success) => if success then Success(now) else Failure(now)
    case Clear(now) => Reset(now)
  }

  /** What an outside observer knows of the current HalfOpen episode: its probes that
      nobody has reported yet with the instants they went out, and the newest of all. */
  datatype Watch = Watch(out: map<nat, int>, newest: nat)

  function Observe(w: Watch, before: State, after: State, c: Call, id: nat, admitted: bool): Watch {
    if !after.HalfOpen? then w.(out := map[])
    else
      var out := if before.HalfOpen? then w.out else map[];
      if admitted then Watch(out[id := c.now], id)
      else if c.Report? then w.(out := out - {c.of})
      else w.(out := out)
  }

  function Run(cfg: Config, calls: seq<Call>): (Machine, Watch) {
    if calls == [] then (Initial(cfg), Watch(map[], 0))
    else
      var n := |calls| - 1;
      var (m, w) := Run(cfg, calls[..n]);
      var (m', admitted) := Step(cfg, m, EventOf(calls[n]));
      (m', Observe(w, m.state, m'.state, calls[n], n, admitted))
  }

  // ----- who can take the slot -----

  ghost predicate ReportedSince(calls: seq<Call>, p: nat) {
    exists j :: p < j < |calls| && calls[j].Report?
  }

  ghost predicate AnsweredSince(calls: seq<Call>, p: nat) {
    exists j :: p < j < |calls| && calls[j].Report? && calls[j].of == p
  }

  /** While probing, the slot belongs to the newest probe until any report comes in. */
  ghost predicate SlotInv(m: Machine, w: Watch, calls: seq<Call>) {
    m.state.HalfOpen? ==>
      var p := w.newest;
      && p < |calls| && calls[p].Ask? && m.probeStartedAt == calls[p].now
      && (m.probeInFlight <==> !ReportedSince(calls, p))
      && (p in w.out <==> !AnsweredSince(calls, p))
      && (p in w.out ==> w.out[p] == calls[p].now)
  }

  lemma ReportedGrows(calls: seq<Call>, c: Call, p: nat)
    requires p < |calls|
    ensures ReportedSince(calls + [c], p) <==> ReportedSince(calls, p) || c.Report?
    ensures AnsweredSince(calls + [c], p) <==> AnsweredSince(calls, p) || (c.Report? && c.of == p)
  {
    var all := calls + [c];
    assert all[|calls|] == c && forall j :: 0 <= j < |calls| ==> all[j] == calls[j];
  }

  lemma SlotInvStep(cfg: Config, m: Machine, w: Watch, calls: seq<Call>, c: Call)
    requires SlotInv(m, w, calls)
    ensures var (m', admitted) := Step(cfg, m, EventOf(c));
            SlotInv(m', Observe(w, m.state, m'.state, c, |calls|, admitted), calls + [c])
  {
    if m.state.HalfOpen? { ReportedGrows(calls, c, w.newest); }
  }

  lemma {:induction false} RunSlotInv(cfg: Config, calls: seq<Call>)
    ensures var (m, w) := Run(cfg, calls); SlotInv(m, w, calls)
  {
    if calls != [] {
      var before, c := calls[..|calls| - 1], calls[|calls| - 1];
      RunSlotInv(cfg, before);
      var (m, w) := Run(cfg, before);
      SlotInvStep(cfg, m, w, before, c);
      assert before + [c] == calls;
    }
  }

  /** While the newest probe p is out, a further call is admitted if and only if p has
      been out for the probe timeout or a report other than its own has come in since. */
  lemma SecondProbeIff(cfg: Config, calls: seq<Call>, now: int)
    requires var (m, w) := Run(cfg, calls); m.state.HalfOpen? && w.newest in w.out
    ensures var (m, w) := Run(cfg, calls);
            var p := w.newest;
            && p < |calls| && calls[p].Ask? && w.out[p] == calls[p].now
            && (Step(cfg, m, Allow(now)).1
                <==> now - calls[p].now >= cfg.probeTimeout
                     || exists j :: p < j < |calls| && calls[j].Report? && calls[j].of != p)
  {
    RunSlotInv(cfg, calls);
  }

  /** Over every run, a HalfOpen breaker admits a call if and only if its newest probe has been
      out for the probe timeout or any report has come in since. */
  lemma HalfOpenAdmitsIff(cfg: Config, calls: seq<Call>, now: int)
    requires Run(cfg, calls).0.state.HalfOpen?
    ensures var (m, w) := Run(cfg, calls);
            && w.newest < |calls|
            && (Step(cfg, m, Allow(now)).1
                <==> now - calls[w.newest].now >= cfg.probeTimeout || ReportedSince(calls, w.newest))
  {
    RunSlotInv(cfg, calls);
  }

  /** A probe that nobody ever reports, and nobody else reports either, keeps the slot for the
      probe timeout and no longer. */
  lemma AbandonedProbeHoldsSlot(cfg: Config, calls: seq<Call>, now: int)
    requires var (m, w) := Run(cfg, calls); m.state.HalfOpen? && !ReportedSince(calls, w.newest)
    ensures var (m, w) := Run(cfg, calls);
            && w.newest < |calls|
            && (Step(cfg, m, Allow(now)).1 <==> now - calls[w.newest].now >= cfg.probeTimeout)
  {
    RunSlotInv(cfg, calls);
  }

  // ----- one probe at a time -----

  /** Every report made while probing answers a probe of that episode that is still out,
      and nobody asks when the timeout could give a probe's slot away. */
  ghost predicate Fair(cfg: Config, m: Machine, w: Watch, c: Call) {
    m.state.HalfOpen? ==>
      && (c.Report? ==> c.of in w.out)
      && (c.Ask? ==> forall p :: p in w.out ==> c.now - w.out[p] < cfg.probeTimeout)
  }

  ghost predicate Disciplined(cfg: Config, calls: seq<Call>) {
    calls == [] ||
    (var before := calls[..|calls| - 1];
     var (m, w) := Run(cfg, before);
     Disciplined(cfg, before) && Fair(cfg, m, w, calls[|calls| - 1]))
  }

  ghost predicate SlotMirrors(m: Machine, w: Watch) {
    m.state.HalfOpen? ==> w.out == if m.probeInFlight then map[w.newest := m.probeStartedAt] else map[]
  }

  lemma MirrorStep(cfg: Config, m: Machine, w: Watch, c: Call, id: nat)
    requires SlotMirrors(m, w) && Fair(cfg, m, w, c)
    ensures var (m', admitted) := Step(cfg, m, EventOf(c));
            SlotMirrors(m', Observe(w, m.state, m'.state, c, id, admitted))
  {
    if m.state.HalfOpen? && m.probeInFlight { assert w.newest in w.out; }
  }

  /** With disciplined callers the slot holds exactly the probe that is out. */
  lemma {:induction false} SlotMirrorsOutstanding(cfg: Config, calls: seq<Call>)
    requires Disciplined(cfg, calls)
    ensures var (m, w) := Run(cfg, calls); SlotMirrors(m, w)
  {
    if calls != [] {
      var n := |calls| - 1;
      SlotMirrorsOutstanding(cfg, calls[..n]);
      var (m, w) := Run(cfg, calls[..n]);
      MirrorStep(cfg, m, w, calls[n], n);
    }
  }

  lemma AtMostOneProbe(cfg: Config, calls: seq<Call>)
    requires Disciplined(cfg, calls) && Run(cfg, calls).0.state.HalfOpen?
    ensures |Run(cfg, calls).1.out| <= 1
  {
    SlotMirrorsOutstanding(cfg, calls);
  }

  // ----- what a stale report does -----

  const StaleConfig := Config(1, 10, 5, 5, 2, 100, 1)

  /** Calls 0 and 1 go out, 0 fails and opens the breaker, probe 3 goes out, and then
      call 1 of the Closed era succeeds. */
  const StaleCalls := [Ask(0), Ask(0), Report(0, 0, false), Ask(5), Report(6, 1, true), Ask(7)]

  lemma StalePrefixes()
    ensures forall n :: 0 <= n < 6 ==> StaleCalls[..n + 1][..n] == StaleCalls[..n] && StaleCalls[..n + 1][n] == StaleCalls[n]
  {
  }

  lemma StaleOpens()
    ensures Run(StaleConfig, StaleCalls[..3]) == (Machine(Open, [], 0, false, 0, 0, 5, 1), Watch(map[], 0))
    ensures Disciplined(StaleConfig, StaleCalls[..3])
  {
    StalePrefixes();
    assert StaleCalls[..0] == [];
    var m0 := Initial(StaleConfig);
    assert Run(StaleConfig, StaleCalls[..1]) == (m0, Watch(map[], 0));
    assert Run(StaleConfig, StaleCalls[..2]) == (m0, Watch(map[], 0));
    assert PruneBefore([0], -10) == [0] && Pow2(0) == 1;
    assert Disciplined(StaleConfig, StaleCalls[..1]) && Disciplined(StaleConfig, StaleCalls[..2]);
    assert FailureLocal(StaleConfig, m0, 0) == Machine(Open, [], 0, false, 0, 0, 5, 1);
  }

  /** The probe of instant 5 holds the slot alone, in a disciplined run. The stale success
      is the first call to break the discipline; after it a second probe goes out while
      the first still is. */
  lemma StaleReportFreesTheSlot()
    ensures StaleConfig.Valid() && |StaleCalls| == 6
    ensures Disciplined(StaleConfig, StaleCalls[..4]) && Run(StaleConfig, StaleCalls[..4]).1.out == map[3 := 5]
    ensures !Step(StaleConfig, Run(StaleConfig, StaleCalls[..4]).0, Allow(7)).1
    ensures !Disciplined(StaleConfig, StaleCalls[..5]) && !Disciplined(StaleConfig, StaleCalls)
    ensures var (m, w) := Run(StaleConfig, StaleCalls); m.state.HalfOpen? && w.out == map[3 := 5, 5 := 7]
  {
    StaleOpens();
    StalePrefixes();
    var probing := Machine(HalfOpen, [], 0, true, 5, 0, 5, 1);
    assert Run(StaleConfig, StaleCalls[..4]) == (probing, Watch(map[3 := 5], 3));
    var freed := probing.(successStreak := 1, probeInFlight := false);
    var out: map<nat, int> := map[3 := 5];
    assert out - {1} == out;
    assert Run(StaleConfig, StaleCalls[..5]) == (freed, Watch(map[3 := 5], 3));
    assert StaleCalls[..6] == StaleCalls;
  }
}
