/** A walk and the breaker of one of its candidates, together: what a probe claimed by the
    walk and never reported does to everyone who asks that breaker afterwards. */
module LeakedProbe {
  import Machine = BreakerMachine
  import Probes = BreakerProbes
  import Order = FallbackOrder
  import Walk = FallbackWalk

  /** What a walk tells the breaker of one candidate about the call it claimed. */
  function Reports(log: seq<Walk.Event>, place: nat, id: nat, now: int): seq<Probes.Call> {
    if log == [] then []
    else
      var e := log[|log| - 1];
      Reports(log[..|log| - 1], place, id, now)
      + if e.Reported? && e.place == place then [Probes.Report(now, id, e.success)] else []
  }

  lemma {:induction false} ReportsAreCounted(log: seq<Walk.Event>, place: nat, id: nat, now: int)
    ensures |Reports(log, place, id, now)| == Walk.ReportsOn(log, place)
    ensures forall i :: 0 <= i < |Reports(log, place, id, now)| ==> Reports(log, place, id, now)[i].Report?
  {
    if log != [] { ReportsAreCounted(log[..|log| - 1], place, id, now); }
  }

  lemma RunOneMore(cfg: Machine.Config, calls: seq<Probes.Call>, c: Probes.Call)
    ensures Probes.Run(cfg, calls + [c]).0
            == Machine.Step(cfg, Probes.Run(cfg, calls).0, Probes.EventOf(c)).0
  {
    assert (calls + [c])[..|calls|] == calls;
  }

  lemma ReportFreesSlot(cfg: Machine.Config, m: Machine.Machine, c: Probes.Call)
    requires c.Report?
    ensures !Machine.Step(cfg, m, Probes.EventOf(c)).0.probeInFlight
  {
  }

  /** A slot that is held stays held exactly until there is a report. */
  lemma {:induction false} AnyReportFreesSlot(cfg: Machine.Config, calls: seq<Probes.Call>, reports: seq<Probes.Call>)
    requires Probes.Run(cfg, calls).0.probeInFlight && forall i :: 0 <= i < |reports| ==> reports[i].Report?
    ensures Probes.Run(cfg, calls + reports).0.probeInFlight <==> reports == []
  {
    if reports == [] {
      assert calls + reports == calls;
    } else {
      var rest, c := reports[..|reports| - 1], reports[|reports| - 1];
      RunOneMore(cfg, calls + rest, c);
      assert (calls + rest) + [c] == calls + reports;
      ReportFreesSlot(cfg, Probes.Run(cfg, calls + rest).0, c);
    }
  }

  /** The breaker has admitted this walk's candidate as its probe. */
  ghost predicate Claimed(cfg: Machine.Config, before: seq<Probes.Call>, now: int) {
    && Machine.Step(cfg, Probes.Run(cfg, before).0, Machine.Allow(now)).1
    && Probes.Run(cfg, before + [Probes.Ask(now)]).0.state.HalfOpen?
  }

  lemma ClaimHoldsSlot(cfg: Machine.Config, before: seq<Probes.Call>, now: int)
    requires Claimed(cfg, before, now)
    ensures var m := Probes.Run(cfg, before + [Probes.Ask(now)]).0; m.probeInFlight && m.probeStartedAt == now
  {
    RunOneMore(cfg, before, Probes.Ask(now));
  }

  ghost predicate OnlyAsks(asks: seq<Probes.Call>, until: int) {
    forall i :: 0 <= i < |asks| ==> asks[i].Ask? && asks[i].now < until
  }

  /** While the slot is held, asking changes nothing. */
  lemma {:induction false} AsksAreRefused(cfg: Machine.Config, calls: seq<Probes.Call>, asks: seq<Probes.Call>)
    requires var m := Probes.Run(cfg, calls).0;
             m.state.HalfOpen? && m.probeInFlight && OnlyAsks(asks, m.probeStartedAt + cfg.probeTimeout)
    ensures Probes.Run(cfg, calls + asks).0 == Probes.Run(cfg, calls).0
  {
    if asks == [] {
      assert calls + asks == calls;
    } else {
      var rest, c := asks[..|asks| - 1], asks[|asks| - 1];
      AsksAreRefused(cfg, calls, rest);
      RunOneMore(cfg, calls + rest, c);
      assert (calls + rest) + [c] == calls + asks;
    }
  }

  lemma NothingReportedIff(w: Walk.World, limits: Walk.Limits, chain: seq<Order.Candidate>, requested: string, base: int,
                           walk: Walk.Walk, failures: seq<Walk.Failure>, extras: seq<int>, log: seq<Walk.Event>, place: nat,
                           id: nat, later: int)
    requires Walk.Finished(w, limits, chain, requested, base, walk, failures, extras, log)
    requires place < |failures| && w.guarded(place) && w.allow(place)
    ensures Reports(log, place, id, later) == []
            <==> !Walk.Affordable(w, place, requested, chain[place].model, base) || w.resolve(place, chain[place].model).None?
  {
    Walk.UnreportedIff(w, limits, chain, requested, base, failures, log, place);
    ReportsAreCounted(log, place, id, later);
  }

  /** After a finished walk that claimed a breaker's probe slot for a candidate it then gave up
      on, the slot is still taken if and only if the budget refused the candidate or nobody
      serves its model. */
  lemma {:induction false} SlotLeaksIff(
      w: Walk.World, limits: Walk.Limits, chain: seq<Order.Candidate>, requested: string, base: int,
      walk: Walk.Walk, failures: seq<Walk.Failure>, extras: seq<int>, log: seq<Walk.Event>, place: nat,
      cfg: Machine.Config, before: seq<Probes.Call>, now: int, later: int)
    requires Walk.Finished(w, limits, chain, requested, base, walk, failures, extras, log)
    requires place < |failures| && w.guarded(place) && w.allow(place) && Claimed(cfg, before, now)
    ensures var calls := before + [Probes.Ask(now)] + Reports(log, place, |before|, later);
            Probes.Run(cfg, calls).0.probeInFlight
            <==> !Walk.Affordable(w, place, requested, chain[place].model, base) || w.resolve(place, chain[place].model).None?
  {
    var claimed, reports := before + [Probes.Ask(now)], Reports(log, place, |before|, later);
    NothingReportedIff(w, limits, chain, requested, base, walk, failures, extras, log, place, |before|, later);
    ReportsAreCounted(log, place, |before|, later);
    ClaimHoldsSlot(cfg, before, now);
    AnyReportFreesSlot(cfg, claimed, reports);
  }

  /** Then, as long as nobody reports anything, the breaker refuses every call until the probe
      timeout and admits the first one after it. */
  lemma {:induction false} LeakedProbeBlocks(
      w: Walk.World, limits: Walk.Limits, chain: seq<Order.Candidate>, requested: string, base: int,
      walk: Walk.Walk, failures: seq<Walk.Failure>, extras: seq<int>, log: seq<Walk.Event>, place: nat,
      cfg: Machine.Config, before: seq<Probes.Call>, now: int, later: int,
      asks: seq<Probes.Call>, next: int)
    requires Walk.Finished(w, limits, chain, requested, base, walk, failures, extras, log)
    requires place < |failures| && w.guarded(place) && w.allow(place) && Claimed(cfg, before, now)
    requires !Walk.Affordable(w, place, requested, chain[place].model, base) || w.resolve(place, chain[place].model).None?
    requires OnlyAsks(asks, now + cfg.probeTimeout)
    ensures var calls := before + [Probes.Ask(now)] + Reports(log, place, |before|, later) + asks;
            Machine.Step(cfg, Probes.Run(cfg, calls).0, Machine.Allow(next)).1 <==> next - now >= cfg.probeTimeout
  {
    var claimed := before + [Probes.Ask(now)];
    NothingReportedIff(w, limits, chain, requested, base, walk, failures, extras, log, place, |before|, later);
    ClaimHoldsSlot(cfg, before, now);
    assert claimed + Reports(log, place, |before|, later) == claimed;
    AsksAreRefused(cfg, claimed, asks);
  }
}
