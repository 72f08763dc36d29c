/** The budget as requests use it: a tracker over the shared counters, and the
    per-request record of the top-ups taken while walking a fallback chain. */
module Budget {
  import opened Prelude
  import Ledger = BudgetLedger

  datatype Reservation = Reservation(hold: Ledger.Hold)

  datatype Reply = Unavailable | Answered(allowed: bool, spentMicros: int)

  class Tracker {
    var counters: Ledger.Counters

    constructor ()
      ensures counters == map[]
    {
      counters := map[];
    }

    /** Adds an estimate to a team's counter unless that passes the cap. Bad arguments
        and an unreachable Redis leave the counters alone and fail closed. */
    method Reserve(team: string, period: string, cap: int, estimate: int, reachable: bool)
      returns (handle: Option<Reservation>, reply: Reply)
      modifies this
      ensures reply.Answered? <==> cap > 0 && estimate >= 0 && reachable
      ensures reply.Unavailable? ==> counters == old(counters)
      ensures reply.Answered? ==>
                (counters, reply.allowed) == Ledger.Reserve(old(counters), Ledger.Key(team, period), cap, estimate)
                && reply.spentMicros == Ledger.Spent(counters, Ledger.Key(team, period))
      ensures handle == if reply.Answered? && reply.allowed
                        then Some(Reservation(Ledger.Hold(Ledger.Key(team, period), estimate))) else None
    {
      if cap <= 0 || estimate < 0 || !reachable { return None, Unavailable; }
      var key := Ledger.Key(team, period);
      var total := Ledger.Spent(counters, key) + estimate;
      counters := counters[key := total];
      if total > cap {
        counters := counters[key := total - estimate];
        assert counters == Ledger.Add(old(counters), key, 0);
        return None, Answered(false, total - estimate);
      }
      return Some(Reservation(Ledger.Hold(key, estimate))), Answered(true, total);
    }

    /** Replaces a hold by what was really spent. */
    method Reconcile(handle: Option<Reservation>, actual: int, reachable: bool) returns (ok: bool)
      modifies this
      ensures ok <==> handle.None? || (actual >= 0 && (actual == handle.value.hold.amount || reachable))
      ensures handle.None? || !ok ==> counters == old(counters)
      ensures handle.Some? && ok ==>
                forall k :: Ledger.Spent(counters, k)
                            == Ledger.Spent(old(counters), k)
                               + if k == handle.value.hold.key then actual - handle.value.hold.amount else 0
    {
      if handle.None? { return true; }
      if actual < 0 { return false; }
      var hold := handle.value.hold;
      var delta := actual - hold.amount;
      if delta == 0 { return true; }
      if !reachable { return false; }
      counters := Ledger.Add(counters, hold.key, delta);
      return true;
    }

    /** Starts one team's period over. Whatever was spent, the whole cap is free again, and
        no other counter notices. */
    method Reset(team: string, period: string, reachable: bool) returns (ok: bool)
      modifies this
      ensures ok == reachable
      ensures forall k :: Ledger.Spent(counters, k)
                          == if ok && k == Ledger.Key(team, period) then 0 else Ledger.Spent(old(counters), k)
      ensures ok ==> forall cap, amount ::
                Ledger.Reserve(counters, Ledger.Key(team, period), cap, amount).1 <==> amount <= cap
    {
      ok := reachable;
      if reachable { counters := counters - {Ledger.Key(team, period)}; }
    }
  }

  function Holds(rs: seq<Reservation>): seq<Ledger.Hold> {
    if rs == [] then [] else [rs[0].hold] + Holds(rs[1..])
  }

  function Held(rs: seq<Reservation>): int {
    if rs == [] then 0 else rs[0].hold.amount + Held(rs[1..])
  }

  lemma {:induction false} HeldAppend(rs: seq<Reservation>, r: Reservation)
    ensures Held(rs + [r]) == Held(rs) + r.hold.amount
  {
    if rs == [] {
      assert rs + [r] == [r] && [r][1..] == [];
    } else {
      assert (rs + [r])[1..] == rs[1..] + [r];
      HeldAppend(rs[1..], r);
    }
  }

  lemma {:induction false} HoldsAppend(rs: seq<Reservation>, r: Reservation)
    ensures Holds(rs + [r]) == Holds(rs) + [r.hold]
  {
    if rs == [] {
      assert rs + [r] == [r] && [r][1..] == [];
    } else {
      assert (rs + [r])[1..] == rs[1..] + [r];
      HoldsAppend(rs[1..], r);
    }
  }

  datatype Admission = Admitted(delta: int) | Unpriced | CheckFailed | Denied(spentMicros: int)

  /** What one request holds beyond its base reservation. */
  class ChainBudget {
    const tracker: Tracker
    const team: string
    const cap: int
    const requested: string
    const baseMicros: int
    var extra: seq<Reservation>

    constructor (tracker: Tracker, team: string, cap: int, requested: string, baseMicros: int)
      ensures this.tracker == tracker && this.team == team && this.cap == cap
      ensures this.requested == requested && this.baseMicros == baseMicros && extra == []
    {
      this.tracker, this.team, this.cap := tracker, team, cap;
      this.requested, this.baseMicros, extra := requested, baseMicros, [];
    }

    /** All the request holds now. */
    function Cover(): int
      reads this
    {
      baseMicros + Held(extra)
    }

    ghost predicate Valid()
      reads this
    {
      forall i :: 0 <= i < |extra| ==> extra[i].hold.amount > 0
    }

    /** A priced candidate that costs more than the request's base hold. */
    predicate Dearer(model: string, estimate: Option<int>) {
      model != requested && estimate.Some? && estimate.value > baseMicros
    }

    /** Re-checks the cap for a candidate. The requested model and anything no dearer
        pass as they are; a dearer one passes exactly when the difference fits under the
        cap, and then it is held. What is let through is covered by what is held. */
    method Admit(model: string, estimate: Option<int>, period: string, reachable: bool) returns (a: Admission)
      requires Valid()
      modifies this, tracker
      ensures Valid()
      ensures a.Unpriced? <==> model != requested && estimate.None?
      ensures a.CheckFailed? <==> Dearer(model, estimate) && (cap <= 0 || !reachable)
      ensures a.Denied? <==>
                Dearer(model, estimate) && cap > 0 && reachable
                && old(Ledger.Spent(tracker.counters, Ledger.Key(team, period))) + estimate.value - baseMicros > cap
      ensures extra == if Dearer(model, estimate) && a.Admitted?
                       then old(extra) + [Reservation(Ledger.Hold(Ledger.Key(team, period), estimate.value - baseMicros))]
                       else old(extra)
      ensures forall k :: Ledger.Spent(tracker.counters, k)
                          == old(Ledger.Spent(tracker.counters, k))
                             + if Dearer(model, estimate) && a.Admitted? && k == Ledger.Key(team, period)
                               then estimate.value - baseMicros else 0
      ensures model != requested && estimate.Some? && cap > 0 && reachable ==>
                var key := Ledger.Key(team, period);
                var (c, more, ok) := Ledger.TopUp(old(tracker.counters), key, cap, baseMicros, estimate.value);
                && (a.Admitted? <==> ok) && tracker.counters == c && Holds(extra) == Holds(old(extra)) + more
      ensures a.Admitted? ==> a.delta == if model == requested then 0 else estimate.value - baseMicros
      ensures a.Admitted? && model != requested ==> estimate.Some? && estimate.value <= Cover()
    {
      if model == requested { return Admitted(0); }
      if estimate.None? { return Unpriced; }
      var delta := estimate.value - baseMicros;
      HeldIsNonNegative();
      if delta <= 0 { return Admitted(delta); }
      var handle, reply := tracker.Reserve(team, period, cap, delta, reachable);
      if reply.Unavailable? { return CheckFailed; }
      if !reply.allowed { return Denied(reply.spentMicros); }
      HeldAppend(extra, handle.value);
      HoldsAppend(extra, handle.value);
      extra := extra + [handle.value];
      return Admitted(delta);
    }

    lemma HeldIsNonNegative()
      requires Valid()
      ensures Held(extra) >= 0
    {
      PositiveHolds(extra);
    }

    /** Gives every top-up back, one write each. A write that fails is passed over, and
        leaves exactly its own top-up behind. */
    method ReconcileExtras(reachable: seq<bool>)
      requires |reachable| == |extra|
      modifies tracker
      ensures forall k :: Ledger.Spent(tracker.counters, k)
                          == Ledger.Spent(old(tracker.counters), k) - Ledger.On(Returned(extra, reachable), k)
    {
      var i := 0;
      assert extra[..0] == [];
      while i < |extra|
        invariant 0 <= i <= |extra|
        invariant forall k :: Ledger.Spent(tracker.counters, k)
                              == Ledger.Spent(old(tracker.counters), k) - Ledger.On(Returned(extra[..i], reachable[..i]), k)
      {
        ReturnedSplit(extra, reachable, i);
        var ok := tracker.Reconcile(Some(extra[i]), 0, reachable[i]);
        i := i + 1;
      }
      assert extra[..i] == extra && reachable[..i] == reachable;
    }
  }

  /** The top-ups whose return was written. */
  function Returned(rs: seq<Reservation>, written: seq<bool>): seq<Ledger.Hold>
    requires |rs| == |written|
  {
    if rs == [] then []
    else
      Returned(rs[..|rs| - 1], written[..|rs| - 1]) + if written[|rs| - 1] then [rs[|rs| - 1].hold] else []
  }

  lemma ReturnedSplit(rs: seq<Reservation>, written: seq<bool>, n: nat)
    requires n < |rs| == |written|
    ensures forall k :: Ledger.On(Returned(rs[..n + 1], written[..n + 1]), k)
                        == Ledger.On(Returned(rs[..n], written[..n]), k)
                           + if written[n] && rs[n].hold.key == k then rs[n].hold.amount else 0
  {
    assert rs[..n + 1][..n] == rs[..n] && written[..n + 1][..n] == written[..n];
    var before := Returned(rs[..n], written[..n]);
    assert before + [] == before;
    forall k ensures Ledger.On(before + [rs[n].hold], k)
                     == Ledger.On(before, k) + if rs[n].hold.key == k then rs[n].hold.amount else 0
    {
      Ledger.OnAppend(before, rs[n].hold, k);
    }
  }

  lemma {:induction false} PositiveHolds(rs: seq<Reservation>)
    requires forall i :: 0 <= i < |rs| ==> rs[i].hold.amount > 0
    ensures Held(rs) >= 0
  {
    if rs != [] { PositiveHolds(rs[1..]); }
  }
}
