/** The monthly spend counters shared by every request of a team: an estimate held
    when a request starts, a top-up held when a fallback costs more, and two steps
    that settle them. Amounts are integer micro-dollars. */
module BudgetLedger {

  datatype Key = Key(team: string, period: string)

  type Counters = map<Key, int>

  function Spent(c: Counters, k: Key): int {
    if k in c then c[k] else 0
  }

  function Add(c: Counters, k: Key, amount: int): Counters {
    c[k := Spent(c, k) + amount]
  }

  /** The reserve script: increment, and roll back when the total passes the cap. */
  function Reserve(c: Counters, k: Key, cap: int, amount: int): (Counters, bool) {
    if Spent(c, k) + amount > cap then (Add(c, k, 0), false) else (Add(c, k, amount), true)
  }

  // ----- requests -----

  datatype Hold = Hold(key: Key, amount: int)

  /** Running: the base hold and every top-up are held. Settled: the base hold became
      the final cost, and the first so many top-ups have been given back. */
  datatype Phase = Running | Settled(final: int, returned: nat)

  datatype Request = Request(
    base: Hold,
    extras: seq<Hold>,
    estimates: seq<int>,   // of the candidates the budget has let through
    phase: Phase)

  datatype System = System(counters: Counters, requests: seq<Request>)

  datatype Action =
    | Begin(key: Key, cap: int, estimate: int)
    | Admit(who: nat, key: Key, cap: int, estimate: int)   // key: the period in which the candidate is priced
    | Settle(who: nat, final: int)
    | Return(who: nat)

  /** Re-checks a candidate against a request's base hold: one that is no dearer passes, a
      dearer one passes exactly when the difference can be held. */
  function TopUp(c: Counters, key: Key, cap: int, base: int, estimate: int): (Counters, seq<Hold>, bool) {
    if estimate <= base then (c, [], true)
    else
      var (c', ok) := Reserve(c, key, cap, estimate - base);
      (c', if ok then [Hold(key, estimate - base)] else [], ok)
  }

  /** One atomic counter access by one request; anything out of order does nothing. */
  function Act(s: System, a: Action): System {
    match a
    case Begin(key, cap, estimate) =>
      if estimate < 0 then s
      else
        var (c, ok) := Reserve(s.counters, key, cap, estimate);
        System(c, if ok then s.requests + [Request(Hold(key, estimate), [], [estimate], Running)] else s.requests)
    case Admit(who, key, cap, estimate) =>
      if who >= |s.requests| || !s.requests[who].phase.Running? then s
      else
        var r := s.requests[who];
        var (c, more, ok) := TopUp(s.counters, key, cap, r.base.amount, estimate);
        if !ok then s.(counters := c)
        else System(c, s.requests[who := r.(extras := r.extras + more, estimates := r.estimates + [estimate])])
    case Settle(who, final) =>
      if who >= |s.requests| || !s.requests[who].phase.Running? || final < 0 then s
      else
        var r := s.requests[who];
        System(Add(s.counters, r.base.key, final - r.base.amount), s.requests[who := r.(phase := Settled(final, 0))])
    case Return(who) =>
      if who >= |s.requests| || !s.requests[who].phase.Settled?
         || s.requests[who].phase.returned >= |s.requests[who].extras| then s
      else
        var r := s.requests[who];
        var n := r.phase.returned;
        System(Add(s.counters, r.extras[n].key, -r.extras[n].amount),
               s.requests[who := r.(phase := Settled(r.phase.final, n + 1))])
  }

  function Run(s: System, acts: seq<Action>): System {
    if acts == [] then s else Act(Run(s, acts[..|acts| - 1]), acts[|acts| - 1])
  }

  // ----- what each action does -----

  /** A reservation is granted exactly when it fits under the cap, and a refused one leaves every
      counter as it was. */
  lemma ReserveIff(c: Counters, k: Key, cap: int, amount: int)
    ensures var (after, ok) := Reserve(c, k, cap, amount);
            && (ok <==> Spent(c, k) + amount <= cap)
            && forall j :: Spent(after, j) == Spent(c, j) + if ok && j == k then amount else 0
  {
  }

  /** A request starts exactly when its estimate fits under the cap, whoever else is running;
      it then holds that estimate, and nobody else is affected. */
  lemma BeginIff(s: System, key: Key, cap: int, estimate: int)
    ensures var after := Act(s, Begin(key, cap, estimate));
            var starts := estimate >= 0 && Spent(s.counters, key) + estimate <= cap;
            && s.requests <= after.requests && |after.requests| == |s.requests| + (if starts then 1 else 0)
            && (starts ==> after.requests[|s.requests|] == Request(Hold(key, estimate), [], [estimate], Running))
            && forall j :: Spent(after.counters, j) == Spent(s.counters, j) + if starts && j == key then estimate else 0
  {
    ReserveIff(s.counters, key, cap, estimate);
  }

  /** A running request may try a further candidate exactly when that is no dearer than its base
      hold or the difference fits under the cap; the difference is then held as well. */
  lemma AdmitIff(s: System, who: nat, key: Key, cap: int, estimate: int)
    requires who < |s.requests| && s.requests[who].phase.Running?
    ensures var r, after := s.requests[who], Act(s, Admit(who, key, cap, estimate));
            var more := if estimate > r.base.amount then estimate - r.base.amount else 0;
            var passes := more == 0 || Spent(s.counters, key) + more <= cap;
            && after.requests == s.requests[who := after.requests[who]]
            && after.requests[who].estimates == (if passes then r.estimates + [estimate] else r.estimates)
            && after.requests[who].extras == (if passes && more > 0 then r.extras + [Hold(key, more)] else r.extras)
            && forall j :: Spent(after.counters, j) == Spent(s.counters, j) + if passes && j == key then more else 0
  {
    if estimate > s.requests[who].base.amount {
      ReserveIff(s.counters, key, cap, estimate - s.requests[who].base.amount);
    }
    assert s.requests[who].extras + [] == s.requests[who].extras;
  }

  /** How a running request is brought to its end: settled, and each top-up given back. */
  function Ending(who: nat, final: int, topUps: nat): seq<Action> {
    if topUps == 0 then [Settle(who, final)] else Ending(who, final, topUps - 1) + [Return(who)]
  }

  /** A running request can always be brought to its end, whatever the counters and whoever else
      is running, with any cost, and no other request is touched. */
  lemma {:induction false} EveryRequestCanEnd(s: System, who: nat, final: int, topUps: nat)
    requires who < |s.requests| && s.requests[who].phase.Running? && final >= 0 && topUps <= |s.requests[who].extras|
    ensures var after := Run(s, Ending(who, final, topUps));
            after.requests == s.requests[who := s.requests[who].(phase := Settled(final, topUps))]
    decreases topUps
  {
    var acts := Ending(who, final, topUps);
    if topUps == 0 {
      assert acts[..0] == [];
    } else {
      EveryRequestCanEnd(s, who, final, topUps - 1);
      assert acts[..|acts| - 1] == Ending(who, final, topUps - 1);
    }
  }

  // ----- what each request owes a counter -----

  /** The amounts of the holds taken on this counter. */
  function On(holds: seq<Hold>, k: Key): int {
    if holds == [] then 0
    else (if holds[0].key == k then holds[0].amount else 0) + On(holds[1..], k)
  }

  /** The amounts of the holds taken on any other counter. */
  function Off(holds: seq<Hold>, k: Key): int {
    if holds == [] then 0
    else (if holds[0].key == k then 0 else holds[0].amount) + Off(holds[1..], k)
  }

  function Unreturned(r: Request): seq<Hold> {
    if r.phase.Settled? && r.phase.returned <= |r.extras| then r.extras[r.phase.returned..] else r.extras
  }

  /** What a request currently accounts for: its final cost once settled, its base
      hold before that, and every top-up still held. */
  function Share(r: Request, k: Key): int {
    (if r.base.key != k then 0 else if r.phase.Settled? then r.phase.final else r.base.amount)
    + On(Unreturned(r), k)
  }

  /** Top-ups a settled request has not given back yet. */
  function Pending(r: Request, k: Key): int {
    if r.phase.Settled? then On(Unreturned(r), k) else 0
  }

  /** Top-ups a settled request took on another counter than its base hold. */
  function Strayed(r: Request, k: Key): int {
    if r.phase.Settled? && r.base.key == k then Off(r.extras, k) else 0
  }

  /** The final cost, on the counter where the request began. */
  function FinalCost(r: Request, k: Key): int {
    if r.phase.Settled? && r.base.key == k then r.phase.final else 0
  }

  datatype Measure = Shares | PendingTopUps | StrayedTopUps | FinalCosts

  function Amount(r: Request, f: Measure, k: Key): int {
    match f
    case Shares => Share(r, k)
    case PendingTopUps => Pending(r, k)
    case StrayedTopUps => Strayed(r, k)
    case FinalCosts => FinalCost(r, k)
  }

  /** Sum of one measure over all requests. */
  function Total(rs: seq<Request>, f: Measure, k: Key): int {
    if rs == [] then 0 else Amount(rs[0], f, k) + Total(rs[1..], f, k)
  }

  lemma {:induction false} TotalUpdate(rs: seq<Request>, i: nat, r: Request, f: Measure, k: Key)
    requires i < |rs|
    ensures Total(rs[i := r], f, k) == Total(rs, f, k) - Amount(rs[i], f, k) + Amount(r, f, k)
  {
    if i > 0 {
      assert rs[i := r][1..] == rs[1..][i - 1 := r];
      TotalUpdate(rs[1..], i - 1, r, f, k);
    } else {
      assert rs[i := r][1..] == rs[1..];
    }
  }

  lemma {:induction false} TotalAppend(rs: seq<Request>, r: Request, f: Measure, k: Key)
    ensures Total(rs + [r], f, k) == Total(rs, f, k) + Amount(r, f, k)
  {
    if rs == [] {
      assert rs + [r] == [r] && [r][1..] == [];
    } else {
      assert (rs + [r])[1..] == rs[1..] + [r];
      TotalAppend(rs[1..], r, f, k);
    }
  }

  lemma {:induction false} OnAppend(holds: seq<Hold>, h: Hold, k: Key)
    ensures On(holds + [h], k) == On(holds, k) + (if h.key == k then h.amount else 0)
    ensures Off(holds + [h], k) == Off(holds, k) + (if h.key == k then 0 else h.amount)
  {
    if holds == [] {
      assert holds + [h] == [h] && [h][1..] == [];
    } else {
      assert (holds + [h])[1..] == holds[1..] + [h];
      OnAppend(holds[1..], h, k);
    }
  }

  // ----- conservation -----

  ghost predicate Conserved(opening: Counters, s: System, k: Key) {
    Spent(s.counters, k) == Spent(opening, k) + Total(s.requests, Shares, k)
  }

  /** What changing one request does to its counters and to its share. */
  ghost predicate MovesAlike(s: System, who: nat, s': System, k: Key)
    requires who < |s.requests|
  {
    && |s'.requests| == |s.requests| && s'.requests == s.requests[who := s'.requests[who]]
    && Spent(s'.counters, k) - Spent(s.counters, k) == Share(s'.requests[who], k) - Share(s.requests[who], k)
  }

  lemma AdmitMovesAlike(s: System, a: Action, k: Key)
    requires a.Admit? && a.who < |s.requests|
    ensures MovesAlike(s, a.who, Act(s, a), k)
  {
    var r := s.requests[a.who];
    if r.phase.Running? {
      AdmittedShare(s, a, r, k);
    }
  }

  /** What one admission does to a counter and to the request's share of it. */
  lemma AdmittedShare(s: System, a: Action, r: Request, k: Key)
    requires a.Admit? && a.who < |s.requests| && r == s.requests[a.who] && r.phase.Running?
    ensures var (c, more, ok) := TopUp(s.counters, a.key, a.cap, r.base.amount, a.estimate);
            Spent(c, k) - Spent(s.counters, k) == On(r.extras + more, k) - On(r.extras, k)
  {
    assert r.extras + [] == r.extras;
    OnAppend(r.extras, Hold(a.key, a.estimate - r.base.amount), k);
  }

  lemma ReturnMovesAlike(s: System, a: Action, k: Key)
    requires a.Return? && a.who < |s.requests|
    ensures MovesAlike(s, a.who, Act(s, a), k)
  {
  }

  lemma ActConserves(opening: Counters, s: System, a: Action, k: Key)
    requires Conserved(opening, s, k)
    ensures Conserved(opening, Act(s, a), k)
  {
    if a.Begin? {
      TotalAppend(s.requests, Request(Hold(a.key, a.estimate), [], [a.estimate], Running), Shares, k);
    } else if a.who < |s.requests| {
      var s' := Act(s, a);
      if a.Admit? {
        AdmitMovesAlike(s, a, k);
      } else if a.Return? {
        ReturnMovesAlike(s, a, k);
      } else {
        assert MovesAlike(s, a.who, s', k);
      }
      TotalUpdate(s.requests, a.who, s'.requests[a.who], Shares, k);
    }
  }

  /** Whatever the interleaving, each counter holds what it opened with, plus the final
      costs already settled on it, plus everything still held on it. */
  lemma {:induction false} SpendIsConserved(opening: Counters, acts: seq<Action>, k: Key)
    ensures Conserved(opening, Run(System(opening, []), acts), k)
  {
    if acts != [] {
      SpendIsConserved(opening, acts[..|acts| - 1], k);
      ActConserves(opening, Run(System(opening, []), acts[..|acts| - 1]), acts[|acts| - 1], k);
    }
  }

  ghost predicate Done(r: Request) {
    r.phase.Settled? && r.phase.returned == |r.extras|
  }

  ghost predicate AllDone(rs: seq<Request>) {
    forall i :: 0 <= i < |rs| ==> Done(rs[i])
  }

  lemma {:induction false} DoneOwesFinalCost(rs: seq<Request>, k: Key)
    requires AllDone(rs)
    ensures Total(rs, Shares, k) == Total(rs, FinalCosts, k)
  {
    if rs != [] {
      assert Unreturned(rs[0]) == [];
      DoneOwesFinalCost(rs[1..], k);
    }
  }

  /** Once every request has settled, the counter has grown by exactly their final
      costs, however many fallbacks each of them took. */
  lemma SettledSpendIsFinalCost(opening: Counters, acts: seq<Action>, k: Key)
    requires AllDone(Run(System(opening, []), acts).requests)
    ensures var s := Run(System(opening, []), acts);
            Spent(s.counters, k) == Spent(opening, k) + Total(s.requests, FinalCosts, k)
  {
    SpendIsConserved(opening, acts, k);
    DoneOwesFinalCost(Run(System(opening, []), acts).requests, k);
  }

  // ----- the cap -----

  ghost predicate NonNegative(holds: seq<Hold>) {
    forall i :: 0 <= i < |holds| ==> holds[i].amount >= 0
  }

  lemma {:induction false} HeldIsNonNegative(holds: seq<Hold>, k: Key)
    requires NonNegative(holds)
    ensures On(holds, k) >= 0 && Off(holds, k) >= 0
  {
    if holds != [] { HeldIsNonNegative(holds[1..], k); }
  }

  /** All that a request holds covers every candidate the budget has let through. */
  ghost predicate Covered(r: Request) {
    && NonNegative(r.extras)
    && forall i :: 0 <= i < |r.estimates| ==>
         r.estimates[i] <= r.base.amount + On(r.extras, r.base.key) + Off(r.extras, r.base.key)
  }

  ghost predicate AllCovered(rs: seq<Request>) {
    forall i :: 0 <= i < |rs| ==> Covered(rs[i])
  }

  lemma AdmitKeepsCover(s: System, a: Action)
    requires a.Admit? && a.who < |s.requests| && Covered(s.requests[a.who])
    ensures Covered(Act(s, a).requests[a.who])
  {
    var r := s.requests[a.who];
    OnAppend(r.extras, Hold(a.key, a.estimate - r.base.amount), r.base.key);
    HeldIsNonNegative(r.extras, r.base.key);
    assert r.extras + [] == r.extras;
  }

  /** In every reachable state the base hold and the top-ups of each request cover
      the estimate of every candidate it was allowed to try. */
  lemma {:induction false} HoldsCoverCandidates(opening: Counters, acts: seq<Action>)
    ensures AllCovered(Run(System(opening, []), acts).requests)
  {
    if acts != [] {
      HoldsCoverCandidates(opening, acts[..|acts| - 1]);
      ActKeepsCover(Run(System(opening, []), acts[..|acts| - 1]), acts[|acts| - 1]);
    }
  }

  lemma ActKeepsCover(s: System, a: Action)
    requires AllCovered(s.requests)
    ensures AllCovered(Act(s, a).requests)
  {
    if a.Admit? && a.who < |s.requests| { AdmitKeepsCover(s, a); }
  }

  /** A settlement charges no more than the estimate of some candidate let through. */
  ghost predicate WithinEstimate(s: System, a: Action) {
    a.Settle? && a.who < |s.requests| ==>
      exists i :: 0 <= i < |s.requests[a.who].estimates| && a.final <= s.requests[a.who].estimates[i]
  }

  ghost predicate CapKept(cap: int, s: System, k: Key) {
    Spent(s.counters, k) <= cap + Total(s.requests, PendingTopUps, k) + Total(s.requests, StrayedTopUps, k)
  }

  lemma {:induction false} TopUpsAreNonNegative(rs: seq<Request>, k: Key)
    requires AllCovered(rs)
    ensures Total(rs, PendingTopUps, k) >= 0 && Total(rs, StrayedTopUps, k) >= 0
  {
    if rs != [] {
      HeldIsNonNegative(Unreturned(rs[0]), k);
      HeldIsNonNegative(rs[0].extras, k);
      TopUpsAreNonNegative(rs[1..], k);
    }
  }

  /** A reservation that is let through fits the cap; one that is not changes nothing. */
  lemma ReserveKeepsCap(cap: int, c: Counters, key: Key, amount: int, k: Key)
    ensures var (c', ok) := Reserve(c, key, cap, amount);
            Spent(c', k) == Spent(c, k) || (ok && k == key && Spent(c', k) <= cap)
  {
  }

  lemma AdmitKeepsCap(cap: int, s: System, a: Action, k: Key)
    requires a.Admit? && a.who < |s.requests| && CapKept(cap, s, k) && UnderCap(a, k, cap)
    requires AllCovered(s.requests)
    ensures CapKept(cap, Act(s, a), k)
  {
    var s' := Act(s, a);
    var r := s.requests[a.who];
    ReserveKeepsCap(a.cap, s.counters, a.key, a.estimate - r.base.amount, k);
    TotalUpdate(s.requests, a.who, s'.requests[a.who], PendingTopUps, k);
    TotalUpdate(s.requests, a.who, s'.requests[a.who], StrayedTopUps, k);
    assert s'.requests == s.requests[a.who := s'.requests[a.who]];
    TopUpsAreNonNegative(s.requests, k);
  }

  lemma SettleKeepsCap(cap: int, s: System, a: Action, k: Key)
    requires a.Settle? && a.who < |s.requests| && CapKept(cap, s, k)
    requires Covered(s.requests[a.who]) && WithinEstimate(s, a)
    ensures CapKept(cap, Act(s, a), k)
  {
    var s' := Act(s, a);
    var r, r' := s.requests[a.who], s'.requests[a.who];
    assert s'.requests == s.requests[a.who := r'];
    TotalUpdate(s.requests, a.who, r', PendingTopUps, k);
    TotalUpdate(s.requests, a.who, r', StrayedTopUps, k);
    if r.phase.Running? && a.final >= 0 {
      assert Unreturned(r') == r.extras;
      HeldIsNonNegative(r.extras, k);
    }
  }

  lemma ReturnKeepsCap(cap: int, s: System, a: Action, k: Key)
    requires a.Return? && a.who < |s.requests| && CapKept(cap, s, k)
    ensures CapKept(cap, Act(s, a), k)
  {
    var s' := Act(s, a);
    var r, r' := s.requests[a.who], s'.requests[a.who];
    assert s'.requests == s.requests[a.who := r'];
    TotalUpdate(s.requests, a.who, r', PendingTopUps, k);
    TotalUpdate(s.requests, a.who, r', StrayedTopUps, k);
    ReturnMovesAlike(s, a, k);
  }

  lemma ActKeepsCap(cap: int, s: System, a: Action, k: Key)
    requires CapKept(cap, s, k) && AllCovered(s.requests) && WithinEstimate(s, a) && UnderCap(a, k, cap)
    ensures CapKept(cap, Act(s, a), k)
  {
    match a
    case Begin(key, c, estimate) =>
      ReserveKeepsCap(c, s.counters, key, estimate, k);
      var r := Request(Hold(key, estimate), [], [estimate], Running);
      TotalAppend(s.requests, r, PendingTopUps, k);
      TotalAppend(s.requests, r, StrayedTopUps, k);
      TopUpsAreNonNegative(s.requests, k);
    case Admit(who, _, _, _) => if who < |s.requests| { AdmitKeepsCap(cap, s, a, k); }
    case Settle(who, _) => if who < |s.requests| { SettleKeepsCap(cap, s, a, k); }
    case Return(who) => if who < |s.requests| { ReturnKeepsCap(cap, s, a, k); }
  }

  ghost predicate PricedRun(opening: Counters, acts: seq<Action>) {
    forall n :: 0 <= n < |acts| ==> WithinEstimate(Run(System(opening, []), acts[..n]), acts[n])
  }

  /** The cap a reservation on this counter is checked against is at most this. Caps on
      other counters, of other teams or periods, may be anything. */
  predicate UnderCap(a: Action, k: Key, cap: int) {
    (a.Begin? || a.Admit?) && a.key == k ==> a.cap <= cap
  }

  ghost predicate AllUnderCap(acts: seq<Action>, k: Key, cap: int) {
    forall n :: 0 <= n < |acts| ==> UnderCap(acts[n], k, cap)
  }

  /** A counter exceeds the largest cap it was checked against by no more than the top-ups
      of settled requests that are still to be given back, plus those a request took in
      another period. */
  lemma {:induction false} CapHolds(cap: int, opening: Counters, acts: seq<Action>, k: Key)
    requires Spent(opening, k) <= cap && PricedRun(opening, acts) && AllUnderCap(acts, k, cap)
    ensures CapKept(cap, Run(System(opening, []), acts), k)
  {
    if acts != [] {
      var before := acts[..|acts| - 1];
      var a := acts[|acts| - 1];
      assert forall n :: 0 <= n < |before| ==> before[..n] == acts[..n] && before[n] == acts[n];
      CapHolds(cap, opening, before, k);
      HoldsCoverCandidates(opening, before);
      assert acts[..|acts| - 1] == before && UnderCap(acts[|acts| - 1], k, cap);
      ActKeepsCap(cap, Run(System(opening, []), before), a, k);
    }
  }

  // ----- exactly when the cap holds up to top-ups in transit -----

  ghost predicate CapTight(cap: int, s: System, k: Key) {
    Spent(s.counters, k) <= cap + Total(s.requests, PendingTopUps, k)
  }

  /** What can be checked before a settlement: the final cost fits what the request holds
      on the counter it began on. */
  predicate FitsItsCounter(s: System, a: Action) {
    a.Settle? && a.who < |s.requests| && s.requests[a.who].phase.Running? && a.final >= 0 ==>
      var r := s.requests[a.who];
      a.final <= r.base.amount + On(r.extras, r.base.key)
  }

  /** One settlement moves its counter against the bound by exactly the part of the final
      cost that the request does not hold there. */
  lemma SettleMovesBound(s: System, a: Action, k: Key)
    requires a.Settle? && a.who < |s.requests| && s.requests[a.who].phase.Running? && a.final >= 0
    ensures var s', r := Act(s, a), s.requests[a.who];
            (Spent(s'.counters, k) - Total(s'.requests, PendingTopUps, k))
            - (Spent(s.counters, k) - Total(s.requests, PendingTopUps, k))
            == (if r.base.key == k then a.final - r.base.amount else 0) - On(r.extras, k)
  {
    var s' := Act(s, a);
    var r, r' := s.requests[a.who], s'.requests[a.who];
    assert s'.requests == s.requests[a.who := r'] && Unreturned(r') == r.extras;
    TotalUpdate(s.requests, a.who, r', PendingTopUps, k);
  }

  /** On a counter at its bound, a settlement keeps the bound if and only if the final cost
      fits what the request holds there. */
  lemma SettleKeepsBoundIff(cap: int, s: System, a: Action)
    requires a.Settle? && a.who < |s.requests| && s.requests[a.who].phase.Running? && a.final >= 0
    requires var k := s.requests[a.who].base.key;
             Spent(s.counters, k) == cap + Total(s.requests, PendingTopUps, k)
    ensures CapTight(cap, Act(s, a), s.requests[a.who].base.key) <==> FitsItsCounter(s, a)
  {
    SettleMovesBound(s, a, s.requests[a.who].base.key);
  }

  lemma OtherActsKeepBound(cap: int, s: System, a: Action, k: Key)
    requires !a.Settle? && CapTight(cap, s, k) && AllCovered(s.requests) && UnderCap(a, k, cap)
    ensures CapTight(cap, Act(s, a), k)
  {
    TopUpsAreNonNegative(s.requests, k);
    if a.Begin? {
      ReserveKeepsCap(a.cap, s.counters, a.key, a.estimate, k);
      TotalAppend(s.requests, Request(Hold(a.key, a.estimate), [], [a.estimate], Running), PendingTopUps, k);
    } else if a.who < |s.requests| {
      var s' := Act(s, a);
      var r' := s'.requests[a.who];
      assert s'.requests == s.requests[a.who := r'];
      TotalUpdate(s.requests, a.who, r', PendingTopUps, k);
      if a.Return? {
        ReturnMovesAlike(s, a, k);
      } else {
        ReserveKeepsCap(a.cap, s.counters, a.key, a.estimate - s.requests[a.who].base.amount, k);
      }
    }
  }

  lemma SettleKeepsBound(cap: int, s: System, a: Action, k: Key)
    requires a.Settle? && CapTight(cap, s, k) && AllCovered(s.requests) && FitsItsCounter(s, a)
    ensures CapTight(cap, Act(s, a), k)
  {
    if a.who < |s.requests| && s.requests[a.who].phase.Running? && a.final >= 0 {
      SettleMovesBound(s, a, k);
      HeldIsNonNegative(s.requests[a.who].extras, k);
    }
  }

  ghost predicate FittingRun(opening: Counters, acts: seq<Action>) {
    forall n :: 0 <= n < |acts| ==> FitsItsCounter(Run(System(opening, []), acts[..n]), acts[n])
  }

  /** If every settlement fits its counter, a counter exceeds its cap by no more than the
      top-ups still to be given back. */
  lemma {:induction false} FittingRunKeepsBound(cap: int, opening: Counters, acts: seq<Action>, k: Key)
    requires Spent(opening, k) <= cap && FittingRun(opening, acts) && AllUnderCap(acts, k, cap)
    ensures CapTight(cap, Run(System(opening, []), acts), k)
  {
    if acts != [] {
      var before, a := acts[..|acts| - 1], acts[|acts| - 1];
      assert forall n :: 0 <= n < |before| ==> before[..n] == acts[..n] && before[n] == acts[n];
      FittingRunKeepsBound(cap, opening, before, k);
      HoldsCoverCandidates(opening, before);
      assert acts[..|acts| - 1] == before && UnderCap(acts[|acts| - 1], k, cap);
      var s := Run(System(opening, []), before);
      if a.Settle? { SettleKeepsBound(cap, s, a, k); } else { OtherActsKeepBound(cap, s, a, k); }
    }
  }

  // ----- requests that straddle a period -----

  /** Requests begin on one counter and take their top-ups on another, or the same. */
  ghost predicate OnCounters(acts: seq<Action>, first: Key, second: Key) {
    forall n :: 0 <= n < |acts| ==> (acts[n].Begin? ==> acts[n].key == first) && (acts[n].Admit? ==> acts[n].key == second)
  }

  ghost predicate HoldsOn(rs: seq<Request>, first: Key, second: Key) {
    forall i :: 0 <= i < |rs| ==>
      rs[i].base.key == first && forall j :: 0 <= j < |rs[i].extras| ==> rs[i].extras[j].key == second
  }

  lemma {:induction false} RunHoldsOn(opening: Counters, acts: seq<Action>, first: Key, second: Key)
    requires OnCounters(acts, first, second)
    ensures HoldsOn(Run(System(opening, []), acts).requests, first, second)
  {
    if acts != [] {
      RunHoldsOn(opening, acts[..|acts| - 1], first, second);
      var a := acts[|acts| - 1];
      assert (a.Begin? ==> a.key == first) && (a.Admit? ==> a.key == second);
    }
  }

  lemma {:induction false} OffOfOneKey(holds: seq<Hold>, k: Key)
    requires forall i :: 0 <= i < |holds| ==> holds[i].key == k
    ensures Off(holds, k) == 0
  {
    if holds != [] { OffOfOneKey(holds[1..], k); }
  }

  /** Within one period, what is covered by all holds is covered on that counter. */
  lemma PricedFits(s: System, a: Action, k: Key)
    requires HoldsOn(s.requests, k, k) && AllCovered(s.requests) && WithinEstimate(s, a)
    ensures FitsItsCounter(s, a)
  {
    if a.Settle? && a.who < |s.requests| {
      assert Covered(s.requests[a.who]);
      OffOfOneKey(s.requests[a.who].extras, k);
    }
  }

  lemma PricedRunFits(opening: Counters, acts: seq<Action>, k: Key)
    requires PricedRun(opening, acts) && OnCounters(acts, k, k)
    ensures FittingRun(opening, acts)
  {
    forall n | 0 <= n < |acts| ensures FitsItsCounter(Run(System(opening, []), acts[..n]), acts[n]) {
      assert OnCounters(acts[..n], k, k);
      RunHoldsOn(opening, acts[..n], k, k);
      HoldsCoverCandidates(opening, acts[..n]);
      PricedFits(Run(System(opening, []), acts[..n]), acts[n], k);
    }
  }

  /** Every priced run, from any opening under the cap, keeps its first counter within the
      cap plus what is still to be given back. */
  ghost predicate PeriodsKeepCap(cap: int, first: Key, second: Key) {
    forall opening, acts ::
      && Spent(opening, first) <= cap && PricedRun(opening, acts)
      && AllUnderCap(acts, first, cap) && OnCounters(acts, first, second)
      ==> CapTight(cap, Run(System(opening, []), acts), first)
  }

  lemma RunOfFour(s: System, a: Action, b: Action, c: Action, d: Action)
    ensures var acts := [a, b, c, d];
            && Run(s, acts[..0]) == s && Run(s, acts[..1]) == Act(s, a) && Run(s, acts[..2]) == Act(Act(s, a), b)
            && Run(s, acts[..3]) == Act(Act(Act(s, a), b), c)
            && Run(s, acts) == Act(Act(Act(Act(s, a), b), c), d)
  {
    var acts := [a, b, c, d];
    assert acts[..3][..2] == acts[..2] && acts[..2][..1] == acts[..1] && acts[..1][..0] == [] == acts[..0];
  }

  function StraddlingActs(cap: int, january: Key, february: Key, extra: int): seq<Action> {
    [Begin(january, cap, cap), Admit(0, february, cap, cap + extra), Settle(0, cap + extra), Return(0)]
  }

  /** The system before the request settles. */
  function Straddling(cap: int, january: Key, february: Key, extra: int): System {
    System(map[january := cap, february := extra],
           [Request(Hold(january, cap), [Hold(february, extra)], [cap, cap + extra], Running)])
  }

  lemma StraddlingBegins(cap: int, january: Key, february: Key, extra: int)
    requires cap > 0 && january != february && 0 < extra <= cap
    ensures var acts := StraddlingActs(cap, january, february, extra);
            Act(Act(System(map[], []), acts[0]), acts[1]) == Straddling(cap, january, february, extra)
  {
    var acts := StraddlingActs(cap, january, february, extra);
    var s1 := Act(System(map[], []), acts[0]);
    assert s1 == System(map[january := cap], [Request(Hold(january, cap), [], [cap], Running)]);
    var s2 := Act(s1, acts[1]);
    assert |s2.requests| == 1 && s2.requests[0].extras == [Hold(february, extra)];
    assert s2.requests[0].estimates == [cap, cap + extra];
  }

  lemma StraddlingEnds(cap: int, january: Key, february: Key, extra: int)
    requires cap > 0 && january != february && 0 < extra <= cap
    ensures var s := Act(Act(Straddling(cap, january, february, extra), Settle(0, cap + extra)), Return(0));
            && |s.requests| == 1 && Done(s.requests[0])
            && Spent(s.counters, january) == cap + extra && !CapTight(cap, s, january)
            && Spent(s.counters, february) == 0
  {
    var s := Act(Act(Straddling(cap, january, february, extra), Settle(0, cap + extra)), Return(0));
    assert Unreturned(s.requests[0]) == [] && s.requests[1..] == [];
    assert Total(s.requests, PendingTopUps, january) == 0;
  }

  lemma StraddlingIsPriced(cap: int, january: Key, february: Key, extra: int)
    requires cap > 0 && january != february && 0 < extra <= cap
    ensures var acts := StraddlingActs(cap, january, february, extra);
            PricedRun(map[], acts) && AllUnderCap(acts, january, cap) && OnCounters(acts, january, february)
  {
    var acts := StraddlingActs(cap, january, february, extra);
    var s0 := System(map[], []);
    StraddlingBegins(cap, january, february, extra);
    assert acts[..2][..1] == acts[..1] && acts[..1][..0] == [];
    assert Run(s0, acts[..1]) == Act(s0, acts[0]);
    var s2 := Run(s0, acts[..2]);
    assert s2 == Straddling(cap, january, february, extra);
    assert WithinEstimate(s2, acts[2]) by { assert s2.requests[0].estimates[1] == cap + extra; }
    forall n | 0 <= n < |acts| ensures WithinEstimate(Run(s0, acts[..n]), acts[n]) {
      assert acts[n].Settle? ==> n == 2;
    }
  }

  /** A request that begins in one period and falls back in the next leaves the first
      counter above its cap for good, by the whole top-up, although every reservation
      fitted, every cost was within its estimate and everything has been given back. */
  lemma StraddlingRequestPassesTheCap(cap: int, january: Key, february: Key, extra: int)
    requires cap > 0 && january != february && 0 < extra <= cap
    ensures var acts := StraddlingActs(cap, january, february, extra);
            var s := Run(System(map[], []), acts);
            && PricedRun(map[], acts) && AllUnderCap(acts, january, cap) && OnCounters(acts, january, february)
            && |s.requests| == 1 && Done(s.requests[0])
            && Spent(s.counters, january) == cap + extra && !CapTight(cap, s, january)
            && Spent(s.counters, february) == 0
  {
    var acts := StraddlingActs(cap, january, february, extra);
    RunOfFour(System(map[], []), acts[0], acts[1], acts[2], acts[3]);
    StraddlingBegins(cap, january, february, extra);
    StraddlingEnds(cap, january, february, extra);
    StraddlingIsPriced(cap, january, february, extra);
  }

  /** For every cap, the bound holds over all priced runs if and only if the top-ups are
      taken on the counter the requests began on. */
  lemma CapHoldsIffSamePeriod(cap: int, first: Key, second: Key)
    requires cap > 0
    ensures PeriodsKeepCap(cap, first, second) <==> first == second
  {
    if first == second {
      forall opening, acts | Spent(opening, first) <= cap && PricedRun(opening, acts) && AllUnderCap(acts, first, cap)
                             && OnCounters(acts, first, second)
        ensures CapTight(cap, Run(System(opening, []), acts), first)
      {
        PricedRunFits(opening, acts, first);
        FittingRunKeepsBound(cap, opening, acts, first);
      }
    } else {
      StraddlingRequestPassesTheCap(cap, first, second, 1);
      var opening: Counters, acts := map[], StraddlingActs(cap, first, second, 1);
      assert Spent(opening, first) <= cap && PricedRun(opening, acts) && !CapTight(cap, Run(System(opening, []), acts), first);
    }
  }
}
