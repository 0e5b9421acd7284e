/** What reserving and settling under one lock guarantees over every interleaving of the workers. */
module BudgetGuarantees {
  import opened BudgetReservation
  import opened Sums

  lemma InitInv(s: State)
    requires Init(s)
    ensures Inv(s)
  {
  }

  lemma {:induction false} RunInv(s: State, events: seq<Event>, t: State)
    requires Inv(s) && Run(s, events, t)
    ensures Inv(t) && t.budget == s.budget && t.vendors == s.vendors && t.perVendor == s.perVendor
    decreases |events|
  {
    hide Accounted, Bounded, Gated, Floored;
    if events != [] {
      StepAccounted(s, events[0]);
      StepBounded(s, events[0]);
      StepGated(s, events[0]);
      StepFloored(s, events[0]);
      RunInv(Step(s, events[0]), events[1..], t);
    }
  }

  // ---------------------------------------------------------------- what it means for the money

  lemma OneKeyLess<K>(m: map<K, real>, k: K)
    requires k in m
    ensures |m.Keys| == |(m - {k}).Keys| + 1
  {
  }

  lemma {:induction false} SumBelow<K>(m: map<K, real>, most: real)
    requires forall k :: k in m ==> m[k] <= most
    ensures MapSum(m) <= Worth(|m.Keys|, most)
    decreases |m|
  {
    hide Worth;
    if m == map[] {
      WorthStep(0, most);
    } else {
      hide MapSum;
      var k :| k in m;
      var rest := m - {k};
      MapSumTake(m, k);
      SumBelow(rest, most);
      OneKeyLess(m, k);
      WorthStep(|rest.Keys|, most);
    }
  }

  lemma {:induction false} WorthGrows(a: nat, b: nat, cost: real)
    requires a <= b && cost >= 0.0
    ensures Worth(a, cost) <= Worth(b, cost)
  {
  }

  /** Under every interleaving: what was spent is accounted for, and passes the budget by at most what the
      calls in flight at the last reservation cost beyond their reservations. */
  lemma OverrunIsExcess(s: State, events: seq<Event>, t: State)
    requires Init(s) && s.budget >= 0.0 && Run(s, events, t)
    ensures t.account.spent == t.billed + MapSum(t.open) + t.lost
    ensures t.account.spent - t.budget <= MapSum(t.excess)
    ensures t.excess.Keys <= t.inFlight && |t.inFlight| <= Slots(t.perVendor, |t.vendors|)
  {
    InitInv(s);
    RunInv(s, events, t);
  }

  /** When no call costs more than it reserved, the budget holds, whatever the interleaving. */
  lemma HonestRunsStayInBudget(s: State, events: seq<Event>, t: State)
    requires Init(s) && s.budget >= 0.0 && Run(s, events, t) && t.honest
    ensures t.account.spent <= t.budget
  {
    hide MapSum;
    InitInv(s);
    RunInv(s, events, t);
    SumBelow(t.excess, 0.0);
    assert Worth(|t.excess.Keys|, 0.0) == 0.0;
  }

  /** In any case the overrun is at most one worst call per gate slot. */
  lemma OverrunPerSlot(s: State, events: seq<Event>, t: State)
    requires Init(s) && s.budget >= 0.0 && Run(s, events, t)
    ensures t.account.spent - t.budget <= Worth(Slots(t.perVendor, |t.vendors|), t.account.worst)
  {
    hide MapSum, Worth, Slots;
    InitInv(s);
    RunInv(s, events, t);
    SumBelow(t.excess, t.account.worst);
    SubsetSize(t.excess.Keys, t.inFlight);
    WorthGrows(|t.excess.Keys|, Slots(t.perVendor, |t.vendors|), t.account.worst);
  }

  /** With a single call in flight the residual is indeed one call at the worst observed cost. */
  lemma OneCallResidual(s: State, events: seq<Event>, t: State)
    requires Init(s) && s.budget >= 0.0 && Run(s, events, t) && |t.inFlight| <= 1
    ensures t.account.spent - t.budget <= t.account.worst
  {
    hide MapSum, Worth, Slots;
    InitInv(s);
    RunInv(s, events, t);
    SumBelow(t.excess, t.account.worst);
    SubsetSize(t.excess.Keys, t.inFlight);
    WorthGrows(|t.excess.Keys|, 1, t.account.worst);
    WorthStep(0, t.account.worst);
  }

  /** Once stopped, no later call is ever admitted. */
  lemma {:induction false} NoReservationAfterStop(s: State, events: seq<Event>, t: State)
    requires s.account.stop && Run(s, events, t)
    ensures t.account.stop && t.open.Keys <= s.open.Keys && t.inFlight == s.inFlight
    decreases |events|
  {
    if events != [] {
      NoReservationAfterStop(Step(s, events[0]), events[1..], t);
    }
  }

  /** An admitted call reserves at least the worst cost seen, and its reservation fits the budget with
      everything already settled and in flight. */
  lemma AdmittedFits(s: State, c: Cell, predicted: real)
    requires Accounted(s) && Enabled(s, TryReserve(c, predicted)) && c in Step(s, TryReserve(c, predicted)).open
    ensures var t := Step(s, TryReserve(c, predicted));
      t.open[c] >= s.account.worst && t.open[c] >= predicted && t.billed + MapSum(t.open) + t.lost <= t.budget
  {
    StepAccounted(s, TryReserve(c, predicted));
  }

  /** Which calls are admitted, what they reserve, and what a refusal does. */
  lemma AdmittedIff(s: State, c: Cell, predicted: real)
    requires Enabled(s, TryReserve(c, predicted))
    ensures var t, a := Step(s, TryReserve(c, predicted)), s.account;
      var reserve := if predicted >= a.worst then predicted else a.worst;
      && (c in t.open <==> !a.stop && a.spent + reserve <= s.budget)
      && (if c in t.open then t.open[c] == reserve && t.account == Account(a.spent + reserve, a.worst, a.stop)
          else t.account == Account(a.spent, a.worst, true) && t.open == s.open)
  {
  }

  /** A run is honest as long as every settled call cost at most what it had reserved. */
  lemma HonestIff(s: State, e: Event)
    requires Enabled(s, e)
    ensures Step(s, e).honest <==> s.honest && (e.Settle? ==> e.actual <= s.open[e.cell])
  {
  }

  // ---------------------------------------------------------------- the worst observed cost

  predicate Cost(events: seq<Event>, cost: real) {
    exists e :: e in events && e.Settle? && e.actual == cost
  }

  lemma WorstStep(s: State, e: Event)
    requires Enabled(s, e)
    ensures s.account.worst <= Step(s, e).account.worst && (e.Settle? ==> e.actual <= Step(s, e).account.worst)
    ensures Step(s, e).account.worst == s.account.worst || (e.Settle? && e.actual == Step(s, e).account.worst)
  {
  }

  lemma {:induction false} WorstRun(s: State, events: seq<Event>, t: State)
    requires Run(s, events, t)
    ensures s.account.worst <= t.account.worst
    ensures forall e :: e in events && e.Settle? ==> e.actual <= t.account.worst
    ensures t.account.worst == s.account.worst || Cost(events, t.account.worst)
    decreases |events|
  {
    hide Step, Enabled;
    if events != [] {
      WorstStep(s, events[0]);
      WorstRun(Step(s, events[0]), events[1..], t);
      assert forall e :: e in events <==> e == events[0] || e in events[1..];
      assert events[0] in events;
    }
  }

  /** The worst cost is the largest actual cost of the calls settled so far: no settled call cost more, and one cost that
      (or it is still zero). */
  lemma WorstIsObserved(s: State, events: seq<Event>, t: State)
    requires Init(s) && Run(s, events, t)
    ensures forall e :: e in events && e.Settle? ==> e.actual <= t.account.worst
    ensures t.account.worst == 0.0 || exists e :: e in events && e.Settle? && e.actual == t.account.worst
    ensures t.account.worst >= 0.0
  {
    WorstRun(s, events, t);
  }

  // ---------------------------------------------------------------- two calls in flight

  lemma {:induction false} RunThen(s: State, events: seq<Event>, t: State, e: Event)
    requires Run(s, events, t) && Enabled(t, e)
    ensures Run(s, events + [e], Step(t, e))
    decreases |events|
  {
    if events == [] {
      assert [e][1..] == [];
      assert Run(Step(s, e), [], Step(s, e));
    } else {
      assert (events + [e])[1..] == events[1..] + [e];
      RunThen(Step(s, events[0]), events[1..], t, e);
    }
  }

  lemma Then(s: State, events: seq<Event>, t: State, e: Event) returns (events': seq<Event>, t': State)
    requires Run(s, events, t) && Enabled(t, e)
    ensures Run(s, events', t') && t' == Step(t, e)
  {
    RunThen(s, events, t, e);
    events', t' := events + [e], Step(t, e);
  }

  /** More than one slot: two calls at one vendor, or at two. */
  lemma TwoSlots(vendors: set<Vendor>, perVendor: nat) returns (v: Vendor, w: Vendor)
    requires Slots(perVendor, |vendors|) >= 2
    ensures v in vendors && w in vendors && perVendor >= if v == w then 2 else 1
  {
    assert perVendor >= 1 && |vendors| >= 1;
    v :| v in vendors;
    w := v;
    if perVendor < 2 {
      OneVendorLess(vendors, v);
      w :| w in vendors - {v};
    }
  }

  function Fresh(budget: real, vendors: set<Vendor>, perVendor: nat): State {
    State(Account(0.0, 0.0, false), budget, vendors, perVendor, map[], map[], 0.0, 0.0, {}, map[], true)
  }

  lemma TwoCellsIn(s: State, v: Vendor, w: Vendor) returns (events: seq<Event>, t: State)
    requires s == Fresh(s.budget, s.vendors, s.perVendor)
    requires v in s.vendors && w in s.vendors && s.perVendor >= if v == w then 2 else 1
    ensures Run(s, events, t) && t == s.(running := map[0 := v, 1 := w])
  {
    assert Run(s, [], s);
    hide Run;
    assert AtVendor(s.running, v) == {};
    events, t := Then(s, [], s, Enter(0, v));
    assert AtVendor(map[0 := v], w) == if v == w then {0} else {};
    assert t.running == map[0 := v];
    hide AtVendor;
    events, t := Then(s, events, t, Enter(1, w));
  }

  /** Two calls in flight that share the budget. */
  lemma TwoCallsOpen(s: State, v: Vendor, w: Vendor) returns (events: seq<Event>, t: State)
    requires s == Fresh(s.budget, s.vendors, s.perVendor) && s.budget >= 0.0
    requires v in s.vendors && w in s.vendors && s.perVendor >= if v == w then 2 else 1
    ensures Run(s, events, t)
    ensures t == s.(account := Account(s.budget, 0.0, false), running := map[0 := v, 1 := w],
                    open := map[0 := s.budget / 2.0, 1 := s.budget / 2.0], inFlight := {0, 1})
  {
    hide Run, AtVendor;
    events, t := TwoCellsIn(s, v, w);
    events, t := Then(s, events, t, TryReserve(0, s.budget / 2.0));
    events, t := Then(s, events, t, TryReserve(1, s.budget / 2.0));
    assert t.inFlight == {0, 1};
  }

  /** With room for two calls, both can come to cost a dollar more than the budget. */
  lemma ResidualBeyondOneCall(budget: real, vendors: set<Vendor>, perVendor: nat) returns (events: seq<Event>, t: State)
    requires budget >= 0.0 && Slots(perVendor, |vendors|) >= 2
    ensures Run(Fresh(budget, vendors, perVendor), events, t) && t.account.spent - budget > t.account.worst
  {
    var s := Fresh(budget, vendors, perVendor);
    var v, w := TwoSlots(vendors, perVendor);
    events, t := TwoCallsOpen(s, v, w);
    hide Run;
    events, t := Then(s, events, t, Settle(0, budget + 1.0));
    assert t.open == map[1 := budget / 2.0];
    events, t := Then(s, events, t, Settle(1, budget + 1.0));
  }

  /** Every run with these settings passes its budget by at most the most expensive call. */
  ghost predicate OneCallAtMost(budget: real, vendors: set<Vendor>, perVendor: nat) {
    forall s, events, t ::
      Init(s) && s.budget == budget && s.vendors == vendors && s.perVendor == perVendor && Run(s, events, t) ==>
      t.account.spent - budget <= t.account.worst
  }

  /** "The residual is one call at the worst observed cost" holds of every run exactly when the gates admit one call at a
      time. */
  lemma ResidualIsOneCallIff(budget: real, vendors: set<Vendor>, perVendor: nat)
    requires budget >= 0.0
    ensures OneCallAtMost(budget, vendors, perVendor) <==> Slots(perVendor, |vendors|) <= 1
  {
    if Slots(perVendor, |vendors|) <= 1 {
      hide Run, Init, Slots;
      forall s, events, t |
        Init(s) && s.budget == budget && s.vendors == vendors && s.perVendor == perVendor && Run(s, events, t)
        ensures t.account.spent - budget <= t.account.worst
      {
        OverrunIsExcess(s, events, t);
        RunSettings(s, events, t);
        OneCallResidual(s, events, t);
      }
    } else {
      var events, t := ResidualBeyondOneCall(budget, vendors, perVendor);
      var s := Fresh(budget, vendors, perVendor);
      hide Run;
      assert Init(s) && Run(s, events, t);
    }
  }

  lemma RunSettings(s: State, events: seq<Event>, t: State)
    requires Init(s) && Run(s, events, t)
    ensures t.budget == s.budget && t.vendors == s.vendors && t.perVendor == s.perVendor
  {
    InitInv(s);
    RunInv(s, events, t);
  }
}
