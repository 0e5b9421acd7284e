/** Concurrent spending under one hard budget (`run_cell` of the calibration and replay probes).

    Workers reserve before a call and settle after it, each under one lock; the calls themselves
    overlap.  `SharedBudget` is the state behind the lock and its two critical sections; the rest
    is the transition system of any number of workers interleaving them. */
module BudgetReservation {
  import opened Options
  import opened Reals
  import opened Sums

  // ---------------------------------------------------------------- behind the lock

  datatype Account = Account(spent: real, worst: real, stop: bool)

  /** What a call reserves: its prediction, or the most expensive call seen so far. */
  function Reservation(a: Account, predicted: real): real {
    Max(predicted, a.worst)
  }

  predicate Granted(a: Account, budget: real, predicted: real) {
    !a.stop && a.spent + Reservation(a, predicted) <= budget
  }

  function Reserved(a: Account, budget: real, predicted: real): Account {
    if Granted(a, budget, predicted) then a.(spent := a.spent + Reservation(a, predicted)) else a.(stop := true)
  }

  function Settled(a: Account, reserve: real, actual: real): Account {
    a.(spent := a.spent + (actual - reserve), worst := Max(a.worst, actual))
  }

  class SharedBudget {
    const budget: real
    var spent: real
    var worst: real
    var stop: bool

    constructor (budget: real)
      ensures this.budget == budget && Now() == Account(0.0, 0.0, false)
    {
      this.budget := budget;
      spent, worst, stop := 0.0, 0.0, false;
    }

    function Now(): Account
      reads this
    {
      Account(spent, worst, stop)
    }

    /** The critical section before a call; None ends the worker's cell. */
    method Reserve(predicted: real) returns (reserve: Option<real>)
      modifies this
      ensures Now() == Reserved(old(Now()), budget, predicted)
      ensures reserve.Some? <==> Granted(old(Now()), budget, predicted)
      ensures reserve.Some? ==> reserve.value == Reservation(old(Now()), predicted) && spent <= budget
    {
      var amount := Max(predicted, worst);
      if stop || spent + amount > budget {
        stop := true;
        return None;
      }
      spent := spent + amount;
      return Some(amount);
    }

    /** The critical section after a call. */
    method Settle(reserve: real, actual: real)
      modifies this
      ensures Now() == Settled(old(Now()), reserve, actual)
    {
      spent := spent + (actual - reserve);
      worst := Max(worst, actual);
    }
  }

  // ---------------------------------------------------------------- the workers

  type Cell = nat
  type Vendor = string

  datatype State = State(
    account: Account,
    budget: real,
    vendors: set<Vendor>,
    perVendor: nat,
    running: map<Cell, Vendor>,  // cells past their vendor's gate
    open: map<Cell, real>,       // calls in flight and what they reserved
    billed: real,                // what settled calls actually cost
    lost: real,                  // reservations of calls that raised and never settled
    inFlight: set<Cell>,         // the calls in flight right after the last reservation
    excess: map<Cell, real>,     // actual minus reserved, of the calls settled since
    honest: bool)                // no call so far cost more than it reserved

  datatype Event =
    | Enter(cell: Cell, vendor: Vendor)
    | TryReserve(cell: Cell, predicted: real)
    | Settle(cell: Cell, actual: real)
    | Raise(cell: Cell)
    | Leave(cell: Cell)

  function AtVendor(running: map<Cell, Vendor>, vendor: Vendor): set<Cell> {
    set c | c in running && running[c] == vendor
  }

  predicate Enabled(s: State, e: Event) {
    match e
    case Enter(c, v) => c !in s.running && v in s.vendors && |AtVendor(s.running, v)| < s.perVendor
    case TryReserve(c, _) => c in s.running && c !in s.open
    case Settle(c, _) => c in s.open
    case Raise(c) => c in s.open
    case Leave(c) => c in s.running && c !in s.open
  }

  function Step(s: State, e: Event): State
    requires Enabled(s, e)
  {
    match e
    case Enter(c, v) => s.(running := s.running[c := v])
    case TryReserve(c, predicted) =>
      var after := s.(account := Reserved(s.account, s.budget, predicted));
      if !Granted(s.account, s.budget, predicted) then after else
      var open := s.open[c := Reservation(s.account, predicted)];
      after.(open := open, inFlight := open.Keys, excess := map[])
    case Settle(c, actual) =>
      s.(account := Settled(s.account, s.open[c], actual),
         open := s.open - {c},
         billed := s.billed + actual,
         excess := s.excess[c := actual - s.open[c]],
         honest := s.honest && actual <= s.open[c])
    case Raise(c) =>
      s.(open := s.open - {c}, lost := s.lost + s.open[c], running := s.running - {c})
    case Leave(c) => s.(running := s.running - {c})
  }

  ghost predicate Init(s: State) {
    && s.account == Account(0.0, 0.0, false)
    && s.running == map[] && s.open == map[] && s.excess == map[] && s.inFlight == {}
    && s.billed == 0.0 && s.lost == 0.0 && s.honest
  }

  ghost predicate Run(s: State, events: seq<Event>, t: State)
    decreases |events|
  {
    if events == [] then s == t else
    Enabled(s, events[0]) && Run(Step(s, events[0]), events[1..], t)
  }

  // ---------------------------------------------------------------- the invariant

  /** Every dollar in `spent` is a settled cost, a call in flight, or a call that raised. */
  ghost predicate Accounted(s: State) {
    s.account.spent == s.billed + MapSum(s.open) + s.lost
  }

  /** Since the last reservation, `spent` has only moved by what settled calls cost beyond their reservation. */
  ghost predicate Bounded(s: State) {
    && s.account.spent <= Max(s.budget, 0.0) + MapSum(s.excess)
    && s.excess.Keys <= s.inFlight && s.open.Keys <= s.inFlight && s.excess.Keys !! s.open.Keys
    && (s.honest ==> forall c :: c in s.excess ==> s.excess[c] <= 0.0)
  }

  /** The gates' capacity: so many calls per vendor. */
  function Slots(perVendor: nat, vendors: nat): nat {
    perVendor * vendors
  }

  lemma SlotsStep(perVendor: nat, vendors: nat)
    ensures Slots(perVendor, 0) == 0
    ensures vendors > 0 ==> Slots(perVendor, vendors) == Slots(perVendor, vendors - 1) + perVendor
  {
  }

  /** So many calls at a given cost. */
  function Worth(calls: nat, cost: real): real {
    calls as real * cost
  }

  lemma WorthStep(calls: nat, cost: real)
    ensures Worth(0, cost) == 0.0 && Worth(1, cost) == cost && Worth(calls + 1, cost) == Worth(calls, cost) + cost
  {
  }

  /** No call in flight outside its vendor's gate, and no gate over its limit. */
  ghost predicate Gated(s: State) {
    && (forall c :: c in s.open ==> c in s.running)
    && (forall c :: c in s.running ==> s.running[c] in s.vendors)
    && (forall v :: v in s.vendors ==> |AtVendor(s.running, v)| <= s.perVendor)
    && |s.inFlight| <= Slots(s.perVendor, |s.vendors|)
  }

  /** The reservation floor covers every settled call. */
  ghost predicate Floored(s: State) {
    && s.account.worst >= 0.0
    && (forall c :: c in s.open ==> s.open[c] >= 0.0)
    && (forall c :: c in s.excess ==> s.excess[c] <= s.account.worst)
  }

  ghost predicate Inv(s: State) {
    Accounted(s) && Bounded(s) && Gated(s) && Floored(s)
  }

  lemma StepAccounted(s: State, e: Event)
    requires Accounted(s) && Enabled(s, e)
    ensures Accounted(Step(s, e))
  {
    match e
    case Enter(_, _) =>
    case TryReserve(c, predicted) => MapSumPut(s.open, c, Reservation(s.account, predicted));
    case Settle(c, _) => MapSumTake(s.open, c);
    case Raise(c) => MapSumTake(s.open, c);
    case Leave(_) =>
  }

  lemma StepBounded(s: State, e: Event)
    requires Bounded(s) && Enabled(s, e)
    ensures Bounded(Step(s, e))
  {
    match e
    case Enter(_, _) =>
    case TryReserve(_, _) =>
    case Settle(c, actual) => MapSumPut(s.excess, c, actual - s.open[c]);
    case Raise(_) =>
    case Leave(_) =>
  }

  lemma StepFloored(s: State, e: Event)
    requires Floored(s) && Enabled(s, e)
    ensures Floored(Step(s, e))
  {
  }

  lemma WithoutVendor(running: map<Cell, Vendor>, v: Vendor)
    ensures var rest := running - AtVendor(running, v);
      && |running.Keys| == |rest.Keys| + |AtVendor(running, v)|
      && (forall c :: c in rest ==> running[c] == rest[c] && running[c] != v)
      && (forall w :: w != v ==> AtVendor(rest, w) == AtVendor(running, w))
  {
  }

  lemma NoVendors(running: map<Cell, Vendor>)
    requires forall c :: c in running ==> running[c] in {}
    ensures |running.Keys| == 0
  {
  }

  lemma OneVendorLess(vendors: set<Vendor>, v: Vendor)
    requires v in vendors
    ensures |vendors| == |vendors - {v}| + 1
  {
  }

  /** Cells behind gates of at most n each: at most n per vendor in all. */
  lemma {:induction false} GatesBound(running: map<Cell, Vendor>, vendors: set<Vendor>, n: nat)
    requires forall c :: c in running ==> running[c] in vendors
    requires forall v :: v in vendors ==> |AtVendor(running, v)| <= n
    ensures |running.Keys| <= Slots(n, |vendors|)
    decreases |vendors|
  {
    hide Slots, AtVendor;
    SlotsStep(n, |vendors|);
    if vendors == {} {
      NoVendors(running);
    } else {
      var v :| v in vendors;
      var rest := running - AtVendor(running, v);
      var fewer := vendors - {v};
      WithoutVendor(running, v);
      OneVendorLess(vendors, v);
      assert forall c :: c in rest ==> rest[c] in fewer;
      assert forall w :: w in fewer ==> |AtVendor(rest, w)| <= n;
      GatesBound(rest, fewer, n);
      assert |AtVendor(running, v)| <= n;
    }
  }

  lemma SubsetSize<T>(a: set<T>, b: set<T>)
    requires a <= b
    ensures |a| <= |b|
  {
    assert b == a + (b - a);
  }

  lemma EnterAtVendor(running: map<Cell, Vendor>, c: Cell, w: Vendor, v: Vendor)
    requires c !in running
    ensures |AtVendor(running[c := w], v)| == |AtVendor(running, v)| + if v == w then 1 else 0
  {
    assert AtVendor(running[c := w], v) == if v == w then AtVendor(running, v) + {c} else AtVendor(running, v);
  }

  lemma LeaveAtVendor(running: map<Cell, Vendor>, c: Cell, v: Vendor)
    ensures |AtVendor(running - {c}, v)| <= |AtVendor(running, v)|
  {
    SubsetSize(AtVendor(running - {c}, v), AtVendor(running, v));
  }

  lemma StepAtVendor(s: State, e: Event, v: Vendor)
    requires |AtVendor(s.running, v)| <= s.perVendor && Enabled(s, e)
    ensures |AtVendor(Step(s, e).running, v)| <= s.perVendor
  {
    hide AtVendor;
    match e
    case Enter(c, w) => EnterAtVendor(s.running, c, w, v);
    case Raise(c) => LeaveAtVendor(s.running, c, v);
    case Leave(c) => LeaveAtVendor(s.running, c, v);
    case _ =>
  }

  lemma StepGated(s: State, e: Event)
    requires Gated(s) && Enabled(s, e)
    ensures Gated(Step(s, e))
  {
    hide Slots, AtVendor;
    var t := Step(s, e);
    forall v | v in s.vendors
      ensures |AtVendor(t.running, v)| <= s.perVendor
    {
      StepAtVendor(s, e, v);
    }
    if e.TryReserve? && Granted(s.account, s.budget, e.predicted) {
      GatesBound(t.running, t.vendors, t.perVendor);
      SubsetSize(t.open.Keys, t.running.Keys);
    }
  }
}
