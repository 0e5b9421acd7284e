/** The cost and quality ranking of the advisor (`evidence`, `ranked`): calls grouped into arms, each model's billed
    dollars apportioned over its arms, floored at the plan rate, sorted, and the best arm picked.  Over the reals. */
module Ranking {
  import opened Options
  import opened Ordering

  /** One call of the corpus; an absent or empty effort is the same thing, as is an absent or empty label. */
  datatype Call = Call(provider: string, model: string, cost: Option<real>, outTok: Option<int>, quality: string,
                       confidence: Option<real>, effort: string)

  const UNSTATED_CONFIDENCE := 0.7
  const NO_VALUE := 1000000000000000000.0

  function IdOf(provider: string, model: string): string {
    provider + ":" + model
  }

  /** What identifies an arm: the model, and its effort when efforts are told apart. */
  datatype Key = Key(id: string, effort: string)

  function KeyOf(c: Call, byEffort: bool): Key {
    Key(IdOf(c.provider, c.model), if byEffort then c.effort else "")
  }

  // ---------------------------------------------------------------- what is summed over calls

  /** `outTok` is unknown as soon as one call's is. */
  datatype Totals = Totals(jobs: nat, cost: real, outTok: Option<int>, labeled: real, good: real)

  const ZERO := Totals(0, 0.0, Some(0), 0.0, 0.0)

  function AddTok(a: Option<int>, b: Option<int>): Option<int> {
    if a.Some? && b.Some? then Some(a.value + b.value) else None
  }

  function Add(a: Totals, b: Totals): Totals {
    Totals(a.jobs + b.jobs, a.cost + b.cost, AddTok(a.outTok, b.outTok), a.labeled + b.labeled, a.good + b.good)
  }

  function Weight(c: Call): real {
    if c.quality == "" then 0.0 else if c.confidence.Some? then c.confidence.value else UNSTATED_CONFIDENCE
  }

  function One(c: Call): Totals {
    Totals(1, if c.cost.Some? then c.cost.value else 0.0, c.outTok, Weight(c), if c.quality == "good" then Weight(c) else 0.0)
  }

  /** The calls of one arm, summed. */
  function Summary(calls: seq<Call>, byEffort: bool, key: Key): Totals {
    if calls == [] then ZERO else
    var last := calls[|calls| - 1];
    var before := Summary(calls[..|calls| - 1], byEffort, key);
    if KeyOf(last, byEffort) == key then Add(before, One(last)) else before
  }

  datatype Arm = Arm(provider: string, model: string, effort: string, totals: Totals)

  function ArmId(a: Arm): string {
    IdOf(a.provider, a.model)
  }

  function ArmKey(a: Arm): Key {
    Key(ArmId(a), a.effort)
  }

  function Keys(arms: seq<Arm>): seq<Key> {
    seq(|arms|, i requires 0 <= i < |arms| => ArmKey(arms[i]))
  }

  /** One arm for each key among the calls, holding their totals. */
  ghost predicate IsEvidence(calls: seq<Call>, byEffort: bool, arms: seq<Arm>) {
    && Distinct(Keys(arms))
    && (forall k :: k in Keys(arms) <==> exists c :: c in calls && KeyOf(c, byEffort) == k)
    && (forall i :: 0 <= i < |arms| ==> arms[i].totals == Summary(calls, byEffort, ArmKey(arms[i])))
  }

  /** `evidence`: the arms in the order their first calls appear. */
  method Evidence(calls: seq<Call>, byEffort: bool) returns (arms: seq<Arm>)
    ensures IsEvidence(calls, byEffort, arms)
  {
    hide IsEvidence;
    arms := [];
    NoEvidence(byEffort);
    assert calls[..0] == [];
    for n := 0 to |calls|
      invariant IsEvidence(calls[..n], byEffort, arms)
    {
      var c := calls[n];
      var i := FindArm(arms, KeyOf(c, byEffort));
      assert calls[..n + 1] == calls[..n] + [c];
      if i < |arms| {
        EvidenceGrows(calls[..n], c, byEffort, arms, i);
        arms := arms[i := arms[i].(totals := Add(arms[i].totals, One(c)))];
      } else {
        EvidenceExtends(calls[..n], c, byEffort, arms);
        arms := arms + [Arm(c.provider, c.model, KeyOf(c, byEffort).effort, One(c))];
      }
    }
    assert calls[..|calls|] == calls;
  }

  method FindArm(arms: seq<Arm>, key: Key) returns (i: nat)
    ensures i <= |arms| && (i < |arms| ==> ArmKey(arms[i]) == key)
    ensures i == |arms| ==> key !in Keys(arms)
  {
    i := 0;
    while i < |arms|
      invariant i <= |arms| && forall j :: 0 <= j < i ==> Keys(arms)[j] != key
    {
      if ArmKey(arms[i]) == key {
        return;
      }
      i := i + 1;
    }
  }

  lemma NoEvidence(byEffort: bool)
    ensures IsEvidence([], byEffort, [])
  {
  }

  lemma SummaryAppend(calls: seq<Call>, c: Call, byEffort: bool, key: Key)
    ensures Summary(calls + [c], byEffort, key) ==
      if KeyOf(c, byEffort) == key then Add(Summary(calls, byEffort, key), One(c)) else Summary(calls, byEffort, key)
  {
  }

  /** What one more call adds to its arm: a job, its cost, its tokens while all are known; and its label by its confidence, a
      stated zero included, or 0.7 if none is stated. */
  lemma CallAdds(calls: seq<Call>, c: Call, byEffort: bool, key: Key)
    ensures var before, after := Summary(calls, byEffort, key), Summary(calls + [c], byEffort, key);
      var weight := if c.quality == "" then 0.0 else if c.confidence.Some? then c.confidence.value else 0.7;
      if KeyOf(c, byEffort) != key then after == before else
        && after.jobs == before.jobs + 1
        && after.cost == before.cost + (if c.cost.Some? then c.cost.value else 0.0)
        && (after.outTok.Some? <==> before.outTok.Some? && c.outTok.Some?)
        && (after.outTok.Some? ==> after.outTok.value == before.outTok.value + c.outTok.value)
        && after.labeled == before.labeled + weight
        && after.good == before.good + (if c.quality == "good" then weight else 0.0)
    ensures Summary([], byEffort, key) == Totals(0, 0.0, Some(0), 0.0, 0.0)
  {
    SummaryAppend(calls, c, byEffort, key);
  }

  /** Two calls belong to one arm exactly when vendor and model are the same, and by effort the effort too. */
  lemma SameArmIff(c: Call, d: Call, byEffort: bool)
    requires ':' !in c.provider && ':' !in d.provider
    ensures KeyOf(c, byEffort) == KeyOf(d, byEffort) <==>
      c.provider == d.provider && c.model == d.model && (byEffort ==> c.effort == d.effort)
  {
    if IdOf(c.provider, c.model) == IdOf(d.provider, d.model) {
      IdTells(c.provider, c.model, d.provider, d.model);
    }
  }

  lemma IdTells(p: string, m: string, q: string, n: string)
    requires ':' !in p && ':' !in q && IdOf(p, m) == IdOf(q, n)
    ensures p == q && m == n
  {
    FirstColon(p, m);
    FirstColon(q, n);
    var id := IdOf(p, m);
    assert |p| == |q|;
    assert id[..|p|] == p && id[..|q|] == q && id[|p| + 1..] == m && id[|q| + 1..] == n;
  }

  lemma FirstColon(p: string, m: string)
    requires ':' !in p
    ensures |p| < |IdOf(p, m)| && IdOf(p, m)[|p|] == ':' && forall i :: 0 <= i < |p| ==> IdOf(p, m)[i] != ':'
  {
    forall i | 0 <= i < |p|
      ensures IdOf(p, m)[i] != ':'
    {
      assert IdOf(p, m)[i] == p[i] && p[i] in p;
    }
  }

  lemma {:induction false} SummaryNone(calls: seq<Call>, byEffort: bool, key: Key)
    requires forall c :: c in calls ==> KeyOf(c, byEffort) != key
    ensures Summary(calls, byEffort, key) == ZERO
  {
    if calls != [] {
      SummaryNone(calls[..|calls| - 1], byEffort, key);
    }
  }

  lemma EvidenceGrows(calls: seq<Call>, c: Call, byEffort: bool, arms: seq<Arm>, i: nat)
    requires IsEvidence(calls, byEffort, arms) && i < |arms| && ArmKey(arms[i]) == KeyOf(c, byEffort)
    ensures IsEvidence(calls + [c], byEffort, arms[i := arms[i].(totals := Add(arms[i].totals, One(c)))])
  {
    var more := arms[i := arms[i].(totals := Add(arms[i].totals, One(c)))];
    assert Keys(more) == Keys(arms);
    assert Keys(arms)[i] in Keys(arms);
    forall k
      ensures k in Keys(more) <==> exists c1 :: c1 in calls + [c] && KeyOf(c1, byEffort) == k
    {
      KeyAppend(calls, c, byEffort, k);
    }
    forall j | 0 <= j < |more|
      ensures more[j].totals == Summary(calls + [c], byEffort, ArmKey(more[j]))
    {
      SummaryAppend(calls, c, byEffort, ArmKey(more[j]));
      assert j != i ==> Keys(arms)[j] != Keys(arms)[i];
    }
  }

  lemma KeyAppend(calls: seq<Call>, c: Call, byEffort: bool, k: Key)
    ensures (exists c1 :: c1 in calls + [c] && KeyOf(c1, byEffort) == k)
      <==> (exists c1 :: c1 in calls && KeyOf(c1, byEffort) == k) || KeyOf(c, byEffort) == k
  {
  }

  lemma EvidenceExtends(calls: seq<Call>, c: Call, byEffort: bool, arms: seq<Arm>)
    requires IsEvidence(calls, byEffort, arms) && KeyOf(c, byEffort) !in Keys(arms)
    ensures IsEvidence(calls + [c], byEffort, arms + [Arm(c.provider, c.model, KeyOf(c, byEffort).effort, One(c))])
  {
    var key := KeyOf(c, byEffort);
    var more := arms + [Arm(c.provider, c.model, key.effort, One(c))];
    assert Keys(more) == Keys(arms) + [key];
    AppendDistinct(Keys(arms), key);
    forall k
      ensures k in Keys(more) <==> exists c1 :: c1 in calls + [c] && KeyOf(c1, byEffort) == k
    {
      KeyAppend(calls, c, byEffort, k);
    }
    SummaryNone(calls, byEffort, key);
    assert Add(ZERO, One(c)) == One(c);
    forall j | 0 <= j < |more|
      ensures more[j].totals == Summary(calls + [c], byEffort, ArmKey(more[j]))
    {
      SummaryAppend(calls, c, byEffort, ArmKey(more[j]));
      if j < |arms| {
        assert Keys(arms)[j] in Keys(arms);
      }
    }
  }

  // ---------------------------------------------------------------- merging a model's efforts

  /** The arms of a model, in order. */
  function Of(arms: seq<Arm>, id: string): seq<Arm> {
    if arms == [] then [] else
    Of(arms[..|arms| - 1], id) + (if ArmId(arms[|arms| - 1]) == id then [arms[|arms| - 1]] else [])
  }

  function Merged(arms: seq<Arm>): Totals {
    if arms == [] then ZERO else Add(Merged(arms[..|arms| - 1]), arms[|arms| - 1].totals)
  }

  /** The sum, over the keys of a model, of what the calls come to under each. */
  function MergedKeys(calls: seq<Call>, keys: seq<Key>): Totals {
    if keys == [] then ZERO else
    Add(MergedKeys(calls, keys[..|keys| - 1]), Summary(calls, true, keys[|keys| - 1]))
  }

  lemma AddLaws(a: Totals, b: Totals, c: Totals)
    ensures Add(Add(a, b), c) == Add(Add(a, c), b) == Add(a, Add(b, c))
    ensures Add(a, ZERO) == a && Add(ZERO, a) == a
  {
  }

  lemma {:induction false} MergedAppend(calls: seq<Call>, c: Call, keys: seq<Key>)
    requires Distinct(keys)
    ensures MergedKeys(calls + [c], keys) ==
      if KeyOf(c, true) in keys then Add(MergedKeys(calls, keys), One(c)) else MergedKeys(calls, keys)
  {
    hide Add, One, Summary, KeyOf;
    if keys != [] {
      var most, last := keys[..|keys| - 1], keys[|keys| - 1];
      assert keys == most + [last] && last !in most;
      MergedAppend(calls, c, most);
      SummaryAppend(calls, c, true, last);
      AddLaws(MergedKeys(calls, most), Summary(calls, true, last), One(c));
    }
  }

  lemma {:induction false} MergedNothing(keys: seq<Key>)
    ensures MergedKeys([], keys) == ZERO
  {
    if keys != [] {
      MergedNothing(keys[..|keys| - 1]);
      assert Summary([], true, keys[|keys| - 1]) == ZERO;
      AddLaws(ZERO, ZERO, ZERO);
      hide Add, Summary;
    }
  }

  /** Merging the efforts of a model gives what not telling them apart gives: jobs, labels, cost, and output tokens with
      their poisoning. */
  lemma {:induction false} MergingIsNotSplitting(calls: seq<Call>, keys: seq<Key>, id: string)
    requires Distinct(keys) && forall k :: k in keys ==> k.id == id
    requires forall c :: c in calls && IdOf(c.provider, c.model) == id ==> KeyOf(c, true) in keys
    ensures MergedKeys(calls, keys) == Summary(calls, false, Key(id, ""))
  {
    if calls == [] {
      MergedNothing(keys);
    } else {
      hide Add, One, Summary, MergedKeys;
      var most, last := calls[..|calls| - 1], calls[|calls| - 1];
      assert calls == most + [last];
      MergingIsNotSplitting(most, keys, id);
      MergedAppend(most, last, keys);
      SummaryAppend(most, last, false, Key(id, ""));
    }
  }

  lemma {:induction false} OfIs(arms: seq<Arm>, id: string)
    requires Distinct(Keys(arms))
    ensures Distinct(Keys(Of(arms, id)))
    ensures forall a :: a in Of(arms, id) <==> a in arms && ArmId(a) == id
  {
    if arms != [] {
      hide IdOf;
      var most, last := arms[..|arms| - 1], arms[|arms| - 1];
      LastKey(arms);
      OfIs(most, id);
      assert arms == most + [last];
      if ArmId(last) == id {
        assert Keys(Of(arms, id)) == Keys(Of(most, id)) + [ArmKey(last)];
        KeysIn(Of(most, id), most);
        AppendDistinct(Keys(Of(most, id)), ArmKey(last));
      } else {
        assert Of(arms, id) == Of(most, id);
      }
    }
  }

  lemma LastKey(arms: seq<Arm>)
    requires arms != [] && Distinct(Keys(arms))
    ensures var most, last := arms[..|arms| - 1], arms[|arms| - 1];
      Keys(arms) == Keys(most) + [ArmKey(last)] && Distinct(Keys(most)) && ArmKey(last) !in Keys(most)
  {
    var most := arms[..|arms| - 1];
    forall i | 0 <= i < |most|
      ensures Keys(most)[i] == Keys(arms)[i] && Keys(arms)[i] != Keys(arms)[|most|]
    {
    }
  }

  lemma KeysIn(some: seq<Arm>, arms: seq<Arm>)
    requires forall a :: a in some ==> a in arms
    ensures forall k :: k in Keys(some) ==> k in Keys(arms)
  {
    forall k | k in Keys(some)
      ensures k in Keys(arms)
    {
      var i :| 0 <= i < |some| && Keys(some)[i] == k;
      assert some[i] in arms;
      var j :| 0 <= j < |arms| && arms[j] == some[i];
      assert Keys(arms)[j] == k;
    }
  }

  lemma {:induction false} MergedByKeys(calls: seq<Call>, arms: seq<Arm>)
    requires forall a :: a in arms ==> a.totals == Summary(calls, true, ArmKey(a))
    ensures Merged(arms) == MergedKeys(calls, Keys(arms))
  {
    if arms != [] {
      hide Add, Summary;
      var most, last := arms[..|arms| - 1], arms[|arms| - 1];
      assert Keys(arms) == Keys(most) + [ArmKey(last)];
      assert Keys(arms)[..|arms| - 1] == Keys(most);
      MergedByKeys(calls, most);
    }
  }

  /** The effort arms of a model add up to its unsplit arm, in every field. */
  lemma EffortsMerge(calls: seq<Call>, arms: seq<Arm>, whole: seq<Arm>, a: Arm)
    requires IsEvidence(calls, true, arms) && IsEvidence(calls, false, whole) && a in whole
    ensures Merged(Of(arms, ArmId(a))) == a.totals
  {
    var id := ArmId(a);
    UnsplitKey(calls, whole, a);
    OfIs(arms, id);
    hide Summary, Add, Merged, MergedKeys;
    forall b | b in Of(arms, id)
      ensures b.totals == Summary(calls, true, ArmKey(b))
    {
      var i :| 0 <= i < |arms| && arms[i] == b;
    }
    MergedByKeys(calls, Of(arms, id));
    CoveredKeys(calls, arms, id);
    MergingIsNotSplitting(calls, Keys(Of(arms, id)), id);
  }

  lemma UnsplitKey(calls: seq<Call>, whole: seq<Arm>, a: Arm)
    requires IsEvidence(calls, false, whole) && a in whole
    ensures ArmKey(a) == Key(ArmId(a), "") && a.totals == Summary(calls, false, ArmKey(a))
  {
    var i :| 0 <= i < |whole| && whole[i] == a;
    assert Keys(whole)[i] in Keys(whole);
  }

  lemma CoveredKeys(calls: seq<Call>, arms: seq<Arm>, id: string)
    requires IsEvidence(calls, true, arms)
    ensures forall k :: k in Keys(Of(arms, id)) ==> k.id == id
    ensures forall c :: c in calls && IdOf(c.provider, c.model) == id ==> KeyOf(c, true) in Keys(Of(arms, id))
  {
    OfIs(arms, id);
    forall c | c in calls && IdOf(c.provider, c.model) == id
      ensures KeyOf(c, true) in Keys(Of(arms, id))
    {
      assert KeyOf(c, true) in Keys(arms);
      var i :| 0 <= i < |arms| && Keys(arms)[i] == KeyOf(c, true);
      assert arms[i] in Of(arms, id);
      var j :| 0 <= j < |Of(arms, id)| && Of(arms, id)[j] == arms[i];
      assert Keys(Of(arms, id))[j] == KeyOf(c, true);
    }
    forall k | k in Keys(Of(arms, id))
      ensures k.id == id
    {
      var i :| 0 <= i < |Of(arms, id)| && Keys(Of(arms, id))[i] == k;
      assert Of(arms, id)[i] in Of(arms, id);
    }
  }

  // ---------------------------------------------------------------- a model's dollars over its arms

  function Lookup(m: map<string, real>, k: string): real {
    if k in m then m[k] else 0.0
  }

  /** A model's output tokens over all its arms; unknown as soon as one arm's are. */
  function ModelTokens(arms: seq<Arm>, id: string): Option<int> {
    Merged(Of(arms, id)).outTok
  }

  function Share(billed: real, tokens: int, total: int): real
    requires total != 0
  {
    billed * tokens as real / total as real
  }

  /** What an arm is charged before the floor: its part of the model's bill by output tokens, or the whole bill when there
      is nothing to divide by. */
  function Charged(a: Arm, billed: real, total: Option<int>, byEffort: bool): real {
    if byEffort && total.Some? && total.value != 0 && a.totals.outTok.Some? then Share(billed, a.totals.outTok.value, total.value)
    else billed
  }

  /** The plan's rate puts a floor under the charge. */
  function Floored(charge: real, tokens: Option<int>, rate: real): real {
    if tokens.Some? && tokens.value as real * rate > charge then tokens.value as real * rate else charge
  }

  function Charges(arms: seq<Arm>, billed: real, total: Option<int>, byEffort: bool): real {
    if arms == [] then 0.0 else
    Charges(arms[..|arms| - 1], billed, total, byEffort) + Charged(arms[|arms| - 1], billed, total, byEffort)
  }

  function Costs(arms: seq<Arm>, billed: real, total: Option<int>, byEffort: bool, rate: real): real {
    if arms == [] then 0.0 else
    var last := arms[|arms| - 1];
    Costs(arms[..|arms| - 1], billed, total, byEffort, rate)
      + Floored(Charged(last, billed, total, byEffort), last.totals.outTok, rate)
  }

  lemma {:induction false} KnownTotal(arms: seq<Arm>)
    requires Merged(arms).outTok.Some?
    ensures forall a :: a in arms ==> a.totals.outTok.Some?
  {
    if arms != [] {
      KnownTotal(arms[..|arms| - 1]);
      assert arms == arms[..|arms| - 1] + [arms[|arms| - 1]];
    }
  }

  lemma QuotientAdds(p: real, q: real, t: real)
    requires t != 0.0
    ensures (p + q) / t == p / t + q / t
  {
  }

  lemma QuotientSelf(b: real, t: real)
    requires t != 0.0
    ensures b * t / t == b && t * b / t == b && b * 0.0 / t == 0.0
  {
  }

  lemma ShareAdds(billed: real, a: int, b: int, total: int)
    requires total != 0
    ensures Share(billed, a + b, total) == Share(billed, a, total) + Share(billed, b, total)
    ensures Share(billed, 0, total) == 0.0 && Share(billed, total, total) == billed
  {
    var x, y := a as real, b as real;
    assert billed * (x + y) == billed * x + billed * y;
    QuotientAdds(billed * x, billed * y, total as real);
    assert (a + b) as real == x + y;
    QuotientSelf(billed, total as real);
  }

  lemma {:induction false} ShareOfAll(arms: seq<Arm>, billed: real, total: int)
    requires total != 0 && Merged(arms).outTok.Some?
    ensures Charges(arms, billed, Some(total), true) == Share(billed, Merged(arms).outTok.value, total)
  {
    if arms == [] {
      ShareAdds(billed, 0, 0, total);
    } else {
      var most, last := arms[..|arms| - 1], arms[|arms| - 1];
      ShareOfAll(most, billed, total);
      ShareAdds(billed, Merged(most).outTok.value, last.totals.outTok.value, total);
      hide Share;
    }
  }

  lemma {:induction false} FullBillEach(arms: seq<Arm>, billed: real, total: Option<int>, byEffort: bool)
    requires !byEffort || total.None? || total.value == 0
    ensures Charges(arms, billed, total, byEffort) == |arms| as real * billed
  {
    if arms != [] {
      FullBillEach(arms[..|arms| - 1], billed, total, byEffort);
    }
  }

  /** Splitting a model by effort keeps its bill exactly when its output tokens are known and not zero, or it has one arm,
      or nothing was billed; otherwise every arm is charged the whole bill. */
  lemma BillConservedIff(arms: seq<Arm>, id: string, billed: real)
    requires Of(arms, id) != []
    ensures var total := ModelTokens(arms, id);
      && (Charges(Of(arms, id), billed, total, true) == billed
          <==> (total.Some? && total.value != 0) || |Of(arms, id)| == 1 || billed == 0.0)
      && (total.None? || total.value == 0 ==>
           Charges(Of(arms, id), billed, total, true) == |Of(arms, id)| as real * billed)
  {
    var total := ModelTokens(arms, id);
    var n := |Of(arms, id)|;
    if total.Some? && total.value != 0 {
      ShareOfAll(Of(arms, id), billed, total.value);
      ShareAdds(billed, 0, 0, total.value);
    } else {
      FullBillEach(Of(arms, id), billed, total, true);
      OnlyOnce(n, billed);
    }
  }

  lemma OnlyOnce(n: nat, billed: real)
    requires n > 0
    ensures n as real * billed == billed <==> n == 1 || billed == 0.0
  {
  }

  /** The model's dollars per output token: what it was billed, or the plan's rate if that is more. */
  function PerToken(billed: real, total: int, rate: real): real
    requires total != 0
  {
    if rate > billed / total as real then rate else billed / total as real
  }

  function Times(tokens: int, price: real): real {
    tokens as real * price
  }

  lemma LargerFactor(k: real, a: real, b: real)
    ensures k > 0.0 ==> (k * a > k * b <==> a > b)
  {
    if k > 0.0 {
      if a > b {
        assert k * (a - b) > 0.0;
      } else {
        assert k * (b - a) >= 0.0;
      }
    }
  }

  lemma Distribute(a: real, b: real, p: real)
    ensures (a + b) * p == a * p + b * p
  {
  }

  lemma TimesLaws(a: int, b: int, p: real, q: real)
    ensures Times(a + b, p) == Times(a, p) + Times(b, p) && Times(0, p) == 0.0
    ensures a > 0 ==> (Times(a, p) > Times(a, q) <==> p > q)
    ensures a != 0 ==> Times(a, p) / a as real == p
  {
    assert (a + b) as real == a as real + b as real;
    Distribute(a as real, b as real, p);
    LargerFactor(a as real, p, q);
    if a != 0 {
      QuotientSelf(p, a as real);
    }
  }

  lemma ShareIsTimes(billed: real, tokens: int, total: int)
    requires total > 0
    ensures Share(billed, tokens, total) == Times(tokens, billed / total as real)
  {
    var q, t, k := billed / total as real, total as real, tokens as real;
    assert q * t == billed;
    assert billed * k == (k * q) * t by { Swap(q, t, k); }
    QuotientSelf(k * q, t);
  }

  lemma Swap(q: real, t: real, k: real)
    ensures (q * t) * k == (k * q) * t
  {
  }

  /** Every arm of a model with known tokens costs its tokens at one and the same price. */
  lemma ArmPrice(a: Arm, billed: real, total: int, rate: real)
    requires total > 0 && a.totals.outTok.Some? && a.totals.outTok.value >= 0
    ensures Floored(Charged(a, billed, Some(total), true), a.totals.outTok, rate)
      == Times(a.totals.outTok.value, PerToken(billed, total, rate))
  {
    var k := a.totals.outTok.value;
    ShareIsTimes(billed, k, total);
    TimesLaws(k, 0, rate, billed / total as real);
    assert k as real * rate == Times(k, rate);
    assert k == 0 ==> Times(k, rate) == 0.0 && Times(k, billed / total as real) == 0.0;
    hide Share, Times;
  }

  /** So does a model that is not split. */
  lemma WholePrice(billed: real, total: int, rate: real)
    requires total > 0
    ensures Floored(billed, Some(total), rate) == Times(total, PerToken(billed, total, rate))
  {
    TimesLaws(total, 0, rate, billed / total as real);
    assert Times(total, billed / total as real) == billed;
    assert total as real * rate == Times(total, rate);
    hide Times;
  }

  lemma {:induction false} CostsAtPrice(arms: seq<Arm>, billed: real, total: int, rate: real)
    requires total > 0 && forall a :: a in arms ==> a.totals.outTok.Some? && a.totals.outTok.value >= 0
    ensures Merged(arms).outTok.Some?
    ensures Costs(arms, billed, Some(total), true, rate) == Times(Merged(arms).outTok.value, PerToken(billed, total, rate))
  {
    hide PerToken, Floored, Charged, Times;
    if arms == [] {
      TimesLaws(0, 0, PerToken(billed, total, rate), 0.0);
    } else {
      var most, last := arms[..|arms| - 1], arms[|arms| - 1];
      CostsAtPrice(most, billed, total, rate);
      ArmPrice(last, billed, total, rate);
      TimesLaws(Merged(most).outTok.value, last.totals.outTok.value, PerToken(billed, total, rate), 0.0);
    }
  }

  /** Splitting by effort refines the per-model ranking: with known tokens the arms' final costs add up to the unsplit
      arm's final cost, floor included. */
  lemma SplitCostIsWholeCost(arms: seq<Arm>, id: string, whole: Arm, billed: real, rate: real)
    requires forall a :: a in Of(arms, id) ==> a.totals.outTok.Some? && a.totals.outTok.value >= 0
    requires Merged(Of(arms, id)) == whole.totals
    requires ModelTokens(arms, id).Some? && ModelTokens(arms, id).value > 0
    ensures Costs(Of(arms, id), billed, ModelTokens(arms, id), true, rate)
      == Floored(Charged(whole, billed, ModelTokens(arms, id), false), whole.totals.outTok, rate)
  {
    hide Merged, Costs, Of, Floored, PerToken, Times;
    CostsAtPrice(Of(arms, id), billed, ModelTokens(arms, id).value, rate);
    WholePrice(billed, ModelTokens(arms, id).value, rate);
  }

  // ---------------------------------------------------------------- the rows

  datatype Row = Row(id: string, effort: string, provider: string, jobs: nat, cost: real, outTok: Option<int>,
                     perMOut: Option<real>, goodRate: Option<real>, perGood: Option<real>, complete: bool, labeled: real)

  /** The arm's row, given its model's bill and total tokens and its provider's plan rate. */
  function RowOf(a: Arm, billed: real, total: Option<int>, byEffort: bool, rate: real): Row {
    var t := a.totals;
    var cost := Floored(Charged(a, billed, total, byEffort), t.outTok, rate);
    var complete := t.outTok.Some? && !(byEffort && total.None?);
    Row(ArmId(a), a.effort, a.provider, t.jobs, cost, t.outTok,
        if complete && t.outTok.value != 0 then Some(cost / t.outTok.value as real * 1000000.0) else None,
        if t.labeled != 0.0 then Some(t.good / t.labeled) else None,
        if t.good != 0.0 && complete then Some(cost / t.good) else None,
        complete, t.labeled)
  }

  /** By dollars per million output tokens, the effort arms of a model with known tokens always tie. */
  lemma EffortArmsTie(a: Arm, b: Arm, billed: real, total: int, rate: real)
    requires total > 0
    requires a.totals.outTok.Some? && a.totals.outTok.value > 0 && b.totals.outTok.Some? && b.totals.outTok.value > 0
    ensures RowOf(a, billed, Some(total), true, rate).perMOut == RowOf(b, billed, Some(total), true, rate).perMOut
    ensures RowOf(a, billed, Some(total), true, rate).perMOut == Some(PerToken(billed, total, rate) * 1000000.0)
  {
    ArmPrice(a, billed, total, rate);
    ArmPrice(b, billed, total, rate);
    var p := PerToken(billed, total, rate);
    TimesLaws(a.totals.outTok.value, 0, p, p);
    TimesLaws(b.totals.outTok.value, 0, p, p);
    hide PerToken, Floored, Charged, Times;
  }

  /** A cost is never below its charge, nor below its tokens at the plan rate. */
  lemma CostFloors(a: Arm, billed: real, total: Option<int>, byEffort: bool, rate: real)
    ensures var cost := RowOf(a, billed, total, byEffort, rate).cost;
      && cost >= Charged(a, billed, total, byEffort)
      && (a.totals.outTok.Some? ==> cost >= a.totals.outTok.value as real * rate)
      && (cost == Charged(a, billed, total, byEffort)
          || (a.totals.outTok.Some? && cost == a.totals.outTok.value as real * rate))
  {
  }

  /** All rows, in evidence order. */
  function RowsOf(arms: seq<Arm>, billed: map<string, real>, lanes: map<string, real>, byEffort: bool): seq<Row> {
    seq(|arms|, i requires 0 <= i < |arms| =>
      RowOf(arms[i], Lookup(billed, ArmId(arms[i])), ModelTokens(arms, ArmId(arms[i])), byEffort, Lookup(lanes, arms[i].provider)))
  }

  /** The rank key: dollars per good result where anything is labeled, else dollars per million output tokens. */
  function Value(r: Row, labeled: bool): real {
    var v := if labeled then r.perGood else r.perMOut;
    if v.Some? then v.value else NO_VALUE
  }

  function ByValue(labeled: bool): (Row, Row) -> bool {
    (a, b) => Value(a, labeled) < Value(b, labeled)
  }

  lemma ByValueOrder(labeled: bool)
    ensures StrictWeak(ByValue(labeled))
  {
  }

  /** The first of the least elements. */
  ghost predicate FirstLeast<T(!new)>(lt: (T, T) -> bool, s: seq<T>, i: nat) {
    && i < |s|
    && (forall j :: 0 <= j < |s| ==> !lt(s[j], s[i]))
    && (forall j :: 0 <= j < i ==> lt(s[i], s[j]))
  }

  lemma InsertHead<T(!new)>(lt: (T, T) -> bool, x: T, s: seq<T>)
    requires StrictWeak(lt) && Sorted(lt, s)
    ensures Insert(lt, x, s) != []
    ensures Insert(lt, x, s)[0] == if s == [] || !lt(s[0], x) then x else s[0]
  {
  }

  lemma FirstLeastNext<T(!new)>(lt: (T, T) -> bool, s: seq<T>, k: nat)
    requires StrictWeak(lt) && s != [] && FirstLeast(lt, s[1..], k)
    ensures FirstLeast(lt, s, if lt(s[k + 1], s[0]) then k + 1 else 0)
  {
  }

  /** The head of a stable sort is the first of the least elements. */
  lemma {:induction false} SortHead<T(!new)>(lt: (T, T) -> bool, s: seq<T>) returns (i: nat)
    requires StrictWeak(lt) && s != []
    ensures FirstLeast(lt, s, i) && SortBy(lt, s) != [] && SortBy(lt, s)[0] == s[i]
  {
    InsertHead(lt, s[0], SortBy(lt, s[1..]));
    if |s| == 1 {
      i := 0;
      assert s[1..] == [];
    } else {
      hide Insert, FirstLeast, StrictWeak, Sorted;
      var k := SortHead(lt, s[1..]);
      FirstLeastNext(lt, s, k);
      assert FirstLeast(lt, s[1..], k) ==> k < |s[1..]| by { LeastInRange(lt, s[1..], k); }
      i := if lt(s[k + 1], s[0]) then k + 1 else 0;
    }
  }

  lemma LeastInRange<T(!new)>(lt: (T, T) -> bool, s: seq<T>, i: nat)
    requires FirstLeast(lt, s, i)
    ensures i < |s|
  {
  }

  // ---------------------------------------------------------------- the pick, on the arms

  /** The charge of an arm: its model's bill, or by effort its part of it by output tokens, whenever there are any to divide
      by. */
  predicate IsCharge(charge: real, tokens: Option<int>, bill: real, total: Option<int>, byEffort: bool) {
    if byEffort && total.Some? && total.value != 0 && tokens.Some? then charge * total.value as real == bill * tokens.value as real
    else charge == bill
  }

  /** The arm's cost: its charge, but at least its tokens at the plan rate of its provider. */
  ghost predicate IsCost(cost: real, a: Arm, arms: seq<Arm>, billed: map<string, real>, lanes: map<string, real>, byEffort: bool) {
    exists charge: real :: CostFrom(charge, cost, a, arms, billed, lanes, byEffort)
  }

  predicate CostFrom(charge: real, cost: real, a: Arm, arms: seq<Arm>, billed: map<string, real>, lanes: map<string, real>,
                     byEffort: bool)
  {
    && IsCharge(charge, a.totals.outTok, Lookup(billed, ArmId(a)), ModelTokens(arms, ArmId(a)), byEffort)
    && IsFloored(cost, charge, a.totals.outTok, Lookup(lanes, a.provider))
  }

  /** A model without a bill was billed nothing, a provider without a plan has no rate. */
  lemma LookupIs(m: map<string, real>, k: string)
    ensures k in m ==> Lookup(m, k) == m[k]
    ensures k !in m ==> Lookup(m, k) == 0.0
  {
  }

  /** The larger of a charge and the tokens at the rate. */
  predicate IsFloored(cost: real, charge: real, tokens: Option<int>, rate: real) {
    && cost >= charge && (tokens.Some? ==> cost >= tokens.value as real * rate)
    && (cost == charge || (tokens.Some? && cost == tokens.value as real * rate))
  }

  lemma FlooredIs(cost: real, charge: real, tokens: Option<int>, rate: real)
    ensures IsFloored(cost, charge, tokens, rate) <==> cost == Floored(charge, tokens, rate)
  {
    if tokens.Some? {
      var floor := tokens.value as real * rate;
    }
  }

  /** The arm's tokens are known, and by effort those of its whole model. */
  predicate Measured(a: Arm, arms: seq<Arm>, byEffort: bool) {
    a.totals.outTok.Some? && (byEffort ==> ModelTokens(arms, ArmId(a)).Some?)
  }

  /** The arm has a rank key, and it is this: dollars per good result, or without any label per million output tokens. */
  ghost predicate Ratio(q: real, a: Arm, arms: seq<Arm>, billed: map<string, real>, lanes: map<string, real>, byEffort: bool,
                        labeled: bool)
  {
    Measured(a, arms, byEffort) &&
    exists cost: real ::
      && IsCost(cost, a, arms, billed, lanes, byEffort)
      && if labeled then a.totals.good != 0.0 && IsQuotient(q, cost, a.totals.good)
         else a.totals.outTok.value != 0 && IsQuotient(q, cost * 1000000.0, a.totals.outTok.value as real)
  }

  lemma ChargeIs(charge: real, a: Arm, bill: real, total: Option<int>, byEffort: bool)
    ensures IsCharge(charge, a.totals.outTok, bill, total, byEffort) <==> charge == Charged(a, bill, total, byEffort)
  {
    if byEffort && total.Some? && total.value != 0 && a.totals.outTok.Some? {
      QuotientIs(charge, bill * a.totals.outTok.value as real, total.value as real);
    }
  }

  predicate IsQuotient(q: real, p: real, t: real) {
    q * t == p
  }

  lemma QuotientIs(q: real, p: real, t: real)
    requires t != 0.0
    ensures IsQuotient(q, p, t) <==> q == p / t
  {
  }

  lemma CostIs(a: Arm, arms: seq<Arm>, billed: map<string, real>, lanes: map<string, real>, byEffort: bool, cost: real)
    ensures IsCost(cost, a, arms, billed, lanes, byEffort) <==>
      cost == RowOf(a, Lookup(billed, ArmId(a)), ModelTokens(arms, ArmId(a)), byEffort, Lookup(lanes, a.provider)).cost
  {
    var bill, total, tokens := Lookup(billed, ArmId(a)), ModelTokens(arms, ArmId(a)), a.totals.outTok;
    var rate, charge := Lookup(lanes, a.provider), Charged(a, bill, total, byEffort);
    hide ModelTokens, Charged, IsCharge, Floored, IsFloored;
    ChargeIs(charge, a, bill, total, byEffort);
    FlooredIs(cost, charge, tokens, rate);
    assert RowOf(a, bill, total, byEffort, rate).cost == Floored(charge, tokens, rate);
    hide RowOf, Lookup;
    if IsCost(cost, a, arms, billed, lanes, byEffort) {
      var c: real :| CostFrom(c, cost, a, arms, billed, lanes, byEffort);
      ChargeIs(c, a, bill, total, byEffort);
    }
    if cost == Floored(charge, tokens, rate) {
      assert CostFrom(charge, cost, a, arms, billed, lanes, byEffort);
    }
  }

  /** The rank key of the arm's row is its ratio, if it has one. */
  lemma RatioIs(q: real, a: Arm, arms: seq<Arm>, billed: map<string, real>, lanes: map<string, real>, byEffort: bool, labeled: bool)
    ensures var row := RowOf(a, Lookup(billed, ArmId(a)), ModelTokens(arms, ArmId(a)), byEffort, Lookup(lanes, a.provider));
      Ratio(q, a, arms, billed, lanes, byEffort, labeled) <==> (if labeled then row.perGood else row.perMOut) == Some(q)
  {
    var row := RowOf(a, Lookup(billed, ArmId(a)), ModelTokens(arms, ArmId(a)), byEffort, Lookup(lanes, a.provider));
    hide ModelTokens, IsCost, Floored, Charged, Lookup, ArmId, IsQuotient;
    forall cost: real
      ensures IsCost(cost, a, arms, billed, lanes, byEffort) <==> cost == row.cost
    {
      CostIs(a, arms, billed, lanes, byEffort, cost);
    }
    assert IsCost(row.cost, a, arms, billed, lanes, byEffort);
    if labeled && a.totals.good != 0.0 {
      QuotientIs(q, row.cost, a.totals.good);
    }
    if !labeled && a.totals.outTok.Some? && a.totals.outTok.value != 0 {
      PerMillion(q, row.cost, a.totals.outTok.value as real);
    }
  }

  lemma PerMillion(q: real, cost: real, t: real)
    requires t != 0.0
    ensures IsQuotient(q, cost * 1000000.0, t) <==> q == cost / t * 1000000.0
  {
    QuotientIs(q, cost * 1000000.0, t);
    assert cost / t * 1000000.0 == cost * 1000000.0 / t;
  }

  /** The id of the first of the best rows, if the best rank key is below the stand-in for "no value". */
  ghost predicate IsPick(pick: Option<string>, rows: seq<Row>, labeled: bool) {
    if forall r :: r in rows ==> Value(r, labeled) >= NO_VALUE then pick == None
    else exists i: nat :: FirstLeast(ByValue(labeled), rows, i) && pick == Some(rows[i].id)
  }

  /** The pick is the model of the first arm whose ratio is the least, if that is below 1e18; None if no ratio is. */
  ghost predicate IsBest(pick: Option<string>, arms: seq<Arm>, billed: map<string, real>, lanes: map<string, real>, byEffort: bool,
                         labeled: bool)
  {
    if pick.None? then
      forall a, q: real :: a in arms && Ratio(q, a, arms, billed, lanes, byEffort, labeled) ==> q >= 1000000.0 * 1000000.0 * 1000000.0
    else
      exists i: nat, q: real ::
        && i < |arms| && pick.value == ArmId(arms[i]) && Ratio(q, arms[i], arms, billed, lanes, byEffort, labeled)
        && q < 1000000.0 * 1000000.0 * 1000000.0
        && forall j, r: real :: 0 <= j < |arms| && Ratio(r, arms[j], arms, billed, lanes, byEffort, labeled) ==>
             q <= r && (j < i ==> q < r)
  }

  /** Rank keys are the arms' ratios; an arm without one is treated like one at 1e18. */
  lemma ValueIs(q: real, arms: seq<Arm>, billed: map<string, real>, lanes: map<string, real>, byEffort: bool, labeled: bool, i: nat)
    requires i < |arms|
    ensures var v := Value(RowsOf(arms, billed, lanes, byEffort)[i], labeled);
      && (Ratio(q, arms[i], arms, billed, lanes, byEffort, labeled) ==> v == q)
      && (v != NO_VALUE ==> Ratio(v, arms[i], arms, billed, lanes, byEffort, labeled))
  {
    var row := RowsOf(arms, billed, lanes, byEffort)[i];
    assert row == RowOf(arms[i], Lookup(billed, ArmId(arms[i])), ModelTokens(arms, ArmId(arms[i])), byEffort,
                        Lookup(lanes, arms[i].provider));
    hide RowsOf, RowOf, Ratio;
    RatioIs(q, arms[i], arms, billed, lanes, byEffort, labeled);
    RatioIs(Value(row, labeled), arms[i], arms, billed, lanes, byEffort, labeled);
  }

  lemma PickIsBest(pick: Option<string>, arms: seq<Arm>, billed: map<string, real>, lanes: map<string, real>, byEffort: bool,
                   labeled: bool)
    requires IsPick(pick, RowsOf(arms, billed, lanes, byEffort), labeled)
    ensures IsBest(pick, arms, billed, lanes, byEffort, labeled)
  {
    var rows := RowsOf(arms, billed, lanes, byEffort);
    assert |rows| == |arms| && forall i :: 0 <= i < |arms| ==> rows[i].id == ArmId(arms[i]);
    hide RowsOf, Ratio, Value, ModelTokens, Lookup, ByValue;
    if pick.None? {
      forall a, q: real | a in arms && Ratio(q, a, arms, billed, lanes, byEffort, labeled)
        ensures q >= NO_VALUE
      {
        var i :| 0 <= i < |arms| && arms[i] == a;
        ValueIs(q, arms, billed, lanes, byEffort, labeled, i);
        assert rows[i] in rows;
      }
    } else {
      var i: nat :| FirstLeast(ByValue(labeled), rows, i) && pick == Some(rows[i].id);
      LeastValue(rows, labeled, i);
      LeastIsBest(arms, billed, lanes, byEffort, labeled, i);
    }
  }

  lemma LeastIsBest(arms: seq<Arm>, billed: map<string, real>, lanes: map<string, real>, byEffort: bool, labeled: bool, i: nat)
    requires i < |arms|
    requires var rows := RowsOf(arms, billed, lanes, byEffort);
      && Value(rows[i], labeled) < NO_VALUE
      && forall j :: 0 <= j < |arms| ==>
           Value(rows[i], labeled) <= Value(rows[j], labeled) && (j < i ==> Value(rows[i], labeled) < Value(rows[j], labeled))
    ensures IsBest(Some(ArmId(arms[i])), arms, billed, lanes, byEffort, labeled)
  {
    var rows := RowsOf(arms, billed, lanes, byEffort);
    var q := Value(rows[i], labeled);
    assert |rows| == |arms|;
    hide RowsOf, Ratio, Value, ModelTokens, Lookup, ArmId;
    ValueIs(q, arms, billed, lanes, byEffort, labeled, i);
    forall j, r: real | 0 <= j < |arms| && Ratio(r, arms[j], arms, billed, lanes, byEffort, labeled)
      ensures q <= r && (j < i ==> q < r)
    {
      ValueIs(r, arms, billed, lanes, byEffort, labeled, j);
    }
  }

  lemma LeastValue(rows: seq<Row>, labeled: bool, i: nat)
    requires FirstLeast(ByValue(labeled), rows, i)
    ensures i < |rows|
    ensures forall j :: 0 <= j < |rows| ==>
      Value(rows[i], labeled) <= Value(rows[j], labeled) && (j < i ==> Value(rows[i], labeled) < Value(rows[j], labeled))
    ensures (exists r :: r in rows && Value(r, labeled) < NO_VALUE) ==> Value(rows[i], labeled) < NO_VALUE
  {
    hide Value;
    forall j | 0 <= j < |rows|
      ensures Value(rows[i], labeled) <= Value(rows[j], labeled) && (j < i ==> Value(rows[i], labeled) < Value(rows[j], labeled))
    {
      assert !ByValue(labeled)(rows[j], rows[i]);
      assert j < i ==> ByValue(labeled)(rows[i], rows[j]);
    }
  }

  lemma CrossMultiply(q: real, c: real, g: real, r: real, d: real, h: real)
    requires q <= r && g > 0.0 && h > 0.0 && IsQuotient(q, c, g) && IsQuotient(r, d, h)
    ensures c * h <= d * g
  {
    assert (r - q) * (g * h) >= 0.0;
    assert c * h == q * (g * h) && d * g == r * (g * h);
  }

  /** Where anything is labeled, no measured arm with good results is cheaper per good result than the picked one. */
  lemma PickIsCheapest(pick: Option<string>, arms: seq<Arm>, billed: map<string, real>, lanes: map<string, real>, byEffort: bool)
    requires IsBest(pick, arms, billed, lanes, byEffort, true) && pick.Some?
    requires forall a :: a in arms ==> a.totals.good >= 0.0
    ensures exists a, cost: real ::
      && a in arms && pick.value == ArmId(a) && a.totals.good > 0.0 && IsCost(cost, a, arms, billed, lanes, byEffort)
      && forall b, other: real ::
           b in arms && Measured(b, arms, byEffort) && b.totals.good > 0.0 && IsCost(other, b, arms, billed, lanes, byEffort) ==>
           cost * b.totals.good <= other * a.totals.good
  {
    hide IsCost, IsQuotient, Measured;
    var i: nat, q: real :|
      && i < |arms| && pick.value == ArmId(arms[i]) && Ratio(q, arms[i], arms, billed, lanes, byEffort, true)
      && forall j, r: real :: 0 <= j < |arms| && Ratio(r, arms[j], arms, billed, lanes, byEffort, true) ==> q <= r;
    var a := arms[i];
    var cost: real :| IsCost(cost, a, arms, billed, lanes, byEffort) && IsQuotient(q, cost, a.totals.good);
    forall b, other: real | b in arms && Measured(b, arms, byEffort) && b.totals.good > 0.0
      && IsCost(other, b, arms, billed, lanes, byEffort)
      ensures cost * b.totals.good <= other * a.totals.good
    {
      var r := other / b.totals.good;
      QuotientIs(r, other, b.totals.good);
      var j :| 0 <= j < |arms| && arms[j] == b;
      assert Ratio(r, arms[j], arms, billed, lanes, byEffort, true);
      CrossMultiply(q, cost, a.totals.good, r, other, b.totals.good);
    }
  }

  /** What else a row says about its arm. */
  lemma RowTells(arms: seq<Arm>, billed: map<string, real>, lanes: map<string, real>, byEffort: bool, i: nat)
    requires i < |arms|
    ensures |RowsOf(arms, billed, lanes, byEffort)| == |arms|
    ensures var row, a := RowsOf(arms, billed, lanes, byEffort)[i], arms[i];
      && row.id == a.provider + ":" + a.model && row.effort == a.effort && row.provider == a.provider
      && row.jobs == a.totals.jobs && row.outTok == a.totals.outTok && row.labeled == a.totals.labeled
      && IsCost(row.cost, a, arms, billed, lanes, byEffort) && (row.complete <==> Measured(a, arms, byEffort))
      && (row.goodRate.Some? <==> a.totals.labeled != 0.0)
      && (row.goodRate.Some? ==> row.goodRate.value * a.totals.labeled == a.totals.good)
      && (forall q: real :: row.perGood == Some(q) <==> Ratio(q, a, arms, billed, lanes, byEffort, true))
      && (forall q: real :: row.perMOut == Some(q) <==> Ratio(q, a, arms, billed, lanes, byEffort, false))
  {
    var row, a := RowsOf(arms, billed, lanes, byEffort)[i], arms[i];
    CostIs(a, arms, billed, lanes, byEffort, row.cost);
    if a.totals.labeled != 0.0 {
      QuotientIs(row.goodRate.value, a.totals.good, a.totals.labeled);
    }
    hide IsCost, Ratio, Floored, Charged, ModelTokens;
    forall q: real
      ensures row.perGood == Some(q) <==> Ratio(q, a, arms, billed, lanes, byEffort, true)
      ensures row.perMOut == Some(q) <==> Ratio(q, a, arms, billed, lanes, byEffort, false)
    {
      RatioIs(q, a, arms, billed, lanes, byEffort, true);
      RatioIs(q, a, arms, billed, lanes, byEffort, false);
    }
  }

  /** `ranked`: the rows in rank order, and the pick. */
  method Rank(arms: seq<Arm>, billed: map<string, real>, lanes: map<string, real>, byEffort: bool)
    returns (models: seq<Row>, labeled: bool, pick: Option<string>)
    ensures var rows := RowsOf(arms, billed, lanes, byEffort);
      && (labeled <==> exists a :: a in arms && a.totals.labeled != 0.0)
      && IsBest(pick, arms, billed, lanes, byEffort, labeled)
      && StrictWeak(ByValue(labeled)) && models == SortBy(ByValue(labeled), rows)
      && IsPick(pick, rows, labeled)
  {
    hide RowsOf, Value, SortBy, IsBest;
    var rows;
    rows, labeled := PriceArms(arms, billed, lanes, byEffort);
    LabeledArms(arms, billed, lanes, byEffort);
    ByValueOrder(labeled);
    models := SortBy(ByValue(labeled), rows);
    pick := None;
    if rows != [] {
      ghost var best := SortHead(ByValue(labeled), rows);
      assert rows[best] in rows;
      if Value(models[0], labeled) < NO_VALUE {
        pick := Some(models[0].id);
      }
    }
    PickIsBest(pick, arms, billed, lanes, byEffort, labeled);
  }

  lemma LabeledArms(arms: seq<Arm>, billed: map<string, real>, lanes: map<string, real>, byEffort: bool)
    ensures (exists r :: r in RowsOf(arms, billed, lanes, byEffort) && r.goodRate.Some?)
      <==> exists a :: a in arms && a.totals.labeled != 0.0
  {
    var rows := RowsOf(arms, billed, lanes, byEffort);
    forall i: nat | i < |arms|
      ensures |rows| == |arms| && rows[i] in rows && (rows[i].goodRate.Some? <==> arms[i].totals.labeled != 0.0)
    {
      RowTells(arms, billed, lanes, byEffort, i);
    }
    hide RowsOf;
  }

  /** The pricing loop. */
  method PriceArms(arms: seq<Arm>, billed: map<string, real>, lanes: map<string, real>, byEffort: bool)
    returns (rows: seq<Row>, labeled: bool)
    ensures rows == RowsOf(arms, billed, lanes, byEffort)
    ensures labeled <==> exists r :: r in rows && r.goodRate.Some?
  {
    hide RowOf, ModelTokens;
    var tokens := AllModelTokens(arms);
    rows := [];
    labeled := false;
    for i := 0 to |arms|
      invariant |rows| == i && forall j :: 0 <= j < i ==> rows[j] == RowsOf(arms, billed, lanes, byEffort)[j]
      invariant labeled <==> exists r :: r in rows && r.goodRate.Some?
    {
      var a := arms[i];
      var row := RowOf(a, Lookup(billed, ArmId(a)), tokens[ArmId(a)], byEffort, Lookup(lanes, a.provider));
      assert row in rows + [row];
      labeled := labeled || row.goodRate.Some?;
      rows := rows + [row];
    }
    assert rows == RowsOf(arms, billed, lanes, byEffort);
  }

  /** The running totals per model, in which one unknown makes the rest unknown. */
  method AllModelTokens(arms: seq<Arm>) returns (tokens: map<string, Option<int>>)
    ensures forall a :: a in arms ==> ArmId(a) in tokens && tokens[ArmId(a)] == ModelTokens(arms, ArmId(a))
  {
    hide ModelTokens, ArmId;
    tokens := map[];
    for i := 0 to |arms|
      invariant tokens == TokensMap(arms[..i])
    {
      assert arms[..i + 1][..i] == arms[..i];
      var id := ArmId(arms[i]);
      var previous := if id in tokens then tokens[id] else Some(0);
      tokens := tokens[id := AddTok(previous, arms[i].totals.outTok)];
    }
    assert arms[..|arms|] == arms;
    forall a | a in arms
      ensures ArmId(a) in tokens && tokens[ArmId(a)] == ModelTokens(arms, ArmId(a))
    {
      TokensMapIs(arms, ArmId(a));
    }
  }

  function TokensMap(arms: seq<Arm>): map<string, Option<int>> {
    if arms == [] then map[] else
    var before, last := TokensMap(arms[..|arms| - 1]), arms[|arms| - 1];
    before[ArmId(last) := AddTok(if ArmId(last) in before then before[ArmId(last)] else Some(0), last.totals.outTok)]
  }

  lemma {:induction false} TokensMapIs(arms: seq<Arm>, id: string)
    ensures ModelTokens(arms, id) == if id in TokensMap(arms) then TokensMap(arms)[id] else Some(0)
    ensures (exists a :: a in arms && ArmId(a) == id) ==> id in TokensMap(arms)
  {
    if arms != [] {
      hide ArmId;
      var most, last := arms[..|arms| - 1], arms[|arms| - 1];
      TokensMapIs(most, id);
      assert arms == most + [last];
      if ArmId(last) == id {
        assert Of(arms, id)[..|Of(arms, id)| - 1] == Of(most, id);
      } else {
        assert Of(arms, id) == Of(most, id);
      }
    }
  }
}
