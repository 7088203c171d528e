/** The selector of execution plans under a deadline, and its latency estimator. */
module DeadlineFlow {
  import opened Machine

  const MAX_PLANS: nat := 32

  datatype Plan = Plan(id: U32, steps: U32, mask: bv64, latency: U64, memory: U64, quality: Float)

  datatype Context = Context(slack: U64, buffered: U64, period: U64, reserve: U64, switching: U64,
                             memory: U64, mask: bv64, minQuality: Float, healthy: bool)

  /** The selector's state: the portfolio, one latency estimate per plan, the plan run last. */
  datatype Flow = Flow(plans: seq<Plan>, estimates: seq<U64>, last: Option<U32>)

  predicate UnitFloat(q: Float)
  {
    q.Finite? && 0.0 <= q.value <= 1.0
  }

  predicate ValidPlan(p: Plan)
  {
    p.steps != 0 && p.latency != 0 && p.mask != 0 && UnitFloat(p.quality)
  }

  predicate DistinctIds(plans: seq<Plan>)
  {
    forall i, j :: 0 <= i < j < |plans| ==> plans[i].id != plans[j].id
  }

  predicate ValidPortfolio(plans: seq<Plan>)
  {
    0 < |plans| <= MAX_PLANS && (forall i :: 0 <= i < |plans| ==> ValidPlan(plans[i])) && DistinctIds(plans)
  }

  /** What every state of a selector satisfies: no estimate is below its plan's calibrated latency. */
  predicate ValidFlow(f: Flow)
  {
    && ValidPortfolio(f.plans) && |f.estimates| == |f.plans|
    && forall i :: 0 <= i < |f.plans| ==> f.estimates[i] >= f.plans[i].latency
  }

  function Latencies(plans: seq<Plan>): seq<U64>
  {
    seq(|plans|, i requires 0 <= i < |plans| => plans[i].latency)
  }

  // ---- selection --------------------------------------------------------------------------

  function Max(a: int, b: int): int { if a < b then b else a }

  /** The time available: the slack, and no more than the buffered actions last. */
  function Budget(c: Context): int
  {
    if c.buffered == 0 then c.slack else Min(c.slack, c.buffered * c.period)
  }

  function Switching(f: Flow, c: Context, i: nat): int
    requires i < |f.plans|
  {
    if f.last.Some? && f.last.value != f.plans[i].id then c.switching else 0
  }

  function Cost(f: Flow, c: Context, i: nat): int
    requires ValidFlow(f) && i < |f.plans|
  {
    f.estimates[i] + Switching(f, c, i)
  }

  predicate Usable(c: Context)
  {
    c.healthy && UnitFloat(c.minQuality)
  }

  /** The plan's requirements on hardware, memory and quality are met. */
  predicate Capable(p: Plan, c: Context)
    requires p.quality.Finite? && c.minQuality.Finite?
  {
    p.mask & c.mask == p.mask && p.memory <= c.memory && p.quality.value >= c.minQuality.value
  }

  /** Plan `i` is capable, and the reserve plus its cost stay within the budget. */
  predicate Fits(f: Flow, c: Context, budget: int, i: nat)
    requires ValidFlow(f) && UnitFloat(c.minQuality) && i < |f.plans|
  {
    Capable(f.plans[i], c) && c.reserve + Cost(f, c, i) <= budget
  }

  /** `i` is at least as good as `j`: better quality, then less cost, then the earlier index. */
  predicate Beats(f: Flow, c: Context, i: nat, j: nat)
    requires ValidFlow(f) && i < |f.plans| && j < |f.plans|
  {
    var qi, qj := f.plans[i].quality.value, f.plans[j].quality.value;
    qi > qj || (qi == qj && (Cost(f, c, i) < Cost(f, c, j) || (Cost(f, c, i) == Cost(f, c, j) && i <= j)))
  }

  /** `i` is the best of the first `n` plans that fit. */
  ghost predicate BestOf(f: Flow, c: Context, budget: int, i: nat, n: nat)
    requires ValidFlow(f) && UnitFloat(c.minQuality) && i < |f.plans| && n <= |f.plans|
  {
    i < n && Fits(f, c, budget, i) && forall j :: 0 <= j < n && Fits(f, c, budget, j) ==> Beats(f, c, i, j)
  }

  /** Within a budget: nothing when nothing fits, otherwise the best plan that fits. */
  ghost predicate SelectedWithin(f: Flow, c: Context, budget: int, r: Option<nat>)
    requires ValidFlow(f)
  {
    match r
    case None => !Usable(c) || forall j :: 0 <= j < |f.plans| ==> !Fits(f, c, budget, j)
    case Some(i) => Usable(c) && i < |f.plans| && BestOf(f, c, budget, i, |f.plans|)
  }

  /** What `select` returns. */
  ghost predicate Selected(f: Flow, c: Context, r: Option<nat>)
    requires ValidFlow(f)
  {
    SelectedWithin(f, c, Budget(c), r)
  }

  /** The identifier of a selected plan. */
  function Chosen(f: Flow, r: Option<nat>): Option<U32>
  {
    if r.Some? && r.value < |f.plans| then Some(f.plans[r.value].id) else None
  }

  ghost predicate AnswerWithin(f: Flow, c: Context, budget: int, id: Option<U32>)
    requires ValidFlow(f)
  {
    exists r: Option<nat> :: SelectedWithin(f, c, budget, r) && id == Chosen(f, r)
  }

  /** The identifier returned is that of the selected plan. */
  ghost predicate Answer(f: Flow, c: Context, id: Option<U32>)
    requires ValidFlow(f)
  {
    AnswerWithin(f, c, Budget(c), id)
  }

  /** Plan `i` may run: what the caller demands of hardware, memory, quality and time, each on its own. */
  predicate MayRun(f: Flow, c: Context, i: nat)
    requires ValidFlow(f) && i < |f.plans|
  {
    var p := f.plans[i];
    var needed := c.reserve + f.estimates[i] + if f.last == None || f.last == Some(p.id) then 0 else c.switching;
    && c.healthy && c.minQuality.Finite? && 0.0 <= c.minQuality.value <= 1.0
    && p.mask & c.mask == p.mask && p.memory <= c.memory && c.minQuality.value <= p.quality.value
    && needed <= c.slack && (c.buffered > 0 ==> needed <= c.buffered * c.period)
  }

  lemma FitsIsMayRun(f: Flow, c: Context, i: nat)
    requires ValidFlow(f) && i < |f.plans|
    ensures Usable(c) && Fits(f, c, Budget(c), i) <==> MayRun(f, c, i)
  {
  }

  /** The plan may run, and none that may has better quality, or the same and less time, or the same and an earlier place. */
  ghost predicate BestThatMay(f: Flow, c: Context, i: nat)
    requires ValidFlow(f)
  {
    && i < |f.plans| && MayRun(f, c, i)
    && forall j :: 0 <= j < |f.plans| && MayRun(f, c, j) ==>
         || f.plans[j].quality.value < f.plans[i].quality.value
         || (f.plans[j].quality.value == f.plans[i].quality.value
             && (Cost(f, c, j) > Cost(f, c, i) || (Cost(f, c, j) == Cost(f, c, i) && j >= i)))
  }

  /** What the answer says of the plans: the best that may run, or that none may. */
  lemma AnswerMeans(f: Flow, c: Context, id: Option<U32>)
    requires ValidFlow(f) && Answer(f, c, id)
    ensures id.None? ==> forall i :: 0 <= i < |f.plans| ==> !MayRun(f, c, i)
    ensures id.Some? ==> exists i: nat :: BestThatMay(f, c, i) && f.plans[i].id == id.value
  {
    forall i | 0 <= i < |f.plans| ensures Usable(c) && Fits(f, c, Budget(c), i) <==> MayRun(f, c, i) {
      FitsIsMayRun(f, c, i);
    }
    var r: Option<nat> :| SelectedWithin(f, c, Budget(c), r) && id == Chosen(f, r);
    if r.Some? { assert BestThatMay(f, c, r.value); }
  }

  lemma SelectionUnique(f: Flow, c: Context, a: Option<nat>, b: Option<nat>)
    requires ValidFlow(f) && Selected(f, c, a) && Selected(f, c, b)
    ensures a == b
  {
  }

  /** Among the first `n` plans there is a best one, unless none of them fits. */
  lemma {:induction false} BestExists(f: Flow, c: Context, budget: int, n: nat) returns (r: Option<nat>)
    requires ValidFlow(f) && UnitFloat(c.minQuality) && n <= |f.plans|
    ensures r.None? ==> forall j :: 0 <= j < n ==> !Fits(f, c, budget, j)
    ensures r.Some? ==> r.value < n && BestOf(f, c, budget, r.value, n)
    decreases n
  {
    if n == 0 { return None; }
    r := BestExists(f, c, budget, n - 1);
    if Fits(f, c, budget, n - 1) && (r.None? || !Beats(f, c, r.value, n - 1)) { r := Some(n - 1); }
  }

  /** There is exactly one answer. */
  lemma AnswerUnique(f: Flow, c: Context) returns (a: Option<U32>)
    requires ValidFlow(f)
    ensures Answer(f, c, a) && forall b: Option<U32> :: Answer(f, c, b) ==> b == a
  {
    var i: Option<nat> := None;
    if Usable(c) { i := BestExists(f, c, Budget(c), |f.plans|); }
    a := Chosen(f, i);
    assert SelectedWithin(f, c, Budget(c), i);
    forall b: Option<U32> | Answer(f, c, b) ensures b == a {
      var j: Option<nat> :| SelectedWithin(f, c, Budget(c), j) && b == Chosen(f, j);
      SelectionUnique(f, c, i, j);
    }
  }

  lemma LargerBudgetNoWorse(f: Flow, c: Context, d: Context, budget: int, larger: int, a: Option<nat>, b: Option<nat>)
    requires ValidFlow(f) && d == c.(slack := d.slack) && budget <= larger
    requires SelectedWithin(f, c, budget, a) && SelectedWithin(f, d, larger, b)
    ensures a.Some? ==> b.Some? && a.value < |f.plans| && b.value < |f.plans|
                        && f.plans[b.value].quality.value >= f.plans[a.value].quality.value
  {
    if a.Some? {
      assert Cost(f, c, a.value) == Cost(f, d, a.value);
      assert Fits(f, d, larger, a.value);
    }
  }

  /** More slack, all else equal, never loses a plan and never lowers the quality chosen. */
  lemma MoreSlackNoWorse(f: Flow, c: Context, d: Context, a: Option<nat>, b: Option<nat>)
    requires ValidFlow(f) && d == c.(slack := d.slack) && c.slack <= d.slack
    requires Selected(f, c, a) && Selected(f, d, b)
    ensures a.Some? ==> b.Some? && a.value < |f.plans| && b.value < |f.plans|
                        && f.plans[b.value].quality.value >= f.plans[a.value].quality.value
  {
    LargerBudgetNoWorse(f, c, d, Budget(c), Budget(d), a, b);
  }

  // ---- the estimator ----------------------------------------------------------------------

  /** One observation: slower is believed at once, faster decays by an eighth. */
  function Update(calibrated: int, observed: int, estimate: int): int
  {
    Max(Max(calibrated, observed), estimate - estimate / 8)
  }

  /** The estimate is the least one that lies below neither latency and has lost no more than an eighth. */
  lemma UpdateLaw(calibrated: nat, observed: nat, estimate: nat, u: int)
    ensures u == Update(calibrated, observed, estimate)
            <==> && u >= calibrated && u >= observed && 8 * u >= 7 * estimate
                 && (u == calibrated || u == observed || 8 * (u - 1) < 7 * estimate)
  {
  }

  /** The position of a plan, or the number of plans. */
  function IndexOf(plans: seq<Plan>, id: U32, from: nat): (r: nat)
    requires from <= |plans|
    ensures from <= r <= |plans|
    ensures r < |plans| ==> plans[r].id == id
    ensures forall i :: from <= i < r ==> plans[i].id != id
    decreases |plans| - from
  {
    if from == |plans| || plans[from].id == id then from else IndexOf(plans, id, from + 1)
  }

  function Observed(f: Flow, id: U32, latency: U64): (r: Flow)
    requires |f.estimates| == |f.plans|
  {
    var i := IndexOf(f.plans, id, 0);
    if latency == 0 || i == |f.plans| then f
    else f.(estimates := f.estimates[i := UpdateU64(f.plans[i].latency, latency, f.estimates[i])], last := Some(id))
  }

  function UpdateU64(calibrated: U64, observed: U64, estimate: U64): (r: U64)
    ensures r == Update(calibrated, observed, estimate)
  {
    Update(calibrated, observed, estimate)
  }

  function After(f: Flow, log: seq<(U32, U64)>): (r: Flow)
    requires |f.estimates| == |f.plans|
    ensures |r.estimates| == |r.plans| && r.plans == f.plans
  {
    if log == [] then f
    else var n := |log| - 1; Observed(After(f, log[..n]), log[n].0, log[n].1)
  }

  /** The latest non-zero observation of `id`, or zero. */
  function Latest(log: seq<(U32, U64)>, id: U32): U64
  {
    if log == [] then 0
    else
      var n := |log| - 1;
      if log[n].0 == id && log[n].1 != 0 then log[n].1 else Latest(log[..n], id)
  }

  /** In every run an estimate stays at or above the calibrated latency and the latest observation. */
  lemma {:induction false} EstimateBounds(f: Flow, log: seq<(U32, U64)>)
    requires ValidFlow(f)
    ensures ValidFlow(After(f, log))
    ensures forall i :: 0 <= i < |f.plans| ==> After(f, log).estimates[i] >= Latest(log, f.plans[i].id)
  {
    if log != [] {
      var n := |log| - 1;
      EstimateBounds(f, log[..n]);
      var g, id := After(f, log[..n]), log[n].0;
      forall i | 0 <= i < |f.plans|
        ensures After(f, log).estimates[i] >= f.plans[i].latency
        ensures After(f, log).estimates[i] >= Latest(log, f.plans[i].id)
      {
        var k := IndexOf(f.plans, id, 0);
        if k < |f.plans| && i != k {
          assert f.plans[i].id != f.plans[k].id;
        }
      }
    }
  }

  function Repeated(calibrated: int, observed: int, estimate: int, n: nat): int
    decreases n
  {
    if n == 0 then estimate else Repeated(calibrated, observed, Update(calibrated, observed, estimate), n - 1)
  }

  function FixedPoint(calibrated: int, observed: int, estimate: int): int
  {
    Max(Max(calibrated, observed), Min(estimate, 7))
  }

  /** At the fixed point an observation changes nothing. */
  lemma {:induction false} StaysFixed(c: nat, l: nat, e: nat, n: nat)
    requires Update(c, l, e) == e
    ensures Repeated(c, l, e, n) == e
  {
    if n > 0 { StaysFixed(c, l, e, n - 1); }
  }

  /** One step keeps the fixed point, and makes progress towards it unless it is reached. */
  lemma UpdateProgress(c: nat, l: nat, e: nat)
    ensures var u := Update(c, l, e);
            && u >= 0 && FixedPoint(c, l, u) == FixedPoint(c, l, e)
            && (e <= Max(c, l) ==> u == FixedPoint(c, l, e) && Update(c, l, u) == u)
            && (e > Max(c, l) && e < 8 ==> u == e == FixedPoint(c, l, e))
            && (e > Max(c, l) && e >= 8 ==> u < e)
  {
  }

  /** Repeating one observation reaches the fixed point in at most `e + 1` steps and stays there. */
  lemma {:induction false} Converges(c: nat, l: nat, e: nat, n: nat)
    requires n > e
    ensures Repeated(c, l, e, n) == FixedPoint(c, l, e)
    decreases e
  {
    UpdateProgress(c, l, e);
    var u := Update(c, l, e);
    if e <= Max(c, l) {
      StaysFixed(c, l, u, n - 1);
    } else if e < 8 {
      StaysFixed(c, l, e, n);
    } else {
      Converges(c, l, u, n - 1);
    }
  }

  lemma {:induction false} RepeatedLast(c: int, l: int, e: int, n: nat)
    ensures Repeated(c, l, e, n + 1) == Update(c, l, Repeated(c, l, e, n))
    decreases n
  {
    if n > 0 { RepeatedLast(c, l, Update(c, l, e), n - 1); }
  }

  /** After the first observation the estimate never rises again. */
  lemma {:induction false} NonIncreasing(c: nat, l: nat, e: nat, n: nat)
    requires n >= 1
    ensures Repeated(c, l, e, n + 1) <= Repeated(c, l, e, n) && Repeated(c, l, e, n) >= Max(c, l)
  {
    RepeatedLast(c, l, e, n);
    if n == 1 {
      assert Repeated(c, l, e, 1) == Update(c, l, e) by { RepeatedLast(c, l, e, 0); }
    } else {
      NonIncreasing(c, l, e, n - 1);
      RepeatedLast(c, l, e, n - 1);
    }
  }

  function Times(entry: (U32, U64), n: nat): (r: seq<(U32, U64)>)
    ensures |r| == n
  {
    if n == 0 then [] else Times(entry, n - 1) + [entry]
  }

  /** The selector's estimate under one repeated observation follows the recurrence. */
  lemma {:induction false} EstimateFollows(f: Flow, i: nat, latency: U64, n: nat)
    requires ValidFlow(f) && i < |f.plans| && latency != 0
    ensures After(f, Times((f.plans[i].id, latency), n)).estimates[i] ==
              Repeated(f.plans[i].latency, latency, f.estimates[i], n)
  {
    if n > 0 {
      var log := Times((f.plans[i].id, latency), n);
      assert log[..n - 1] == Times((f.plans[i].id, latency), n - 1);
      EstimateFollows(f, i, latency, n - 1);
      RepeatedLast(f.plans[i].latency, latency, f.estimates[i], n - 1);
      FirstMatch(f.plans, f.plans[i].id, i);
    }
  }

  /** Observing `latency` over and over settles a plan's estimate at the fixed point, in finitely many steps. */
  lemma EstimateSettles(f: Flow, i: nat, latency: U64, n: nat)
    requires ValidFlow(f) && i < |f.plans| && latency != 0 && n > f.estimates[i]
    ensures After(f, Times((f.plans[i].id, latency), n)).estimates[i] ==
              FixedPoint(f.plans[i].latency, latency, f.estimates[i])
  {
    EstimateFollows(f, i, latency, n);
    Converges(f.plans[i].latency, latency, f.estimates[i], n);
  }

  // ---- the class --------------------------------------------------------------------------

  class Selector {
    var plans: seq<Plan>
    var estimates: seq<U64>
    var last: Option<U32>

    function View(): Flow
      reads this
    {
      Flow(plans, estimates, last)
    }

    constructor (portfolio: seq<Plan>)
      requires ValidPortfolio(portfolio)
      ensures View() == Flow(portfolio, Latencies(portfolio), None)
      ensures ValidFlow(View())
    {
      plans := portfolio;
      estimates := Latencies(portfolio);
      last := None;
    }

    /** Accepts exactly the valid portfolios. */
    static method Create(portfolio: seq<Plan>) returns (r: Option<Selector>)
      ensures r.Some? <==> && 1 <= |portfolio| <= 32 && (forall i, j :: 0 <= i < j < |portfolio| ==> portfolio[i].id != portfolio[j].id)
                           && forall i :: 0 <= i < |portfolio| ==>
                                && portfolio[i].steps != 0 && portfolio[i].latency != 0 && portfolio[i].mask != 0
                                && portfolio[i].quality.Finite? && 0.0 <= portfolio[i].quality.value <= 1.0
      ensures r.Some? ==> fresh(r.value) && ValidFlow(r.value.View())
                          && r.value.View() == Flow(portfolio, Latencies(portfolio), None)
    {
      if |portfolio| == 0 || |portfolio| > MAX_PLANS { return None; }
      var n := 0;
      while n < |portfolio|
        invariant 0 <= n <= |portfolio|
        invariant forall i :: 0 <= i < n ==> ValidPlan(portfolio[i])
        invariant DistinctIds(portfolio[..n])
      {
        var plan := portfolio[n];
        if plan.steps == 0 || plan.latency == 0 || plan.mask == 0 || plan.quality.NonFinite?
           || plan.quality.value < 0.0 || plan.quality.value > 1.0 {
          return None;
        }
        var j := 0;
        while j < n
          invariant 0 <= j <= n
          invariant forall i :: 0 <= i < j ==> portfolio[i].id != plan.id
        {
          if portfolio[j].id == plan.id { return None; }
          j := j + 1;
        }
        n := n + 1;
      }
      assert portfolio[..n] == portfolio;
      var s := new Selector(portfolio);
      r := Some(s);
    }

    /** Sound, complete and optimal; every sum stays within 64 bits. */
    method Select(c: Context) returns (id: Option<U32>)
      requires ValidFlow(View())
      ensures Answer(View(), c, id)
    {
      if !c.healthy || c.minQuality.NonFinite? || c.minQuality.value < 0.0 || c.minQuality.value > 1.0 {
        assert Selected(View(), c, None);
        return None;
      }
      var budget := TimeBudget(c);
      if budget <= c.reserve {
        assert Selected(View(), c, None);
        return None;
      }
      id := BestPlan(c, budget);
    }

    /** The buffered time saturates at 64 bits, which does not change the budget. */
    static method TimeBudget(c: Context) returns (budget: U64)
      ensures budget == Budget(c)
    {
      var bufferNs: U64 := U64_MAX;
      if !(c.period != 0 && c.buffered > U64_MAX / c.period) {
        Product(c.buffered, c.period);
        bufferNs := c.buffered * c.period;
      }
      budget := if c.buffered == 0 then c.slack else Min(c.slack, bufferNs);
      Saturated(c, bufferNs);
    }

    /** The checks on hardware, memory and quality. */
    static method MeetsNeeds(plan: Plan, c: Context) returns (ok: bool)
      requires plan.quality.Finite? && c.minQuality.Finite?
      ensures ok <==> Capable(plan, c)
    {
      if (plan.mask & c.mask) != plan.mask || plan.memory > c.memory || plan.quality.value < c.minQuality.value { return false; }
      ok := true;
    }

    /** The cost of a plan that is capable and fits the budget; the checks never leave 64 bits. */
    method Admitted(c: Context, budget: U64, i: nat) returns (cost: Option<U64>)
      requires ValidFlow(View()) && Usable(c) && c.reserve < budget && i < |plans|
      ensures cost.Some? <==> Fits(View(), c, budget, i)
      ensures cost.Some? ==> cost.value == Cost(View(), c, i)
    {
      var plan := plans[i];
      var able := MeetsNeeds(plan, c);
      if !able { return None; }
      var switching: U64 := if last.Some? && last.value != plan.id then c.switching else 0;
      var available: U64 := budget - c.reserve;
      if switching > available || estimates[i] > available - switching { return None; }
      cost := Some(estimates[i] + switching);
    }

    /** The loop over the portfolio. */
    method BestPlan(c: Context, budget: U64) returns (id: Option<U32>)
      requires ValidFlow(View()) && Usable(c) && c.reserve < budget
      ensures AnswerWithin(View(), c, budget, id)
    {
      var best: Option<nat> := None;
      var bestCost: U64 := U64_MAX;
      var i := 0;
      while i < |plans|
        invariant 0 <= i <= |plans|
        invariant best.None? ==> forall j :: 0 <= j < i ==> !Fits(View(), c, budget, j)
        invariant best.Some? ==> best.value < |plans| && BestOf(View(), c, budget, best.value, i)
                                 && bestCost == Cost(View(), c, best.value)
      {
        var cost := Admitted(c, budget, i);
        if cost.Some? {
          if best.None? || plans[i].quality.value > plans[best.value].quality.value
             || (plans[i].quality.value == plans[best.value].quality.value && cost.value < bestCost) {
            best, bestCost := Some(i), cost.value;
          }
        }
        i := i + 1;
      }
      id := if best.Some? then Some(plans[best.value].id) else None;
      assert SelectedWithin(View(), c, budget, best) && id == Chosen(View(), best);
    }

    /** Records one completed call of a known plan. */
    method Observe(id: U32, latency: U64) returns (ok: bool)
      requires ValidFlow(View())
      modifies this
      ensures View() == Observed(old(View()), id, latency) && ValidFlow(View())
      ensures ok <==> latency != 0 && exists i :: 0 <= i < |old(plans)| && old(plans)[i].id == id
    {
      if latency == 0 { return false; }
      var i := 0;
      while i < |plans|
        invariant 0 <= i <= |plans|
        invariant unchanged(this)
        invariant forall j :: 0 <= j < i ==> plans[j].id != id
      {
        if plans[i].id == id {
          FirstMatch(plans, id, i);
          var decayed: U64 := estimates[i] - estimates[i] / 8;
          var floor: U64 := if plans[i].latency < latency then latency else plans[i].latency;
          estimates := estimates[i := if floor < decayed then decayed else floor];
          last := Some(id);
          return true;
        }
        i := i + 1;
      }
      FirstMatch(plans, id, i);
      return false;
    }
  }

  lemma FirstMatch(plans: seq<Plan>, id: U32, i: nat)
    requires i <= |plans| && (forall j :: 0 <= j < i ==> plans[j].id != id)
    requires i < |plans| ==> plans[i].id == id
    ensures IndexOf(plans, id, 0) == i
  {
  }

  lemma Product(a: U64, b: U64)
    requires b == 0 || a <= U64_MAX / b
    ensures 0 <= a * b <= U64_MAX
  {
    if b != 0 {
      assert a * b <= (U64_MAX / b) * b;
    }
  }

  /** Saturating the buffered time does not change the budget. */
  lemma Saturated(c: Context, bufferNs: U64)
    requires bufferNs == if c.period != 0 && c.buffered > U64_MAX / c.period then U64_MAX else c.buffered * c.period
    ensures Min(c.slack, bufferNs) == Min(c.slack, c.buffered * c.period)
  {
    if c.period != 0 && c.buffered > U64_MAX / c.period {
      assert c.buffered * c.period >= (U64_MAX / c.period + 1) * c.period;
      assert (U64_MAX / c.period + 1) * c.period > U64_MAX;
    }
  }
}
