// How many experts a layer should stream: the cost model, the optimiser with its
// tolerance, the step prediction and the bisection for the break-even point.

module HybridPolicy {
  import opened RealArith

  // A predicted time; infinite when there is no working link.
  datatype Ms = Fin(ms: real) | Inf

  datatype Constants = Constants(cpu: real, units: real, distinct: real, bytes: real, link: real,
                                 contention: real, gpu: real, fixed: real)
  {
    function Reuse(): real { if distinct > 0.0 then units / distinct else 1.0 }

    function PerUnit(): real { if units > 0.0 then cpu / units else 0.0 }

    // The most experts there are to stream.
    function Most(): nat {
      var r := Round(distinct);
      if r < 0 then 0 else r
    }
  }

  datatype LayerCost = LayerCost(k: nat, layer: Ms, cpu: real, link: Ms, extra: real)

  // Rounding to the nearest integer, halves to even.
  function Round(x: real): (r: int)
    ensures r as real - 0.5 <= x <= r as real + 0.5
    ensures (x == r as real - 0.5 || x == r as real + 0.5) ==> r % 2 == 0
  {
    var f := x.Floor;
    var d := x - f as real;
    if d < 0.5 then f else if d > 0.5 then f + 1 else if f % 2 == 0 then f else f + 1
  }

  const TOLERANCE: real := 0.000000001

  // ---- the cost of streaming k experts -------------------------------------------------------

  function UnitsLeft(c: Constants, k: nat): real { Max(c.units - c.Reuse() * (k as real), 0.0) }

  // With nothing left for the CPU its submit and sync go too.
  function Cpu(c: Constants, k: nat): real {
    if k > 0 && UnitsLeft(c, k) <= 0.0 then 0.0
    else if c.cpu > 0.0 then c.PerUnit() * UnitsLeft(c, k) + c.fixed
    else c.PerUnit() * UnitsLeft(c, k)
  }

  function Gb(c: Constants, k: nat): real { (k as real) * c.bytes }

  function Link(c: Constants, k: nat): real
    requires c.link > 0.0
  {
    Gb(c, k) / c.link * 1000.0
  }

  function Extra(c: Constants, k: nat): real { Gb(c, k) * c.contention + (k as real) * c.gpu }

  // CPU and link overlap; the extras do not.
  function Layer(c: Constants, k: nat): real
    requires c.link > 0.0
  {
    Max(Cpu(c, k), Link(c, k)) + Extra(c, k)
  }

  function CostAt(c: Constants, want: int): LayerCost {
    var k: nat := if want < 0 then 0 else if want <= c.Most() then want else c.Most();
    if c.link > 0.0 then LayerCost(k, Fin(Layer(c, k)), Cpu(c, k), Fin(Link(c, k)), Extra(c, k))
    else LayerCost(k, Inf, Cpu(c, k), Inf, Extra(c, k))
  }

  // Cheaper by more than the tolerance.
  predicate Cheaper(a: Ms, b: Ms) {
    match b
    case Inf => a.Fin?
    case Fin(y) => a.Fin? && a.ms < y - TOLERANCE
  }

  // The running best over 0..k.
  function Best(c: Constants, k: nat): LayerCost
    requires k <= c.Most()
  {
    if k == 0 then CostAt(c, 0)
    else
      var best := Best(c, k - 1);
      if Cheaper(CostAt(c, k).layer, best.layer) then CostAt(c, k) else best
  }

  function Chosen(c: Constants): LayerCost { Best(c, c.Most()) }

  method ChooseK(c: Constants) returns (best: LayerCost)
    ensures best == Chosen(c)
  {
    best := CostAt(c, 0);
    for k := 1 to c.Most() + 1
      invariant best == Best(c, k - 1)
    {
      var cand := CostAt(c, k);
      if Cheaper(cand.layer, best.layer) { best := cand; }
    }
  }

  // ---- what the choice guarantees ------------------------------------------------------------

  // The tolerance does not pile up: the choice is within it of every candidate, every
  // smaller count costs strictly more, and it streams only for a gain above it.
  lemma {:induction false} BestIsNearMinimal(c: Constants, k: nat)
    requires k <= c.Most() && c.link > 0.0
    ensures Best(c, k).k <= k && Best(c, k) == CostAt(c, Best(c, k).k)
    ensures forall j: nat | j <= k :: Layer(c, Best(c, k).k) <= Layer(c, j) + TOLERANCE
    ensures forall j: nat | j < Best(c, k).k :: Layer(c, Best(c, k).k) < Layer(c, j)
    ensures Best(c, k).k > 0 ==> Layer(c, Best(c, k).k) < Layer(c, 0) - TOLERANCE
  {
    if k > 0 {
      BestIsNearMinimal(c, k - 1);
    }
  }

  lemma {:induction false} NoLinkMeansAllCpu(c: Constants, k: nat)
    requires k <= c.Most() && c.link <= 0.0
    ensures Best(c, k).k == 0 && Best(c, k).layer == Inf
  {
    if k > 0 { NoLinkMeansAllCpu(c, k - 1); }
  }

  ghost predicate Gains(c: Constants, k: nat)
    requires c.link > 0.0
  {
    Layer(c, k) < Layer(c, 0) - TOLERANCE
  }

  // Something is streamed exactly when some count gains more than the tolerance.
  lemma StreamsIffSomeCountGains(c: Constants)
    requires c.link > 0.0
    ensures Chosen(c).k > 0 <==> exists k: nat :: 0 < k <= c.Most() && Gains(c, k)
  {
    BestIsNearMinimal(c, c.Most());
    var k := Chosen(c).k;
    if k > 0 { assert Gains(c, k); }
  }

  // ---- predicting a step -----------------------------------------------------------------------

  datatype Prediction = Prediction(k: nat, layerBefore: real, layerAfter: real, saved: real, before: real, after: real,
                                   speedup: Ms, linkBound: bool, consistent: bool)
                      | NotFinite(k: nat)

  function PredictStep(c: Constants, layers: nat, stepMs: real): Prediction {
    var best := Chosen(c);
    if c.link <= 0.0 then NotFinite(best.k)
    else
      BestIsNearMinimal(c, c.Most());
      Predict(best.k, Layer(c, 0), best.layer.ms, layers as real, stepMs, best.link.ms >= best.cpu)
  }

  // Layer times before and after, over n layers of a step.
  function Predict(k: nat, base: real, best: real, n: real, stepMs: real, linkBound: bool): Prediction {
    var rest := stepMs - Times(base, n);
    var after := Max(rest, 0.0) + Times(best, n);
    Prediction(k, base, best, Times(base - best, n), stepMs, after,
               if after > 0.0 then Fin(Over(stepMs, after)) else Inf, linkBound, rest >= 0.0)
  }

  function Times(a: real, n: real): real { a * n }

  function Over(a: real, b: real): real
    requires b > 0.0
  {
    a / b
  }

  // The books balance exactly when the step is no shorter than its own expert path,
  // and then no slowdown is ever predicted.
  lemma PredictionBalances(c: Constants, layers: nat, stepMs: real)
    requires c.link > 0.0
    ensures Balanced(PredictStep(c, layers, stepMs), stepMs)
  {
    BestIsNearMinimal(c, c.Most());
    var best := Chosen(c);
    PredictBalances(best.k, Layer(c, 0), best.layer.ms, layers as real, stepMs, best.link.ms >= best.cpu);
  }

  ghost predicate Balanced(p: Prediction, stepMs: real) {
    && p.Prediction? && p.before == stepMs && p.saved >= 0.0
    && (p.consistent <==> p.before == p.after + p.saved)
    && (p.consistent ==> p.after <= p.before && (p.speedup.Fin? ==> p.speedup.ms >= 1.0))
    && (!p.consistent ==> p.before < p.after + p.saved)
  }

  lemma PredictBalances(k: nat, base: real, best: real, n: real, stepMs: real, linkBound: bool)
    requires best <= base && n >= 0.0
    ensures Balanced(Predict(k, base, best, n, stepMs, linkBound), stepMs)
  {
    Spread(base, best, n);
    var after := Max(stepMs - Times(base, n), 0.0) + Times(best, n);
    if after > 0.0 && stepMs >= after { Ratio(stepMs, after); }
  }

  lemma Spread(a: real, b: real, n: real)
    requires b <= a && n >= 0.0
    ensures Times(a - b, n) == Times(a, n) - Times(b, n) && Times(a - b, n) >= 0.0
  {
    Mono(0.0, a - b, n);
  }

  lemma Ratio(a: real, b: real)
    requires a >= b > 0.0
    ensures Over(a, b) >= 1.0
  {
  }

  // ---- more CPU work, a faster link ----------------------------------------------------------------

  ghost predicate Sane(c: Constants) {
    && c.units > 0.0 && c.distinct > 0.0 && c.link > 0.0
    && c.bytes >= 0.0 && c.contention >= 0.0 && c.gpu >= 0.0 && c.fixed >= 0.0
  }

  // The overlap's gain from a smaller CPU term shrinks as the link term grows.
  lemma MaxDifferences(a: real, a': real, l: real, b: real, b': real, m: real)
    requires b <= a && a <= a' && b <= b' && l <= m && b' - b <= a' - a
    ensures Max(b', m) - Max(b, m) <= Max(a', l) - Max(a, l)
  {
  }

  lemma UnitsShrink(c: Constants, i: nat, j: nat)
    requires Sane(c) && i <= j
    ensures 0.0 <= UnitsLeft(c, j) <= UnitsLeft(c, i) <= c.units
    ensures UnitsLeft(c, 0) == c.units
  {
    assert c.Reuse() >= 0.0;
    Mono(i as real, j as real, c.Reuse());
    Mono(0.0, i as real, c.Reuse());
  }

  lemma LinkGrows(c: Constants, i: nat, j: nat)
    requires Sane(c) && i <= j
    ensures 0.0 <= Link(c, i) <= Link(c, j)
  {
    Mono(i as real, j as real, c.bytes);
    Mono(0.0, i as real, c.bytes);
    Divided(0.0, Gb(c, i), c.link);
    Divided(Gb(c, i), Gb(c, j), c.link);
  }

  // What the CPU would take for k with m of work in the layer.
  function CpuAt(c: Constants, m: real, k: nat): real { Cpu(c.(cpu := m), k) }

  // The share of the layer's units left to the CPU, and whether none is.
  function Share(c: Constants, k: nat): real
    requires c.units > 0.0
  {
    UnitsLeft(c, k) / c.units
  }

  predicate Emptied(c: Constants, k: nat) { k > 0 && UnitsLeft(c, k) <= 0.0 }

  function Work(m: real, share: real, fixed: real, emptied: bool): real {
    if emptied then 0.0 else Times(m, share) + if m > 0.0 then fixed else 0.0
  }

  lemma CpuIsShare(c: Constants, m: real, k: nat)
    requires Sane(c)
    ensures CpuAt(c, m, k) == Work(m, Share(c, k), c.fixed, Emptied(c, k))
  {
    var u := UnitsLeft(c, k);
    assert UnitsLeft(c.(cpu := m), k) == u;
    Commute(m, u, c.units);
  }

  lemma Commute(m: real, u: real, d: real)
    requires d > 0.0
    ensures (m / d) * u == Times(m, u / d)
  {
  }

  lemma SharesShrink(c: Constants, i: nat, j: nat)
    requires Sane(c) && i <= j
    ensures 0.0 <= Share(c, j) <= Share(c, i) && (Emptied(c, i) ==> Emptied(c, j))
  {
    UnitsShrink(c, i, j);
    Divided(0.0, UnitsLeft(c, j), c.units);
    Divided(UnitsLeft(c, j), UnitsLeft(c, i), c.units);
  }

  lemma CpuDifferences(c: Constants, m: real, m': real, i: nat, j: nat)
    requires Sane(c) && 0.0 <= m <= m' && i <= j
    ensures CpuAt(c, m, j) <= CpuAt(c, m, i) && CpuAt(c, m, j) <= CpuAt(c, m', j) && CpuAt(c, m, i) <= CpuAt(c, m', i)
    ensures CpuAt(c, m', j) - CpuAt(c, m, j) <= CpuAt(c, m', i) - CpuAt(c, m, i)
  {
    SharesShrink(c, i, j);
    CpuIsShare(c, m, i);
    CpuIsShare(c, m, j);
    CpuIsShare(c, m', i);
    CpuIsShare(c, m', j);
    WorkDifferences(m, m', Share(c, i), Share(c, j), c.fixed, Emptied(c, i), Emptied(c, j));
  }

  lemma WorkDifferences(m: real, m': real, wi: real, wj: real, fixed: real, ei: bool, ej: bool)
    requires 0.0 <= m <= m' && 0.0 <= wj <= wi && fixed >= 0.0 && (ei ==> ej)
    ensures Work(m, wj, fixed, ej) <= Work(m, wi, fixed, ei)
    ensures Work(m, wj, fixed, ej) <= Work(m', wj, fixed, ej) && Work(m, wi, fixed, ei) <= Work(m', wi, fixed, ei)
    ensures Work(m', wj, fixed, ej) - Work(m, wj, fixed, ej) <= Work(m', wi, fixed, ei) - Work(m, wi, fixed, ei)
  {
    ShareDifferences(m, m', wi, wj);
  }

  lemma ShareDifferences(m: real, m': real, wi: real, wj: real)
    requires 0.0 <= m <= m' && 0.0 <= wj <= wi
    ensures 0.0 <= Times(m, wj) <= Times(m, wi)
    ensures Times(m, wj) <= Times(m', wj) && Times(m, wi) <= Times(m', wi)
    ensures Times(m', wj) - Times(m, wj) <= Times(m', wi) - Times(m, wi)
  {
    Mono(0.0, wj, m);
    Mono(wj, wi, m);
    Mono(m, m', wj);
    Mono(m, m', wi);
    Mono(wj, wi, m' - m);
    Spread(m', m, wj);
    Spread(m', m, wi);
  }

  lemma LayerAt(c: Constants, m: real, k: nat)
    requires Sane(c)
    ensures Layer(c.(cpu := m), k) == Max(CpuAt(c, m, k), Link(c, k)) + Extra(c, k)
  {
  }

  // More CPU work raises the cost of streaming more by no more than that of streaming less.
  lemma CpuWorkFavoursStreaming(c: Constants, m: real, m': real, i: nat, j: nat)
    requires Sane(c) && 0.0 <= m <= m' && i <= j
    ensures Layer(c.(cpu := m'), j) - Layer(c.(cpu := m), j) <= Layer(c.(cpu := m'), i) - Layer(c.(cpu := m), i)
  {
    CpuDifferences(c, m, m', i, j);
    LinkGrows(c, i, j);
    LayerAt(c, m, i);
    LayerAt(c, m, j);
    LayerAt(c, m', i);
    LayerAt(c, m', j);
    MaxDifferences(CpuAt(c, m, i), CpuAt(c, m', i), Link(c, i), CpuAt(c, m, j), CpuAt(c, m', j), Link(c, j));
  }

  // Streaming pays with m of CPU work in the layer.
  ghost predicate Pays(c: Constants, m: real) { Chosen(c.(cpu := m)).k > 0 }

  lemma PaysGrowsWithCpu(c: Constants, m: real, m': real)
    requires Sane(c) && 0.0 <= m <= m' && Pays(c, m)
    ensures Pays(c, m')
  {
    var before, after := c.(cpu := m), c.(cpu := m');
    StreamsIffSomeCountGains(before);
    StreamsIffSomeCountGains(after);
    var k: nat :| 0 < k <= before.Most() && Gains(before, k);
    CpuWorkFavoursStreaming(c, m, m', 0, k);
    assert after.Most() == before.Most() && Gains(after, k);
  }

  // With no positive CPU work there is nothing to gain.
  lemma NoWorkNeverPays(c: Constants, m: real)
    requires Sane(c) && m <= 0.0
    ensures !Pays(c, m)
  {
    var d := c.(cpu := m);
    StreamsIffSomeCountGains(d);
    IdleLayerIsFree(c, m);
    forall k: nat | 0 < k <= d.Most() ensures !Gains(d, k) {
      LayerIsNotNegative(c, m, k);
    }
  }

  lemma IdleLayerIsFree(c: Constants, m: real)
    requires Sane(c) && m <= 0.0
    ensures Layer(c.(cpu := m), 0) <= 0.0
  {
    LayerAt(c, m, 0);
    CpuIsShare(c, m, 0);
    SharesShrink(c, 0, 0);
    Mono(m, 0.0, Share(c, 0));
    NothingStreamed(c);
  }

  lemma LayerIsNotNegative(c: Constants, m: real, k: nat)
    requires Sane(c)
    ensures Layer(c.(cpu := m), k) >= 0.0
  {
    LayerAt(c, m, k);
    LinkGrows(c, 0, k);
    ExtraGrows(c, k);
  }

  lemma ExtraGrows(c: Constants, k: nat)
    requires Sane(c)
    ensures Extra(c, k) >= 0.0 && Extra(c, 0) == 0.0
  {
    Mono(0.0, k as real, c.bytes);
    Mono(0.0, Gb(c, k), c.contention);
    Mono(0.0, k as real, c.gpu);
  }

  // ---- the break-even point ------------------------------------------------------------------------------

  ghost function Pow2(n: nat): real { if n == 0 then 1.0 else 2.0 * Pow2(n - 1) }

  const HALVINGS := 60

  ghost predicate AlwaysFrom(c: Constants, r: real) { forall m | m >= r :: Pays(c, m) }

  ghost predicate NeverUpTo(c: Constants, r: real) { forall m | m <= r :: !Pays(c, m) }

  // What sixty halvings leave of an interval of length hi.
  ghost predicate IsGap(gap: real, hi: real, halvings: nat) { Times(gap, Pow2(halvings)) == hi }

  // r pays and so does everything above it, and at r minus the remaining gap and below
  // nothing does.
  ghost predicate IsBreakEven(c: Constants, hi: real, r: real) {
    0.0 < r <= hi && AlwaysFrom(c, r) && exists gap: real :: IsGap(gap, hi, 60) && NeverUpTo(c, r - gap)
  }

  method BreakEven(c: Constants, hi0: real) returns (r: Ms)
    ensures r == Inf <==> c.link <= 0.0 || c.distinct <= 0.0 || c.units <= 0.0 || !Pays(c, hi0)
    ensures r.Fin? && Sane(c) ==> IsBreakEven(c, hi0, r.ms)
  {
    if c.link <= 0.0 || c.distinct <= 0.0 || c.units <= 0.0 { return Inf; }
    var at := ChooseK(c.(cpu := hi0));
    if at.k == 0 { return Inf; }
    var lo, hi := Bisect(c, hi0);
    if Sane(c) { Converged(c, hi0, lo, hi); }
    r := Fin(hi);
  }

  // The bracket a bisection keeps: it never pays at lo, and pays at hi.
  ghost predicate Bracket(c: Constants, lo: real, hi: real, hi0: real, halvings: nat) {
    0.0 <= lo < hi <= hi0 && !Pays(c, lo) && Pays(c, hi) && IsGap(hi - lo, hi0, halvings)
  }

  method Bisect(c: Constants, hi0: real) returns (lo: real, hi: real)
    requires Pays(c, hi0)
    ensures Sane(c) ==> Bracket(c, lo, hi, hi0, HALVINGS)
  {
    lo, hi := 0.0, hi0;
    if Sane(c) { Starts(c, hi0); }
    for i := 0 to HALVINGS
      invariant Sane(c) ==> Bracket(c, lo, hi, hi0, i)
    {
      lo, hi := Halve(c, lo, hi, hi0, i);
    }
  }

  // One halving, decided by the optimiser itself.
  method Halve(c: Constants, lo: real, hi: real, ghost hi0: real, ghost i: nat) returns (lo': real, hi': real)
    ensures Sane(c) && Bracket(c, lo, hi, hi0, i) ==> Bracket(c, lo', hi', hi0, i + 1)
  {
    var mid := (lo + hi) / 2.0;
    var best := ChooseK(c.(cpu := mid));
    if best.k > 0 { lo', hi' := lo, mid; } else { lo', hi' := mid, hi; }
    Halved(hi - lo, hi' - lo', hi0, i);
  }

  lemma Starts(c: Constants, hi: real)
    requires Sane(c) && Pays(c, hi)
    ensures Bracket(c, 0.0, hi, hi, 0)
  {
    NoWorkNeverPays(c, 0.0);
    if hi <= 0.0 { NoWorkNeverPays(c, hi); }
  }

  lemma Halved(gap: real, half: real, hi: real, i: nat)
    requires half == gap / 2.0
    ensures IsGap(gap, hi, i) ==> IsGap(half, hi, i + 1)
  {
    Doubled(half, Pow2(i));
  }

  lemma Doubled(half: real, p: real)
    ensures Times(half, 2.0 * p) == Times(2.0 * half, p)
  {
  }

  lemma Converged(c: Constants, hi0: real, lo: real, hi: real)
    requires Sane(c) && Bracket(c, lo, hi, hi0, HALVINGS)
    ensures IsBreakEven(c, hi0, hi)
  {
    forall m | m >= hi ensures Pays(c, m) { PaysGrowsWithCpu(c, hi, m); }
    forall m | m <= lo ensures !Pays(c, m) {
      if m <= 0.0 {
        NoWorkNeverPays(c, m);
      } else if Pays(c, m) {
        PaysGrowsWithCpu(c, m, lo);
      }
    }
    assert AlwaysFrom(c, hi) && NeverUpTo(c, hi - (hi - lo));
    assert IsGap(hi - lo, hi0, HALVINGS);
  }

  // ---- what the tests and comments claim beyond that ------------------------------------------------

  ghost predicate IsLeastMinimiser(c: Constants, k: nat)
    requires c.link > 0.0
  {
    && k <= c.Most()
    && (forall j: nat | j <= c.Most() :: Layer(c, k) <= Layer(c, j))
    && (forall j: nat | j < k :: Layer(c, k) < Layer(c, j))
  }

  // Without the tolerance more CPU work would never stream less.
  lemma LeastMinimiserGrowsWithCpu(c: Constants, m: real, m': real, i: nat, j: nat)
    requires Sane(c) && 0.0 <= m <= m'
    requires IsLeastMinimiser(c.(cpu := m), i) && IsLeastMinimiser(c.(cpu := m'), j)
    ensures i <= j
  {
    if j < i {
      CpuWorkFavoursStreaming(c, m, m', j, i);
    }
  }

  // No count from i on undercuts, by more than the tolerance, the best of those below i.
  ghost predicate NearTie(c: Constants, i: nat)
    requires c.link > 0.0
  {
    0 < i <= c.Most() && forall r: nat | i <= r <= c.Most() :: Layer(c, r) >= Layer(c, Best(c, i - 1).k) - TOLERANCE
  }

  lemma {:induction false} BestStands(c: Constants, n: nat)
    requires c.link > 0.0 && n <= c.Most()
    ensures Best(c, n).k <= n && Best(c, Best(c, n).k) == Best(c, n)
  {
    if n > 0 { BestStands(c, n - 1); }
  }

  lemma BestStep(c: Constants, n: nat)
    requires c.link > 0.0 && 0 < n <= c.Most()
    ensures Best(c, n - 1).k < n
    ensures if Layer(c, n) < Layer(c, Best(c, n - 1).k) - TOLERANCE then Best(c, n).k == n
            else Best(c, n) == Best(c, n - 1)
  {
    BestIsNearMinimal(c, n - 1);
  }

  lemma {:induction false} StaysBelow(c: Constants, i: nat, n: nat)
    requires c.link > 0.0 && 0 < i && i - 1 <= n <= c.Most()
    ensures Best(c, n).k < i <==> forall r: nat | i <= r <= n :: Layer(c, r) >= Layer(c, Best(c, i - 1).k) - TOLERANCE
    ensures Best(c, n).k < i ==> Best(c, n) == Best(c, i - 1)
  {
    if n >= i {
      StaysBelow(c, i, n - 1);
      BestStep(c, n);
    } else {
      BestStands(c, n);
    }
  }

  // With it, the count chosen at c lies below i exactly on a near tie at c.
  lemma BelowIffNearTie(c: Constants, i: nat)
    requires c.link > 0.0 && 0 < i <= c.Most()
    ensures Chosen(c).k < i <==> NearTie(c, i)
  {
    StaysBelow(c, i, c.Most());
  }

  // So more CPU work streams less if and only if the heavier layer has a near tie at the
  // lighter one's count, and then the two counts cost the heavier layer the same up to
  // the tolerance, the larger one strictly less.
  lemma CountDropsIff(c: Constants, m: real, m': real)
    requires Sane(c) && 0.0 <= m <= m'
    ensures var i, j := Chosen(c.(cpu := m)).k, Chosen(c.(cpu := m')).k;
            && (j < i <==> NearTie(c.(cpu := m'), i))
            && (j < i ==> 0.0 < Layer(c.(cpu := m'), j) - Layer(c.(cpu := m'), i) <= TOLERANCE)
  {
    var before, after := c.(cpu := m), c.(cpu := m');
    BestIsNearMinimal(before, before.Most());
    BestIsNearMinimal(after, after.Most());
    var i, j := Chosen(before).k, Chosen(after).k;
    if i > 0 { BelowIffNearTie(after, i); }
    if j < i { CpuWorkFavoursStreaming(c, m, m', j, i); }
  }

  // No larger count is cheaper than a smaller one by the tolerance or less.
  ghost predicate NoNearTies(c: Constants)
    requires c.link > 0.0
  {
    forall j: nat, i: nat | j < i <= c.Most() && Layer(c, i) < Layer(c, j) :: Layer(c, i) < Layer(c, j) - TOLERANCE
  }

  // A layer without such pairs never streams less than any lighter one.
  lemma ChosenGrowsWithoutTies(c: Constants, m: real, m': real)
    requires Sane(c) && 0.0 <= m <= m' && NoNearTies(c.(cpu := m'))
    ensures Chosen(c.(cpu := m)).k <= Chosen(c.(cpu := m')).k
  {
    CountDropsIff(c, m, m');
    BestIsNearMinimal(c.(cpu := m), c.Most());
  }

  // A drop need not be by one: here seven experts add up to a gain above the tolerance
  // before, and the first four do after.
  lemma ChosenCountCanDrop(c: Constants)
    requires c == Constants(8.0000000012, 8.0, 8.0, 0.001, 1000.0, 0.0, 1.0, 0.0)
    ensures Sane(c) && Chosen(c).k == 7 && Chosen(c.(cpu := 8.00000000208)).k == 4
  {
    SevenGain();
    FirstAbove(c, 0.00000000015, 7);
    FourGain();
    FirstAbove(c.(cpu := 8.00000000208), 0.00000000026, 4);
  }

  lemma SevenGain()
    ensures GainsFrom(0.00000000015, 7) && 8.0 + 8.0 * 0.00000000015 == 8.0000000012
  {
  }

  lemma FourGain()
    ensures GainsFrom(0.00000000026, 4) && 8.0 + 8.0 * 0.00000000026 == 8.00000000208
  {
  }

  // Of counts up to seven gaining g each, i is the first to gain more than the tolerance
  // and the rest gain no more than it again.
  ghost predicate GainsFrom(g: real, i: nat) {
    && 0.0 < g < 0.0001 && 0 < i < 8 && Times((i - 1) as real, g) <= TOLERANCE < Times(i as real, g)
    && Times((7 - i) as real, g) <= TOLERANCE
  }

  // Eight experts of one unit each, streaming any but the last gaining g.
  lemma FirstAbove(c: Constants, g: real, i: nat)
    requires c == Constants(8.0 + 8.0 * g, 8.0, 8.0, 0.001, 1000.0, 0.0, 1.0, 0.0) && GainsFrom(g, i)
    ensures Sane(c) && Chosen(c).k == i
  {
    EightExperts(c, g);
    forall r: nat | 1 <= r < i ensures !Gains(c, r) { EarlierGain(r, i, g); }
    forall r: nat | i < r <= 8 ensures Layer(c, r) >= Layer(c, i) - TOLERANCE {
      if r < 8 { LaterGain(r, i, g); } else { TimesNotNegative(i as real, g); }
    }
    assert Times(0.0, g) == 0.0;
    FirstCheaper(c, i);
  }

  lemma EarlierGain(r: nat, i: nat, g: real)
    requires r < i && GainsFrom(g, i)
    ensures Times(r as real, g) <= TOLERANCE
  {
    TimesMono(r as real, (i - 1) as real, g);
  }

  lemma LaterGain(r: nat, i: nat, g: real)
    requires i < r < 8 && GainsFrom(g, i)
    ensures Times(r as real, g) - Times(i as real, g) <= TOLERANCE
  {
    TimesMono(r as real - i as real, (7 - i) as real, g);
    Spread(r as real, i as real, g);
  }

  lemma TimesMono(a: real, b: real, n: real)
    requires a <= b && n >= 0.0
    ensures Times(a, n) <= Times(b, n)
  {
    Mono(a, b, n);
  }

  lemma TimesNotNegative(a: real, b: real)
    requires a >= 0.0 && b >= 0.0
    ensures Times(a, b) >= 0.0
  {
  }

  // The first count to undercut streaming nothing stays chosen if none undercuts it.
  lemma FirstCheaper(c: Constants, i: nat)
    requires c.link > 0.0 && 0 < i <= c.Most() && Gains(c, i)
    requires forall r: nat | 1 <= r < i :: !Gains(c, r)
    requires forall r: nat | i < r <= c.Most() :: Layer(c, r) >= Layer(c, i) - TOLERANCE
    ensures Chosen(c).k == i
  {
    NoneBefore(c, i);
    BestStep(c, i);
    NoneAfter(c, i);
  }

  lemma NoneBefore(c: Constants, i: nat)
    requires c.link > 0.0 && 0 < i <= c.Most() && forall r: nat | 1 <= r < i :: !Gains(c, r)
    ensures Best(c, i - 1).k == 0
  {
    assert Best(c, 0).k == 0;
    StaysBelow(c, 1, i - 1);
    forall r: nat | 1 <= r <= i - 1 ensures Layer(c, r) >= Layer(c, 0) - TOLERANCE { assert !Gains(c, r); }
  }

  lemma NoneAfter(c: Constants, i: nat)
    requires c.link > 0.0 && i <= c.Most() && Best(c, i).k == i
    requires forall r: nat | i < r <= c.Most() :: Layer(c, r) >= Layer(c, i) - TOLERANCE
    ensures Chosen(c).k == i
  {
    StaysBelow(c, i + 1, c.Most());
  }

  lemma EightExperts(c: Constants, g: real)
    requires c == Constants(8.0 + 8.0 * g, 8.0, 8.0, 0.001, 1000.0, 0.0, 1.0, 0.0) && 0.0 < g < 0.0001
    ensures c.Most() == 8 && Sane(c) && Best(c, 0).k == 0
    ensures forall k: nat | k < 8 :: Layer(c, k) == c.cpu - Times(k as real, g)
    ensures Layer(c, 8) == 8.008
  {
    assert c.Most() == 8;
    forall k: nat | k <= 8 ensures Layer(c, k) == if k < 8 then c.cpu - Times(k as real, g) else 8.008 {
      EightLayer(c, g, k);
    }
  }

  lemma EightLayer(c: Constants, g: real, k: nat)
    requires c == Constants(8.0 + 8.0 * g, 8.0, 8.0, 0.001, 1000.0, 0.0, 1.0, 0.0) && 0.0 < g < 0.0001 && k <= 8
    ensures Layer(c, k) == if k < 8 then c.cpu - Times(k as real, g) else 8.008
  {
    var x := k as real;
    EightTerms(c, g, k);
    if k < 8 { EightBusy(g, x); }
  }

  lemma EightTerms(c: Constants, g: real, k: nat)
    requires c == Constants(8.0 + 8.0 * g, 8.0, 8.0, 0.001, 1000.0, 0.0, 1.0, 0.0) && 0.0 < g < 0.0001 && k <= 8
    ensures Cpu(c, k) == if k < 8 then Times(1.0 + g, 8.0 - k as real) else 0.0
    ensures Link(c, k) == k as real * 0.001 && Extra(c, k) == k as real
  {
    assert c.Reuse() == 1.0 && c.PerUnit() == 1.0 + g;
    assert UnitsLeft(c, k) == 8.0 - k as real;
    assert Gb(c, k) == k as real * 0.001;
  }

  lemma EightBusy(g: real, x: real)
    requires 0.0 < g && 0.0 <= x <= 7.0
    ensures Times(1.0 + g, 8.0 - x) == 8.0 + 8.0 * g - x - Times(x, g) && Times(1.0 + g, 8.0 - x) >= x * 0.001
  {
    Mono(1.0, 1.0 + g, 8.0 - x);
  }

  // A faster link only lowers the cost of streaming, the more the more is streamed.
  lemma FasterLinkFavoursStreaming(c: Constants, link: real, k: nat)
    requires Sane(c) && c.link <= link
    ensures Layer(c.(link := link), k) <= Layer(c, k) && Layer(c.(link := link), 0) == Layer(c, 0)
  {
    LinkOnly(c, link, k);
    LinkOnly(c, link, 0);
    NothingStreamed(c);
    NothingStreamed(c.(link := link));
  }

  lemma LinkOnly(c: Constants, link: real, k: nat)
    requires Sane(c) && c.link <= link
    ensures var d := c.(link := link);
            Link(d, k) <= Link(c, k) && Cpu(d, k) == Cpu(c, k) && Extra(d, k) == Extra(c, k)
  {
    var d := c.(link := link);
    Mono(0.0, k as real, c.bytes);
    Slower(Gb(c, k), c.link, link);
    assert d.Reuse() == c.Reuse() && d.PerUnit() == c.PerUnit();
    assert UnitsLeft(d, k) == UnitsLeft(c, k);
  }

  lemma Slower(g: real, a: real, b: real)
    requires g >= 0.0 && 0.0 < a <= b
    ensures g / b <= g / a
  {
    assert g / a - g / b == g * (b - a) / (a * b);
  }

  lemma ExtraMono(c: Constants, i: nat, j: nat)
    requires Sane(c) && i <= j
    ensures Extra(c, i) <= Extra(c, j)
  {
    Mono(i as real, j as real, c.bytes);
    Mono(Gb(c, i), Gb(c, j), c.contention);
    Mono(i as real, j as real, c.gpu);
  }

  // A count that a larger one beats waits for the CPU, so a faster link leaves its cost
  // as it is.
  lemma BeatenIsCpuBound(c: Constants, link: real, j: nat, i: nat)
    requires Sane(c) && c.link <= link && j <= i && Layer(c, i) < Layer(c, j)
    ensures Layer(c.(link := link), j) == Layer(c, j)
  {
    LinkGrows(c, j, i);
    ExtraMono(c, j, i);
    LinkOnly(c, link, j);
  }

  lemma {:induction false} SameBelow(c: Constants, d: Constants, n: nat)
    requires c.link > 0.0 && d.link > 0.0 && n <= c.Most() && d.Most() == c.Most()
    requires forall j: nat | j <= n :: Layer(d, j) == Layer(c, j)
    ensures Best(d, n).k == Best(c, n).k && Best(d, n).layer == Best(c, n).layer
  {
    if n > 0 { SameBelow(c, d, n - 1); }
  }

  lemma {:induction false} BestGrows(c: Constants, i: nat, n: nat)
    requires c.link > 0.0 && i <= n <= c.Most()
    ensures Best(c, i).k <= Best(c, n).k
  {
    BestIsNearMinimal(c, i);
    if n > i { BestGrows(c, i, n - 1); BestIsNearMinimal(c, n - 1); }
  }

  // The tests' other claim holds as it stands: a faster link never streams less.
  lemma ChosenGrowsWithLink(c: Constants, link: real)
    requires Sane(c) && c.link <= link
    ensures Chosen(c).k <= Chosen(c.(link := link)).k
  {
    var d, i := c.(link := link), Chosen(c).k;
    BestIsNearMinimal(c, c.Most());
    BestStands(c, c.Most());
    if i > 0 {
      forall j: nat | j <= i - 1 ensures Layer(d, j) == Layer(c, j) { BeatenIsCpuBound(c, link, j, i); }
      SameBelow(c, d, i - 1);
      BestIsNearMinimal(c, i - 1);
      FasterLinkFavoursStreaming(c, link, i);
      assert Best(d, i).k == i;
    }
    BestGrows(d, i, d.Most());
  }

  // And so does the exact minimiser.
  lemma LeastMinimiserGrowsWithLink(c: Constants, link: real, i: nat, j: nat)
    requires Sane(c) && c.link <= link
    requires IsLeastMinimiser(c, i) && IsLeastMinimiser(c.(link := link), j)
    ensures i <= j
  {
    if j < i {
      BeatenIsCpuBound(c, link, j, i);
      FasterLinkFavoursStreaming(c, link, i);
    }
  }

  lemma PaysGrowsWithLink(c: Constants, link: real)
    requires Sane(c) && c.link <= link && Chosen(c).k > 0
    ensures Chosen(c.(link := link)).k > 0
  {
    var d := c.(link := link);
    StreamsIffSomeCountGains(c);
    StreamsIffSomeCountGains(d);
    var k: nat :| 0 < k <= c.Most() && Gains(c, k);
    FasterLinkFavoursStreaming(c, link, k);
    assert d.Most() == c.Most() && Gains(d, k);
  }

  // Streaming one expert pays once the CPU work is large enough.
  lemma EnoughWorkPays(c: Constants) returns (m: real)
    requires Sane(c) && c.Most() >= 1
    ensures m > 0.0 && Pays(c, m)
  {
    var w, e, l := Share(c, 1), Extra(c, 1), Link(c, 1);
    OneExpertHelps(c);
    LinkGrows(c, 0, 1);
    ExtraGrows(c, 1);
    m := (e + TOLERANCE) / (1.0 - w) + l + e + 1.0;
    Divided(0.0, e + TOLERANCE, 1.0 - w);
    OutgrowsTransfer(m, w, c.fixed, Emptied(c, 1), l, e);
    LayerAt(c, m, 1);
    CpuIsShare(c, m, 1);
    BusyLayer(c, m);
    var d := c.(cpu := m);
    StreamsIffSomeCountGains(d);
    assert Gains(d, 1);
  }

  lemma BusyLayer(c: Constants, m: real)
    requires Sane(c) && m > 0.0
    ensures Layer(c.(cpu := m), 0) == m + c.fixed
  {
    LayerAt(c, m, 0);
    CpuIsShare(c, m, 0);
    NothingStreamed(c);
    TimesOne(m);
    assert CpuAt(c, m, 0) == m + c.fixed;
  }

  // Streaming nothing moves nothing and leaves the CPU its whole share.
  lemma NothingStreamed(c: Constants)
    requires Sane(c)
    ensures Link(c, 0) == 0.0 && Extra(c, 0) == 0.0 && Share(c, 0) == 1.0 && !Emptied(c, 0)
  {
    UnitsShrink(c, 0, 0);
    ExtraGrows(c, 0);
    ZeroOver(c.link);
    Itself(c.units);
    assert Gb(c, 0) == 0.0;
  }

  lemma ZeroOver(d: real)
    requires d > 0.0
    ensures 0.0 / d * 1000.0 == 0.0
  {
    assert 0.0 / d == 0.0;
  }

  lemma TimesOne(m: real)
    ensures Times(m, 1.0) == m
  {
  }

  lemma OutgrowsTransfer(m: real, w: real, fixed: real, emptied: bool, l: real, e: real)
    requires 0.0 <= w < 1.0 && fixed >= 0.0 && l >= 0.0 && e >= 0.0
    requires m == (e + TOLERANCE) / (1.0 - w) + l + e + 1.0 && m > 0.0
    ensures Max(Work(m, w, fixed, emptied), l) + e < m + fixed - TOLERANCE
  {
    Divided(0.0, e + TOLERANCE, 1.0 - w);
    LargeGain(m, (e + TOLERANCE) / (1.0 - w), 1.0 - w, e + TOLERANCE);
    assert 1.0 - (1.0 - w) == w;
  }

  lemma OneExpertHelps(c: Constants)
    requires Sane(c)
    ensures 0.0 <= Share(c, 1) < 1.0
  {
    SharesShrink(c, 0, 1);
    Strict(0.0, c.units, c.distinct);
    assert UnitsLeft(c, 1) < c.units;
    Strict(UnitsLeft(c, 1), c.units, c.units);
    Itself(c.units);
  }

  lemma Strict(a: real, b: real, d: real)
    requires a < b && d > 0.0
    ensures a / d < b / d
  {
    assert b / d - a / d == (b - a) / d;
    assert (b - a) / d > 0.0;
  }

  lemma LargeGain(m: real, q: real, gain: real, need: real)
    requires gain > 0.0 && q == need / gain && m > q
    ensures Times(m, 1.0 - gain) < m - need
  {
    assert q * gain == need;
    assert (m - q) * gain > 0.0;
  }

  // So an infinite break-even does not mean that no amount of CPU work pays: it means
  // that the search's upper end does not, or that no whole expert is routed.
  lemma InfiniteBreakEvenMeans(c: Constants, hi: real)
    requires Sane(c) && !Pays(c, hi)
    ensures (forall m :: !Pays(c, m)) <==> c.Most() == 0
    ensures c.Most() > 0 ==> exists m :: m > hi && Pays(c, m)
  {
    if c.Most() > 0 {
      var m := EnoughWorkPays(c);
      if m <= hi { PaysGrowsWithCpu(c, m, hi); }
    } else {
      forall m ensures !Pays(c, m) {
        assert Best(c.(cpu := m), 0).k == 0;
      }
    }
  }

  // At the default upper end of 10000 ms a slow enough link does this.
  lemma SlowLinkLooksHopeless(c: Constants)
    requires c == Constants(1.0, 1.0, 1.0, 1.0, 0.01, 0.0, 0.0, 0.0)
    ensures Sane(c) && !Pays(c, 10000.0) && exists m :: Pays(c, m)
  {
    var d := c.(cpu := 10000.0);
    assert d.Most() == 1;
    OneExpert(d, 100.0);
    StreamsIffSomeCountGains(d);
    var m := EnoughWorkPays(c);
  }

  // One expert of one unit and one gigabyte, over a link that takes t seconds for it.
  lemma OneExpert(c: Constants, t: real)
    requires c == Constants(c.cpu, 1.0, 1.0, 1.0, c.link, 0.0, 0.0, 0.0) && c.cpu > 0.0 && c.link > 0.0
    requires c.link * t == 1.0
    ensures Layer(c, 0) == c.cpu && Layer(c, 1) == Max(0.0, t * 1000.0)
  {
    BusyLayer(c, c.cpu);
    assert c.(cpu := c.cpu) == c;
    OneCpu(c);
    OneLink(c, t);
  }

  lemma OneCpu(c: Constants)
    requires c == Constants(c.cpu, 1.0, 1.0, 1.0, c.link, 0.0, 0.0, 0.0) && c.link > 0.0
    ensures Cpu(c, 1) == 0.0
  {
    assert c.Reuse() == 1.0;
    assert UnitsLeft(c, 1) == 0.0;
  }

  lemma OneLink(c: Constants, t: real)
    requires c == Constants(c.cpu, 1.0, 1.0, 1.0, c.link, 0.0, 0.0, 0.0) && c.link > 0.0
    requires c.link * t == 1.0
    ensures Link(c, 1) == t * 1000.0 && Extra(c, 1) == 0.0
  {
    assert Gb(c, 1) == 1.0;
    Inverse(c.link, t);
  }

  lemma Inverse(d: real, t: real)
    requires d > 0.0 && d * t == 1.0
    ensures 1.0 / d == t
  {
  }
}
