// What the cost model charges, term by term, in the measured constants alone, and what the
// prediction built on it reports.

module StreamingCost {
  import opened RealArith
  import opened HybridPolicy

  // ---- the terms ----------------------------------------------------------------------

  // The CPU's part of a layer with k experts streamed: its work in proportion to the
  // distinct experts left to it, and its fixed cost unless none is.
  ghost predicate IsCpuMs(c: Constants, k: nat, x: real)
    requires c.distinct > 0.0
  {
    x == if k > 0 && k as real >= c.distinct then 0.0
         else c.cpu * ((c.distinct - k as real) / c.distinct) + if c.cpu > 0.0 then c.fixed else 0.0
  }

  // The link's: k experts' gigabytes at its rate, in milliseconds.
  ghost predicate IsLinkMs(c: Constants, k: nat, x: real) {
    x * c.link == k as real * c.bytes * 1000.0
  }

  lemma UnitsCancel(u: real, d: real, k: real)
    requires u > 0.0 && d > 0.0
    ensures (u - u / d * k) / u == (d - k) / d
    ensures u - u / d * k > 0.0 <==> k < d
  {
    var r := u / d;
    assert r > 0.0 && r * d == u;
    SumTimes(d - k, k, r);
    assert u - r * k == r * (d - k);
    Scaled(r, d - k, d);
    Signed(r, d - k);
  }

  lemma Scaled(r: real, a: real, d: real)
    requires r > 0.0 && d > 0.0
    ensures r * d > 0.0 && r * a / (r * d) == a / d
  {
    assert a / d * (r * d) == r * a by { assert a / d * d == a; }
  }

  lemma Signed(r: real, a: real)
    requires r > 0.0
    ensures r * a > 0.0 <==> a > 0.0
  {
  }

  lemma ShareIs(c: Constants, k: nat)
    requires Sane(c)
    ensures Emptied(c, k) <==> k > 0 && k as real >= c.distinct
    ensures !Emptied(c, k) ==> Share(c, k) == (c.distinct - k as real) / c.distinct
  {
    UnitsCancel(c.units, c.distinct, k as real);
    assert c.Reuse() == c.units / c.distinct;
  }

  lemma CpuMeans(c: Constants, k: nat)
    requires Sane(c)
    ensures IsCpuMs(c, k, Cpu(c, k))
  {
    ShareIs(c, k);
    CpuIsShare(c, c.cpu, k);
    assert c.(cpu := c.cpu) == c;
  }

  lemma LinkMeans(c: Constants, k: nat)
    requires c.link > 0.0
    ensures IsLinkMs(c, k, Link(c, k))
  {
    Returned(Gb(c, k), c.link);
  }

  lemma Returned(g: real, d: real)
    requires d > 0.0
    ensures g / d * 1000.0 * d == g * 1000.0
  {
    assert g / d * d == g;
  }

  lemma ExtraMeans(c: Constants, k: nat)
    ensures Extra(c, k) == k as real * (c.bytes * c.contention + c.gpu)
  {
  }

  // A layer costs the larger of the CPU's part and the link's, which overlap, plus each
  // streamed expert's contention and GPU time, which do not.
  lemma LayerMeans(c: Constants, k: nat) returns (cpu: real, link: real)
    requires Sane(c)
    ensures IsCpuMs(c, k, cpu) && IsLinkMs(c, k, link)
    ensures Layer(c, k) == Max(cpu, link) + k as real * (c.bytes * c.contention + c.gpu)
  {
    cpu, link := Cpu(c, k), Link(c, k);
    CpuMeans(c, k);
    LinkMeans(c, k);
    ExtraMeans(c, k);
  }

  // What is reported for a count: these terms, at the count cut to the experts there are.
  lemma CostReports(c: Constants, want: int)
    requires Sane(c)
    ensures var x := CostAt(c, want);
            && x.k == (if want < 0 then 0 else if want < c.Most() then want else c.Most())
            && IsCpuMs(c, x.k, x.cpu) && x.link.Fin? && IsLinkMs(c, x.k, x.link.ms)
            && x.extra == x.k as real * (c.bytes * c.contention + c.gpu)
            && x.layer == Fin(Max(x.cpu, x.link.ms) + x.extra)
  {
    var x := CostAt(c, want);
    CpuMeans(c, x.k);
    LinkMeans(c, x.k);
    ExtraMeans(c, x.k);
  }

  // ---- changing one constant --------------------------------------------------------------

  lemma SameButExtra(c: Constants, d: Constants, k: nat)
    requires c.link > 0.0 && d == c.(contention := d.contention, gpu := d.gpu)
    ensures Layer(d, k) - Layer(c, k) == Extra(d, k) - Extra(c, k)
  {
    assert d.Reuse() == c.Reuse() && d.PerUnit() == c.PerUnit() && UnitsLeft(d, k) == UnitsLeft(c, k);
    assert Cpu(d, k) == Cpu(c, k) && Link(d, k) == Link(c, k);
  }

  lemma ExtraIs(c: Constants, k: nat)
    ensures Extra(c, k) == Times(k as real * c.bytes, c.contention) + Times(k as real, c.gpu)
  {
  }

  lemma TimesDifference(g: real, x: real, y: real)
    ensures Times(g, y) - Times(g, x) == (y - x) * g
  {
  }

  lemma ContentionCosts(c: Constants, x: real, y: real, k: nat)
    requires c.link > 0.0
    ensures Layer(c.(contention := y), k) - Layer(c.(contention := x), k) == (y - x) * (k as real * c.bytes)
  {
    SameButExtra(c.(contention := x), c.(contention := y), k);
    ExtraIs(c.(contention := x), k);
    ExtraIs(c.(contention := y), k);
    TimesDifference(k as real * c.bytes, x, y);
  }

  lemma GpuTimeCosts(c: Constants, x: real, y: real, k: nat)
    requires c.link > 0.0
    ensures Layer(c.(gpu := y), k) - Layer(c.(gpu := x), k) == (y - x) * k as real
  {
    SameButExtra(c.(gpu := x), c.(gpu := y), k);
    ExtraIs(c.(gpu := x), k);
    ExtraIs(c.(gpu := y), k);
    TimesDifference(k as real, x, y);
  }

  // An expert that costs the GPU as much as the CPU's whole layer is never streamed.
  lemma CostlyExpertsStay(c: Constants)
    requires Sane(c) && c.cpu > 0.0 && c.bytes * c.contention + c.gpu >= c.cpu + c.fixed
    ensures Chosen(c).k == 0
  {
    StreamsIffSomeCountGains(c);
    BusyLayer(c, c.cpu);
    assert c.(cpu := c.cpu) == c;
    forall k: nat | 0 < k <= c.Most() ensures !Gains(c, k) {
      NoCheaperThanOne(c, k);
    }
  }

  lemma NoCheaperThanOne(c: Constants, k: nat)
    requires Sane(c) && k > 0
    ensures Layer(c, k) >= c.bytes * c.contention + c.gpu
  {
    LinkGrows(c, 0, k);
    ExtraMono(c, 1, k);
    OneExtra(c);
  }

  lemma OneExtra(c: Constants)
    ensures Extra(c, 1) == c.bytes * c.contention + c.gpu
  {
    assert Gb(c, 1) == c.bytes;
  }

  // ---- the prediction ----------------------------------------------------------------------

  // Its figures are the layer's cost before and after, over the layers of the step.
  lemma PredictionReads(c: Constants, layers: nat, stepMs: real)
    requires c.link > 0.0
    ensures var p, n := PredictStep(c, layers, stepMs), layers as real;
            && p.Prediction? && p.k == Chosen(c).k && p.before == stepMs
            && p.layerBefore == Layer(c, 0) && p.layerAfter == Layer(c, p.k)
            && Figures(p, p.layerBefore, p.layerAfter, n, stepMs)
  {
    BestIsNearMinimal(c, c.Most());
    var best := Chosen(c);
    PredictReads(best.k, Layer(c, 0), Layer(c, best.k), layers as real, stepMs, best.link.ms >= best.cpu);
  }

  ghost predicate Figures(p: Prediction, base: real, best: real, n: real, stepMs: real)
    requires p.Prediction?
  {
    && p.saved == (base - best) * n && p.after == Max(stepMs - base * n, 0.0) + best * n
    && (p.consistent <==> base * n <= stepMs)
    && if p.after > 0.0 then p.speedup.Fin? && p.speedup.ms * p.after == stepMs else p.speedup == Inf
  }

  lemma PredictReads(k: nat, base: real, best: real, n: real, stepMs: real, linkBound: bool)
    ensures var p := Predict(k, base, best, n, stepMs, linkBound);
            && p.Prediction? && p.k == k && p.before == stepMs && p.layerBefore == base && p.layerAfter == best
            && Figures(p, base, best, n, stepMs)
  {
    var after := Max(stepMs - Times(base, n), 0.0) + Times(best, n);
    if after > 0.0 { Quotient(stepMs, after); }
  }

  lemma Quotient(a: real, b: real)
    requires b > 0.0
    ensures Over(a, b) * b == a
  {
  }

  // Without any CPU work the layer would cost as much.
  ghost predicate CostsTheLink(c: Constants, k: nat, link: real)
    requires c.link > 0.0
  {
    Layer(c, k) == link + k as real * (c.bytes * c.contention + c.gpu)
  }

  // It calls the link the bound exactly when the layer would cost as much without its CPU
  // work: the link's part and the streamed experts' own costs make it up.
  lemma BoundMeans(c: Constants, layers: nat, stepMs: real) returns (link: real)
    requires c.link > 0.0
    ensures var p := PredictStep(c, layers, stepMs);
            && p.Prediction? && IsLinkMs(c, p.k, link)
            && (p.linkBound <==> CostsTheLink(c, p.k, link))
  {
    var k := BoundIs(c, layers, stepMs);
    link := LinkBoundAt(c, k);
  }

  lemma LinkBoundAt(c: Constants, k: nat) returns (link: real)
    requires c.link > 0.0
    ensures IsLinkMs(c, k, link)
    ensures Link(c, k) >= Cpu(c, k) <==> CostsTheLink(c, k, link)
  {
    link := Link(c, k);
    LinkMeans(c, k);
    ExtraMeans(c, k);
    BoundIsTheLarger(c, k);
  }

  lemma BoundIs(c: Constants, layers: nat, stepMs: real) returns (k: nat)
    requires c.link > 0.0
    ensures var p := PredictStep(c, layers, stepMs);
            p.Prediction? && p.k == k && p.linkBound == (Link(c, k) >= Cpu(c, k))
  {
    BestIsNearMinimal(c, c.Most());
    k := Chosen(c).k;
    PredictReads(k, Layer(c, 0), Layer(c, k), layers as real, stepMs, Link(c, k) >= Cpu(c, k));
  }

  lemma BoundIsTheLarger(c: Constants, k: nat)
    requires c.link > 0.0
    ensures Link(c, k) >= Cpu(c, k) <==> Layer(c, k) == Link(c, k) + Extra(c, k)
  {
  }
}
