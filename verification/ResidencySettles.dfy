// Refreshes on scores that no longer change: they stop swapping after a while, from any
// residents, if and only if the hysteresis margin is not negative.

module ResidencySettles {
  import opened Ranking
  import opened RealArith
  import opened TorchSelect
  import opened ResidencyRefresh

  // What topk picks: any order on ties, but a function of its argument.
  type TopSet = (seq<real>, nat) -> set<nat>

  ghost predicate IsTopK(topk: TopSet) {
    forall eff: seq<real>, cap: nat | cap <= |eff| :: IsTopSet(eff, cap, topk(eff, cap))
  }

  // The fixed part of a simulation.
  datatype Setup = Setup(topk: TopSet, score: seq<real>, bonus: real, cost: real, maxSwaps: int)
  {
    ghost predicate Valid() { IsTopK(topk) && maxSwaps > 0 }

    function Margin(): real { bonus + cost }

    function Eff(mask: seq<bool>): seq<real>
      requires |mask| == |score|
    {
      Effective(score, mask, bonus, cost)
    }
  }

  ghost predicate Refreshed(p: Setup, mask: seq<bool>, mask': seq<bool>, w: Round) {
    && IsRound(p.score, p.bonus, p.cost, p.maxSwaps, mask, mask', w)
    && w.top == p.topk(p.Eff(mask), |Residents(mask)|)
  }

  ghost predicate IsDriven(p: Setup, masks: seq<seq<bool>>, rounds: seq<Round>) {
    && |masks| == |rounds| + 1 && (forall i | 0 <= i < |masks| :: |masks[i]| == |p.score|)
    && forall i: nat | i < |rounds| :: RoundAt(p, masks, rounds, i)
  }

  ghost predicate RoundAt(p: Setup, masks: seq<seq<bool>>, rounds: seq<Round>, i: nat)
    requires |masks| == |rounds| + 1 && i < |rounds|
  {
    Refreshed(p, masks[i], masks[i + 1], rounds[i])
  }

  lemma RunOfFirst(p: Setup, masks: seq<seq<bool>>, rounds: seq<Round>, k: nat)
    requires IsDriven(p, masks, rounds) && k <= |rounds|
    ensures IsRun(p.score, p.bonus, p.cost, p.maxSwaps, masks[..k + 1], rounds[..k])
  {
    forall i: nat | i < k
      ensures IsRound(p.score, p.bonus, p.cost, p.maxSwaps, masks[..k + 1][i], masks[..k + 1][i + 1], rounds[..k][i])
    {
      assert RoundAt(p, masks, rounds, i);
    }
  }

  // No outsider is ahead of a resident by more than the margin.
  ghost predicate IsSettled(p: Setup, mask: seq<bool>) {
    && |mask| == |p.score|
    && forall a: nat, b: nat | a < |mask| && b < |mask| && mask[a] && !mask[b] :: p.score[b] <= p.score[a] + p.Margin()
  }

  ghost predicate Rests(p: Setup, mask: seq<bool>, mask': seq<bool>, w: Round) {
    w.came == [] && mask' == mask && IsSettled(p, mask)
  }

  // From round n on every run that starts at `mask` rests.
  ghost predicate SettlesBy(p: Setup, mask: seq<bool>, n: nat) {
    forall masks, rounds, i | IsDriven(p, masks, rounds) && masks[0] == mask && n <= i < |rounds| ::
      Rests(p, masks[i], masks[i + 1], rounds[i])
  }

  // ---- quiet rounds -----------------------------------------------------------------------

  lemma SameMask(mask: seq<bool>, mask': seq<bool>)
    requires |mask| == |mask'| && Residents(mask) == Residents(mask')
    ensures mask == mask'
  {
    forall e: nat | e < |mask| ensures mask[e] == mask'[e] {
      assert e in Residents(mask) <==> e in Residents(mask');
    }
  }

  lemma QuietRests(p: Setup, mask: seq<bool>, mask': seq<bool>, w: Round)
    requires p.Valid() && Refreshed(p, mask, mask', w) && w.came == []
    ensures Rests(p, mask, mask', w)
  {
    RefreshKeepsCount(p.Eff(mask), p.maxSwaps, Residents(mask), Residents(mask'), w.top, w.came, w.gone);
    assert SetOf(w.came) == {} && SetOf(w.gone) == {};
    SameMask(mask, mask');
    forall a: nat, b: nat | a < |mask| && b < |mask| && mask[a] && !mask[b]
      ensures p.score[b] <= p.score[a] + p.Margin()
    {
      QuietMeansSettled(p.score, mask, p.bonus, p.cost, p.maxSwaps, Residents(mask'), w.top, w.came, w.gone, a, b);
    }
  }

  // A refresh that swaps nothing is repeated for ever.
  lemma QuietStays(p: Setup, mask: seq<bool>, mask': seq<bool>, w: Round, mask'': seq<bool>, w': Round)
    requires p.Valid() && Refreshed(p, mask, mask', w) && Refreshed(p, mask', mask'', w') && w.came == []
    ensures w'.came == []
  {
    QuietRests(p, mask, mask', w);
    RefreshKeepsCount(p.Eff(mask), p.maxSwaps, Residents(mask), Residents(mask'), w.top, w.came, w.gone);
    RefreshKeepsCount(p.Eff(mask), p.maxSwaps, Residents(mask), Residents(mask''), w'.top, w'.came, w'.gone);
    assert w'.top == w.top;
  }

  lemma QuietNext(p: Setup, masks: seq<seq<bool>>, rounds: seq<Round>, i: nat)
    requires p.Valid() && |masks| == |rounds| + 1 && i + 1 < |rounds| && rounds[i].came == []
    requires RoundAt(p, masks, rounds, i) && RoundAt(p, masks, rounds, i + 1)
    ensures rounds[i + 1].came == []
  {
    QuietStays(p, masks[i], masks[i + 1], rounds[i], masks[i + 2], rounds[i + 1]);
  }

  lemma {:induction false} QuietFrom(p: Setup, masks: seq<seq<bool>>, rounds: seq<Round>, q: nat, i: nat)
    requires p.Valid() && IsDriven(p, masks, rounds) && q <= i < |rounds| && rounds[q].came == []
    ensures rounds[i].came == []
  {
    if q < i {
      QuietFrom(p, masks, rounds, q, i - 1);
      QuietNext(p, masks, rounds, i - 1);
    }
  }

  lemma QuietAt(p: Setup, masks: seq<seq<bool>>, rounds: seq<Round>, i: nat)
    requires p.Valid() && |masks| == |rounds| + 1 && i < |rounds| && rounds[i].came == []
    requires RoundAt(p, masks, rounds, i)
    ensures Rests(p, masks[i], masks[i + 1], rounds[i])
  {
    QuietRests(p, masks[i], masks[i + 1], rounds[i]);
  }

  // A bound on the swaps of any run bounds when it comes to rest.
  ghost predicate SwapsBounded(p: Setup, mask: seq<bool>, b: nat) {
    forall masks, rounds, k: nat | IsDriven(p, masks, rounds) && masks[0] == mask && k <= |rounds| ::
      Swaps(rounds, k) <= b
  }

  lemma BoundedSettles(p: Setup, mask: seq<bool>, b: nat)
    requires p.Valid() && SwapsBounded(p, mask, b)
    ensures SettlesBy(p, mask, b + 1)
  {
    forall masks, rounds, i | IsDriven(p, masks, rounds) && masks[0] == mask && b + 1 <= i < |rounds|
      ensures Rests(p, masks[i], masks[i + 1], rounds[i])
    {
      assert Swaps(rounds, b + 1) <= b;
      var q := QuietRoundExists(rounds, b + 1);
      QuietFrom(p, masks, rounds, q, i);
      QuietAt(p, masks, rounds, i);
    }
  }

  // ---- a positive margin ----------------------------------------------------------------------

  lemma {:induction false} SwapsPrefix(rounds: seq<Round>, k: nat, n: nat)
    requires k <= n <= |rounds|
    ensures Swaps(rounds[..n], k) == Swaps(rounds, k)
  {
    if k > 0 { SwapsPrefix(rounds, k - 1, n); }
  }

  lemma {:induction false} TimesIsProduct(k: nat, h: real)
    ensures ResidencyRefresh.Times(k, h) == k as real * h
  {
    if k > 0 {
      TimesIsProduct(k - 1, h);
      SumTimes((k - 1) as real, 1.0, h);
    }
  }

  // Some multiple of h passes x.
  lemma Passes(x: real, h: real) returns (b: nat)
    requires h > 0.0
    ensures forall k: nat | ResidencyRefresh.Times(k, h) <= x :: k <= b
  {
    b := if x < 0.0 then 0 else (x / h).Floor;
    forall k: nat | ResidencyRefresh.Times(k, h) <= x ensures k <= b {
      TimesIsProduct(k, h);
      Mono(0.0, k as real, h);
      Quotient(k as real, h, x);
    }
  }

  lemma Quotient(a: real, h: real, x: real)
    requires h > 0.0 && a * h <= x
    ensures a <= x / h
  {
    Divided(a * h, x, h);
    assert a * h / h == a;
  }

  lemma PositiveMarginBounds(p: Setup, mask: seq<bool>) returns (b: nat)
    requires p.Valid() && |mask| == |p.score| && p.Margin() > 0.0
    ensures SwapsBounded(p, mask, b)
  {
    b := Passes(Ceiling(p.score, |p.score|) - Total(p.score, Residents(mask), |p.score|), p.Margin());
    forall masks, rounds, k: nat | IsDriven(p, masks, rounds) && masks[0] == mask && k <= |rounds|
      ensures Swaps(rounds, k) <= b
    {
      RunOfFirst(p, masks, rounds, k);
      SwapsAreBounded(p.score, p.bonus, p.cost, p.maxSwaps, masks[..k + 1], rounds[..k]);
      SwapsPrefix(rounds, k, k);
    }
  }

  // ---- no margin ----------------------------------------------------------------------------------

  lemma EvenEffective(p: Setup, mask: seq<bool>, mask': seq<bool>)
    requires |mask| == |mask'| == |p.score| && p.Margin() == 0.0
    ensures p.Eff(mask) == p.Eff(mask')
  {
  }

  lemma RoundApproaches(p: Setup, mask: seq<bool>, mask': seq<bool>, w: Round)
    requires Refreshed(p, mask, mask', w)
    ensures |Residents(mask')| == |Residents(mask)|
    ensures |w.top - Residents(mask')| + |w.came| == |w.top - Residents(mask)|
  {
    var r, r' := Residents(mask), Residents(mask');
    RefreshKeepsCount(p.Eff(mask), p.maxSwaps, r, r', w.top, w.came, w.gone);
    SetOfSize(w.came);
    assert w.top - r == (w.top - r') + SetOf(w.came);
    assert (w.top - r') !! SetOf(w.came);
  }

  lemma SameCount(p: Setup, masks: seq<seq<bool>>, rounds: seq<Round>, k: nat)
    requires IsDriven(p, masks, rounds) && k <= |rounds|
    ensures |Residents(masks[k])| == |Residents(masks[0])|
  {
    forall i: nat | i < |rounds| ensures SameSize(masks[i], masks[i + 1]) {
      assert RoundAt(p, masks, rounds, i);
      RoundApproaches(p, masks[i], masks[i + 1], rounds[i]);
    }
    SameSizes(masks, k);
  }

  ghost predicate SameSize(mask: seq<bool>, mask': seq<bool>) { |Residents(mask')| == |Residents(mask)| }

  lemma {:induction false} SameSizes(masks: seq<seq<bool>>, k: nat)
    requires k < |masks| && forall i: nat | i + 1 < |masks| :: SameSize(masks[i], masks[i + 1])
    ensures |Residents(masks[k])| == |Residents(masks[0])|
  {
    if k > 0 {
      SameSizes(masks, k - 1);
      assert SameSize(masks[k - 1], masks[k]);
    }
  }

  // The round brings in as many of `top` as it swaps.
  ghost predicate Approaches(top: set<nat>, mask: seq<bool>, mask': seq<bool>, w: Round) {
    |top - Residents(mask')| + |w.came| == |top - Residents(mask)|
  }

  lemma EvenRound(p: Setup, masks: seq<seq<bool>>, rounds: seq<Round>, k: nat)
    requires p.Valid() && p.Margin() == 0.0 && IsDriven(p, masks, rounds) && k < |rounds|
    ensures Approaches(p.topk(p.Eff(masks[0]), |Residents(masks[0])|), masks[k], masks[k + 1], rounds[k])
  {
    SameCount(p, masks, rounds, k);
    EvenEffective(p, masks[0], masks[k]);
    assert RoundAt(p, masks, rounds, k);
    RoundApproaches(p, masks[k], masks[k + 1], rounds[k]);
  }

  // Each swap brings in one more of the same wanted set.
  lemma {:induction false} EvenSwaps(top: set<nat>, masks: seq<seq<bool>>, rounds: seq<Round>, k: nat)
    requires |masks| == |rounds| + 1 && k <= |rounds|
    requires forall i: nat | i < |rounds| :: Approaches(top, masks[i], masks[i + 1], rounds[i])
    ensures Swaps(rounds, k) + |top - Residents(masks[k])| == |top - Residents(masks[0])|
  {
    if k > 0 {
      EvenSwaps(top, masks, rounds, k - 1);
      assert Approaches(top, masks[k - 1], masks[k], rounds[k - 1]);
    }
  }

  lemma NoMarginBounds(p: Setup, mask: seq<bool>) returns (b: nat)
    requires p.Valid() && |mask| == |p.score| && p.Margin() == 0.0
    ensures SwapsBounded(p, mask, b)
  {
    var top := p.topk(p.Eff(mask), |Residents(mask)|);
    b := |top - Residents(mask)|;
    forall masks, rounds, k: nat | IsDriven(p, masks, rounds) && masks[0] == mask && k <= |rounds|
      ensures Swaps(rounds, k) <= b
    {
      forall i: nat | i < |rounds| ensures Approaches(top, masks[i], masks[i + 1], rounds[i]) {
        EvenRound(p, masks, rounds, i);
      }
      EvenSwaps(top, masks, rounds, k);
    }
  }

  // With no negative margin, refreshes come to rest from any residents, at a state where
  // no outsider is ahead by more than the margin.
  lemma RunSettles(p: Setup, mask: seq<bool>) returns (n: nat)
    requires p.Valid() && |mask| == |p.score| && p.Margin() >= 0.0
    ensures SettlesBy(p, mask, n)
  {
    var b: nat;
    if p.Margin() > 0.0 { b := PositiveMarginBounds(p, mask); } else { b := NoMarginBounds(p, mask); }
    BoundedSettles(p, mask, b);
    n := b + 1;
  }

  // ---- a negative margin -----------------------------------------------------------------------------

  // Two equal experts and one place for them.
  ghost function Side(i: nat): seq<bool> { [i % 2 == 0, i % 2 == 1] }

  ghost function Switch(i: nat): Round { Round({(i + 1) % 2}, [(i + 1) % 2], [i % 2]) }

  lemma SideSwitches(p: Setup, i: nat)
    requires p.Valid() && p.score == [0.0, 0.0] && p.Margin() < 0.0
    ensures Refreshed(p, Side(i), Side(i + 1), Switch(i))
  {
    var here, there := i % 2, (i + 1) % 2;
    assert Residents(Side(i)) == {here} && Residents(Side(i + 1)) == {there};
    PairRefreshed(p, Side(i), Side(i + 1), here, there);
  }

  lemma PairRefreshed(p: Setup, mask: seq<bool>, mask': seq<bool>, here: nat, there: nat)
    requires p.Valid() && p.score == [0.0, 0.0] && p.Margin() < 0.0 && |mask| == |mask'| == 2
    requires here < 2 && there == 1 - here && Residents(mask) == {here} && Residents(mask') == {there}
    ensures Refreshed(p, mask, mask', Round({there}, [there], [here]))
  {
    var eff := p.Eff(mask);
    assert here in Residents(mask) && there !in Residents(mask);
    OnlyTop(eff, p.topk(eff, 1), there);
    PairSwaps(eff, p.maxSwaps, there, here);
  }

  lemma OnlyTop(eff: seq<real>, top: set<nat>, e: nat)
    requires |eff| == 2 && e < 2 && eff[e] > eff[1 - e] && IsTopSet(eff, 1, top)
    ensures top == {e}
  {
    var x :| x in top;
    assert top == {x} by { SubsetSize({x}, top); }
    assert e in top;
  }

  lemma PairSwaps(eff: seq<real>, maxSwaps: int, comes: nat, goes: nat)
    requires |eff| == 2 && comes < 2 && goes == 1 - comes && eff[comes] > eff[goes] && maxSwaps > 0
    ensures IsRefresh(eff, maxSwaps, {goes}, {comes}, {comes}, [comes], [goes])
  {
    var top, r: set<nat> := {comes}, {goes};
    assert top - r == top && r - top == r;
    assert SetOf([comes]) == top && SetOf([goes]) == r;
    assert (r - r) + top == top;
    assert |top| == 1 && |r| == 1;
  }

  lemma SwitchRun(p: Setup, masks: seq<seq<bool>>, rounds: seq<Round>)
    requires p.Valid() && p.score == [0.0, 0.0] && p.Margin() < 0.0 && |masks| == |rounds| + 1
    requires forall i | 0 <= i < |masks| :: masks[i] == Side(i)
    requires forall i | 0 <= i < |rounds| :: rounds[i] == Switch(i)
    ensures IsDriven(p, masks, rounds)
  {
    forall i: nat | i < |rounds| ensures RoundAt(p, masks, rounds, i) {
      SideSwitches(p, i);
    }
  }

  // For ever, one is swapped for the other and back.
  lemma SwitchesForEver(p: Setup, n: nat)
    requires p.Valid() && p.score == [0.0, 0.0] && p.Margin() < 0.0
    ensures !SettlesBy(p, [true, false], n)
  {
    var masks := seq(n + 2, i requires 0 <= i < n + 2 => Side(i));
    var rounds := seq(n + 1, i requires 0 <= i < n + 1 => Switch(i));
    SwitchRun(p, masks, rounds);
    assert masks[0] == [true, false];
    assert rounds[n].came != [] && !Rests(p, masks[n], masks[n + 1], rounds[n]);
  }

  ghost predicate Settles(p: Setup, mask: seq<bool>) { exists n: nat :: SettlesBy(p, mask, n) }

  // Whatever the scores and the residents.
  ghost predicate AlwaysSettles(topk: TopSet, bonus: real, cost: real, maxSwaps: int) {
    forall score: seq<real>, mask: seq<bool> | |mask| == |score| ::
      Settles(Setup(topk, score, bonus, cost, maxSwaps), mask)
  }

  // For every topk, the simulator's refreshes always come to rest on unchanging scores if
  // and only if bonus and cost together are not negative.
  lemma AlwaysSettlesIff(topk: TopSet, bonus: real, cost: real, maxSwaps: int)
    requires IsTopK(topk) && maxSwaps > 0
    ensures AlwaysSettles(topk, bonus, cost, maxSwaps) <==> bonus + cost >= 0.0
  {
    if bonus + cost >= 0.0 {
      forall score: seq<real>, mask: seq<bool> | |mask| == |score|
        ensures Settles(Setup(topk, score, bonus, cost, maxSwaps), mask)
      {
        var n := RunSettles(Setup(topk, score, bonus, cost, maxSwaps), mask);
      }
    } else {
      var p := Setup(topk, [0.0, 0.0], bonus, cost, maxSwaps);
      forall n: nat ensures !SettlesBy(p, [true, false], n) { SwitchesForEver(p, n); }
      assert !Settles(p, [true, false]);
    }
  }
}
