// The adaptive residency simulator: which experts a layer keeps, and what a refresh
// may change.

module ResidencyRefresh {
  import opened Ranking
  import opened TorchSelect

  // Residents are favoured by the bonus, outsiders charged the promotion cost.
  function Effective(score: seq<real>, mask: seq<bool>, bonus: real, cost: real): (eff: seq<real>)
    requires |score| == |mask|
    ensures |eff| == |score|
    ensures forall e | 0 <= e < |eff| :: eff[e] == if mask[e] then score[e] + bonus else score[e] - cost
  {
    seq(|score|, e requires 0 <= e < |score| => if mask[e] then score[e] + bonus else score[e] - cost)
  }

  // A set of `cap` ids none of which is below an id left out: what topk returns, with
  // any order on ties.
  ghost predicate IsTopSet(eff: seq<real>, cap: nat, top: set<nat>) {
    && |top| == cap && (forall e | e in top :: e < |eff|)
    && forall a, b: nat | a in top && b < |eff| && b !in top :: eff[a] >= eff[b]
  }

  // One refresh from residents r to r': the best additions replace the worst
  // evictions, at most maxSwaps of them.
  ghost predicate IsRefresh(eff: seq<real>, maxSwaps: int, r: set<nat>, r': set<nat>,
                            top: set<nat>, came: seq<nat>, gone: seq<nat>) {
    && (forall e | e in r :: e < |eff|)
    && IsTopSet(eff, |r|, top)
    && IsSortedPrefix(eff, top - r, true, came) && IsSortedPrefix(eff, r - top, false, gone)
    && |came| == |gone| == SwapCount(maxSwaps, |top - r|, |r - top|)
    && r' == (r - SetOf(gone)) + SetOf(came)
  }

  function SwapCount(maxSwaps: int, additions: nat, evictions: nat): nat {
    var m := if additions < evictions then additions else evictions;
    if maxSwaps <= 0 then 0 else if maxSwaps < m then maxSwaps else m
  }

  // ---- what one refresh does ----------------------------------------------------------

  // A refresh exchanges as many as it evicts.
  lemma RefreshKeepsCount(eff: seq<real>, maxSwaps: int, r: set<nat>, r': set<nat>,
                          top: set<nat>, came: seq<nat>, gone: seq<nat>)
    requires IsRefresh(eff, maxSwaps, r, r', top, came, gone)
    ensures |r'| == |r|
    ensures |top - r| == |r - top|
    ensures |r' - r| == |came| && |r - r'| == |came|
    ensures |came| == if maxSwaps <= 0 then 0 else if maxSwaps < |top - r| then maxSwaps else |top - r|
  {
    SetOfSize(came);
    SetOfSize(gone);
    ExchangeSize(r, SetOf(came), SetOf(gone));
    DifferenceSize(top, r);
    DifferenceSize(r, top);
    assert r * top == top * r;
  }

  lemma ExchangeSize(r: set<nat>, came: set<nat>, gone: set<nat>)
    requires came !! r && gone <= r
    ensures |(r - gone) + came| == |r| - |gone| + |came|
    ensures ((r - gone) + came) - r == came && r - ((r - gone) + came) == gone
  {
    assert |r - gone| == |r| - |gone|;
  }

  lemma DifferenceSize(a: set<nat>, b: set<nat>)
    ensures |a - b| == |a| - |a * b|
  {
    assert a == (a - b) + (a * b);
  }

  // The best outsiders come first and the worst residents go first: no wanted outsider left
  // waiting scores above one that came, and no unwanted resident spared below one that went.
  lemma BestSwapsFirst(score: seq<real>, mask: seq<bool>, bonus: real, cost: real, maxSwaps: int, r': set<nat>,
                       top: set<nat>, came: seq<nat>, gone: seq<nat>, i: nat, x: nat)
    requires |score| == |mask| && i < |came|
    requires IsRefresh(Effective(score, mask, bonus, cost), maxSwaps, Residents(mask), r', top, came, gone)
    ensures |gone| == |came| && came[i] < |score| && gone[i] < |score|
    ensures x in top && !(x in r') && x < |score| ==> score[x] <= score[came[i]]
    ensures x in Residents(mask) && x in r' && x !in top && x < |score| ==> score[x] >= score[gone[i]]
  {
    var eff := Effective(score, mask, bonus, cost);
    assert came[i] in top && came[i] !in Residents(mask) && gone[i] in Residents(mask);
    if x in top && x !in r' {
      assert x in SetOf(gone) ==> x !in top;
      assert x in top - Residents(mask) && x !in came;
      assert eff[came[i]] >= eff[x];
    }
    if x in Residents(mask) && x in r' && x !in top {
      assert x in SetOf(came) ==> x in top;
      assert x in Residents(mask) - top && x !in gone;
      assert eff[gone[i]] <= eff[x];
    }
  }

  // Hysteresis: whoever comes in beats whoever goes out by the bonus plus the cost.
  lemma SwapNeedsMargin(score: seq<real>, mask: seq<bool>, bonus: real, cost: real, maxSwaps: int, r': set<nat>,
                        top: set<nat>, came: seq<nat>, gone: seq<nat>, i: nat, j: nat)
    requires |score| == |mask|
    requires IsRefresh(Effective(score, mask, bonus, cost), maxSwaps, Residents(mask), r', top, came, gone)
    requires i < |came| && j < |gone|
    ensures came[i] < |score| && came[i] !in Residents(mask) && gone[j] in Residents(mask) && gone[j] < |score|
    ensures score[came[i]] >= score[gone[j]] + (bonus + cost)
  {
    var eff := Effective(score, mask, bonus, cost);
    assert came[i] in top && gone[j] !in top;
    assert eff[came[i]] >= eff[gone[j]];
  }

  // With swaps enough for every addition, the residents become the wanted top set.
  lemma FullRefreshInstallsTop(eff: seq<real>, maxSwaps: int, r: set<nat>, r': set<nat>,
                               top: set<nat>, came: seq<nat>, gone: seq<nat>)
    requires IsRefresh(eff, maxSwaps, r, r', top, came, gone) && maxSwaps >= |top - r|
    ensures r' == top && IsTopSet(eff, |r|, r')
  {
    RefreshKeepsCount(eff, maxSwaps, r, r', top, came, gone);
    SetOfSize(came);
    SetOfSize(gone);
    FullSubset(SetOf(came), top - r);
    FullSubset(SetOf(gone), r - top);
    assert r' == (r - (r - top)) + (top - r);
  }

  lemma FullSubset(a: set<nat>, b: set<nat>)
    requires a <= b && |a| >= |b|
    ensures a == b
  {
    assert |b - a| == |b| - |a|;
  }

  // A refresh that may swap but does not leaves no outsider ahead of a resident by more
  // than the bonus plus the cost.
  lemma QuietMeansSettled(score: seq<real>, mask: seq<bool>, bonus: real, cost: real, maxSwaps: int, r': set<nat>,
                          top: set<nat>, came: seq<nat>, gone: seq<nat>, a: nat, b: nat)
    requires |score| == |mask| && maxSwaps > 0
    requires IsRefresh(Effective(score, mask, bonus, cost), maxSwaps, Residents(mask), r', top, came, gone)
    requires came == [] && a in Residents(mask) && b < |mask| && b !in Residents(mask)
    ensures r' == Residents(mask)
    ensures score[b] <= score[a] + bonus + cost
  {
    var eff, r := Effective(score, mask, bonus, cost), Residents(mask);
    RefreshKeepsCount(eff, maxSwaps, r, r', top, came, gone);
    assert |top - r| == 0 && |r - top| == 0;
    assert top == r;
    assert eff[a] >= eff[b];
  }

  // ---- totals -----------------------------------------------------------------------------

  ghost function Total(score: seq<real>, s: set<nat>, n: nat): real
    requires n <= |score|
  {
    if n == 0 then 0.0 else Total(score, s, n - 1) + if n - 1 in s then score[n - 1] else 0.0
  }

  lemma {:induction false} TotalSwap(score: seq<real>, s: set<nat>, n: nat, x: nat, y: nat)
    requires n <= |score| && x in s && y !in s && x < |score| && y < |score|
    ensures Total(score, s - {x} + {y}, n) ==
            Total(score, s, n) - (if x < n then score[x] else 0.0) + (if y < n then score[y] else 0.0)
  {
    if n > 0 {
      TotalSwap(score, s, n - 1, x, y);
    }
  }

  // k times h, as k additions.
  ghost function Times(k: nat, h: real): real {
    if k == 0 then 0.0 else Times(k - 1, h) + h
  }

  // Distinct outsiders paired with distinct residents.
  ghost predicate Pairs(r: set<nat>, came: seq<nat>, gone: seq<nat>, n: nat) {
    && |came| == |gone|
    && (forall i | 0 <= i < |came| :: came[i] < n && came[i] !in r)
    && (forall i | 0 <= i < |gone| :: gone[i] < n && gone[i] in r)
    && (forall i, j | 0 <= i < j < |came| :: came[i] != came[j])
    && (forall i, j | 0 <= i < j < |gone| :: gone[i] != gone[j])
  }

  lemma RefreshPairs(eff: seq<real>, maxSwaps: int, r: set<nat>, r': set<nat>,
                     top: set<nat>, came: seq<nat>, gone: seq<nat>)
    requires IsRefresh(eff, maxSwaps, r, r', top, came, gone)
    ensures Pairs(r, came, gone, |eff|) && r' == (r - SetOf(gone)) + SetOf(came)
  {
  }

  // Exchanging pair by pair raises the total by at least the margin each time.
  lemma {:induction false} PairsGain(score: seq<real>, r: set<nat>, came: seq<nat>, gone: seq<nat>, h: real)
    requires Pairs(r, came, gone, |score|)
    requires forall i | 0 <= i < |came| :: score[came[i]] >= score[gone[i]] + h
    ensures Total(score, (r - SetOf(gone)) + SetOf(came), |score|) >= Total(score, r, |score|) + Times(|came|, h)
  {
    if came == [] {
      assert (r - SetOf(gone)) + SetOf(came) == r;
    } else {
      var n := |came| - 1;
      PairsGain(score, r, came[..n], gone[..n], h);
      var s := (r - SetOf(gone[..n])) + SetOf(came[..n]);
      var x, y := gone[n], came[n];
      assert x !in SetOf(gone[..n]) && y !in SetOf(came[..n]);
      TotalSwap(score, s, |score|, x, y);
      assert SetOf(gone) == SetOf(gone[..n]) + {x} && SetOf(came) == SetOf(came[..n]) + {y};
      assert (r - SetOf(gone)) + SetOf(came) == s - {x} + {y};
    }
  }

  lemma RefreshGain(score: seq<real>, mask: seq<bool>, bonus: real, cost: real, maxSwaps: int, r': set<nat>,
                    top: set<nat>, came: seq<nat>, gone: seq<nat>)
    requires |score| == |mask|
    requires IsRefresh(Effective(score, mask, bonus, cost), maxSwaps, Residents(mask), r', top, came, gone)
    ensures Total(score, r', |score|) >= Total(score, Residents(mask), |score|) + Times(|came|, bonus + cost)
  {
    var eff, r, h := Effective(score, mask, bonus, cost), Residents(mask), bonus + cost;
    RefreshPairs(eff, maxSwaps, r, r', top, came, gone);
    RefreshMargins(score, mask, bonus, cost, maxSwaps, r', top, came, gone);
    PairsGain(score, r, came, gone, h);
  }

  lemma RefreshMargins(score: seq<real>, mask: seq<bool>, bonus: real, cost: real, maxSwaps: int, r': set<nat>,
                       top: set<nat>, came: seq<nat>, gone: seq<nat>)
    requires |score| == |mask|
    requires IsRefresh(Effective(score, mask, bonus, cost), maxSwaps, Residents(mask), r', top, came, gone)
    ensures forall i | 0 <= i < |came| ::
              came[i] < |score| && gone[i] < |score| && score[came[i]] >= score[gone[i]] + (bonus + cost)
  {
    forall i | 0 <= i < |came|
      ensures came[i] < |score| && gone[i] < |score| && score[came[i]] >= score[gone[i]] + (bonus + cost)
    {
      SwapNeedsMargin(score, mask, bonus, cost, maxSwaps, r', top, came, gone, i, i);
    }
  }

  // ---- repeated refreshes on frozen scores ---------------------------------------------------

  datatype Round = Round(top: set<nat>, came: seq<nat>, gone: seq<nat>)

  ghost predicate IsRun(score: seq<real>, bonus: real, cost: real, maxSwaps: int,
                        masks: seq<seq<bool>>, rounds: seq<Round>) {
    && |masks| == |rounds| + 1
    && (forall i | 0 <= i < |masks| :: |masks[i]| == |score|)
    && forall i | 0 <= i < |rounds| :: IsRound(score, bonus, cost, maxSwaps, masks[i], masks[i + 1], rounds[i])
  }

  ghost predicate IsRound(score: seq<real>, bonus: real, cost: real, maxSwaps: int,
                          mask: seq<bool>, mask': seq<bool>, w: Round) {
    && |mask| == |mask'| == |score|
    && IsRefresh(Effective(score, mask, bonus, cost), maxSwaps, Residents(mask), Residents(mask'),
                 w.top, w.came, w.gone)
  }

  // What the first k rounds exchange.
  ghost function Swaps(rounds: seq<Round>, k: nat): nat
    requires k <= |rounds|
  {
    if k == 0 then 0 else Swaps(rounds, k - 1) + |rounds[k - 1].came|
  }

  // The most any resident set can total.
  ghost function Ceiling(score: seq<real>, n: nat): real
    requires n <= |score|
  {
    if n == 0 then 0.0 else Ceiling(score, n - 1) + if score[n - 1] > 0.0 then score[n - 1] else 0.0
  }

  lemma {:induction false} BelowCeiling(score: seq<real>, s: set<nat>, n: nat)
    requires n <= |score|
    ensures Total(score, s, n) <= Ceiling(score, n)
  {
    if n > 0 { BelowCeiling(score, s, n - 1); }
  }

  ghost predicate Gained(score: seq<real>, h: real, before: seq<bool>, after: seq<bool>, w: Round) {
    Total(score, Residents(after), |score|) >= Total(score, Residents(before), |score|) + Times(|w.came|, h)
  }

  lemma {:induction false} GainsAdd(score: seq<real>, h: real, masks: seq<seq<bool>>, rounds: seq<Round>, k: nat)
    requires |masks| == |rounds| + 1 && k <= |rounds|
    requires forall i | 0 <= i < |rounds| :: Gained(score, h, masks[i], masks[i + 1], rounds[i])
    ensures Total(score, Residents(masks[k]), |score|) >=
            Total(score, Residents(masks[0]), |score|) + Times(Swaps(rounds, k), h)
  {
    if k > 0 {
      var n := k - 1;
      GainsAdd(score, h, masks, rounds, n);
      assert Gained(score, h, masks[n], masks[n + 1], rounds[n]);
      Distribute(Swaps(rounds, n), |rounds[n].came|, h);
    }
  }

  // Over any run of refreshes the residents' total rises by the margin per swap.
  lemma RunGain(score: seq<real>, bonus: real, cost: real, maxSwaps: int,
                masks: seq<seq<bool>>, rounds: seq<Round>)
    requires IsRun(score, bonus, cost, maxSwaps, masks, rounds)
    ensures Total(score, Residents(masks[|rounds|]), |score|) >=
            Total(score, Residents(masks[0]), |score|) + Times(Swaps(rounds, |rounds|), bonus + cost)
  {
    forall i | 0 <= i < |rounds| ensures Gained(score, bonus + cost, masks[i], masks[i + 1], rounds[i]) {
      RoundGain(score, bonus, cost, maxSwaps, masks[i], masks[i + 1], rounds[i]);
    }
    GainsAdd(score, bonus + cost, masks, rounds, |rounds|);
  }

  lemma RoundGain(score: seq<real>, bonus: real, cost: real, maxSwaps: int,
                  mask: seq<bool>, mask': seq<bool>, w: Round)
    requires IsRound(score, bonus, cost, maxSwaps, mask, mask', w)
    ensures Gained(score, bonus + cost, mask, mask', w)
  {
    RefreshGain(score, mask, bonus, cost, maxSwaps, Residents(mask'), w.top, w.came, w.gone);
  }

  lemma {:induction false} Distribute(a: nat, b: nat, h: real)
    ensures Times(a + b, h) == Times(a, h) + Times(b, h)
  {
    if b > 0 { Distribute(a, b - 1, h); }
  }

  // With scores frozen and a positive margin, the swaps of any number of refreshes are
  // bounded by what the totals can still gain.
  lemma SwapsAreBounded(score: seq<real>, bonus: real, cost: real, maxSwaps: int,
                        masks: seq<seq<bool>>, rounds: seq<Round>)
    requires IsRun(score, bonus, cost, maxSwaps, masks, rounds)
    ensures Times(Swaps(rounds, |rounds|), bonus + cost) <=
            Ceiling(score, |score|) - Total(score, Residents(masks[0]), |score|)
  {
    RunGain(score, bonus, cost, maxSwaps, masks, rounds);
    BelowCeiling(score, Residents(masks[|rounds|]), |score|);
  }

  lemma {:induction false} QuietRoundExists(rounds: seq<Round>, k: nat) returns (i: nat)
    requires k <= |rounds| && Swaps(rounds, k) < k
    ensures i < k && rounds[i].came == []
  {
    if rounds[k - 1].came == [] {
      i := k - 1;
    } else {
      i := QuietRoundExists(rounds, k - 1);
    }
  }
}

module AdaptivePolicy {
  import opened Ranking
  import opened ResidencyRefresh
  import opened TorchSelect
  import Arith

  // Which experts a row touches, and how each policy scores them.
  datatype Kind = StaticUniform | LRU | Frequency | Weighted(credit: seq<real>)

  datatype Layer = Layer(resident: seq<bool>, score: seq<real>, count: seq<int>, lastSeen: seq<int>, event: nat)

  datatype Settings = Settings(n: nat, capacity: nat, interval: nat, maxSwaps: int, decay: real,
                               bonus: real, cost: real, kind: Kind)
  {
    predicate Ok() { capacity <= n && interval > 0 }
  }

  ghost predicate Sized(l: Layer, n: nat) {
    |l.resident| == |l.score| == |l.count| == |l.lastSeen| == n
  }

  ghost predicate Full(p: Settings, l: Layer) { Sized(l, p.n) && |Residents(l.resident)| == p.capacity }

  function Fresh(p: Settings): Layer {
    Layer(seq(p.n, e => e < p.capacity), seq(p.n, _ => 0.0), seq(p.n, _ => 0), seq(p.n, _ => -1), 0)
  }

  // ---- scores -----------------------------------------------------------------------------

  predicate Routed(id: int, n: nat) { 0 <= id < n }

  function Positive(w: real): real { if w > 0.0 then w else 0.0 }

  function PositiveSum(weights: seq<real>, k: nat): (s: real)
    requires k <= |weights|
    ensures s >= 0.0
  {
    if k == 0 then 0.0 else PositiveSum(weights, k - 1) + Positive(weights[k - 1])
  }

  const TINY: real := 0.000000000001

  function WeightSum(weights: seq<real>): (s: real)
    ensures s >= TINY && s >= PositiveSum(weights, |weights|)
  {
    var s := PositiveSum(weights, |weights|);
    if s < TINY then TINY else s
  }

  function Credit(credit: seq<real>, weights: seq<real>, i: nat): real
    requires i < |weights| <= |credit|
  {
    credit[i] * (Positive(weights[i]) / WeightSum(weights))
  }

  // What the first k positions of a row add to expert e.
  ghost function Added(ids: seq<int>, credit: seq<real>, weights: seq<real>, k: nat, e: int): real
    requires k <= |ids| == |weights| <= |credit|
  {
    if k == 0 then 0.0
    else Added(ids, credit, weights, k - 1, e) + if ids[k - 1] == e then Credit(credit, weights, k - 1) else 0.0
  }

  ghost predicate Fed(p: Settings, ids: seq<int>, weights: seq<real>) {
    p.kind.Weighted? ==> |ids| == |weights| <= |p.kind.credit|
  }

  ghost predicate IsScored(p: Settings, b: Layer, a: Layer, ids: seq<int>, weights: seq<real>)
    requires Fed(p, ids, weights) && Sized(b, p.n)
  {
    && Sized(a, p.n) && a.resident == b.resident && a.event == b.event
    && match p.kind
       case StaticUniform => a == b
       case LRU =>
         && a.count == b.count
         && forall e | 0 <= e < p.n ::
              && a.lastSeen[e] == (if e in ids then b.event else b.lastSeen[e])
              && a.score[e] == if e in ids then b.event as real else b.score[e]
       case Frequency =>
         && a.lastSeen == b.lastSeen
         && (forall e | 0 <= e < p.n :: a.count[e] == b.count[e] + multiset(ids)[e])
         && if exists i :: 0 <= i < |ids| && Routed(ids[i], p.n)
            then forall e | 0 <= e < p.n :: a.score[e] == a.count[e] as real
            else a.score == b.score
       case Weighted(credit) =>
         && Decayed(b.score, a.score, p.decay, ids, credit, weights)
         && forall e | 0 <= e < p.n ::
              && a.count[e] == b.count[e] + multiset(ids)[e]
              && a.lastSeen[e] == if e in ids then b.event else b.lastSeen[e]
  }

  // Every score decays, and gains what the row credits its expert.
  ghost predicate Decayed(before: seq<real>, after: seq<real>, decay: real,
                          ids: seq<int>, credit: seq<real>, weights: seq<real>)
    requires |ids| == |weights| <= |credit| && |before| == |after|
  {
    forall e | 0 <= e < |after| :: after[e] == before[e] * decay + Added(ids, credit, weights, |ids|, e)
  }

  // One observed row: score it, then refresh the residents on every interval-th event.
  ghost predicate IsObserve(p: Settings, b: Layer, mid: Layer, a: Layer, w: Round, ids: seq<int>, weights: seq<real>)
    requires p.Ok() && Fed(p, ids, weights) && Sized(b, p.n)
  {
    && IsScored(p, b.(event := b.event + 1), mid, ids, weights)
    && Reseated(p, mid, a, w)
  }

  // The second half of an observation: only the residents change, and only on an event
  // that refreshes.
  ghost predicate Reseated(p: Settings, mid: Layer, a: Layer, w: Round)
    requires p.Ok() && Sized(mid, p.n)
  {
    && Sized(a, p.n) && a == mid.(resident := a.resident)
    && if Refreshes(p, mid.event) then IsRound(mid.score, p.bonus, p.cost, p.maxSwaps, mid.resident, a.resident, w)
       else a.resident == mid.resident && w.came == []
  }

  predicate Refreshes(p: Settings, event: nat)
    requires p.interval > 0
  {
    event % p.interval == 0 && p.capacity < p.n && !p.kind.StaticUniform?
  }

  // ---- over a whole trace -------------------------------------------------------------------

  datatype Row = Row(ids: seq<int>, weights: seq<real>)

  ghost predicate Observed(p: Settings, b: Layer, a: Layer, w: Round, row: Row) {
    && p.Ok() && Fed(p, row.ids, row.weights) && Sized(b, p.n)
    && exists mid :: IsObserve(p, b, mid, a, w, row.ids, row.weights)
  }

  ghost predicate IsHistory(p: Settings, rows: seq<Row>, states: seq<Layer>, rounds: seq<Round>) {
    && p.Ok() && |states| == |rows| + 1 && |rounds| == |rows| && states[0] == Fresh(p)
    && forall i | 0 <= i < |rows| :: Observed(p, states[i], states[i + 1], rounds[i], rows[i])
  }

  lemma PrefixSize(n: nat, k: nat)
    requires k <= n
    ensures |Residents(seq(n, e => e < k))| == k
  {
    var mask := seq(n, e => e < k);
    forall e: nat ensures e in Residents(mask) <==> e in Range(0, k) {
      assert e < n ==> mask[e] == (e < k);
      assert Within(0, e, k) <==> e < k;
    }
    assert Residents(mask) == Range(0, k);
    RangeSize(k);
  }

  // A layer first seen holds experts 0 to capacity - 1 and knows nothing of their use.
  lemma FreshLayer(p: Settings)
    requires p.Ok()
    ensures var l := Fresh(p);
            && Full(p, l) && l.event == 0
            && forall e: nat | e < p.n ::
                 l.resident[e] == (e < p.capacity) && l.score[e] == 0.0 && l.count[e] == 0 && l.lastSeen[e] == -1
  {
    PrefixSize(p.n, p.capacity);
  }

  lemma ReseatedKeepsCapacity(p: Settings, mid: Layer, a: Layer, w: Round)
    requires p.Ok() && Full(p, mid) && Reseated(p, mid, a, w)
    ensures Full(p, a)
    ensures |w.came| <= (if Refreshes(p, mid.event) then Limit(p) else 0)
    ensures |Residents(a.resident) - Residents(mid.resident)| <= |w.came|
  {
    if Refreshes(p, mid.event) {
      RefreshKeepsCount(Effective(mid.score, mid.resident, p.bonus, p.cost), p.maxSwaps, Residents(mid.resident),
                        Residents(a.resident), w.top, w.came, w.gone);
    }
  }

  function Limit(p: Settings): nat { if p.maxSwaps > 0 then p.maxSwaps else 0 }

  lemma ObserveKeepsCapacity(p: Settings, b: Layer, a: Layer, w: Round, row: Row)
    requires Full(p, b) && Observed(p, b, a, w, row)
    ensures Full(p, a) && a.event == b.event + 1
    ensures |w.came| <= (if Refreshes(p, a.event) then Limit(p) else 0)
    ensures |Residents(a.resident) - Residents(b.resident)| <= |w.came|
  {
    var mid :| IsObserve(p, b, mid, a, w, row.ids, row.weights);
    ReseatedKeepsCapacity(p, mid, a, w);
  }

  // Every state of every run has exactly `capacity` residents.
  lemma {:induction false} HistoryHoldsCapacity(p: Settings, rows: seq<Row>, states: seq<Layer>, rounds: seq<Round>,
                                                k: nat)
    requires IsHistory(p, rows, states, rounds) && k <= |rows|
    ensures Full(p, states[k]) && states[k].event == k
  {
    if k == 0 {
      PrefixSize(p.n, p.capacity);
    } else {
      var j := k - 1;
      HistoryHoldsCapacity(p, rows, states, rounds, j);
      assert Observed(p, states[j], states[j + 1], rounds[j], rows[j]);
      ObserveKeepsCapacity(p, states[j], states[k], rounds[j], rows[j]);
    }
  }

  // How many of the events 1..k refresh.
  ghost function Intervals(interval: nat, k: nat): nat
    requires interval > 0
  {
    if k == 0 then 0 else Intervals(interval, k - 1) + if k % interval == 0 then 1 else 0
  }

  lemma {:induction false} IntervalsAre(interval: nat, k: nat)
    requires interval > 0
    ensures Intervals(interval, k) == k / interval
  {
    if k > 0 {
      IntervalsAre(interval, k - 1);
      Arith.NextQuotient(interval, k);
    }
  }

  // So k rows cost at most maxSwaps transfers per elapsed interval.
  lemma {:induction false} SwapBudget(p: Settings, rows: seq<Row>, states: seq<Layer>, rounds: seq<Round>, k: nat)
    requires IsHistory(p, rows, states, rounds) && k <= |rows|
    ensures Swaps(rounds, k) <= (k / p.interval) * Limit(p)
  {
    IntervalsAre(p.interval, k);
    SwapsPerInterval(p, rows, states, rounds, k);
  }

  lemma IntervalStep(i: nat, m: nat)
    ensures (i + 1) * m == i * m + m
  {
  }

  // A round exchanges nothing off the interval, and at most `limit` on it.
  ghost predicate Rationed(w: Round, event: nat, interval: nat, limit: nat)
    requires interval > 0
  {
    |w.came| <= if event % interval == 0 then limit else 0
  }

  lemma StepIsRationed(p: Settings, b: Layer, a: Layer, w: Round, row: Row)
    requires Full(p, b) && Observed(p, b, a, w, row)
    ensures Rationed(w, b.event + 1, p.interval, Limit(p))
  {
    ObserveKeepsCapacity(p, b, a, w, row);
  }

  lemma {:induction false} SwapsPerInterval(p: Settings, rows: seq<Row>, states: seq<Layer>, rounds: seq<Round>, k: nat)
    requires IsHistory(p, rows, states, rounds) && k <= |rows|
    ensures Swaps(rounds, k) <= Intervals(p.interval, k) * Limit(p)
  {
    forall j: nat | j < |rounds| ensures Rationed(rounds[j], j + 1, p.interval, Limit(p)) {
      HistoryHoldsCapacity(p, rows, states, rounds, j);
      var next := j + 1;
      assert Observed(p, states[j], states[next], rounds[j], rows[j]);
      StepIsRationed(p, states[j], states[next], rounds[j], rows[j]);
    }
    RationedSwaps(rounds, p.interval, Limit(p), k);
  }

  lemma {:induction false} RationedSwaps(rounds: seq<Round>, interval: nat, limit: nat, k: nat)
    requires interval > 0 && k <= |rounds|
    requires forall j: nat | j < |rounds| :: Rationed(rounds[j], j + 1, interval, limit)
    ensures Swaps(rounds, k) <= Intervals(interval, k) * limit
  {
    if k > 0 {
      RationedSwaps(rounds, interval, limit, k - 1);
      assert Rationed(rounds[k - 1], k - 1 + 1, interval, limit);
      IntervalStep(Intervals(interval, k - 1), limit);
    }
  }

  // The static policy keeps its first experts for ever.
  lemma {:induction false} StaticNeverSwaps(p: Settings, rows: seq<Row>, states: seq<Layer>, rounds: seq<Round>, k: nat)
    requires IsHistory(p, rows, states, rounds) && k <= |rows| && p.kind.StaticUniform?
    ensures |states[k].resident| == p.n && forall e: nat | e < p.n :: states[k].resident[e] == (e < p.capacity)
    ensures Swaps(rounds, k) == 0
  {
    if k > 0 {
      StaticNeverSwaps(p, rows, states, rounds, k - 1);
      StaticStep(p, states[k - 1], states[k - 1 + 1], rounds[k - 1], rows[k - 1]);
    }
  }

  lemma StaticStep(p: Settings, b: Layer, a: Layer, w: Round, row: Row)
    requires Observed(p, b, a, w, row) && p.kind.StaticUniform?
    ensures a.resident == b.resident && w.came == []
  {
    var mid :| IsObserve(p, b, mid, a, w, row.ids, row.weights);
  }

  // ---- what the policies' scores mean -----------------------------------------------------

  ghost function Uses(rows: seq<Row>, k: nat, e: int): nat
    requires k <= |rows|
  {
    if k == 0 then 0 else Uses(rows, k - 1, e) + multiset(rows[k - 1].ids)[e]
  }

  // The event at which e was last routed, counting rows from 1; -1 if never.
  ghost function LastUse(rows: seq<Row>, k: nat, e: int): (u: int)
    requires k <= |rows|
    ensures u == -1 || 0 < u <= k
  {
    if k == 0 then -1 else if e in rows[k - 1].ids then k else LastUse(rows, k - 1, e)
  }

  lemma {:induction false} FrequencyScoresCountUses(p: Settings, rows: seq<Row>, states: seq<Layer>,
                                                    rounds: seq<Round>, k: nat, e: nat)
    requires IsHistory(p, rows, states, rounds) && k <= |rows| && p.kind == Frequency && e < p.n
    ensures Sized(states[k], p.n) && states[k].count[e] == Uses(rows, k, e)
    ensures states[k].score[e] == Uses(rows, k, e) as real
  {
    if k > 0 {
      var j := k - 1;
      FrequencyScoresCountUses(p, rows, states, rounds, j, e);
      FrequencyStep(p, states[j], states[j + 1], rounds[j], rows[j], e);
    }
  }

  lemma FrequencyStep(p: Settings, b: Layer, a: Layer, w: Round, row: Row, e: nat)
    requires Observed(p, b, a, w, row) && p.kind == Frequency && e < p.n && b.score[e] == b.count[e] as real
    ensures Sized(a, p.n) && a.count[e] == b.count[e] + multiset(row.ids)[e] && a.score[e] == a.count[e] as real
  {
    var mid :| IsObserve(p, b, mid, a, w, row.ids, row.weights);
    if forall i | 0 <= i < |row.ids| :: !Routed(row.ids[i], p.n) { assert e !in row.ids; }
  }

  function UseScore(u: int): real { if u < 0 then 0.0 else u as real }

  lemma {:induction false} LruScoresAreLastUses(p: Settings, rows: seq<Row>, states: seq<Layer>, rounds: seq<Round>,
                                                k: nat, e: nat)
    requires IsHistory(p, rows, states, rounds) && k <= |rows| && p.kind == LRU && e < p.n
    ensures Sized(states[k], p.n) && states[k].lastSeen[e] == LastUse(rows, k, e)
    ensures states[k].score[e] == UseScore(LastUse(rows, k, e))
  {
    if k > 0 {
      var j := k - 1;
      LruScoresAreLastUses(p, rows, states, rounds, j, e);
      HistoryHoldsCapacity(p, rows, states, rounds, j);
      LruStep(p, states[j], states[j + 1], rounds[j], rows[j], e);
    }
  }

  lemma LruStep(p: Settings, b: Layer, a: Layer, w: Round, row: Row, e: nat)
    requires Observed(p, b, a, w, row) && p.kind == LRU && e < p.n
    ensures Sized(a, p.n)
    ensures a.lastSeen[e] == if e in row.ids then b.event + 1 else b.lastSeen[e]
    ensures a.score[e] == if e in row.ids then (b.event + 1) as real else b.score[e]
  {
    var mid :| IsObserve(p, b, mid, a, w, row.ids, row.weights);
  }

  // With no hysteresis and swaps for the whole capacity, a refresh of the LRU policy
  // leaves no outsider used more recently than a resident.
  lemma LruResidentsAreMostRecent(p: Settings, rows: seq<Row>, states: seq<Layer>, rounds: seq<Round>, k: nat, a: nat,
                                  b: nat)
    requires IsHistory(p, rows, states, rounds) && 0 < k <= |rows| && p.kind == LRU
    requires p.bonus == 0.0 && p.cost == 0.0 && p.maxSwaps >= p.capacity
    requires k % p.interval == 0 && p.capacity < p.n && a < p.n && b < p.n
    ensures Sized(states[k], p.n)
    ensures states[k].resident[a] && !states[k].resident[b] ==> NoLater(LastUse(rows, k, b), LastUse(rows, k, a))
  {
    LruScoresAreLastUses(p, rows, states, rounds, k, a);
    LruScoresAreLastUses(p, rows, states, rounds, k, b);
    HistoryHoldsCapacity(p, rows, states, rounds, k - 1);
    LruOrderAfter(p, states[k - 1], states[k - 1 + 1], rounds[k - 1], rows[k - 1], a, b,
                  LastUse(rows, k, a), LastUse(rows, k, b));
  }

  predicate NoLater(x: int, y: int) { x <= y || x < 0 }

  lemma LruOrderAfter(p: Settings, before: Layer, after: Layer, w: Round, row: Row, a: nat, b: nat, x: int, y: int)
    requires Full(p, before) && Observed(p, before, after, w, row) && Refreshes(p, before.event + 1)
    requires p.bonus == 0.0 && p.cost == 0.0 && p.maxSwaps >= p.capacity
    requires a < p.n && b < p.n && Sized(after, p.n) && x != 0 && y != 0
    requires after.score[a] == UseScore(x) && after.score[b] == UseScore(y)
    ensures after.resident[a] && !after.resident[b] ==> NoLater(y, x)
  {
    if after.resident[a] && !after.resident[b] {
      UnbiasedObserveInstallsTop(p, before, after, w, row, a, b);
      ScoreOrder(y, x);
    }
  }

  lemma ScoreOrder(y: int, x: int)
    requires x != 0 && y != 0 && UseScore(x) >= UseScore(y)
    ensures NoLater(y, x)
  {
  }

  lemma UnbiasedObserveInstallsTop(p: Settings, before: Layer, after: Layer, w: Round, row: Row, a: nat, b: nat)
    requires Full(p, before) && Observed(p, before, after, w, row) && Refreshes(p, before.event + 1)
    requires p.bonus == 0.0 && p.cost == 0.0 && p.maxSwaps >= p.capacity
    requires a < p.n && b < p.n && Sized(after, p.n) && after.resident[a] && !after.resident[b]
    ensures after.score[a] >= after.score[b]
  {
    var mid :| IsObserve(p, before, mid, after, w, row.ids, row.weights);
    UnbiasedRoundInstallsTop(p, mid, after, w, a, b);
  }

  lemma UnbiasedRoundInstallsTop(p: Settings, mid: Layer, after: Layer, w: Round, a: nat, b: nat)
    requires p.Ok() && Full(p, mid) && Reseated(p, mid, after, w) && Refreshes(p, mid.event)
    requires p.bonus == 0.0 && p.cost == 0.0 && p.maxSwaps >= p.capacity
    requires a < p.n && b < p.n && after.resident[a] && !after.resident[b]
    ensures mid.score[a] >= mid.score[b]
  {
    var eff := Effective(mid.score, mid.resident, p.bonus, p.cost);
    var r, r' := Residents(mid.resident), Residents(after.resident);
    SubsetSize(w.top - r, w.top);
    FullRefreshInstallsTop(eff, p.maxSwaps, r, r', w.top, w.came, w.gone);
    assert a in r' && b !in r';
    assert eff[a] >= eff[b];
  }
}

// The weighted policies hand out bounded credit, so their scores stay bounded.
module WeightedScores {
  import opened RealArith
  import opened ResidencyRefresh
  import opened AdaptivePolicy

  ghost function Sum(score: seq<real>, m: nat): real
    requires m <= |score|
  {
    if m == 0 then 0.0 else Sum(score, m - 1) + score[m - 1]
  }

  // What k positions add to the experts below m.
  ghost function AddedBelow(ids: seq<int>, credit: seq<real>, weights: seq<real>, k: nat, m: nat): real
    requires k <= |ids| == |weights| <= |credit|
  {
    if m == 0 then 0.0 else AddedBelow(ids, credit, weights, k, m - 1) + Added(ids, credit, weights, k, m - 1)
  }

  lemma {:induction false} AddedBelowStep(ids: seq<int>, credit: seq<real>, weights: seq<real>, k: nat, m: nat)
    requires 0 < k <= |ids| == |weights| <= |credit|
    ensures AddedBelow(ids, credit, weights, k, m) == AddedBelow(ids, credit, weights, k - 1, m) +
              if Routed(ids[k - 1], m) then Credit(credit, weights, k - 1) else 0.0
  {
    if m > 0 { AddedBelowStep(ids, credit, weights, k, m - 1); }
  }

  lemma {:induction false} AddedNothing(ids: seq<int>, credit: seq<real>, weights: seq<real>, m: nat)
    requires |ids| == |weights| <= |credit|
    ensures AddedBelow(ids, credit, weights, 0, m) == 0.0
  {
    if m > 0 { AddedNothing(ids, credit, weights, m - 1); }
  }

  lemma CreditBound(credit: seq<real>, weights: seq<real>, i: nat, c: real)
    requires i < |weights| <= |credit| && 0.0 <= credit[i] <= c
    ensures 0.0 <= Credit(credit, weights, i) <= c * (Positive(weights[i]) / WeightSum(weights))
  {
    var share := Positive(weights[i]) / WeightSum(weights);
    assert share >= 0.0;
    assert (c - credit[i]) * share >= 0.0;
    assert credit[i] * share >= 0.0;
  }

  // However the weights fall, one row hands out at most the largest rank credit.
  lemma {:induction false} RowAddsAtMost(ids: seq<int>, credit: seq<real>, weights: seq<real>, k: nat, m: nat, c: real)
    requires k <= |ids| == |weights| <= |credit| && forall i | 0 <= i < |credit| :: 0.0 <= credit[i] <= c
    ensures 0.0 <= AddedBelow(ids, credit, weights, k, m) <= c * (PositiveSum(weights, k) / WeightSum(weights))
  {
    if k == 0 {
      AddedNothing(ids, credit, weights, m);
      assert 0.0 / WeightSum(weights) == 0.0;
    } else {
      RowAddsAtMost(ids, credit, weights, k - 1, m, c);
      AddedBelowStep(ids, credit, weights, k, m);
      CreditBound(credit, weights, k - 1, c);
      var w, before, last := WeightSum(weights), PositiveSum(weights, k - 1), Positive(weights[k - 1]);
      SumOfShares(before, last, w, c);
      assert PositiveSum(weights, k) == before + last;
    }
  }

  lemma SumOfShares(a: real, b: real, w: real, c: real)
    requires w > 0.0
    ensures c * ((a + b) / w) == c * (a / w) + c * (b / w)
  {
    SumOver(a, b, w);
  }

  lemma {:induction false} DecayedSum(before: seq<real>, after: seq<real>, decay: real,
                                      ids: seq<int>, credit: seq<real>, weights: seq<real>, m: nat)
    requires m <= |before| == |after| && |ids| == |weights| <= |credit|
    requires Decayed(before, after, decay, ids, credit, weights)
    ensures Sum(after, m) == Sum(before, m) * decay + AddedBelow(ids, credit, weights, |ids|, m)
  {
    if m > 0 {
      DecayedSum(before, after, decay, ids, credit, weights, m - 1);
      SumTimes(Sum(before, m - 1), before[m - 1], decay);
    }
  }

  lemma WholeShare(weights: seq<real>, c: real)
    requires c >= 0.0
    ensures c * (PositiveSum(weights, |weights|) / WeightSum(weights)) <= c
  {
    var s, w := PositiveSum(weights, |weights|), WeightSum(weights);
    assert s / w <= 1.0;
    assert c * (1.0 - s / w) >= 0.0;
  }

  // ---- what one position earns its expert -------------------------------------------------

  ghost function Clipped(weights: seq<real>): (w: seq<real>)
    ensures |w| == |weights| && forall i | 0 <= i < |w| :: w[i] == if weights[i] > 0.0 then weights[i] else 0.0
  {
    seq(|weights|, i requires 0 <= i < |weights| => if weights[i] > 0.0 then weights[i] else 0.0)
  }

  lemma {:induction false} ClippedSum(weights: seq<real>, k: nat)
    requires k <= |weights|
    ensures PositiveSum(weights, k) == Sum(Clipped(weights), k)
  {
    if k > 0 { ClippedSum(weights, k - 1); }
  }

  lemma {:induction false} AddedOnce(ids: seq<int>, credit: seq<real>, weights: seq<real>, k: nat, i: nat)
    requires k <= |ids| == |weights| <= |credit| && i < |ids| && forall j | 0 <= j < |ids| && j != i :: ids[j] != ids[i]
    ensures Added(ids, credit, weights, k, ids[i]) == if i < k then Credit(credit, weights, i) else 0.0
  {
    if k > 0 { AddedOnce(ids, credit, weights, k - 1, i); }
  }

  lemma {:induction false} NeverAdded(ids: seq<int>, credit: seq<real>, weights: seq<real>, k: nat, e: int)
    requires k <= |ids| == |weights| <= |credit| && e !in ids
    ensures Added(ids, credit, weights, k, e) == 0.0
  {
    if k > 0 { NeverAdded(ids, credit, weights, k - 1, e); }
  }

  // The positive weights together, taken to be at least 1e-12.
  ghost function Whole(weights: seq<real>): real {
    var total := Sum(Clipped(weights), |weights|);
    if total < 0.000000000001 then 0.000000000001 else total
  }

  // The gain is the credit times the weight's share of the whole, none for a weight below
  // zero.
  ghost predicate IsShare(gain: real, credit: real, weight: real, whole: real) {
    gain * whole == credit * if weight > 0.0 then weight else 0.0
  }

  lemma WholeIs(weights: seq<real>)
    ensures WeightSum(weights) == Whole(weights)
  {
    ClippedSum(weights, |weights|);
  }

  lemma CreditIsShare(credit: seq<real>, weights: seq<real>, i: nat)
    requires i < |weights| <= |credit|
    ensures IsShare(Credit(credit, weights, i), credit[i], weights[i], Whole(weights))
  {
    WholeIs(weights);
    Undone(credit[i], Positive(weights[i]), WeightSum(weights));
  }

  lemma Undone(c: real, x: real, w: real)
    requires w > 0.0
    ensures c * (x / w) * w == c * x
  {
    assert x / w * w == x;
  }

  // Every score decays; the expert of one position also gains that position's share of the
  // rank credit.
  lemma PositionEarns(p: Settings, b: Layer, a: Layer, w: Round, row: Row, i: nat) returns (gain: real)
    requires Observed(p, b, a, w, row) && p.kind.Weighted? && i < |row.ids| && 0 <= row.ids[i] < p.n
    requires forall j | 0 <= j < |row.ids| && j != i :: row.ids[j] != row.ids[i]
    ensures Sized(a, p.n) && a.score[row.ids[i]] == b.score[row.ids[i]] * p.decay + gain
    ensures IsShare(gain, p.kind.credit[i], row.weights[i], Whole(row.weights))
  {
    gain := Credit(p.kind.credit, row.weights, i);
    ObservedScores(p, b, a, w, row);
    AddedOnce(row.ids, p.kind.credit, row.weights, |row.ids|, i);
    CreditIsShare(p.kind.credit, row.weights, i);
  }

  lemma OthersOnlyDecay(p: Settings, b: Layer, a: Layer, w: Round, row: Row, e: nat)
    requires Observed(p, b, a, w, row) && p.kind.Weighted? && e < p.n && e !in row.ids
    ensures Sized(a, p.n) && a.score[e] == b.score[e] * p.decay
  {
    ObservedScores(p, b, a, w, row);
    NeverAdded(row.ids, p.kind.credit, row.weights, |row.ids|, e);
  }

  // Under the weighted policies the scores of a layer never total more than
  // c / (1 - decay), c the largest rank credit, however long the trace.
  lemma {:induction false} WeightedScoresBounded(p: Settings, rows: seq<Row>, states: seq<Layer>, rounds: seq<Round>,
                                                 k: nat, c: real)
    requires IsHistory(p, rows, states, rounds) && k <= |rows| && p.kind.Weighted? && 0.0 <= p.decay < 1.0 && c >= 0.0
    requires forall i | 0 <= i < |p.kind.credit| :: 0.0 <= p.kind.credit[i] <= c
    ensures Sized(states[k], p.n)
    ensures 0.0 <= Sum(states[k].score, p.n)
    ensures Sum(states[k].score, p.n) * (1.0 - p.decay) <= c
  {
    if k == 0 {
      ZeroSum(states[0].score, p.n);
    } else {
      var j := k - 1;
      WeightedScoresBounded(p, rows, states, rounds, j, c);
      assert Observed(p, states[j], states[j + 1], rounds[j], rows[j]);
      WeightedStep(p, states[j], states[k], rounds[j], rows[j], c);
      BoundStep(Sum(states[j].score, p.n), Sum(states[k].score, p.n), p.decay, c);
    }
  }

  lemma ObservedScores(p: Settings, b: Layer, a: Layer, w: Round, row: Row)
    requires Observed(p, b, a, w, row) && p.kind.Weighted?
    ensures Sized(a, p.n) && Decayed(b.score, a.score, p.decay, row.ids, p.kind.credit, row.weights)
  {
    var mid :| IsObserve(p, b, mid, a, w, row.ids, row.weights);
  }

  lemma WeightedStep(p: Settings, b: Layer, a: Layer, w: Round, row: Row, c: real)
    requires Observed(p, b, a, w, row) && p.kind.Weighted? && c >= 0.0
    requires forall i | 0 <= i < |p.kind.credit| :: 0.0 <= p.kind.credit[i] <= c
    ensures Sized(a, p.n) && Sum(b.score, p.n) * p.decay <= Sum(a.score, p.n) <= Sum(b.score, p.n) * p.decay + c
  {
    ObservedScores(p, b, a, w, row);
    ScoresGrow(b.score, a.score, p.decay, row.ids, p.kind.credit, row.weights, p.n, c);
  }

  lemma ScoresGrow(before: seq<real>, after: seq<real>, decay: real,
                   ids: seq<int>, credit: seq<real>, weights: seq<real>, n: nat, c: real)
    requires n == |before| == |after| && |ids| == |weights| <= |credit| && c >= 0.0
    requires Decayed(before, after, decay, ids, credit, weights)
    requires forall i | 0 <= i < |credit| :: 0.0 <= credit[i] <= c
    ensures Sum(before, n) * decay <= Sum(after, n) <= Sum(before, n) * decay + c
  {
    DecayedSum(before, after, decay, ids, credit, weights, n);
    RowAddsAtMost(ids, credit, weights, |ids|, n, c);
    WholeShare(weights, c);
  }

  lemma BoundStep(s: real, t: real, d: real, c: real)
    requires 0.0 <= d < 1.0 && c >= 0.0 && 0.0 <= s && s * (1.0 - d) <= c && s * d <= t <= s * d + c
    ensures 0.0 <= t && t * (1.0 - d) <= c
  {
    var g := 1.0 - d;
    var sd, sg, cd, cg := s * d, s * g, c * d, c * g;
    Mono(0.0, s, d);
    assert sd >= 0.0;
    Mono(t, sd + c, g);
    Regroup(s, d, c, g);
    assert (sd + c) * g == sg * d + cg;
    Mono(sg, c, d);
    WholeSplit(c, d);
    assert cd + cg == c;
  }

  lemma Regroup(s: real, d: real, c: real, g: real)
    ensures (s * d + c) * g == (s * g) * d + c * g
  {
  }

  lemma WholeSplit(c: real, d: real)
    ensures c * d + c * (1.0 - d) == c
  {
    assert c * (1.0 - d) == c - c * d;
  }

  lemma {:induction false} ZeroSum(score: seq<real>, m: nat)
    requires m <= |score| && forall e | 0 <= e < |score| :: score[e] == 0.0
    ensures Sum(score, m) == 0.0
  {
    if m > 0 { ZeroSum(score, m - 1); }
  }
}
