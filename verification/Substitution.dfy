// Standing in for experts the GPU does not hold: every routed slot whose expert is not
// resident gets the best resident expert the row does not already use.

module Substitution {
  import opened RealArith
  import opened Ranking
  import opened TorchSelect

  // One row of a router's choice, and what the substitution consults.
  datatype Row = Row(ids: seq<nat>, weights: seq<real>, scores: seq<real>, allow: seq<bool>, neg: real)
  {
    // Sizes torch checks, and `neg` standing below every score and weight.
    ghost predicate Ok() {
      && |ids| == |weights| <= |scores| == |allow| && Below(ids, |scores|)
      && (forall e | 0 <= e < |scores| :: neg < scores[e]) && forall i | 0 <= i < |weights| :: neg < weights[i]
    }

    predicate Kept(i: nat)
      requires i < |ids| && Below(ids, |allow|)
    {
      allow[ids[i]]
    }

    // Residents the row does not use.
    predicate Free(e: nat)
      requires e < |allow|
    {
      allow[e] && e !in ids
    }

    function Key(e: nat): real
      requires e < |allow| == |scores|
    {
      if Free(e) then scores[e] else neg
    }

    function DropKey(i: nat): real
      requires i < |ids| == |weights| && Below(ids, |allow|)
    {
      if Kept(i) then neg else weights[i]
    }

    function Keys(): (s: seq<real>)
      requires |allow| == |scores|
      ensures |s| == |scores| && forall e: nat | e < |s| :: s[e] == Key(e)
    {
      seq(|scores|, e requires 0 <= e < |scores| => Key(e))
    }

    function DropKeys(): (s: seq<real>)
      requires |ids| == |weights| && Below(ids, |allow|)
      ensures |s| == |ids| && forall i: nat | i < |s| :: s[i] == DropKey(i)
    {
      seq(|ids|, i requires 0 <= i < |ids| => DropKey(i))
    }
  }

  // What the two sorts return, and the scatter that inverts the second.
  datatype Plan = Plan(fill: seq<nat>, order: seq<nat>, rank: seq<nat>)

  ghost predicate IsPlan(r: Row, p: Plan)
    requires r.Ok()
  {
    && |p.fill| == |p.order| == |p.rank| == |r.ids|
    && IsSortedPrefix(r.Keys(), Range(0, |r.scores|), true, p.fill)
    && IsSortedPrefix(r.DropKeys(), Range(0, |r.ids|), true, p.order)
    && (forall i | 0 <= i < |p.rank| :: p.rank[i] < |p.order| && p.order[p.rank[i]] == i)
  }

  function NewId(r: Row, p: Plan, i: nat): nat
    requires i < |r.ids| && Below(r.ids, |r.allow|) && |p.rank| == |r.ids| && p.rank[i] < |p.fill|
  {
    if r.Kept(i) then r.ids[i] else p.fill[p.rank[i]]
  }

  ghost function Dropped(r: Row): set<nat>
    requires r.Ok()
  {
    set i: nat | i < |r.ids| && !r.Kept(i)
  }

  ghost function FreeSet(r: Row): set<nat>
    requires r.Ok()
  {
    set e: nat | e < |r.allow| && r.Free(e)
  }

  // ---- where the two sorts put things ----------------------------------------------------------------

  // Dropped slots come first in the second sort...
  lemma DroppedRanksFirst(r: Row, p: Plan, i: nat)
    requires r.Ok() && IsPlan(r, p) && i < |r.ids| && !r.Kept(i)
    ensures p.rank[i] < |Dropped(r)|
  {
    var k := p.rank[i];
    var lead := p.order[..k + 1];
    forall q | 0 <= q < |lead| ensures lead[q] in Dropped(r) {
      assert r.DropKeys()[p.order[q]] >= r.DropKeys()[p.order[k]];
    }
    SetOfSize(lead);
    SubsetSize(SetOf(lead), Dropped(r));
  }

  // ... and kept slots after them.
  lemma KeptRanksLast(r: Row, p: Plan, i: nat)
    requires r.Ok() && IsPlan(r, p) && i < |r.ids| && r.Kept(i)
    ensures p.rank[i] >= |Dropped(r)|
  {
    var k := p.rank[i];
    var lead := p.order[..k];
    forall d | d in Dropped(r) ensures d in SetOf(lead) {
      assert r.DropKeys()[d] > r.DropKeys()[i];
      assert p.rank[d] < k;
      assert lead[p.rank[d]] == d;
    }
    SetOfSize(lead);
    SubsetSize(Dropped(r), SetOf(lead));
  }

  // The unselected residents lead the first sort.
  lemma FreeFillFirst(r: Row, p: Plan, k: nat)
    requires r.Ok() && IsPlan(r, p) && k < |p.fill| && k < |FreeSet(r)|
    ensures p.fill[k] in FreeSet(r)
  {
    if p.fill[k] !in FreeSet(r) {
      var lead := p.fill[..k];
      forall e | e in FreeSet(r) ensures e in SetOf(lead) {
        FreeIsEarlier(r, p, k, e);
      }
      SetOfSize(lead);
      SubsetSize(FreeSet(r), SetOf(lead));
    }
  }

  lemma FreeIsEarlier(r: Row, p: Plan, k: nat, e: nat)
    requires r.Ok() && IsPlan(r, p) && k < |p.fill| && p.fill[k] !in FreeSet(r) && e in FreeSet(r)
    ensures e in p.fill[..k]
  {
    var keys := r.Keys();
    assert keys[p.fill[k]] == r.neg < keys[e];
    assert e in Range(0, |r.scores|);
    var q :| 0 <= q < |p.fill| && p.fill[q] == e;
    assert q < k;
    assert p.fill[..k][q] == e;
  }

  // ---- counting residents ---------------------------------------------------------------------------------

  ghost function KeptIds(r: Row): set<nat>
    requires r.Ok()
  {
    set e | e in r.ids && r.allow[e]
  }

  lemma {:induction false} SlotsSplit(r: Row)
    requires r.Ok() && Distinct(r.ids)
    ensures |Dropped(r)| + |KeptIds(r)| == |r.ids|
  {
    var kept := set i: nat | i < |r.ids| && r.Kept(i);
    RangeSize(|r.ids|);
    assert Range(0, |r.ids|) == Dropped(r) + kept;
    ImageSize(r.ids, kept);
    assert KeptIds(r) == set i | i in kept :: r.ids[i];
  }

  lemma {:induction false} ImageSize(ids: seq<nat>, at: set<nat>)
    requires Distinct(ids) && forall i | i in at :: i < |ids|
    ensures |(set i | i in at :: ids[i])| == |at|
    decreases |at|
  {
    var image := set i | i in at :: ids[i];
    if at != {} {
      var i :| i in at;
      ImageSize(ids, at - {i});
      assert image == (set j | j in at - {i} :: ids[j]) + {ids[i]};
    }
  }

  lemma ResidentsSplit(r: Row)
    requires r.Ok()
    ensures |Residents(r.allow)| == |KeptIds(r)| + |FreeSet(r)|
  {
    assert Residents(r.allow) == KeptIds(r) + FreeSet(r);
    assert KeptIds(r) !! FreeSet(r);
  }

  // ---- what the substitution guarantees --------------------------------------------------------------

  // Slots before and after: kept slots stay, all slots resident, none twice.
  ghost predicate AllResident(allow: seq<bool>, ids: seq<nat>) {
    forall i | 0 <= i < |ids| :: ids[i] < |allow| && allow[ids[i]]
  }

  ghost function NewIds(r: Row, p: Plan): (ids: seq<nat>)
    requires r.Ok() && IsPlan(r, p)
    ensures |ids| == |r.ids| && forall i: nat | i < |ids| :: ids[i] == NewId(r, p, i)
  {
    seq(|r.ids|, i requires 0 <= i < |r.ids| => NewId(r, p, i))
  }

  lemma EnoughResidentsFill(r: Row, p: Plan, i: nat)
    requires r.Ok() && IsPlan(r, p) && Distinct(r.ids) && |Residents(r.allow)| >= |r.ids|
    requires i < |r.ids| && !r.Kept(i)
    ensures p.rank[i] < |FreeSet(r)| && NewId(r, p, i) in FreeSet(r)
  {
    SlotsSplit(r);
    ResidentsSplit(r);
    DroppedRanksFirst(r, p, i);
    FreeFillFirst(r, p, p.rank[i]);
  }

  lemma SlotsDiffer(r: Row, p: Plan, i: nat, j: nat)
    requires r.Ok() && IsPlan(r, p) && Distinct(r.ids) && |Residents(r.allow)| >= |r.ids|
    requires i < |r.ids| && j < |r.ids| && i != j
    ensures NewId(r, p, i) != NewId(r, p, j)
  {
    if !r.Kept(i) { EnoughResidentsFill(r, p, i); }
    if !r.Kept(j) { EnoughResidentsFill(r, p, j); }
    assert p.order[p.rank[i]] == i && p.order[p.rank[j]] == j;
    if r.Kept(i) && r.Kept(j) { assert r.ids[i] != r.ids[j]; }
  }

  // Every slot ends on a resident expert, no expert twice, exactly when there are as many
  // residents as slots.
  lemma SubstitutionIsSoundIff(r: Row, p: Plan)
    requires r.Ok() && IsPlan(r, p) && Distinct(r.ids)
    ensures AllResident(r.allow, NewIds(r, p)) && Distinct(NewIds(r, p)) <==> |Residents(r.allow)| >= |r.ids|
  {
    var ids := NewIds(r, p);
    if |Residents(r.allow)| >= |r.ids| {
      forall i | 0 <= i < |ids| ensures ids[i] < |r.allow| && r.allow[ids[i]] {
        if !r.Kept(i) { EnoughResidentsFill(r, p, i); }
      }
      forall i, j | 0 <= i < j < |ids| ensures ids[i] != ids[j] { SlotsDiffer(r, p, i, j); }
    } else if AllResident(r.allow, ids) && Distinct(ids) {
      SetOfSize(ids);
      SubsetSize(SetOf(ids), Residents(r.allow));
    }
  }

  // A heavier dropped slot never gets a lesser stand-in.
  lemma HeavierDropGetsBetter(r: Row, p: Plan, i: nat, j: nat)
    requires r.Ok() && IsPlan(r, p) && i < |r.ids| && j < |r.ids| && !r.Kept(i) && !r.Kept(j)
    requires r.weights[i] > r.weights[j]
    ensures p.rank[i] < p.rank[j]
    ensures r.Keys()[NewId(r, p, i)] >= r.Keys()[NewId(r, p, j)]
  {
    assert r.DropKeys()[p.order[p.rank[i]]] > r.DropKeys()[p.order[p.rank[j]]];
  }

  // The stand-ins are the best there are: no unused resident the row passed over scores
  // above one it took.
  lemma StandInsAreBest(r: Row, p: Plan, i: nat, e: nat)
    requires r.Ok() && IsPlan(r, p) && Distinct(r.ids) && |Residents(r.allow)| >= |r.ids|
    requires i < |r.ids| && !r.Kept(i) && e in FreeSet(r) && e !in NewIds(r, p)
    ensures r.scores[NewId(r, p, i)] >= r.scores[e]
  {
    EnoughResidentsFill(r, p, i);
    var k, keys := p.rank[i], r.Keys();
    assert keys[p.fill[k]] == r.scores[p.fill[k]] && keys[e] == r.scores[e] && e in Range(0, |r.scores|);
    if e in p.fill {
      var q :| 0 <= q < |p.fill| && p.fill[q] == e;
      UnusedRanksLast(r, p, q);
      DroppedRanksFirst(r, p, i);
    }
  }

  lemma UnusedRanksLast(r: Row, p: Plan, q: nat)
    requires r.Ok() && IsPlan(r, p) && q < |p.fill| && p.fill[q] !in NewIds(r, p)
    ensures q >= |Dropped(r)|
  {
    var i := p.order[q];
    assert i in Range(0, |r.ids|);
    assert p.order[p.rank[i]] == i;
    assert p.rank[i] == q;
    assert NewIds(r, p)[i] == NewId(r, p, i);
    if r.Kept(i) { KeptRanksLast(r, p, i); }
  }

  // ---- weights ---------------------------------------------------------------------------------------------

  // The router's sigmoid, of which only this matters.
  ghost predicate IsSigmoid(sig: real -> real) {
    && (forall x {:trigger sig(x)} :: 0.0 < sig(x) < 1.0)
    && forall x, y {:trigger sig(x), sig(y)} :: x < y ==> sig(x) < sig(y)
  }

  function RawWeight(r: Row, p: Plan, sig: real -> real, i: nat): real
    requires i < |r.ids| == |r.weights| && Below(r.ids, |r.allow|) && |r.scores| == |r.allow|
    requires |p.rank| == |r.ids| && p.rank[i] < |p.fill| && Below(p.fill, |r.scores|)
  {
    if r.Kept(i) then r.weights[i] else sig(r.Key(p.fill[p.rank[i]]))
  }

  function Sum(w: seq<real>): real {
    if w == [] then 0.0 else Sum(w[..|w| - 1]) + w[|w| - 1]
  }

  const FLOOR: real := 0.000000001

  function Divisor(w: seq<real>): (d: real)
    ensures d > 0.0
  {
    if Sum(w) < FLOOR then FLOOR else Sum(w)
  }

  function Normalised(w: seq<real>): (n: seq<real>)
    ensures |n| == |w| && forall i | 0 <= i < |w| :: n[i] == w[i] / Divisor(w)
  {
    seq(|w|, i requires 0 <= i < |w| => w[i] / Divisor(w))
  }

  lemma {:induction false} ScaledSum(w: seq<real>, n: seq<real>, d: real)
    requires d > 0.0 && |n| == |w| && forall i | 0 <= i < |w| :: n[i] == w[i] / d
    ensures Sum(n) == Sum(w) / d
  {
    if w != [] {
      ScaledSum(w[..|w| - 1], n[..|n| - 1], d);
      SumOver(Sum(w[..|w| - 1]), w[|w| - 1], d);
    }
  }

  // A row sums to one after dividing exactly when it held anything to speak of.
  lemma NormalisedSumsToOneIff(w: seq<real>)
    ensures Sum(Normalised(w)) == 1.0 <==> Sum(w) >= 0.000000001
  {
    ScaledSum(w, Normalised(w), Divisor(w));
    if Sum(w) >= FLOOR { Itself(Sum(w)); } else { LessThanWhole(Sum(w), FLOOR); }
  }

  lemma LessThanWhole(a: real, d: real)
    requires a < d && d > 0.0
    ensures a / d < 1.0
  {
  }

  lemma RatioSign(a: real, d: real)
    requires a >= 0.0 && d > 0.0
    ensures a / d >= 0.0
  {
  }

  // Routers give non-negative weights; the substitution keeps them so, and orders the
  // stand-ins' weights as it found the dropped ones.
  lemma WeightsStayProper(r: Row, p: Plan, sig: real -> real, raw: seq<real>)
    requires r.Ok() && IsPlan(r, p) && IsSigmoid(sig)
    requires |raw| == |r.ids| && forall i: nat | i < |raw| :: raw[i] == RawWeight(r, p, sig, i)
    requires forall i | 0 <= i < |r.weights| :: r.weights[i] >= 0.0
    ensures forall i | 0 <= i < |raw| :: Normalised(raw)[i] >= 0.0
    ensures forall i: nat, j: nat | i < |raw| && j < |raw| && !r.Kept(i) && !r.Kept(j) && r.weights[i] > r.weights[j] ::
              raw[i] >= raw[j]
  {
    forall i | 0 <= i < |raw| ensures Normalised(raw)[i] >= 0.0 { RatioSign(raw[i], Divisor(raw)); }
    forall i: nat, j: nat | i < |raw| && j < |raw| && !r.Kept(i) && !r.Kept(j) && r.weights[i] > r.weights[j]
      ensures raw[i] >= raw[j]
    {
      HeavierDropGetsBetter(r, p, i, j);
    }
  }

  function RawWeights(r: Row, p: Plan, sig: real -> real): (raw: seq<real>)
    requires |r.ids| == |r.weights| && Below(r.ids, |r.allow|) && |r.scores| == |r.allow|
    requires |p.rank| == |r.ids| && Below(p.rank, |p.fill|) && Below(p.fill, |r.scores|)
    ensures |raw| == |r.ids| && forall i: nat | i < |raw| :: raw[i] == RawWeight(r, p, sig, i)
  {
    seq(|r.ids|, i requires 0 <= i < |r.ids| => RawWeight(r, p, sig, i))
  }

  // ---- the two forms of the routine ---------------------------------------------------------------------

  class TopkOutput {
    var topkIds: seq<seq<nat>>
    var topkWeights: seq<seq<real>>

    constructor (ids: seq<seq<nat>>, weights: seq<seq<real>>)
      ensures topkIds == ids && topkWeights == weights
    {
      topkIds, topkWeights := ids, weights;
    }
  }

  ghost predicate RowsOk(ids: seq<seq<nat>>, weights: seq<seq<real>>, logits: seq<seq<real>>, mask: seq<bool>,
                         neg: real)
  {
    && |ids| == |weights| == |logits|
    && forall t: nat | t < |ids| :: Row(ids[t], weights[t], logits[t], mask, neg).Ok()
  }

  // The ranks are the sort order inverted by a scatter.
  method Scatter(order: seq<nat>) returns (rank: seq<nat>)
    requires Distinct(order) && Below(order, |order|)
    ensures |rank| == |order| && forall i | 0 <= i < |rank| :: rank[i] < |order| && order[rank[i]] == i
  {
    rank := seq(|order|, _ => 0);
    for k := 0 to |order|
      invariant |rank| == |order|
      invariant forall j | 0 <= j < k :: rank[order[j]] == j
    {
      rank := rank[order[k] := k];
    }
    EveryIndexOrdered(order);
    forall i: nat | i < |rank| ensures rank[i] < |order| && order[rank[i]] == i {
      assert i in order;
      var j :| 0 <= j < |order| && order[j] == i;
    }
  }

  lemma EveryIndexOrdered(order: seq<nat>)
    requires Distinct(order) && Below(order, |order|)
    ensures forall i: nat | i < |order| :: i in order
  {
    SetOfSize(order);
    RangeSize(|order|);
    assert SetOf(order) <= Range(0, |order|);
    assert |Range(0, |order|) - SetOf(order)| == 0;
    forall i: nat | i < |order| ensures i in order {
      assert i in Range(0, |order|) && i !in Range(0, |order|) - SetOf(order);
    }
  }

  method PlanRow(r: Row) returns (p: Plan)
    requires r.Ok()
    ensures IsPlan(r, p)
  {
    var fill := TopK(r.Keys(), |r.ids|);
    var order := TopK(r.DropKeys(), |r.ids|);
    forall k | 0 <= k < |order| ensures order[k] < |order| { assert order[k] in Range(0, |r.ids|); }
    var rank := Scatter(order);
    p := Plan(fill, order, rank);
  }

  predicate PlanFits(r: Row, p: Plan) {
    && |r.ids| == |r.weights| && Below(r.ids, |r.allow|) && |r.scores| == |r.allow|
    && |p.rank| == |r.ids| && Below(p.rank, |p.fill|) && Below(p.fill, |r.scores|)
  }

  lemma PlansFit(r: Row, p: Plan)
    requires r.Ok() && IsPlan(r, p)
    ensures PlanFits(r, p)
  {
    forall k | 0 <= k < |p.fill| ensures p.fill[k] < |r.scores| { assert p.fill[k] in Range(0, |r.scores|); }
  }

  // A row's substituted ids and the weights that go with them, ties broken any way.
  ghost predicate IsSubstitute(r: Row, sig: real -> real, ids: seq<nat>, raw: seq<real>)
    requires r.Ok()
  {
    exists p :: IsPlan(r, p) && PlanFits(r, p) && ids == NewIds(r, p) && raw == RawWeights(r, p, sig)
  }

  // The same with the weights divided by their sum.
  ghost predicate IsRestricted(r: Row, sig: real -> real, ids: seq<nat>, weights: seq<real>)
    requires r.Ok()
  {
    exists raw :: IsSubstitute(r, sig, ids, raw) && weights == Normalised(raw)
  }

  // What a substituted row is: kept slots untouched, every slot resident and none twice
  // exactly when the residents suffice.
  lemma SubstituteIsSound(r: Row, sig: real -> real, ids: seq<nat>, raw: seq<real>)
    requires r.Ok() && IsSubstitute(r, sig, ids, raw) && Distinct(r.ids)
    ensures |ids| == |raw| == |r.ids|
    ensures forall i: nat | i < |ids| && r.Kept(i) :: ids[i] == r.ids[i] && raw[i] == r.weights[i]
    ensures AllResident(r.allow, ids) && Distinct(ids) <==> |Residents(r.allow)| >= |r.ids|
    ensures |Residents(r.allow)| >= |r.ids| ==>
              forall i: nat | i < |ids| && !r.Kept(i) :: ids[i] < |r.scores| && raw[i] == sig(r.scores[ids[i]])
  {
    var p :| IsPlan(r, p) && PlanFits(r, p) && ids == NewIds(r, p) && raw == RawWeights(r, p, sig);
    SubstitutionIsSoundIff(r, p);
    if |Residents(r.allow)| >= |r.ids| {
      forall i: nat | i < |ids| && !r.Kept(i) ensures ids[i] < |r.scores| && raw[i] == sig(r.scores[ids[i]]) {
        EnoughResidentsFill(r, p, i);
      }
    }
  }

  // Out of place: the caller's tensors are left alone.
  method ResidentIds(out: TopkOutput, logits: seq<seq<real>>, mask: seq<bool>, neg: real, sig: real -> real)
    returns (ids: seq<seq<nat>>, weights: seq<seq<real>>)
    requires RowsOk(out.topkIds, out.topkWeights, logits, mask, neg)
    ensures |ids| == |weights| == |out.topkIds|
    ensures forall t: nat | t < |ids| ::
              IsSubstitute(Row(out.topkIds[t], out.topkWeights[t], logits[t], mask, neg), sig, ids[t], weights[t])
  {
    ids, weights := [], [];
    for t := 0 to |out.topkIds|
      invariant |ids| == |weights| == t
      invariant forall u: nat | u < t ::
                  IsSubstitute(Row(out.topkIds[u], out.topkWeights[u], logits[u], mask, neg), sig, ids[u], weights[u])
    {
      var r := Row(out.topkIds[t], out.topkWeights[t], logits[t], mask, neg);
      var p := PlanRow(r);
      PlansFit(r, p);
      var row := seq(|r.ids|, i requires 0 <= i < |r.ids| => NewId(r, p, i));
      assert row == NewIds(r, p);
      ids, weights := ids + [row], weights + [RawWeights(r, p, sig)];
    }
  }

  // In place: the same choice, with the weights then divided by their sum.
  method RestrictResident(out: TopkOutput, logits: seq<seq<real>>, mask: seq<bool>, neg: real, sig: real -> real)
    requires RowsOk(out.topkIds, out.topkWeights, logits, mask, neg)
    modifies out
    ensures |out.topkIds| == |out.topkWeights| == |old(out.topkIds)|
    ensures forall t: nat | t < |out.topkIds| ::
              IsRestricted(Row(old(out.topkIds)[t], old(out.topkWeights)[t], logits[t], mask, neg), sig,
                           out.topkIds[t], out.topkWeights[t])
  {
    var ids, raw := ResidentIds(out, logits, mask, neg, sig);
    var scaled := seq(|raw|, t requires 0 <= t < |raw| => Normalised(raw[t]));
    out.topkIds, out.topkWeights := ids, scaled;
  }
}
