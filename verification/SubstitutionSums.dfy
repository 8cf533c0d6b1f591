// What a substituted row's weights add up to, before and after dividing: a quantity of the
// row alone, however the sorts break ties.

module SubstituteSums {
  import opened Ranking
  import opened TorchSelect
  import opened Substitution
  import TokenChoice

  // ---- sums ----------------------------------------------------------------------------

  lemma {:induction false} SumUpdate(w: seq<real>, i: nat, x: real)
    requires i < |w|
    ensures Sum(w[i := x]) == Sum(w) - w[i] + x
  {
    var n := |w| - 1;
    if i < n {
      SumUpdate(w[..n], i, x);
      assert w[i := x][..n] == w[..n][i := x];
    } else {
      assert w[i := x][..n] == w[..n];
    }
  }

  lemma {:induction false} SumZeros(w: seq<real>)
    requires forall i | 0 <= i < |w| :: w[i] == 0.0
    ensures Sum(w) == 0.0
  {
    if w != [] { SumZeros(w[..|w| - 1]); }
  }

  lemma {:induction false} SumOfSums(a: seq<real>, b: seq<real>, c: seq<real>)
    requires |a| == |b| == |c| && forall i | 0 <= i < |c| :: c[i] == a[i] + b[i]
    ensures Sum(c) == Sum(a) + Sum(b)
  {
    if c != [] {
      var n := |c| - 1;
      SumOfSums(a[..n], b[..n], c[..n]);
    }
  }

  lemma {:induction false} SumConcat(a: seq<real>, b: seq<real>)
    ensures Sum(a + b) == Sum(a) + Sum(b)
  {
    if b == [] {
      assert a + b == a;
    } else {
      var n := |b| - 1;
      SumConcat(a, b[..n]);
      assert (a + b)[..|a| + n] == a + b[..n];
    }
  }

  // x, with zero at the places not among the first m of `order`.
  ghost function Visited(x: seq<real>, order: seq<nat>, m: nat): (z: seq<real>)
    requires m <= |order|
    ensures |z| == |x| && forall i | 0 <= i < |x| :: z[i] == if i in order[..m] then x[i] else 0.0
  {
    seq(|x|, i requires 0 <= i < |x| => if i in order[..m] then x[i] else 0.0)
  }

  lemma {:induction false} VisitedSum(x: seq<real>, order: seq<nat>, y: seq<real>, m: nat)
    requires m <= |order| == |y| && Distinct(order) && Below(order, |x|)
    requires forall k | 0 <= k < |y| :: y[k] == x[order[k]]
    ensures Sum(Visited(x, order, m)) == Sum(y[..m])
  {
    if m == 0 {
      SumZeros(Visited(x, order, 0));
    } else {
      VisitedSum(x, order, y, m - 1);
      var z, i := Visited(x, order, m - 1), order[m - 1];
      assert i !in order[..m - 1];
      SumUpdate(z, i, x[i]);
      assert order[..m] == order[..m - 1] + [i];
      assert Visited(x, order, m) == z[i := x[i]];
      assert y[..m][..m - 1] == y[..m - 1];
    }
  }

  // A sum does not depend on the order.
  lemma PermutedSum(x: seq<real>, order: seq<nat>, y: seq<real>)
    requires |order| == |y| == |x| && Distinct(order) && Below(order, |x|)
    requires forall k | 0 <= k < |y| :: y[k] == x[order[k]]
    ensures Sum(x) == Sum(y)
  {
    EveryIndexOrdered(order);
    VisitedSum(x, order, y, |order|);
    assert order[..|order|] == order && y[..|y|] == y;
    assert Visited(x, order, |order|) == x;
  }

  // ---- ties ------------------------------------------------------------------------------

  lemma LeadersPass(eff: seq<real>, s: set<nat>, a: seq<nat>, b: seq<nat>, q: nat)
    requires IsSortedPrefix(eff, s, true, a) && IsSortedPrefix(eff, s, true, b) && q < |a| && q < |b|
    ensures eff[a[q]] <= eff[b[q]]
  {
    if eff[a[q]] > eff[b[q]] {
      var lead, before := a[..q + 1], b[..q];
      forall e | e in SetOf(lead) ensures e in SetOf(before) {
        var i :| 0 <= i <= q && a[i] == e;
        LeaderIsBefore(eff, s, b, q, e);
      }
      SetOfSize(lead);
      SetOfSize(before);
      SubsetSize(SetOf(lead), SetOf(before));
    }
  }

  lemma LeaderIsBefore(eff: seq<real>, s: set<nat>, b: seq<nat>, q: nat, e: nat)
    requires IsSortedPrefix(eff, s, true, b) && q < |b| && e in s && eff[e] > eff[b[q]]
    ensures e in b[..q]
  {
    var j :| 0 <= j < |b| && b[j] == e;
    assert j < q;
    assert b[..q][j] == e;
  }

  // Two sorted prefixes list the same values, whichever way each broke its ties.
  lemma SortedValuesAgree(eff: seq<real>, s: set<nat>, a: seq<nat>, b: seq<nat>, q: nat)
    requires IsSortedPrefix(eff, s, true, a) && IsSortedPrefix(eff, s, true, b) && q < |a| && q < |b|
    ensures eff[a[q]] == eff[b[q]]
  {
    LeadersPass(eff, s, a, b, q);
    LeadersPass(eff, s, b, a, q);
  }

  // ---- what a row carries -------------------------------------------------------------------

  ghost function KeptWeights(r: Row): (w: seq<real>)
    requires r.Ok()
    ensures |w| == |r.ids| && forall i: nat | i < |w| :: w[i] == if r.Kept(i) then r.weights[i] else 0.0
  {
    seq(|r.ids|, i requires 0 <= i < |r.ids| => if r.Kept(i) then r.weights[i] else 0.0)
  }

  ghost function DroppedWeights(r: Row): (w: seq<real>)
    requires r.Ok()
    ensures |w| == |r.ids| && forall i: nat | i < |w| :: w[i] == if r.Kept(i) then 0.0 else r.weights[i]
  {
    seq(|r.ids|, i requires 0 <= i < |r.ids| => if r.Kept(i) then 0.0 else r.weights[i])
  }

  // The unused residents in order of score, the lower id first on equal ones.
  ghost function BestFree(r: Row): (ids: seq<nat>)
    requires r.Ok()
    ensures |ids| == |r.ids| && IsSortedPrefix(r.Keys(), Range(0, |r.scores|), true, ids) && Below(ids, |r.scores|)
  {
    RangeSize(|r.scores|);
    var ids := TokenChoice.Top(r.Keys(), Range(0, |r.scores|), |r.ids|);
    LeadingIsSorted(r.Keys(), ids);
    ids
  }

  lemma LeadingIsSorted(v: seq<real>, ids: seq<nat>)
    requires Leads(TokenChoice.Higher(v), Range(0, |v|), ids)
    ensures IsSortedPrefix(v, Range(0, |v|), true, ids) && Below(ids, |v|)
  {
    forall i | 0 <= i < |ids| ensures ids[i] < |v| { assert ids[i] in Range(0, |v|); }
    TokenChoice.HigherTotal(v, Range(0, |v|));
    LeadsSize(TokenChoice.Higher(v), Range(0, |v|), ids);
  }

  lemma DroppedFit(r: Row)
    requires r.Ok()
    ensures |Dropped(r)| <= |r.ids|
  {
    RangeSize(|r.ids|);
    SubsetSize(Dropped(r), Range(0, |r.ids|));
  }

  // As many of their sigmoids as slots were dropped.
  ghost function StandIns(r: Row, sig: real -> real): (w: seq<real>)
    requires r.Ok()
    ensures |w| == |Dropped(r)| <= |r.ids|
    ensures forall k: nat | k < |w| :: w[k] == sig(r.Key(BestFree(r)[k]))
  {
    DroppedFit(r);
    seq(|Dropped(r)|, k requires 0 <= k < |Dropped(r)| => sig(r.Key(BestFree(r)[k])))
  }

  // What the row's weights come to once its dropped slots have their stand-ins.
  ghost function Carried(r: Row, sig: real -> real): real
    requires r.Ok()
  {
    Sum(KeptWeights(r)) + Sum(StandIns(r, sig))
  }

  lemma OrderFits(r: Row, p: Plan)
    requires r.Ok() && IsPlan(r, p)
    ensures Distinct(p.order) && Below(p.order, |r.ids|) && forall k | 0 <= k < |p.order| :: p.rank[p.order[k]] == k
  {
    forall k | 0 <= k < |p.order| ensures p.order[k] < |r.ids| && p.rank[p.order[k]] == k {
      assert p.order[k] in Range(0, |r.ids|);
      assert p.order[p.rank[p.order[k]]] == p.order[k];
    }
  }

  // The k-th dropped slot in the second sort takes the k-th best free key.
  lemma OrderedStandIn(r: Row, p: Plan, sig: real -> real, k: nat)
    requires r.Ok() && IsPlan(r, p) && PlanFits(r, p) && k < |p.order|
    ensures p.order[k] < |r.ids| && (k < |Dropped(r)| <==> !r.Kept(p.order[k]))
    ensures k < |Dropped(r)| ==> RawWeight(r, p, sig, p.order[k]) == StandIns(r, sig)[k]
  {
    OrderFits(r, p);
    var i := p.order[k];
    if r.Kept(i) {
      KeptRanksLast(r, p, i);
    } else {
      DroppedRanksFirst(r, p, i);
      SortedValuesAgree(r.Keys(), Range(0, |r.scores|), p.fill, BestFree(r), k);
    }
  }

  // The weights of dropped slots only.
  ghost function SubstitutedWeights(r: Row, p: Plan, sig: real -> real): (w: seq<real>)
    requires r.Ok() && IsPlan(r, p) && PlanFits(r, p)
    ensures |w| == |r.ids| && forall i: nat | i < |w| :: w[i] == if r.Kept(i) then 0.0 else RawWeight(r, p, sig, i)
  {
    seq(|r.ids|, i requires 0 <= i < |r.ids| => if r.Kept(i) then 0.0 else RawWeight(r, p, sig, i))
  }

  lemma SubstitutedSum(r: Row, p: Plan, sig: real -> real)
    requires r.Ok() && IsPlan(r, p) && PlanFits(r, p)
    ensures Sum(SubstitutedWeights(r, p, sig)) == Sum(StandIns(r, sig))
  {
    var own := StandIns(r, sig);
    var rest: seq<real> := seq(|r.ids| - |own|, _ => 0.0);
    OrderFits(r, p);
    StandInsFirst(r, p, sig, rest);
    PermutedSum(SubstitutedWeights(r, p, sig), p.order, own + rest);
    SumConcat(own, rest);
    SumZeros(rest);
  }

  lemma StandInsFirst(r: Row, p: Plan, sig: real -> real, rest: seq<real>)
    requires r.Ok() && IsPlan(r, p) && PlanFits(r, p) && Below(p.order, |r.ids|)
    requires |StandIns(r, sig)| + |rest| == |r.ids| && forall k | 0 <= k < |rest| :: rest[k] == 0.0
    ensures forall k: nat | k < |p.order| :: (StandIns(r, sig) + rest)[k] == SubstitutedWeights(r, p, sig)[p.order[k]]
  {
    forall k: nat | k < |p.order| ensures (StandIns(r, sig) + rest)[k] == SubstitutedWeights(r, p, sig)[p.order[k]] {
      OrderedStandIn(r, p, sig, k);
    }
  }

  // The weights a substitution returns add up to what the row carries: the kept weights
  // plus the sigmoids of the best free scores, one for each dropped slot.
  lemma SumIsCarried(r: Row, sig: real -> real, ids: seq<nat>, raw: seq<real>)
    requires r.Ok() && IsSubstitute(r, sig, ids, raw)
    ensures Sum(raw) == Carried(r, sig)
  {
    var p :| IsPlan(r, p) && PlanFits(r, p) && ids == NewIds(r, p) && raw == RawWeights(r, p, sig);
    SumOfSums(KeptWeights(r), SubstitutedWeights(r, p, sig), raw);
    SubstitutedSum(r, p, sig);
  }

  // The out-of-place form keeps a row's total if and only if the stand-ins' sigmoids come
  // to what the dropped slots weighed.
  lemma SumKeptIff(r: Row, sig: real -> real, ids: seq<nat>, raw: seq<real>)
    requires r.Ok() && IsSubstitute(r, sig, ids, raw)
    ensures Sum(raw) == Sum(r.weights) <==> Sum(StandIns(r, sig)) == Sum(DroppedWeights(r))
  {
    SumIsCarried(r, sig, ids, raw);
    SumOfSums(KeptWeights(r), DroppedWeights(r), r.weights);
  }

  // ---- convex or not ----------------------------------------------------------------------------

  // With room enough a restricted row is a convex combination of distinct residents,
  // unless what it carries has all but vanished.
  lemma RestrictedIsConvex(r: Row, sig: real -> real, ids: seq<nat>, raw: seq<real>)
    requires r.Ok() && IsSubstitute(r, sig, ids, raw) && Distinct(r.ids) && IsSigmoid(sig)
    requires |Residents(r.allow)| >= |r.ids| && forall i | 0 <= i < |r.weights| :: r.weights[i] >= 0.0
    ensures IsRestricted(r, sig, ids, Normalised(raw)) && AllResident(r.allow, ids) && Distinct(ids)
    ensures forall i | 0 <= i < |raw| :: Normalised(raw)[i] >= 0.0
    ensures Sum(Normalised(raw)) == 1.0 <==> Carried(r, sig) >= 0.000000001
  {
    SubstituteIsSound(r, sig, ids, raw);
    NotNegative(r, sig, ids, raw);
    NormalisedSumsToOneIff(raw);
    SumIsCarried(r, sig, ids, raw);
  }

  lemma NotNegative(r: Row, sig: real -> real, ids: seq<nat>, raw: seq<real>)
    requires r.Ok() && IsSubstitute(r, sig, ids, raw) && IsSigmoid(sig)
    requires forall i | 0 <= i < |r.weights| :: r.weights[i] >= 0.0
    ensures |raw| == |r.ids|
    ensures forall i: nat | i < |raw| :: raw[i] >= 0.0 && Normalised(raw)[i] >= 0.0 && (raw[i] == 0.0 ==> r.Kept(i))
  {
    var p :| IsPlan(r, p) && PlanFits(r, p) && ids == NewIds(r, p) && raw == RawWeights(r, p, sig);
    WeightsStayProper(r, p, sig, raw);
  }

  // A row with nothing to carry: all slots resident, all weights zero.
  ghost predicate IsVoid(r: Row)
    requires r.Ok()
  {
    forall i: nat | i < |r.ids| :: r.Kept(i) && r.weights[i] == 0.0
  }

  // The two forms return the same weights if and only if the row carries exactly one, or
  // nothing at all.
  lemma FormsAgreeIff(r: Row, sig: real -> real, ids: seq<nat>, raw: seq<real>)
    requires r.Ok() && IsSubstitute(r, sig, ids, raw) && Distinct(r.ids) && IsSigmoid(sig)
    requires forall i | 0 <= i < |r.weights| :: r.weights[i] >= 0.0
    ensures Normalised(raw) == raw <==> Carried(r, sig) == 1.0 || IsVoid(r)
  {
    SumIsCarried(r, sig, ids, raw);
    NotNegative(r, sig, ids, raw);
    SubstituteIsSound(r, sig, ids, raw);
    DividingChangesNothingIff(raw);
    if forall i | 0 <= i < |raw| :: raw[i] == 0.0 {
      forall i: nat | i < |r.ids| ensures r.Kept(i) && r.weights[i] == 0.0 { assert raw[i] == 0.0; }
    }
  }

  lemma DividingChangesNothingIff(raw: seq<real>)
    requires forall i | 0 <= i < |raw| :: raw[i] >= 0.0
    ensures Normalised(raw) == raw <==> Sum(raw) == 1.0 || forall i | 0 <= i < |raw| :: raw[i] == 0.0
  {
    var d := Divisor(raw);
    ScaledSum(raw, Normalised(raw), d);
    if Normalised(raw) == raw && !(forall i | 0 <= i < |raw| :: raw[i] == 0.0) {
      var i :| 0 <= i < |raw| && raw[i] != 0.0;
      assert raw[i] / d == raw[i];
      OnlyByOne(raw[i], d);
      assert FLOOR != 1.0;
    }
    if Sum(raw) == 1.0 || forall i | 0 <= i < |raw| :: raw[i] == 0.0 {
      forall i | 0 <= i < |raw| ensures Normalised(raw)[i] == raw[i] {
        if raw[i] == 0.0 { ZeroOver(d); } else { OverOne(raw[i], d); }
      }
    }
  }

  lemma OnlyByOne(x: real, d: real)
    requires x != 0.0 && d > 0.0 && x / d == x
    ensures d == 1.0
  {
    var q := x / d;
    assert q * d == x;
    assert x * (d - 1.0) == 0.0;
    if d > 1.0 { Product(x, d - 1.0); } else if d < 1.0 { Product(x, d - 1.0); }
  }

  lemma Product(x: real, y: real)
    requires x != 0.0 && y != 0.0
    ensures x * y != 0.0
  {
  }

  lemma ZeroOver(d: real)
    requires d > 0.0
    ensures 0.0 / d == 0.0
  {
  }

  lemma OverOne(x: real, d: real)
    requires d == 1.0
    ensures x / d == x
  {
  }

  // ---- a row that misses one ----------------------------------------------------------------------

  // Two slots of one half each, the second expert absent and one resident to stand in.
  ghost function HalfDropped(score: real): Row {
    Row([0, 1], [0.5, 0.5], [0.0, 0.0, score], [true, false, true], -1.0)
  }

  lemma HalfCarries(score: real, sig: real -> real)
    requires score > -1.0
    ensures var r := HalfDropped(score);
            && r.Ok() && Distinct(r.ids) && |Residents(r.allow)| >= |r.ids| && Dropped(r) == {1}
            && Carried(r, sig) == 0.5 + sig(score)
  {
    var r := HalfDropped(score);
    assert Residents(r.allow) == {0, 2};
    assert KeptWeights(r) == [0.5, 0.0];
    HalfKeys(score);
    HalfTop(score);
    assert StandIns(r, sig) == [sig(score)];
    SumTwo(0.5, 0.0);
    SumOne(sig(score));
  }

  lemma HalfKeys(score: real)
    requires score > -1.0
    ensures var r := HalfDropped(score);
            r.Ok() && Dropped(r) == {1} && r.Keys() == [-1.0, -1.0, score] && r.DropKeys() == [-1.0, 0.5]
  {
    assert HalfDropped(score).Free(2);
  }

  lemma HalfTop(score: real)
    requires score > -1.0 && HalfDropped(score).Ok()
    ensures BestFree(HalfDropped(score))[0] == 2
  {
    HalfKeys(score);
    assert 2 in Range(0, 3);
    assert BestFree(HalfDropped(score))[0] in Range(0, 3);
  }

  // What the two sorts can return for it.
  lemma HalfPlan(score: real)
    requires score > -1.0 && HalfDropped(score).Ok()
    ensures IsPlan(HalfDropped(score), Plan([2, 0], [1, 0], [1, 0]))
  {
    HalfKeys(score);
    assert {0, 1, 2} == Range(0, 3) && {0, 1} == Range(0, 2);
  }

  lemma SumOne(a: real)
    ensures Sum([a]) == a
  {
    assert [a][..0] == [];
  }

  lemma SumTwo(a: real, b: real)
    ensures Sum([a, b]) == a + b
  {
    assert [a, b][..1] == [a];
    SumOne(a);
  }

  lemma HalfIsSubstituted(score: real, sig: real -> real)
    requires score > -1.0 && HalfDropped(score).Ok()
    ensures exists ids, raw :: IsSubstitute(HalfDropped(score), sig, ids, raw)
  {
    var r, p := HalfDropped(score), Plan([2, 0], [1, 0], [1, 0]);
    HalfPlan(score);
    PlansFit(r, p);
    assert IsSubstitute(r, sig, NewIds(r, p), RawWeights(r, p, sig));
  }

  // So for every sigmoid there is a row of normalised weights, with residents enough, that
  // the out-of-place form does not leave summing to one.
  lemma OutOfPlaceMissesOne(sig: real -> real) returns (r: Row)
    requires IsSigmoid(sig)
    ensures r.Ok() && Distinct(r.ids) && |Residents(r.allow)| >= |r.ids| && Sum(r.weights) == 1.0
    ensures exists ids, raw :: IsSubstitute(r, sig, ids, raw)
    ensures forall ids, raw | IsSubstitute(r, sig, ids, raw) :: Sum(raw) != 1.0
  {
    assert sig(0.0) < sig(1.0);
    var score := if sig(0.0) != 0.5 then 0.0 else 1.0;
    HalfCarries(score, sig);
    SumTwo(0.5, 0.5);
    r := HalfDropped(score);
    HalfIsSubstituted(score, sig);
    forall ids, raw | IsSubstitute(r, sig, ids, raw) ensures Sum(raw) != 1.0 { SumIsCarried(r, sig, ids, raw); }
  }
}
