// Reductions over the lanes of a warp, and over the warps of a block.
//
// A shuffle-down step gives every lane the register of the lane `off` above it;
// a lane whose partner is out of range reads its own register. All lanes step
// together, so a step maps one sequence of registers to the next.

module WarpReduce {
  import opened Arith
  import opened Ranking

  const INT_MAX: int := 0x7fff_ffff

  datatype Cand<T> = Cand(value: T, at: int)

  ghost predicate TotalGreater<T(!new)>(gt: (T, T) -> bool) {
    && (forall a :: !gt(a, a))
    && (forall a, b :: a != b ==> gt(a, b) || gt(b, a))
    && (forall a, b, c :: gt(a, b) && gt(b, c) ==> gt(a, c))
  }

  // Larger value, or the same value at a smaller index.
  predicate Better<T(==)>(gt: (T, T) -> bool, a: Cand<T>, b: Cand<T>) {
    gt(a.value, b.value) || (a.value == b.value && a.at < b.at)
  }

  // `c` is the first maximum of `v` over the indices in `s`, among the values
  // above `floor`; (floor, INT_MAX) when there is none.
  ghost predicate IsArgmaxOn<T(!new)>(gt: (T, T) -> bool, v: seq<T>, floor: T, s: set<nat>, c: Cand<T>) {
    && (forall i | i in s :: i < |v|)
    && (if c.at == INT_MAX then c.value == floor && (forall i | i in s :: !gt(v[i], floor))
        else 0 <= c.at && c.at in s && v[c.at] == c.value && gt(c.value, floor)
             && forall i | i in s && i != c.at :: Better(gt, c, Cand(v[i], i)))
  }

  // The indices below `hi` that thread `tid` of `nth` visits.
  ghost function Stride(hi: nat, tid: nat, nth: nat): set<nat>
    requires nth > 0
  {
    set i: nat | i < hi && i % nth == tid
  }

  ghost predicate IsArgmax<T(!new)>(gt: (T, T) -> bool, v: seq<T>, floor: T, c: Cand<T>) {
    IsArgmaxOn(gt, v, floor, Range(0, |v|), c)
  }

  lemma ArgmaxUnique<T(!new)>(gt: (T, T) -> bool, v: seq<T>, floor: T, a: Cand<T>, b: Cand<T>)
    requires TotalGreater(gt) && |v| <= INT_MAX
    requires IsArgmax(gt, v, floor, a) && IsArgmax(gt, v, floor, b)
    ensures a == b
  {
    NotBeaten(gt, v, floor, a, b);
    NotBeaten(gt, v, floor, b, a);
  }

  // Nothing in `v` above the floor, and not the sentinel either, is better than the argmax.
  lemma NotBeaten<T(!new)>(gt: (T, T) -> bool, v: seq<T>, floor: T, a: Cand<T>, b: Cand<T>)
    requires TotalGreater(gt) && |v| <= INT_MAX && IsArgmax(gt, v, floor, a)
    requires b == Cand(floor, INT_MAX) || (0 <= b.at < |v| && b.value == v[b.at] && gt(b.value, floor))
    ensures !Better(gt, b, a)
  {
    if b.at != INT_MAX {
      assert b.at in Range(0, |v|);
    }
  }

  // One more candidate, at an index above all those already scanned.
  lemma ScanExtend<T(!new)>(gt: (T, T) -> bool, v: seq<T>, floor: T, s: set<nat>, i: nat, c: Cand<T>)
    requires TotalGreater(gt) && |v| <= INT_MAX && i < |v|
    requires IsArgmaxOn(gt, v, floor, s, c) && forall k | k in s :: k < i
    ensures IsArgmaxOn(gt, v, floor, s + {i}, if gt(v[i], c.value) then Cand(v[i], i) else c)
  {
    if c.at != INT_MAX && gt(v[i], c.value) {
      forall k | k in s ensures gt(v[i], v[k]) {
        assert k == c.at || Better(gt, c, Cand(v[k], k));
      }
    }
  }

  lemma ArgmaxMerge<T(!new)>(gt: (T, T) -> bool, v: seq<T>, floor: T, s: set<nat>, t: set<nat>, a: Cand<T>, b: Cand<T>)
    requires TotalGreater(gt) && |v| <= INT_MAX
    requires IsArgmaxOn(gt, v, floor, s, a) && IsArgmaxOn(gt, v, floor, t, b)
    ensures IsArgmaxOn(gt, v, floor, s + t, if Better(gt, b, a) then b else a)
  {
    var c := if Better(gt, b, a) then b else a;
    if c.at != INT_MAX {
      forall i | i in s + t && i != c.at ensures Better(gt, c, Cand(v[i], i)) {
        if i in s {
          MergeSide(gt, v, floor, s, a, c, i);
        } else {
          MergeSide(gt, v, floor, t, b, c, i);
        }
      }
    }
  }

  lemma MergeSide<T(!new)>(gt: (T, T) -> bool, v: seq<T>, floor: T, s: set<nat>, a: Cand<T>, c: Cand<T>, i: nat)
    requires TotalGreater(gt) && |v| <= INT_MAX && IsArgmaxOn(gt, v, floor, s, a)
    requires c == a || Better(gt, c, a) || (!Better(gt, a, c) && a.at == c.at)
    requires c.at != INT_MAX && i in s && i != c.at && gt(c.value, floor) && 0 <= c.at < |v| && v[c.at] == c.value
    ensures Better(gt, c, Cand(v[i], i))
  {
    if a.at == INT_MAX {
      assert !gt(v[i], floor);
    } else if i != a.at {
      assert Better(gt, a, Cand(v[i], i));
    }
  }

  // ---- powers of two ----------------------------------------------------------

  ghost predicate IsPow2(n: nat) {
    n == 1 || (n > 0 && n % 2 == 0 && IsPow2(n / 2))
  }

  // ---- one warp ----------------------------------------------------------------

  // The private scan of one lane over its `per` consecutive values.
  method LaneScan<T(==, !new)>(gt: (T, T) -> bool, v: seq<T>, floor: T, lo: nat, per: nat) returns (c: Cand<T>)
    requires TotalGreater(gt) && lo + per <= |v| <= INT_MAX
    ensures IsArgmaxOn(gt, v, floor, Range(lo, lo + per), c)
  {
    c := Cand(floor, INT_MAX);
    for j := 0 to per
      invariant IsArgmaxOn(gt, v, floor, Range(lo, lo + j), c)
    {
      ScanExtend(gt, v, floor, Range(lo, lo + j), lo + j, c);
      assert Range(lo, lo + j) + {lo + j} == Range(lo, lo + j + 1);
      if gt(v[lo + j], c.value) {
        c := Cand(v[lo + j], lo + j);
      }
    }
  }

  // The private scan of one thread over a strided share of a block's values.
  method StridedScan<T(==, !new)>(gt: (T, T) -> bool, v: seq<T>, floor: T, tid: nat, nth: nat) returns (c: Cand<T>)
    requires TotalGreater(gt) && tid < nth && |v| <= INT_MAX
    ensures IsArgmaxOn(gt, v, floor, Stride(|v|, tid, nth), c)
  {
    c := Cand(floor, INT_MAX);
    var i := tid;
    ghost var seen: set<nat> := {};
    StrideEnds(|v|, tid, nth);
    while i < |v|
      invariant i % nth == tid && seen == Stride(|v|, tid, nth) * Range(0, i)
      invariant IsArgmaxOn(gt, v, floor, seen, c)
    {
      ScanExtend(gt, v, floor, seen, i, c);
      if gt(v[i], c.value) {
        c := Cand(v[i], i);
      }
      StrideStep(|v|, tid, nth, i);
      seen, i := seen + {i}, i + nth;
    }
    assert seen == Stride(|v|, tid, nth);
  }

  lemma StrideEnds(hi: nat, tid: nat, nth: nat)
    requires tid < nth
    ensures tid % nth == tid && Stride(hi, tid, nth) * Range(0, tid) == {}
  {
    DivModUnique(0, nth, tid);
    forall k: nat | k < tid ensures k % nth != tid {
      DivModUnique(0, nth, k);
    }
  }

  lemma StrideStep(hi: nat, tid: nat, nth: nat, i: nat)
    requires tid < nth && i % nth == tid && i < hi
    ensures (i + nth) % nth == tid
    ensures Stride(hi, tid, nth) * Range(0, i + nth) == Stride(hi, tid, nth) * Range(0, i) + {i}
  {
    NextInClass(i, i + nth, nth);
    forall k | k in Stride(hi, tid, nth) * Range(0, i + nth)
      ensures k in Stride(hi, tid, nth) * Range(0, i) + {i}
    {
      if k >= i { NextInClass(i, k, nth); }
    }
  }

  lemma NextInClass(i: nat, k: nat, n: nat)
    requires n > 0 && i <= k <= i + n
    ensures (k < i + n && k % n == i % n) ==> k == i
    ensures (i + n) % n == i % n
  {
    StepDivMod(i, n);
    if k < i + n && k % n == i % n {
      DivMod(i, n);
      DivMod(k, n);
      assert n * (k / n - i / n) == k - i;
      SmallMultiple(k / n - i / n, n, k - i);
    }
  }

  ghost function UnionOf(shares: seq<set<nat>>): set<nat> {
    set l, i | 0 <= l < |shares| && i in shares[l] :: i
  }

  // for (off = width / 2; off > 0; off >>= 1) { shuffle; keep the better }
  // Lane 0 ends with the argmax over everything the lanes started with.
  method ShuffleArgmax<T(==, !new)>(gt: (T, T) -> bool, lanes: seq<Cand<T>>,
                                    ghost v: seq<T>, ghost floor: T, ghost shares: seq<set<nat>>)
    returns (c: Cand<T>)
    requires TotalGreater(gt) && |v| <= INT_MAX
    requires IsPow2(|lanes|) && |shares| == |lanes|
    requires forall l | 0 <= l < |lanes| :: IsArgmaxOn(gt, v, floor, shares[l], lanes[l])
    ensures IsArgmaxOn(gt, v, floor, UnionOf(shares), c)
  {
    var width := |lanes|;
    var regs := lanes;
    ghost var regions := shares;
    ghost var live: nat := width;
    var off := width / 2;
    while off > 0
      invariant |regs| == |regions| == width
      invariant IsPow2(live) && live <= width && off == live / 2
      invariant forall l | 0 <= l < width :: IsArgmaxOn(gt, v, floor, regions[l], regs[l])
      invariant UnionOf(regions[..live]) == UnionOf(shares)
    {
      ghost var merged;
      regs, merged := ShuffleStep(gt, regs, off, v, floor, regions);
      UnionHalves(regions, merged, live, off);
      regions := merged;
      live, off := off, off / 2;
    }
    c := regs[0];
    assert UnionOf(regions[..1]) == regions[0];
  }

  method ShuffleStep<T(==, !new)>(gt: (T, T) -> bool, regs: seq<Cand<T>>, off: nat,
                                  ghost v: seq<T>, ghost floor: T, ghost regions: seq<set<nat>>)
    returns (next: seq<Cand<T>>, ghost merged: seq<set<nat>>)
    requires TotalGreater(gt) && |v| <= INT_MAX && |regions| == |regs|
    requires forall l | 0 <= l < |regs| :: IsArgmaxOn(gt, v, floor, regions[l], regs[l])
    ensures |next| == |merged| == |regs|
    ensures forall l | 0 <= l < |regs| - off :: merged[l] == regions[l] + regions[l + off]
    ensures forall l | 0 <= l < |regs| :: IsArgmaxOn(gt, v, floor, merged[l], next[l])
  {
    next, merged := [], [];
    for l := 0 to |regs|
      invariant |next| == |merged| == l
      invariant forall k | 0 <= k < l && k + off < |regs| :: merged[k] == regions[k] + regions[k + off]
      invariant forall k | 0 <= k < l :: IsArgmaxOn(gt, v, floor, merged[k], next[k])
    {
      var partner := if l + off < |regs| then l + off else l;
      ArgmaxMerge(gt, v, floor, regions[l], regions[partner], regs[l], regs[partner]);
      next := next + [if Better(gt, regs[partner], regs[l]) then regs[partner] else regs[l]];
      merged := merged + [regions[l] + regions[partner]];
    }
  }

  lemma UnionHalves(regions: seq<set<nat>>, merged: seq<set<nat>>, live: nat, off: nat)
    requires |merged| == |regions| && live <= |regions| && live == 2 * off
    requires forall l | 0 <= l < off :: merged[l] == regions[l] + regions[l + off]
    ensures UnionOf(merged[..off]) == UnionOf(regions[..live])
  {
    forall i | i in UnionOf(regions[..live]) ensures i in UnionOf(merged[..off]) {
      var l :| 0 <= l < live && i in regions[..live][l];
      var m := if l < off then l else l - off;
      assert merged[..off][m] == regions[m] + regions[m + off];
    }
    forall i | i in UnionOf(merged[..off]) ensures i in UnionOf(regions[..live]) {
      var l :| 0 <= l < off && i in merged[..off][l];
      assert i in regions[..live][l] || i in regions[..live][l + off];
    }
  }

  // Every lane scans its own `per` consecutive values.
  method ScanLanes<T(==, !new)>(gt: (T, T) -> bool, v: seq<T>, floor: T, width: nat, per: nat)
    returns (lanes: seq<Cand<T>>)
    requires TotalGreater(gt) && |v| == width * per && |v| <= INT_MAX
    ensures |lanes| == width
    ensures forall l | 0 <= l < width :: IsArgmaxOn(gt, v, floor, Share(l, per), lanes[l])
  {
    lanes := [];
    for lane := 0 to width
      invariant |lanes| == lane
      invariant forall l | 0 <= l < lane :: IsArgmaxOn(gt, v, floor, Share(l, per), lanes[l])
    {
      RowFits(lane, width, per);
      var mine := LaneScan(gt, v, floor, lane * per, per);
      lanes := lanes + [mine];
    }
  }

  // The warp's argmax over `width` lanes of `per` values each: the scan of each
  // lane, then the tree.
  method WarpArgmax<T(==, !new)>(gt: (T, T) -> bool, v: seq<T>, floor: T, width: nat, per: nat) returns (c: Cand<T>)
    requires TotalGreater(gt) && IsPow2(width) && |v| == width * per && |v| <= INT_MAX
    ensures IsArgmax(gt, v, floor, c)
  {
    var lanes := ScanLanes(gt, v, floor, width, per);
    ghost var shares := seq(width, l requires 0 <= l < width => Share(l, per));
    LanesCover(width, per, shares);
    c := ShuffleArgmax(gt, lanes, v, floor, shares);
  }

  ghost function Share(lane: nat, per: nat): set<nat> {
    Range(lane * per, lane * per + per)
  }

  lemma LanesCover(width: nat, per: nat, shares: seq<set<nat>>)
    requires |shares| == width && forall l | 0 <= l < width :: shares[l] == Share(l, per)
    ensures UnionOf(shares) == Range(0, width * per)
  {
    forall i | i in Range(0, width * per) ensures i in UnionOf(shares) {
      MulMono(0, per, width);
      var l := i / per;
      DivBelow(i, per, width);
      DivMod(i, per);
      assert i in shares[l];
    }
    forall i | i in UnionOf(shares) ensures i in Range(0, width * per) {
      var l :| 0 <= l < width && i in shares[l];
      RowFits(l, width, per);
    }
  }

  // ---- one block: a warp tree per warp, then one pass over the warp partials -----

  method BlockArgmax<T(==, !new)>(gt: (T, T) -> bool, v: seq<T>, floor: T, nth: nat, width: nat) returns (c: Cand<T>)
    requires TotalGreater(gt) && IsPow2(width) && nth > 0 && nth % width == 0 && |v| <= INT_MAX
    ensures IsArgmax(gt, v, floor, c)
  {
    var nw := nth / width;
    DivMod(nth, width);
    var partials: seq<Cand<T>> := [];
    ghost var regions: seq<set<nat>> := [];
    for w := 0 to nw
      invariant |partials| == |regions| == w
      invariant forall p | 0 <= p < w ::
                  regions[p] == (set i: nat | i < |v| && p * width <= i % nth < p * width + width)
      invariant forall p | 0 <= p < w :: IsArgmaxOn(gt, v, floor, regions[p], partials[p])
    {
      RowFits(w, nw, width);
      var part, region := OneWarp(gt, v, floor, nth, width, w);
      partials := partials + [part];
      regions := regions + [region];
    }
    c := MergeWarps(gt, v, floor, partials, regions);
    WarpsCover(v, nth, width, regions);
  }

  // Thread 0 walks the warps' results in order.
  method MergeWarps<T(==, !new)>(gt: (T, T) -> bool, ghost v: seq<T>, ghost floor: T, partials: seq<Cand<T>>,
                                 ghost regions: seq<set<nat>>)
    returns (c: Cand<T>)
    requires TotalGreater(gt) && |v| <= INT_MAX && |partials| == |regions| > 0
    requires forall p | 0 <= p < |partials| :: IsArgmaxOn(gt, v, floor, regions[p], partials[p])
    ensures IsArgmaxOn(gt, v, floor, UnionOf(regions), c)
  {
    c := partials[0];
    ghost var all := regions[0];
    for w := 1 to |partials|
      invariant IsArgmaxOn(gt, v, floor, all, c)
      invariant all == UnionOf(regions[..w])
    {
      ArgmaxMerge(gt, v, floor, all, regions[w], c, partials[w]);
      if Better(gt, partials[w], c) {
        c := partials[w];
      }
      UnionSnoc(regions, w);
      all := all + regions[w];
    }
    assert regions[..|partials|] == regions;
  }

  method OneWarp<T(==, !new)>(gt: (T, T) -> bool, v: seq<T>, floor: T, nth: nat, width: nat, w: nat)
    returns (c: Cand<T>, ghost region: set<nat>)
    requires TotalGreater(gt) && IsPow2(width) && w * width + width <= nth && |v| <= INT_MAX
    ensures region == set i: nat | i < |v| && w * width <= i % nth < w * width + width
    ensures IsArgmaxOn(gt, v, floor, region, c)
  {
    var lanes: seq<Cand<T>> := [];
    ghost var shares: seq<set<nat>> := [];
    for lane := 0 to width
      invariant |lanes| == |shares| == lane
      invariant forall l | 0 <= l < lane :: shares[l] == (set i: nat | i < |v| && i % nth == w * width + l)
      invariant forall l | 0 <= l < lane :: IsArgmaxOn(gt, v, floor, shares[l], lanes[l])
    {
      var mine := StridedScan(gt, v, floor, w * width + lane, nth);
      lanes := lanes + [mine];
      shares := shares + [set i: nat | i < |v| && i % nth == w * width + lane];
    }
    region := set i: nat | i < |v| && w * width <= i % nth < w * width + width;
    forall i | i in region ensures i in UnionOf(shares) {
      assert i in shares[i % nth - w * width];
    }
    assert UnionOf(shares) == region;
    c := ShuffleArgmax(gt, lanes, v, floor, shares);
  }

  lemma UnionSnoc(regions: seq<set<nat>>, w: nat)
    requires w < |regions|
    ensures UnionOf(regions[..w + 1]) == UnionOf(regions[..w]) + regions[w]
  {
    forall i | i in UnionOf(regions[..w]) + regions[w] ensures i in UnionOf(regions[..w + 1]) {
      if i in regions[w] {
        assert i in regions[..w + 1][w];
      } else {
        var l :| 0 <= l < w && i in regions[..w][l];
        assert i in regions[..w + 1][l];
      }
    }
    forall i | i in UnionOf(regions[..w + 1]) ensures i in UnionOf(regions[..w]) + regions[w] {
      var l :| 0 <= l < w + 1 && i in regions[..w + 1][l];
      assert l == w || i in regions[..w][l];
    }
  }

  lemma WarpsCover<T>(v: seq<T>, nth: nat, width: nat, regions: seq<set<nat>>)
    requires width > 0 && nth > 0 && nth % width == 0 && |regions| == nth / width
    requires forall p | 0 <= p < |regions| ::
               regions[p] == (set i: nat | i < |v| && p * width <= i % nth < p * width + width)
    ensures UnionOf(regions) == Range(0, |v|)
  {
    forall i: nat | i < |v| ensures i in UnionOf(regions) {
      var p := (i % nth) / width;
      DivMod(nth, width);
      DivBelow(i % nth, width, |regions|);
      DivMod(i % nth, width);
      assert i in regions[p];
    }
  }

  // ---- sums ------------------------------------------------------------------------

  ghost function Sum(s: seq<int>): int {
    if s == [] then 0 else Sum(s[..|s| - 1]) + s[|s| - 1]
  }

  // for (off = width / 2; off > 0; off >>= 1) x += shuffle_down(x, off)
  method ShuffleSum(lanes: seq<int>) returns (total: int)
    requires IsPow2(|lanes|)
    ensures total == Sum(lanes)
  {
    var width := |lanes|;
    var regs := lanes;
    ghost var live: nat := width;
    var off := width / 2;
    assert regs[..width] == lanes;
    while off > 0
      invariant |regs| == width && IsPow2(live) && live <= width && off == live / 2
      invariant Sum(regs[..live]) == Sum(lanes)
    {
      regs := SumStep(regs, off);
      live, off := off, off / 2;
    }
    total := regs[0];
    assert regs[..1] == [regs[0]];
  }

  method SumStep(regs: seq<int>, off: nat) returns (next: seq<int>)
    requires off > 0 && 2 * off <= |regs|
    ensures |next| == |regs| && Sum(next[..off]) == Sum(regs[..2 * off])
  {
    var width := |regs|;
    next := seq(width, l requires 0 <= l < width => regs[l] + if l + off < width then regs[l + off] else regs[l]);
    SumHalves(regs, next, off, off);
  }

  lemma {:induction false} SumSplit(s: seq<int>, k: nat)
    requires k <= |s|
    ensures Sum(s) == Sum(s[..k]) + Sum(s[k..])
  {
    if k == |s| {
      assert s[..k] == s;
    } else {
      var n := |s| - 1;
      SumSplit(s[..n], k);
      assert s[..n][..k] == s[..k];
      assert s[..n][k..] == s[k..][..n - k];
    }
  }

  lemma {:induction false} SumHalves(regs: seq<int>, next: seq<int>, off: nat, n: nat)
    requires n <= off && 2 * off <= |regs| && |next| == |regs|
    requires forall l | 0 <= l < off :: next[l] == regs[l] + regs[l + off]
    ensures Sum(next[..n]) == Sum(regs[..n]) + Sum(regs[off..off + n])
    ensures n == off ==> Sum(next[..off]) == Sum(regs[..2 * off])
  {
    if n > 0 {
      SumHalves(regs, next, off, n - 1);
      assert next[..n][..n - 1] == next[..n - 1];
      assert regs[..n][..n - 1] == regs[..n - 1];
      assert regs[off..off + n][..n - 1] == regs[off..off + n - 1];
    }
    if n == off {
      SumSplit(regs[..2 * off], off);
      assert regs[..2 * off][..off] == regs[..off];
      assert regs[..2 * off][off..] == regs[off..off + off];
    }
  }
}
