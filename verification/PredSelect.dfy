// The earlier, simpler selector, and the proof that the fused allocator refines it.

module PredSelect {
  import opened Ranking
  import opened WarpReduce
  import opened SlotAllocation
  import opened FusedKernel

  datatype Flags = Flags(selective: bool, route: bool, cpuskip: bool)

  ghost function Chosen(f: Flags, dem: seq<nat>, nSlot: nat): (picks: seq<nat>)
    ensures Leads(Stronger(dem), Wanted(dem), picks)
    ensures |picks| == if f.selective && |Wanted(dem)| > nSlot then 0 else Min(nSlot, |Wanted(dem)|)
  {
    StrongerTotal(dem, Wanted(dem));
    var all := Ranked(Stronger(dem), Wanted(dem));
    var n := if f.selective && |Wanted(dem)| > nSlot then 0 else Min(nSlot, |Wanted(dem)|);
    LeadsShorter(Stronger(dem), Wanted(dem), all, n);
    all[..n]
  }

  // Slot k takes the k-th strongest demand; `index` is positional and never cleared.
  ghost predicate IsSelection(f: Flags, dem: seq<nat>, index: seq<int>, pub: Publication, index': seq<int>) {
    var picks := Chosen(f, dem, |pub.sel|);
    && |index| == |index'| == |pub.landed| == |pub.landedCpu| == |dem|
    && (forall k: nat | k < |pub.sel| :: pub.sel[k] == if k < |picks| then picks[k] else -1)
    && (forall e: nat | e < |dem| :: pub.landed[e] == (f.route && e in picks))
    && (forall e: nat | e < |dem| :: pub.landedCpu[e] == (f.cpuskip && e in picks))
    && (forall k | 0 <= k < |picks| :: index'[picks[k]] == k)
    && (forall e: nat | e < |dem| && e !in picks :: index'[e] == index[e])
  }

  ghost predicate IsSelectStats(f: Flags, dem: seq<nat>, nSlot: nat, stats: seq<int>, stats': seq<int>) {
    var fetched := |Chosen(f, dem, nSlot)|;
    && |stats| == |stats'| == 4
    && stats'[0] == stats[0] + (if f.route then fetched else 0)
    && stats'[1] == stats[1] + |Wanted(dem)|
    && stats'[2] == stats[2] + 1
    && stats'[3] == stats[3] + (if fetched == 0 then 1 else 0)
  }

  // ---- refinement -------------------------------------------------------------------

  // On equal scores the eviction order is the slot order.
  lemma EqualScoresEvictInOrder(call: Call, dem: seq<nat>, t: Tables)
    requires Shaped(dem, t) && call.reuse == 0
    requires forall j, k | 0 <= j < |t.score| && 0 <= k < |t.score| :: t.score[j] == t.score[k]
    ensures Evictions(call, dem, t) == seq(|t.hold|, k requires 0 <= k < |t.hold| => k as nat)
  {
    var open := Refillable(call, dem, t);
    var inOrder: seq<nat> := seq(|t.hold|, k requires 0 <= k < |t.hold| => k);
    assert open == Range(0, |t.hold|);
    RangeSize(|t.hold|);
    WeakerTotal(t.score, open);
    forall e | e in open ensures e in inOrder {
      assert inOrder[e] == e;
    }
    LeadsUnique(Weaker(t.score), open, inOrder, Evictions(call, dem, t));
  }

  lemma FusedFetchesChosen(f: Flags, dem: seq<nat>, t: Tables)
    requires Shaped(dem, t)
    ensures var call := Call(0, f.selective, f.route, f.cpuskip, 0);
            KeptExperts(call, dem, t) == {} && Fetches(call, dem, t) == Chosen(f, dem, |t.hold|)
  {
    var call := Call(0, f.selective, f.route, f.cpuskip, 0);
    assert KeptExperts(call, dem, t) == {};
    assert Missing(call, dem, t) == Wanted(dem);
    RangeSize(|t.hold|);
    assert Refillable(call, dem, t) == Range(0, |t.hold|);
    StrongerTotal(dem, Wanted(dem));
    LeadsUnique(Stronger(dem), Wanted(dem), Fetches(call, dem, t), Chosen(f, dem, |t.hold|));
  }

  // With reuse off, equal scores and slot base 0, one fused launch publishes the
  // selection, the index and the first four counters of the simple selector.
  lemma FusedRefinesSelect(f: Flags, dem: seq<nat>, t: Tables, t': Tables, pub: Publication)
    requires Shaped(dem, t) && IsStep(Call(0, f.selective, f.route, f.cpuskip, 0), dem, t, t', pub)
    requires forall j, k | 0 <= j < |t.score| && 0 <= k < |t.score| :: t.score[j] == t.score[k]
    ensures IsSelection(f, dem, t.index, pub, t'.index)
    ensures IsSelectStats(f, dem, |pub.sel|, t.stats[..4], t'.stats[..4])
  {
    var call := Call(0, f.selective, f.route, f.cpuskip, 0);
    FusedFetchesChosen(f, dem, t);
    EqualScoresEvictInOrder(call, dem, t);
    SelectionFrom(f, dem, t, pub, t'.index);
    StatsFrom(f, dem, t, t'.stats);
  }

  lemma SelectionFrom(f: Flags, dem: seq<nat>, t: Tables, pub: Publication, index: seq<int>)
    requires var call := Call(0, f.selective, f.route, f.cpuskip, 0);
             && Shaped(dem, t) && Published(call, dem, t, pub) && Indexed(call, dem, t, index)
             && KeptExperts(call, dem, t) == {} && Fetches(call, dem, t) == Chosen(f, dem, |t.hold|)
             && Evictions(call, dem, t) == seq(|t.hold|, k requires 0 <= k < |t.hold| => k as nat)
    ensures IsSelection(f, dem, t.index, pub, index)
  {
    var order := Evictions(Call(0, f.selective, f.route, f.cpuskip, 0), dem, t);
    forall k: nat | k < |pub.sel|
      ensures pub.sel[k] == if k < |Chosen(f, dem, |t.hold|)| then Chosen(f, dem, |t.hold|)[k] else -1
    {
      assert order[k] == k;
    }
  }

  lemma StatsFrom(f: Flags, dem: seq<nat>, t: Tables, stats: seq<int>)
    requires var call := Call(0, f.selective, f.route, f.cpuskip, 0);
             Shaped(dem, t) && Counted(call, dem, t, stats) && Fetches(call, dem, t) == Chosen(f, dem, |t.hold|)
    ensures IsSelectStats(f, dem, |t.hold|, t.stats[..4], stats[..4])
  {
  }

  // ---- the kernel --------------------------------------------------------------------

  class Selector {
    const index: array<int>
    const stats: array<int>
    const sel: array<int>
    const landed: array<bool>
    const landedCpu: array<bool>
    const dem: array<nat>   // shared memory

    ghost predicate Valid() {
      && index != stats && index != sel && stats != sel && landed != landedCpu
      && (dem as object) != index && (dem as object) != stats && (dem as object) != sel
      && (dem as object) != landed && (dem as object) != landedCpu
      && landed.Length == landedCpu.Length == index.Length == dem.Length
      && stats.Length == 4 && index.Length <= INT_MAX
    }

    ghost function Output(): Publication
      reads sel, landed, landedCpu
    {
      Publication(sel[..], landed[..], landedCpu[..])
    }

    constructor (index: array<int>, stats: array<int>, sel: array<int>, landed: array<bool>,
                 landedCpu: array<bool>, dem: array<nat>)
      ensures this.index == index && this.stats == stats && this.sel == sel
      ensures this.landed == landed && this.landedCpu == landedCpu && this.dem == dem
    {
      this.index, this.stats, this.sel := index, stats, sel;
      this.landed, this.landedCpu, this.dem := landed, landedCpu, dem;
    }

    // Demand over the prediction, non-resident ids only; ids out of range are ignored.
    method Accumulate(pred: seq<int>, resident: seq<bool>)
      requires |resident| == dem.Length
      modifies dem
      ensures forall e: nat | e < dem.Length ::
                dem[e] == if resident[e] then 0 else multiset(pred)[e]
    {
      for i := 0 to dem.Length
        invariant forall e | 0 <= e < i :: dem[e] == 0
      {
        dem[i] := 0;
      }
      for i := 0 to |pred|
        invariant forall e: nat | e < dem.Length :: dem[e] == if resident[e] then 0 else multiset(pred[..i])[e]
      {
        assert pred[..i + 1] == pred[..i] + [pred[i]];
        var e := pred[i];
        if 0 <= e < dem.Length && !resident[e] { dem[e] := dem[e] + 1; }
      }
      assert pred[..|pred|] == pred;
    }

    method ClearMasks()
      requires Valid()
      modifies landed, landedCpu
      ensures forall e | 0 <= e < landed.Length :: !landed[e] && !landedCpu[e]
    {
      for i := 0 to landed.Length
        invariant forall e | 0 <= e < i :: !landed[e] && !landedCpu[e]
      {
        landed[i], landedCpu[i] := false, false;
      }
    }

    method CountWanted() returns (nWant: nat)
      ensures nWant == |Wanted(dem[..])|
    {
      nWant := 0;
      assert WantedBelow(dem[..], 0) == {};
      for i := 0 to dem.Length
        invariant nWant == |WantedBelow(dem[..], i)|
      {
        WantedBelowStep(dem[..], i);
        if dem[i] > 0 { nWant := nWant + 1; }
      }
      assert WantedBelow(dem[..], dem.Length) == Wanted(dem[..]);
    }

    // The serial scan of thread 0: the first maximum above 0, or -1.
    method Strongest() returns (bv: int, bi: int)
      requires dem.Length <= INT_MAX
      ensures -1 <= bi < dem.Length && (bi >= 0 <==> bv > 0)
      ensures IsArgmax(IntGreater, dem[..], 0, Cand(bv, if bi < 0 then INT_MAX else bi))
    {
      bv, bi := 0, -1;
      for i := 0 to dem.Length
        invariant -1 <= bi < i && (bi >= 0 <==> bv > 0) && (bi < 0 ==> bv == 0)
        invariant bi >= 0 ==> bv == dem[bi]
        invariant forall j | 0 <= j < i :: dem[j] <= bv
        invariant bi >= 0 ==> forall j | 0 <= j < bi :: dem[j] < bv
      {
        if dem[i] > bv { bv, bi := dem[i], i; }
      }
    }

    method Publish(f: Flags, k: nat, pick: int, ghost order: seq<nat>, ghost picks: seq<nat>, ghost picks': seq<nat>,
                   ghost out0: Publication, ghost index0: seq<int>)
      requires Valid() && k < sel.Length && -1 <= pick < index.Length && InOrder(order, sel.Length)
      requires Filled(Call(0, f.selective, f.route, f.cpuskip, 0), order, picks, k, out0, index0, Output(), index[..])
      requires |picks| <= k && (pick >= 0 ==> |picks| == k && pick !in picks)
      requires picks' == if pick >= 0 then picks + [pick] else picks
      modifies sel, landed, landedCpu, index
      ensures Filled(Call(0, f.selective, f.route, f.cpuskip, 0), order, picks', k + 1, out0, index0,
                     Output(), index[..])
    {
      ghost var out1, index1 := Output(), index[..];
      sel[k] := pick;
      if pick >= 0 {
        if f.route { landed[pick] := true; }
        if f.cpuskip { landedCpu[pick] := true; }
        index[pick] := k;
      }
      FilledStep(Call(0, f.selective, f.route, f.cpuskip, 0), order, picks, k, pick,
                 out0, index0, out1, index1, Output(), index[..]);
    }

    // for k in slots: take the strongest demand left, consuming it in shared memory
    method Fill(f: Flags, skip: bool, ghost dem0: seq<nat>) returns (fetched: nat, ghost picks: seq<nat>)
      requires Valid() && dem[..] == dem0
      modifies sel, landed, landedCpu, index, dem
      ensures Leads(Stronger(dem0), Wanted(dem0), picks) && fetched == |picks|
      ensures |picks| == if skip then 0 else Min(sel.Length, |Wanted(dem0)|)
      ensures Filled(Call(0, f.selective, f.route, f.cpuskip, 0), Identity(sel.Length), picks, sel.Length,
                     old(Output()), old(index[..]), Output(), index[..])
    {
      ghost var out0, index0, order := Output(), index[..], Identity(sel.Length);
      ghost var served: seq<nat> := [];
      picks, fetched := [], 0;
      for k := 0 to sel.Length
        invariant Serving(dem0, Wanted(dem0), served, dem[..], skip, picks, k) && fetched == |picks|
        invariant Filled(Call(0, f.selective, f.route, f.cpuskip, 0), order, picks, k, out0, index0,
                         Output(), index[..])
      {
        var pick;
        pick, picks, served := FillOne(f, k, skip, dem0, order, served, picks, out0, index0);
        if pick >= 0 { fetched := fetched + 1; }
      }
    }

    method Consume(bi: nat)
      requires bi < dem.Length
      modifies dem
      ensures dem[..] == old(dem[..])[bi := 0]
    {
      dem[bi] := 0;
    }

    method FillOne(f: Flags, k: nat, skip: bool, ghost dem0: seq<nat>, ghost order: seq<nat>,
                   ghost served: seq<nat>, ghost picks: seq<nat>, ghost out0: Publication, ghost index0: seq<int>)
      returns (pick: int, ghost picks': seq<nat>, ghost served': seq<nat>)
      requires Valid() && k < sel.Length && InOrder(order, sel.Length)
      requires Serving(dem0, Wanted(dem0), served, dem[..], skip, picks, k)
      requires Filled(Call(0, f.selective, f.route, f.cpuskip, 0), order, picks, k, out0, index0, Output(), index[..])
      modifies sel, landed, landedCpu, index, dem
      ensures Serving(dem0, Wanted(dem0), served', dem[..], skip, picks', k + 1)
      ensures |picks'| == |picks| + if pick >= 0 then 1 else 0
      ensures Filled(Call(0, f.selective, f.route, f.cpuskip, 0), order, picks', k + 1, out0, index0,
                     Output(), index[..])
    {
      ghost var out, at := Output(), index[..];
      pick, picks', served' := TakeNext(k, skip, dem0, served, picks);
      assert Output() == out && index[..] == at;
      Publish(f, k, pick, order, picks, picks', out0, index0);
    }

    // The strongest demand left, consumed whether or not it is published.
    method TakeNext(ghost k: nat, skip: bool, ghost dem0: seq<nat>, ghost served: seq<nat>, ghost picks: seq<nat>)
      returns (pick: int, ghost picks': seq<nat>, ghost served': seq<nat>)
      requires Valid() && Serving(dem0, Wanted(dem0), served, dem[..], skip, picks, k)
      modifies dem
      ensures -1 <= pick < dem.Length && |picks| <= k && (pick >= 0 ==> |picks| == k && pick !in picks)
      ensures picks' == if pick >= 0 then picks + [pick] else picks
      ensures Serving(dem0, Wanted(dem0), served', dem[..], skip, picks', k + 1)
    {
      ghost var d := dem[..];
      var bv, bi := Strongest();
      ServingStep(dem0, Wanted(dem0), served, d, skip, picks, k, Cand(bv, if bi < 0 then INT_MAX else bi));
      if bi >= 0 { Consume(bi); }
      pick := if bv > 0 && !skip then bi else -1;
      served' := if bi >= 0 then served + [bi] else served;
      picks' := if pick >= 0 then picks + [pick] else picks;
    }

    method CountStats(f: Flags, fetched: nat, nWant: nat)
      requires Valid()
      modifies stats
      ensures stats[0] == old(stats[0]) + (if f.route then fetched else 0)
      ensures stats[1] == old(stats[1]) + nWant && stats[2] == old(stats[2]) + 1
      ensures stats[3] == old(stats[3]) + (if fetched == 0 then 1 else 0)
    {
      stats[0] := stats[0] + if f.route then fetched else 0;
      stats[1] := stats[1] + nWant;
      stats[2] := stats[2] + 1;
      stats[3] := stats[3] + if fetched == 0 then 1 else 0;
    }

    // The whole kernel: histogram of the predicted ids, then the selection.
    method Launch(f: Flags, pred: seq<int>, resident: seq<bool>) returns (ghost demand: seq<nat>)
      requires Valid() && |resident| == dem.Length
      modifies index, stats, sel, landed, landedCpu, dem
      ensures |demand| == |resident|
      ensures forall e: nat | e < |demand| :: demand[e] == if resident[e] then 0 else multiset(pred)[e]
      ensures IsSelection(f, demand, old(index[..]), Output(), index[..])
      ensures IsSelectStats(f, demand, sel.Length, old(stats[..]), stats[..])
    {
      ghost var index0, stats0 := index[..], stats[..];
      Accumulate(pred, resident);
      ClearMasks();
      demand := dem[..];
      ghost var out0 := Output();
      var nWant := CountWanted();
      var skip := f.selective && nWant > sel.Length;
      var fetched, picks := Fill(f, skip, demand);
      ChosenUnique(f, demand, sel.Length, picks);
      FillSelects(f, demand, index0, out0, Output(), index[..]);
      CountStats(f, fetched, nWant);
    }
  }

  ghost predicate InOrder(order: seq<nat>, n: nat) { |order| == n && forall i | 0 <= i < n :: order[i] == i }

  ghost function Identity(n: nat): (ids: seq<nat>)
    ensures InOrder(ids, n)
  {
    seq(n, i requires 0 <= i < n => i)
  }

  lemma ChosenUnique(f: Flags, dem: seq<nat>, nSlot: nat, picks: seq<nat>)
    requires Leads(Stronger(dem), Wanted(dem), picks) && |picks| == |Chosen(f, dem, nSlot)|
    ensures picks == Chosen(f, dem, nSlot)
  {
    StrongerTotal(dem, Wanted(dem));
    LeadsUnique(Stronger(dem), Wanted(dem), picks, Chosen(f, dem, nSlot));
  }

  lemma FillSelects(f: Flags, dem: seq<nat>, index0: seq<int>, out0: Publication, out: Publication, index: seq<int>)
    requires |index| == |dem| && |out.sel| == |out0.sel|
    requires forall e | 0 <= e < |out0.landed| :: !out0.landed[e]
    requires forall e | 0 <= e < |out0.landedCpu| :: !out0.landedCpu[e]
    requires Filled(Call(0, f.selective, f.route, f.cpuskip, 0), Identity(|out.sel|), Chosen(f, dem, |out.sel|),
                    |out.sel|, out0, index0, out, index)
    ensures IsSelection(f, dem, index0, out, index)
  {
    forall k: nat | k < |out.sel|
      ensures out.sel[k] == if k < |Chosen(f, dem, |out.sel|)| then Chosen(f, dem, |out.sel|)[k] else -1
    {
      assert Identity(|out.sel|)[k] == k;
    }
  }
}
