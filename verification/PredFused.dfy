// The slot allocator of the fused predictor kernel: what one launch decides from
// the demand histogram, and the kernel code that does it.

module SlotAllocation {
  import opened Ranking

  const HIT: int := 4
  const GRACE: int := 2
  const CAP: int := 1024

  datatype Call = Call(reuse: nat, selective: bool, route: bool, cpuskip: bool, slotBase: int)

  // What the kernel carries from one launch of a layer to the next.
  datatype Tables = Tables(hold: seq<int>, score: seq<int>, index: seq<int>, stats: seq<int>)

  // What one launch publishes.
  datatype Publication = Publication(sel: seq<int>, landed: seq<bool>, landedCpu: seq<bool>)

  // Slots hold -1 (unknown) or an expert id; every table has its length.
  ghost predicate Shaped(dem: seq<nat>, t: Tables) {
    && |t.score| == |t.hold| && |t.index| == |dem| && |t.stats| == 5
    && forall k | 0 <= k < |t.hold| :: t.hold[k] < |dem|
  }

  ghost function Wanted(dem: seq<nat>): set<nat> {
    set e: nat | e < |dem| && dem[e] > 0
  }

  // Slot k holds a wanted expert, and no earlier slot holds the same one.
  ghost predicate IsReusable(dem: seq<nat>, hold: seq<int>, k: nat) {
    && k < |hold| && 0 <= hold[k] < |dem| && dem[hold[k]] > 0
    && forall j | 0 <= j < k :: hold[j] != hold[k]
  }

  ghost function Reusable(dem: seq<nat>, hold: seq<int>): set<nat> {
    set k: nat | k < |hold| && IsReusable(dem, hold, k)
  }

  ghost function KeptSlots(call: Call, dem: seq<nat>, t: Tables): set<nat> {
    if call.reuse >= 2 then Reusable(dem, t.hold) else {}
  }

  ghost predicate IsKept(call: Call, dem: seq<nat>, t: Tables, e: nat) {
    exists k :: k in KeptSlots(call, dem, t) && t.hold[k] == e
  }

  ghost function KeptExperts(call: Call, dem: seq<nat>, t: Tables): set<nat> {
    set e: nat | e < |dem| && IsKept(call, dem, t, e)
  }

  ghost function Refillable(call: Call, dem: seq<nat>, t: Tables): set<nat> {
    set k: nat | k < |t.hold| && k !in KeptSlots(call, dem, t)
  }

  // Demand no kept slot already serves.
  ghost function Missing(call: Call, dem: seq<nat>, t: Tables): set<nat> {
    Wanted(dem) - KeptExperts(call, dem, t)
  }

  ghost predicate Skips(call: Call, dem: seq<nat>, t: Tables) {
    call.selective && |Wanted(dem)| > |t.hold|
  }

  // Eviction order: lower score first, then the lower slot.
  ghost function Weaker(score: seq<int>): Order {
    (a: nat, b: nat) => a < |score| && b < |score| && (score[a] < score[b] || (score[a] == score[b] && a < b))
  }

  // Service order: higher demand first, then the lower expert id.
  ghost function Stronger(dem: seq<nat>): Order {
    (a: nat, b: nat) => a < |dem| && b < |dem| && (dem[a] > dem[b] || (dem[a] == dem[b] && a < b))
  }

  lemma WeakerTotal(score: seq<int>, s: set<nat>)
    requires forall k | k in s :: k < |score|
    ensures StrictTotal(Weaker(score), s)
  {
  }

  lemma StrongerTotal(dem: seq<nat>, s: set<nat>)
    requires forall e | e in s :: e < |dem|
    ensures StrictTotal(Stronger(dem), s)
  {
  }

  // The refillable slots, weakest first.
  ghost function Evictions(call: Call, dem: seq<nat>, t: Tables): (order: seq<nat>)
    requires Shaped(dem, t)
    ensures Leads(Weaker(t.score), Refillable(call, dem, t), order)
    ensures |order| == |Refillable(call, dem, t)|
  {
    WeakerTotal(t.score, Refillable(call, dem, t));
    Ranked(Weaker(t.score), Refillable(call, dem, t))
  }

  // The strongest missing demand, as much of it as there are slots to refill.
  ghost function Fetches(call: Call, dem: seq<nat>, t: Tables): (picks: seq<nat>)
    requires Shaped(dem, t)
    ensures Leads(Stronger(dem), Missing(call, dem, t), picks)
    ensures |picks| == if Skips(call, dem, t) then 0
                       else Min(|Refillable(call, dem, t)|, |Missing(call, dem, t)|)
  {
    var missing := Missing(call, dem, t);
    StrongerTotal(dem, missing);
    var all := Ranked(Stronger(dem), missing);
    var n := if Skips(call, dem, t) then 0 else Min(|Refillable(call, dem, t)|, |missing|);
    LeadsShorter(Stronger(dem), missing, all, n);
    all[..n]
  }

  ghost function Aged(s: int, kept: bool, fetched: bool): int {
    if kept then (if s + HIT > CAP then CAP else s + HIT)
    else if fetched then GRACE
    else if s > 0 then s - 1 else s
  }

  // One launch, on a demand histogram: the j-th strongest missing demand goes to
  // the j-th weakest refillable slot; kept slots are routed and fetch nothing.
  ghost predicate IsStep(call: Call, dem: seq<nat>, t: Tables, t': Tables, pub: Publication)
    requires Shaped(dem, t)
  {
    && Shaped(dem, t') && |t'.hold| == |t.hold|
    && Published(call, dem, t, pub)
    && Indexed(call, dem, t, t'.index)
    && Settled(call, dem, t, pub.sel, t'.hold, t'.score)
    && Counted(call, dem, t, t'.stats)
  }

  // A slot's entry changes only when something is fetched into it; scores age.
  ghost predicate Settled(call: Call, dem: seq<nat>, t: Tables, sel: seq<int>, hold: seq<int>, score: seq<int>)
    requires Shaped(dem, t)
  {
    && |hold| == |score| == |sel| == |t.hold|
    && (forall k: nat | k < |t.hold| :: hold[k] == if call.reuse > 0 && sel[k] >= 0 then sel[k] else t.hold[k])
    && (forall k: nat | k < |t.hold| ::
          score[k] == if call.reuse > 0 then Aged(t.score[k], k in KeptSlots(call, dem, t), sel[k] >= 0)
                      else t.score[k])
  }

  ghost predicate Indexed(call: Call, dem: seq<nat>, t: Tables, index: seq<int>)
    requires Shaped(dem, t)
  {
    var fetch := Fetches(call, dem, t);
    var evict := Evictions(call, dem, t);
    && |index| == |dem| && |fetch| <= |evict|
    && (forall k | k in KeptSlots(call, dem, t) :: index[t.hold[k]] == call.slotBase + k)
    && (forall i | 0 <= i < |fetch| :: index[fetch[i]] == call.slotBase + evict[i])
    && (forall e: nat | e < |dem| && e !in KeptExperts(call, dem, t) && e !in fetch :: index[e] == t.index[e])
  }

  ghost predicate Published(call: Call, dem: seq<nat>, t: Tables, pub: Publication)
    requires Shaped(dem, t)
  {
    var fetch := Fetches(call, dem, t);
    var evict := Evictions(call, dem, t);
    && |pub.sel| == |t.hold| && |pub.landed| == |pub.landedCpu| == |dem|
    && (forall k | k in KeptSlots(call, dem, t) :: pub.sel[k] == -1)
    && (forall i | 0 <= i < |evict| :: pub.sel[evict[i]] == if i < |fetch| then fetch[i] else -1)
    && (forall e: nat | e < |dem| ::
          pub.landed[e] == (call.route && (e in KeptExperts(call, dem, t) || e in fetch)))
    && (forall e: nat | e < |dem| ::
          pub.landedCpu[e] == (call.cpuskip && (e in KeptExperts(call, dem, t) || e in fetch)))
  }

  // Counters: fetched, wanted, calls, calls that fetched nothing, reusable.
  ghost predicate Counted(call: Call, dem: seq<nat>, t: Tables, stats: seq<int>)
    requires Shaped(dem, t)
  {
    var fetched := |Fetches(call, dem, t)|;
    && |stats| == 5
    && stats[0] == t.stats[0] + (if call.route then fetched else 0)
    && stats[1] == t.stats[1] + |Wanted(dem)|
    && stats[2] == t.stats[2] + 1
    && stats[3] == t.stats[3] + (if fetched == 0 then 1 else 0)
    && stats[4] == t.stats[4] + (if call.reuse > 0 then |Reusable(dem, t.hold)| else 0)
  }
}

// The kernel code after the histogram: keep pass, ranking, fill pass, ageing.
module FusedKernel {
  import opened Ranking
  import opened WarpReduce
  import opened SlotAllocation
  import opened Arith

  predicate IntGreater(a: int, b: int) { a > b }

  class Allocator {
    // In/out tensors of the launch, and the outputs it overwrites.
    const hold: array<int>
    const holdScore: array<int>
    const index: array<int>
    const stats: array<int>
    const sel: array<int>
    const landed: array<bool>
    const landedCpu: array<bool>

    // Lanes per warp and experts per lane.
    const width: nat
    const perLane: nat

    ghost predicate Valid() {
      && hold != holdScore && hold != index && hold != stats && hold != sel
      && holdScore != index && holdScore != stats && holdScore != sel
      && index != stats && index != sel && stats != sel && landed != landedCpu
      && holdScore.Length == sel.Length == hold.Length
      && landed.Length == landedCpu.Length == index.Length == width * perLane
      && stats.Length == 5 && IsPow2(width) && index.Length <= INT_MAX
    }

    ghost function Carried(): Tables
      reads hold, holdScore, index, stats
    {
      Tables(hold[..], holdScore[..], index[..], stats[..])
    }

    ghost function Output(): Publication
      reads sel, landed, landedCpu
    {
      Publication(sel[..], landed[..], landedCpu[..])
    }

    constructor (hold: array<int>, holdScore: array<int>, index: array<int>, stats: array<int>,
                 sel: array<int>, landed: array<bool>, landedCpu: array<bool>, width: nat, perLane: nat)
      ensures this.hold == hold && this.holdScore == holdScore && this.index == index && this.stats == stats
      ensures this.sel == sel && this.landed == landed && this.landedCpu == landedCpu
      ensures this.width == width && this.perLane == perLane
    {
      this.hold, this.holdScore, this.index, this.stats := hold, holdScore, index, stats;
      this.sel, this.landed, this.landedCpu := sel, landed, landedCpu;
      this.width, this.perLane := width, perLane;
    }

    method ClearMasks()
      requires Valid()
      modifies landed, landedCpu
      ensures forall e | 0 <= e < landed.Length :: !landed[e] && !landedCpu[e]
    {
      for i := 0 to landed.Length
        invariant forall e | 0 <= e < i :: !landed[e] && !landedCpu[e]
      {
        landed[i], landedCpu[i] := false, false;
      }
    }

    // The slot already holds expert h's bytes: route it there and fetch nothing.
    method RouteKept(call: Call, h: nat, k: nat, ghost dem: seq<nat>, ghost keep: set<nat>,
                     ghost out0: Publication, ghost index0: seq<int>)
      requires Valid() && |dem| == index.Length
      requires keep == FoundBelow(dem, hold[..], k) && IsReusable(dem, hold[..], k) && h == hold[k]
      requires Routed(call, hold[..], keep, out0, index0, Output(), index[..])
      modifies sel, landed, landedCpu, index
      ensures Routed(call, hold[..], keep + {k}, out0, index0, Output(), index[..])
    {
      ghost var out1, index1 := Output(), index[..];
      if call.route { landed[h] := true; }
      if call.cpuskip { landedCpu[h] := true; }
      index[h] := call.slotBase + k;
      sel[k] := -1;
      RoutedStep(call, dem, hold[..], keep, k, out0, index0, out1, index1, Output(), index[..]);
    }

    // Walk the slots; count those that can be reused and, in mode 2, keep them.
    method KeepPass(call: Call, dem: seq<nat>) returns (reusable: nat, keep: set<nat>)
      requires Valid() && |dem| == index.Length && Shaped(dem, Carried())
      modifies sel, landed, landedCpu, index
      ensures keep == KeptSlots(call, dem, old(Carried()))
      ensures reusable == if call.reuse > 0 then |Reusable(dem, old(hold[..]))| else 0
      ensures Routed(call, hold[..], keep, old(Output()), old(index[..]), Output(), index[..])
    {
      reusable, keep := 0, {};
      if call.reuse > 0 {
        ghost var out0, index0, h0 := Output(), index[..], hold[..];
        var seen: seq<int> := [];
        ghost var found: set<nat> := {};
        for k := 0 to hold.Length
          invariant hold[..] == h0
          invariant Walked(call, dem, h0, k, seen, found, reusable, keep)
          invariant Routed(call, h0, keep, out0, index0, Output(), index[..])
        {
          reusable, keep, seen, found := KeepOne(call, dem, k, seen, found, reusable, keep, out0, index0);
        }
        assert found == Reusable(dem, h0);
      }
    }

    method KeepOne(call: Call, dem: seq<nat>, k: nat, seen: seq<int>, ghost found: set<nat>,
                   reusable: nat, keep: set<nat>, ghost out0: Publication, ghost index0: seq<int>)
      returns (reusable': nat, keep': set<nat>, seen': seq<int>, ghost found': set<nat>)
      requires Valid() && |dem| == index.Length && k < hold.Length && hold[k] < |dem|
      requires Walked(call, dem, hold[..], k, seen, found, reusable, keep)
      requires Routed(call, hold[..], keep, out0, index0, Output(), index[..])
      modifies sel, landed, landedCpu, index
      ensures Walked(call, dem, hold[..], k + 1, seen', found', reusable', keep')
      ensures Routed(call, hold[..], keep', out0, index0, Output(), index[..])
    {
      var hit := Hit(dem, k, seen, found);
      WalkedStep(call, dem, hold[..], k, seen, found, reusable, keep);
      if hit {
        seen', found', reusable' := seen + [hold[k]], found + {k}, reusable + 1;
        keep' := if call.reuse >= 2 then keep + {k} else keep;
        if call.reuse >= 2 {
          RouteKept(call, hold[k], k, dem, found, out0, index0);
        }
      } else {
        seen', found', reusable', keep' := seen, found, reusable, keep;
      }
    }

    // Slot k holds a wanted expert that is not a duplicate of one already seen.
    method Hit(dem: seq<nat>, k: nat, seen: seq<int>, ghost found: set<nat>) returns (hit: bool)
      requires k < hold.Length && hold[k] < |dem|
      requires found == FoundBelow(dem, hold[..], k) && SeenIs(seen, found, hold[..])
      ensures hit <==> IsReusable(dem, hold[..], k)
    {
      var h := hold[k];
      hit := h >= 0 && dem[h] > 0;
      if hit {
        var dup := Contains(seen, h);
        SeenMeansEarlier(dem, hold[..], k, seen, found);
        hit := !dup;
      }
    }

    static method Contains(seen: seq<int>, h: int) returns (dup: bool)
      ensures dup <==> h in seen
    {
      dup := false;
      for s := 0 to |seen|
        invariant dup <==> h in seen[..s]
      {
        if seen[s] == h { dup := true; }
      }
      assert seen[..|seen|] == seen;
    }

    method OpenSlots(keep: set<nat>) returns (order: seq<nat>)
      ensures Lists(order, set k: nat | k < hold.Length && k !in keep)
    {
      order := [];
      for k := 0 to hold.Length
        invariant forall i, j | 0 <= i < j < |order| :: order[i] < order[j]
        invariant forall i | 0 <= i < |order| :: order[i] < k && order[i] !in keep
        invariant forall j: nat | j < k && j !in keep :: j in order
      {
        if k !in keep { order := order + [k]; }
      }
    }

    // The slots not kept, weakest first: a selection sort in lane 0.
    method RankSlots(keep: set<nat>) returns (order: seq<nat>)
      requires Valid()
      ensures var open := set k: nat | k < hold.Length && k !in keep;
              Leads(Weaker(holdScore[..]), open, order) && |order| == |open|
    {
      ghost var open := set k: nat | k < hold.Length && k !in keep;
      ghost var lt := Weaker(holdScore[..]);
      WeakerTotal(holdScore[..], open);
      order := OpenSlots(keep);
      var n := |order|;
      for a := 0 to n
        invariant |order| == n && Lists(order, open) && Leads(lt, open, order[..a])
      {
        forall i | 0 <= i < n ensures order[i] < holdScore.Length {
          assert order[i] in open;
        }
        var best := Weakest(order, a);
        SelectionStep(lt, open, order, a, best);
        order := order[a := order[best]][best := order[a]];
      }
      assert order[..n] == order;
      LeadsSize(lt, open, order);
    }

    method Weakest(order: seq<nat>, a: nat) returns (best: nat)
      requires a < |order| && forall i | 0 <= i < |order| :: order[i] < holdScore.Length
      requires forall i, j | 0 <= i < j < |order| :: order[i] != order[j]
      ensures a <= best < |order|
      ensures forall j | a <= j < |order| && j != best :: Weaker(holdScore[..])(order[best], order[j])
    {
      best := a;
      for b := a + 1 to |order|
        invariant a <= best < b
        invariant forall j | a <= j < b && j != best :: Weaker(holdScore[..])(order[best], order[j])
      {
        var sb, sbest := holdScore[order[b]], holdScore[order[best]];
        if sb < sbest || (sb == sbest && order[b] < order[best]) { best := b; }
      }
    }

    // Give the strongest remaining demand to each refillable slot in turn.
    method FillPass(call: Call, dem: seq<nat>, d0: seq<int>, order: seq<nat>, skip: bool,
                    ghost missing: set<nat>)
      returns (fetched: nat, ghost picks: seq<nat>)
      requires Valid() && |dem| == index.Length && Remaining(dem, missing, [], d0)
      requires Leads(Stronger(dem), missing, [])
      requires (forall i | 0 <= i < |order| :: order[i] < sel.Length)
      requires forall i, j | 0 <= i < j < |order| :: order[i] != order[j]
      modifies sel, landed, landedCpu, index
      ensures Leads(Stronger(dem), missing, picks)
      ensures |picks| == if skip then 0 else Min(|order|, |missing|)
      ensures fetched == |picks|
      ensures Filled(call, order, picks, |order|, old(Output()), old(index[..]), Output(), index[..])
    {
      ghost var out0, index0 := Output(), index[..];
      var d := d0;
      ghost var served: seq<nat> := [];
      picks, fetched := [], 0;
      for oi := 0 to |order|
        invariant Serving(dem, missing, served, d, skip, picks, oi) && fetched == |picks|
        invariant Filled(call, order, picks, oi, out0, index0, Output(), index[..])
      {
        var pick;
        pick, d, picks, served := FillOne(call, dem, d, order, oi, skip, missing, served, picks, out0, index0);
        if pick >= 0 { fetched := fetched + 1; }
      }
    }

    method FillOne(call: Call, dem: seq<nat>, d: seq<int>, order: seq<nat>, oi: nat, skip: bool,
                   ghost missing: set<nat>, ghost served: seq<nat>, ghost picks: seq<nat>,
                   ghost out0: Publication, ghost index0: seq<int>)
      returns (pick: int, d': seq<int>, ghost picks': seq<nat>, ghost served': seq<nat>)
      requires Valid() && |dem| == index.Length && oi < |order|
      requires (forall i | 0 <= i < |order| :: order[i] < sel.Length)
      requires forall i, j | 0 <= i < j < |order| :: order[i] != order[j]
      requires Serving(dem, missing, served, d, skip, picks, oi)
      requires Filled(call, order, picks, oi, out0, index0, Output(), index[..])
      modifies sel, landed, landedCpu, index
      ensures Serving(dem, missing, served', d', skip, picks', oi + 1)
      ensures |picks'| == |picks| + if pick >= 0 then 1 else 0
      ensures Filled(call, order, picks', oi + 1, out0, index0, Output(), index[..])
    {
      IntGreaterTotal();
      var c := WarpArgmax(IntGreater, d, 0, width, perLane);
      ServingStep(dem, missing, served, d, skip, picks, oi, c);
      d' := if c.at != INT_MAX then d[c.at := 0] else d;   // consume
      pick := if c.value > 0 && c.at != INT_MAX && !skip then c.at else -1;
      Assign(call, order[oi], pick, order, picks, oi, out0, index0);
      served' := if c.at != INT_MAX then served + [c.at] else served;
      picks' := if pick >= 0 then picks + [pick] else picks;
    }

    method Assign(call: Call, k: nat, pick: int, ghost order: seq<nat>, ghost picks: seq<nat>, ghost n: nat,
                  ghost out0: Publication, ghost index0: seq<int>)
      requires Valid() && k < sel.Length && -1 <= pick < index.Length && n < |order| && order[n] == k
      requires (forall i | 0 <= i < |order| :: order[i] < sel.Length)
      requires forall i, j | 0 <= i < j < |order| :: order[i] != order[j]
      requires Filled(call, order, picks, n, out0, index0, Output(), index[..])
      requires |picks| <= n && (pick >= 0 ==> |picks| == n && pick !in picks)
      modifies sel, landed, landedCpu, index
      ensures Filled(call, order, if pick >= 0 then picks + [pick] else picks, n + 1, out0, index0, Output(), index[..])
    {
      ghost var out1, index1 := Output(), index[..];
      sel[k] := pick;
      if pick >= 0 {
        if call.route { landed[pick] := true; }
        if call.cpuskip { landedCpu[pick] := true; }
        index[pick] := call.slotBase + k;
      }
      FilledStep(call, order, picks, n, pick, out0, index0, out1, index1, Output(), index[..]);
    }

    // Each lane counts its own wanted experts; a shuffle tree adds them up.
    method CountWanted(dem: seq<nat>) returns (n: int)
      requires Valid() && |dem| == index.Length
      ensures n == |Wanted(dem)|
    {
      var counts: seq<int> := [];
      ghost var below: set<nat> := {};
      for lane := 0 to width
        invariant |counts| == lane
        invariant below == WantedBelow(dem, lane * perLane) && Sum(counts) == |below|
      {
        RowFits(lane, width, perLane);
        var mine: int := 0;
        for j := 0 to perLane
          invariant |WantedBelow(dem, lane * perLane + j)| == |below| + mine
        {
          WantedBelowStep(dem, lane * perLane + j);
          if dem[lane * perLane + j] > 0 { mine := mine + 1; }
        }
        assert (counts + [mine])[..|counts|] == counts;
        counts := counts + [mine];
        assert (lane + 1) * perLane == lane * perLane + perLane;
        below := WantedBelow(dem, (lane + 1) * perLane);
      }
      n := ShuffleSum(counts);
      assert WantedBelow(dem, |dem|) == Wanted(dem);
    }

    // The register copy of the demand, without the experts the keep pass routed.
    method DropKept(call: Call, dem: seq<nat>, ghost t: Tables, keep: set<nat>) returns (d: seq<int>)
      requires Valid() && |dem| == index.Length && Shaped(dem, t)
      requires t.hold == hold[..] && keep == KeptSlots(call, dem, t)
      ensures Remaining(dem, Missing(call, dem, t), [], d)
    {
      d := dem;
      for k := 0 to hold.Length
        invariant |d| == |dem|
        invariant forall e: nat | e < |dem| ::
                    d[e] == if exists j :: j in keep && j < k && t.hold[j] == e then 0 else dem[e]
      {
        if k in keep {
          var h := hold[k];
          if h >= 0 { d := d[h := 0]; }
        }
      }
    }

    // A slot is overwritten only when something was fetched into it.
    method RecordHold(call: Call)
      requires Valid()
      modifies hold
      ensures forall k: nat | k < hold.Length ::
                hold[k] == if call.reuse > 0 && sel[k] >= 0 then sel[k] else old(hold[k])
    {
      if call.reuse > 0 {
        for k := 0 to hold.Length
          invariant forall j: nat | j < hold.Length ::
                      hold[j] == if j < k && sel[j] >= 0 then sel[j] else old(hold[j])
        {
          if sel[k] >= 0 { hold[k] := sel[k]; }
        }
      }
    }

    method AgeScores(call: Call, keep: set<nat>)
      requires Valid()
      modifies holdScore
      ensures forall k: nat | k < hold.Length ::
                holdScore[k] == if call.reuse > 0 then Aged(old(holdScore[k]), k in keep, sel[k] >= 0)
                                else old(holdScore[k])
    {
      if call.reuse > 0 {
        for k := 0 to hold.Length
          invariant forall j: nat | j < hold.Length ::
                      holdScore[j] == if j < k then Aged(old(holdScore[j]), j in keep, sel[j] >= 0)
                                      else old(holdScore[j])
        {
          if k in keep {
            var s := holdScore[k] + HIT;
            holdScore[k] := if s > CAP then CAP else s;
          } else if sel[k] >= 0 {
            holdScore[k] := GRACE;
          } else if holdScore[k] > 0 {
            holdScore[k] := holdScore[k] - 1;
          }
        }
      }
    }

    method CountStats(call: Call, fetched: nat, nWant: int, reusable: nat, ghost dem: seq<nat>, ghost t: Tables)
      requires Valid() && Shaped(dem, t) && stats[..] == t.stats
      requires fetched == |Fetches(call, dem, t)| && nWant == |Wanted(dem)|
      requires reusable == if call.reuse > 0 then |Reusable(dem, t.hold)| else 0
      modifies stats
      ensures Counted(call, dem, t, stats[..])
    {
      stats[0] := stats[0] + if call.route then fetched else 0;
      stats[1] := stats[1] + nWant;
      stats[2] := stats[2] + 1;
      stats[3] := stats[3] + if fetched == 0 then 1 else 0;
      stats[4] := stats[4] + reusable;
    }

    method Settle(call: Call, keep: set<nat>, ghost dem: seq<nat>, ghost t: Tables)
      requires Valid() && Shaped(dem, t) && hold[..] == t.hold && holdScore[..] == t.score
      requires keep == KeptSlots(call, dem, t)
      modifies hold, holdScore
      ensures Settled(call, dem, t, sel[..], hold[..], holdScore[..])
    {
      RecordHold(call);
      AgeScores(call, keep);
    }

    // The passes that choose: what is kept, what is evicted, what is fetched.
    method Choose(call: Call, dem: seq<nat>) returns (keep: set<nat>, fetched: nat, reusable: nat, nWant: int)
      requires Valid() && |dem| == index.Length && Shaped(dem, Carried())
      modifies index, sel, landed, landedCpu
      ensures keep == KeptSlots(call, dem, old(Carried())) && nWant == |Wanted(dem)|
      ensures reusable == if call.reuse > 0 then |Reusable(dem, old(hold[..]))| else 0
      ensures fetched == |Fetches(call, dem, old(Carried()))|
      ensures Published(call, dem, old(Carried()), Output())
      ensures Indexed(call, dem, old(Carried()), index[..])
    {
      ghost var t := Carried();
      ClearMasks();
      ghost var out0 := Output();
      nWant := CountWanted(dem);
      var skip := call.selective && nWant > sel.Length;
      reusable, keep := KeepPass(call, dem);
      ghost var out1, index1 := Output(), index[..];
      fetched := Fill(call, dem, t, keep, skip);
      PassesPublish(call, dem, t, out0, out1, index1, Output(), index[..]);
    }

    // Ranking and filling: the choices the specification names, written over what the
    // keep pass left.
    method Fill(call: Call, dem: seq<nat>, ghost t: Tables, keep: set<nat>, skip: bool) returns (fetched: nat)
      requires Valid() && |dem| == index.Length && Shaped(dem, t)
      requires t.hold == hold[..] && t.score == holdScore[..] && keep == KeptSlots(call, dem, t)
      requires skip <==> Skips(call, dem, t)
      modifies index, sel, landed, landedCpu
      ensures fetched == |Fetches(call, dem, t)|
      ensures Filled(call, Evictions(call, dem, t), Fetches(call, dem, t), |Evictions(call, dem, t)|,
                     old(Output()), old(index[..]), Output(), index[..])
    {
      var d := DropKept(call, dem, t, keep);
      var order := RankSlots(keep);
      ghost var picks;
      fetched, picks := FillPass(call, dem, d, order, skip, Missing(call, dem, t));
      ChoicesUnique(call, dem, t, order, picks);
    }

    // Everything the launch does once the histogram is complete.
    method Allocate(call: Call, dem: seq<nat>)
      requires Valid() && |dem| == index.Length && Shaped(dem, Carried())
      modifies hold, holdScore, index, stats, sel, landed, landedCpu
      ensures IsStep(call, dem, old(Carried()), Carried(), Output())
    {
      ghost var t := Carried();
      var keep, fetched, reusable, nWant := Choose(call, dem);
      CountStats(call, fetched, nWant, reusable, dem, t);
      Settle(call, keep, dem, t);
      SelBelow(call, dem, t, Output());
    }
  }

  // What the keep pass knows after the first n slots.
  ghost predicate Walked(call: Call, dem: seq<nat>, hold: seq<int>, n: nat, seen: seq<int>, found: set<nat>,
                         reusable: nat, keep: set<nat>) {
    && found == FoundBelow(dem, hold, n) && reusable == |found|
    && SeenIs(seen, found, hold)
    && keep == if call.reuse >= 2 then found else {}
  }

  lemma WalkedStep(call: Call, dem: seq<nat>, hold: seq<int>, k: nat, seen: seq<int>, found: set<nat>,
                   reusable: nat, keep: set<nat>)
    requires k < |hold| && Walked(call, dem, hold, k, seen, found, reusable, keep)
    ensures if IsReusable(dem, hold, k)
            then Walked(call, dem, hold, k + 1, seen + [hold[k]], found + {k}, reusable + 1,
                        if call.reuse >= 2 then keep + {k} else keep)
            else Walked(call, dem, hold, k + 1, seen, found, reusable, keep)
  {
    FoundStep(dem, hold, k);
    SeenStep(seen, found, hold, k);
  }

  // The outputs after routing the experts of the slots in `keep` and nothing else.
  ghost predicate Routed(call: Call, hold: seq<int>, keep: set<nat>,
                         out0: Publication, index0: seq<int>, out: Publication, index: seq<int>) {
    && |out.sel| == |out0.sel| == |hold|
    && |out.landed| == |out.landedCpu| == |index| == |out0.landed| == |out0.landedCpu| == |index0|
    && (forall k | k in keep :: k < |hold| && 0 <= hold[k] < |index|)
    && (forall k | 0 <= k < |hold| :: out.sel[k] == if k in keep then -1 else out0.sel[k])
    && (forall k | k in keep :: index[hold[k]] == call.slotBase + k)
    && (forall e: nat | e < |index| :: out.landed[e] == (out0.landed[e] || (call.route && HeldBy(keep, hold, e))))
    && (forall e: nat | e < |index| ::
         out.landedCpu[e] == (out0.landedCpu[e] || (call.cpuskip && HeldBy(keep, hold, e))))
    && (forall e: nat | e < |index| && !HeldBy(keep, hold, e) :: index[e] == index0[e])
  }

  lemma RoutedStep(call: Call, dem: seq<nat>, hold: seq<int>, keep: set<nat>, k: nat,
                   out0: Publication, index0: seq<int>, out1: Publication, index1: seq<int>,
                   out: Publication, index: seq<int>)
    requires Routed(call, hold, keep, out0, index0, out1, index1) && |dem| == |index1|
    requires keep == FoundBelow(dem, hold, k) && IsReusable(dem, hold, k)
    requires out.sel == out1.sel[k := -1]
    requires out.landed == out1.landed[hold[k] := call.route || out1.landed[hold[k]]]
    requires out.landedCpu == out1.landedCpu[hold[k] := call.cpuskip || out1.landedCpu[hold[k]]]
    requires index == index1[hold[k] := call.slotBase + k]
    ensures Routed(call, hold, keep + {k}, out0, index0, out, index)
  {
    HeldGrows(keep, hold, k);
  }

  ghost predicate SeenIs(seen: seq<int>, found: set<nat>, hold: seq<int>) {
    && (forall j | j in found :: j < |hold| && hold[j] in seen)
    && (forall s | 0 <= s < |seen| :: exists j :: j in found && j < |hold| && hold[j] == seen[s])
  }

  lemma SeenStep(seen: seq<int>, found: set<nat>, hold: seq<int>, k: nat)
    requires SeenIs(seen, found, hold) && k < |hold|
    ensures SeenIs(seen + [hold[k]], found + {k}, hold)
  {
    var seen', found' := seen + [hold[k]], found + {k};
    forall s | 0 <= s < |seen'| ensures exists j :: j in found' && j < |hold| && hold[j] == seen'[s] {
      if s < |seen| {
        var j :| j in found && j < |hold| && hold[j] == seen[s];
        assert j in found';
      } else {
        assert k in found';
      }
    }
  }

  ghost function FoundBelow(dem: seq<nat>, hold: seq<int>, n: nat): set<nat> {
    set k: nat | k < |hold| && k < n && IsReusable(dem, hold, k)
  }

  ghost predicate HeldBy(slots: set<nat>, hold: seq<int>, e: nat)
  {
    exists k :: k in slots && k < |hold| && hold[k] == e
  }

  lemma HeldGrows(slots: set<nat>, hold: seq<int>, k: nat)
    requires k < |hold|
    ensures forall e: nat :: HeldBy(slots + {k}, hold, e) == (HeldBy(slots, hold, e) || hold[k] == e)
  {
    forall e: nat ensures HeldBy(slots + {k}, hold, e) == (HeldBy(slots, hold, e) || hold[k] == e) {
      if hold[k] == e { assert k in slots + {k}; }
      if HeldBy(slots, hold, e) {
        var j :| j in slots && j < |hold| && hold[j] == e;
        assert j in slots + {k};
      }
    }
  }

  lemma FoundStep(dem: seq<nat>, hold: seq<int>, k: nat)
    requires k < |hold|
    ensures FoundBelow(dem, hold, k + 1) ==
            if IsReusable(dem, hold, k) then FoundBelow(dem, hold, k) + {k} else FoundBelow(dem, hold, k)
  {
  }

  // The duplicate list of the experts found so far misses no earlier slot.
  lemma SeenMeansEarlier(dem: seq<nat>, hold: seq<int>, k: nat, seen: seq<int>, found: set<nat>)
    requires k < |hold| && 0 <= hold[k] < |dem| && dem[hold[k]] > 0
    requires found == FoundBelow(dem, hold, k) && SeenIs(seen, found, hold)
    ensures hold[k] in seen <==> !IsReusable(dem, hold, k)
  {
    if exists j :: 0 <= j < k && hold[j] == hold[k] {
      var f := FirstHolder(hold, k);
      assert f in FoundBelow(dem, hold, k);
    }
  }

  lemma FirstHolder(hold: seq<int>, k: nat) returns (f: nat)
    requires k < |hold| && exists j :: 0 <= j < k && hold[j] == hold[k]
    ensures f < k && hold[f] == hold[k] && forall j | 0 <= j < f :: hold[j] != hold[k]
  {
    f := 0;
    while hold[f] != hold[k]
      invariant f <= k && forall j | 0 <= j < f :: hold[j] != hold[k]
      decreases k - f
    {
      f := f + 1;
    }
  }

  // `ids` lists the members of `s`, each once.
  ghost predicate Lists(ids: seq<nat>, s: set<nat>) {
    && (forall i, j | 0 <= i < j < |ids| :: ids[i] != ids[j])
    && (forall e :: e in ids <==> e in s)
  }

  lemma SelectionStep(lt: Order, s: set<nat>, ids: seq<nat>, a: nat, best: nat)
    requires StrictTotal(lt, s) && Lists(ids, s) && a <= best < |ids| && Leads(lt, s, ids[..a])
    requires forall j | a <= j < |ids| && j != best :: lt(ids[best], ids[j])
    ensures var ids' := ids[a := ids[best]][best := ids[a]];
            Lists(ids', s) && Leads(lt, s, ids'[..a + 1])
  {
    var ids' := ids[a := ids[best]][best := ids[a]];
    forall e ensures e in ids' <==> e in s {
      if e in ids {
        var i :| 0 <= i < |ids| && ids[i] == e;
        assert ids'[if i == a then best else if i == best then a else i] == e;
      }
    }
    forall e | e in s && e !in ids[..a] && e != ids[best] ensures lt(ids[best], e) {
      var i :| 0 <= i < |ids| && ids[i] == e;
      assert forall j | 0 <= j < a :: ids[..a][j] == ids[j];
    }
    LeadsExtend(lt, s, ids[..a], ids[best]);
    assert ids'[..a + 1] == ids[..a] + [ids[best]];
  }

  // The outputs after the first n slots of `order` took `picks`, -1 where they ran out.
  ghost predicate Filled(call: Call, order: seq<nat>, picks: seq<nat>, n: nat,
                         out0: Publication, index0: seq<int>, out: Publication, index: seq<int>) {
    && n <= |order| && |picks| <= |order|
    && |out.sel| == |out0.sel|
    && |out.landed| == |out.landedCpu| == |index| == |out0.landed| == |out0.landedCpu| == |index0|
    && (forall i | 0 <= i < |order| :: order[i] < |out.sel|)
    && (forall i | 0 <= i < |picks| :: picks[i] < |index|)
    && (forall i | 0 <= i < n :: out.sel[order[i]] == if i < |picks| then picks[i] else -1)
    && (forall k: nat | k < |out.sel| && k !in order :: out.sel[k] == out0.sel[k])
    && (forall i | 0 <= i < |picks| :: index[picks[i]] == call.slotBase + order[i])
    && (forall e: nat | e < |index| && e !in picks :: index[e] == index0[e])
    && (forall e: nat | e < |index| :: out.landed[e] == (out0.landed[e] || (call.route && e in picks)))
    && (forall e: nat | e < |index| :: out.landedCpu[e] == (out0.landedCpu[e] || (call.cpuskip && e in picks)))
  }

  // The register copy of the histogram: what is missing and not yet served.
  ghost predicate Remaining(dem: seq<nat>, missing: set<nat>, served: seq<nat>, d: seq<int>) {
    && |d| == |dem|
    && (forall e | e in missing :: e < |dem| && dem[e] > 0)
    && forall e: nat | e < |dem| :: d[e] == if e in missing && e !in served then dem[e] else 0
  }

  lemma IntGreaterTotal()
    ensures TotalGreater(IntGreater)
  {
  }

  // The argmax of the remaining demand is the next in service order, if any is left.
  lemma StrongestRemaining(dem: seq<nat>, missing: set<nat>, served: seq<nat>, d: seq<int>, c: Cand<int>)
    requires Remaining(dem, missing, served, d) && Leads(Stronger(dem), missing, served)
    requires |d| <= INT_MAX && IsArgmax(IntGreater, d, 0, c)
    ensures if c.at == INT_MAX then |served| == |missing|
            else && 0 <= c.at < |d| && c.value > 0 && c.at !in served && |served| < |missing|
                 && Leads(Stronger(dem), missing, served + [c.at])
                 && Remaining(dem, missing, served + [c.at], d[c.at := 0])
  {
    StrongerTotal(dem, missing);
    LeadsSize(Stronger(dem), missing, served);
    if c.at == INT_MAX {
      forall e | e in missing ensures e in served {
        assert e in Range(0, |d|);
      }
    } else {
      assert c.at in missing && c.at !in served;
      forall e | e in missing && e !in served && e != c.at ensures Stronger(dem)(c.at, e) {
        assert e in Range(0, |d|);
        assert Better(IntGreater, c, Cand(d[e], e));
      }
      LeadsExtend(Stronger(dem), missing, served, c.at);
    }
  }

  // The fill pass after n slots: `served` consumed, `picks` of them published.
  ghost predicate Serving(dem: seq<nat>, missing: set<nat>, served: seq<nat>, d: seq<int>, skip: bool,
                          picks: seq<nat>, n: nat) {
    && Remaining(dem, missing, served, d) && Leads(Stronger(dem), missing, served)
    && |served| == Min(n, |missing|)
    && picks == if skip then [] else served
  }

  lemma ServingStep(dem: seq<nat>, missing: set<nat>, served: seq<nat>, d: seq<int>, skip: bool,
                    picks: seq<nat>, n: nat, c: Cand<int>)
    requires Serving(dem, missing, served, d, skip, picks, n)
    requires |d| <= INT_MAX && IsArgmax(IntGreater, d, 0, c)
    ensures if c.at == INT_MAX then Serving(dem, missing, served, d, skip, picks, n + 1)
            else && 0 <= c.at < |d| && c.value > 0
                 && (!skip ==> |picks| == n && c.at !in picks)
                 && Serving(dem, missing, served + [c.at], d[c.at := 0], skip,
                            if skip then picks else picks + [c.at], n + 1)
    ensures |picks| <= n
  {
    StrongestRemaining(dem, missing, served, d, c);
  }

  lemma FilledStep(call: Call, order: seq<nat>, picks: seq<nat>, n: nat, pick: int,
                   out0: Publication, index0: seq<int>, out1: Publication, index1: seq<int>,
                   out: Publication, index: seq<int>)
    requires Filled(call, order, picks, n, out0, index0, out1, index1) && n < |order| && pick < |index|
    requires forall i, j | 0 <= i < j < |order| :: order[i] != order[j]
    requires |picks| <= n && (pick >= 0 ==> |picks| == n && pick !in picks)
    requires out.sel == out1.sel[order[n] := pick]
    requires |index| == |index1| && |out.landed| == |out1.landed| && |out.landedCpu| == |out1.landedCpu|
    requires forall e | 0 <= e < |index| :: out.landed[e] == (out1.landed[e] || (call.route && e == pick))
    requires forall e | 0 <= e < |index| :: out.landedCpu[e] == (out1.landedCpu[e] || (call.cpuskip && e == pick))
    requires forall e | 0 <= e < |index| :: index[e] == if e == pick then call.slotBase + order[n] else index1[e]
    requires pick >= -1
    ensures Filled(call, order, if pick >= 0 then picks + [pick] else picks, n + 1, out0, index0, out, index)
  {
  }

  ghost function WantedBelow(dem: seq<nat>, n: nat): set<nat> {
    set e: nat | e < |dem| && e < n && dem[e] > 0
  }

  lemma WantedBelowStep(dem: seq<nat>, n: nat)
    requires n < |dem|
    ensures |WantedBelow(dem, n + 1)| == |WantedBelow(dem, n)| + if dem[n] > 0 then 1 else 0
  {
    assert WantedBelow(dem, n + 1) == if dem[n] > 0 then WantedBelow(dem, n) + {n} else WantedBelow(dem, n);
  }

  lemma ChoicesUnique(call: Call, dem: seq<nat>, t: Tables, order: seq<nat>, picks: seq<nat>)
    requires Shaped(dem, t)
    requires Leads(Weaker(t.score), Refillable(call, dem, t), order) && |order| == |Refillable(call, dem, t)|
    requires Leads(Stronger(dem), Missing(call, dem, t), picks)
    requires |picks| == if Skips(call, dem, t) then 0 else Min(|order|, |Missing(call, dem, t)|)
    ensures order == Evictions(call, dem, t) && picks == Fetches(call, dem, t)
  {
    var open, missing := Refillable(call, dem, t), Missing(call, dem, t);
    WeakerTotal(t.score, open);
    StrongerTotal(dem, missing);
    LeadsUnique(Weaker(t.score), open, order, Evictions(call, dem, t));
    LeadsUnique(Stronger(dem), missing, picks, Fetches(call, dem, t));
  }

  // The keep pass followed by the fill pass publishes what the specification says.
  lemma PassesPublish(call: Call, dem: seq<nat>, t: Tables,
                      out0: Publication, out1: Publication, index1: seq<int>, out: Publication, index: seq<int>)
    requires Shaped(dem, t)
    requires forall e | 0 <= e < |out0.landed| :: !out0.landed[e]
    requires forall e | 0 <= e < |out0.landedCpu| :: !out0.landedCpu[e]
    requires Routed(call, t.hold, KeptSlots(call, dem, t), out0, t.index, out1, index1)
    requires Filled(call, Evictions(call, dem, t), Fetches(call, dem, t), |Evictions(call, dem, t)|,
                    out1, index1, out, index)
    ensures Published(call, dem, t, out)
    ensures Indexed(call, dem, t, index)
  {
    var kept, order, picks := KeptSlots(call, dem, t), Evictions(call, dem, t), Fetches(call, dem, t);
    forall e: nat | e < |dem|
      ensures HeldBy(kept, t.hold, e) == (e in KeptExperts(call, dem, t))
    {
    }
    forall k | k in kept ensures out.sel[k] == -1 && index[t.hold[k]] == call.slotBase + k {
      assert k !in Refillable(call, dem, t);
      assert t.hold[k] in KeptExperts(call, dem, t);
      assert t.hold[k] !in picks;
    }
  }

  // What is selected is an expert id.
  lemma SelBelow(call: Call, dem: seq<nat>, t: Tables, pub: Publication)
    requires Shaped(dem, t) && Published(call, dem, t, pub)
    ensures forall k | 0 <= k < |pub.sel| :: -1 <= pub.sel[k] < |dem|
  {
    var order := Evictions(call, dem, t);
    WeakerTotal(t.score, Refillable(call, dem, t));
    LeadsSize(Weaker(t.score), Refillable(call, dem, t), order);
    forall k: nat | k < |pub.sel| ensures -1 <= pub.sel[k] < |dem| {
      if k !in KeptSlots(call, dem, t) {
        var i := Position(order, k);
      }
    }
  }
}
