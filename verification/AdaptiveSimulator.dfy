// The adaptive residency simulator as it runs: layer states and counters updated in
// place, proved to follow the value-level steps of AdaptivePolicy.

module AdaptiveSimulator {
  import opened Ranking
  import opened ResidencyRefresh
  import opened AdaptivePolicy
  import opened TorchSelect

  // The positions, among the first k, whose id names an expert, and those whose expert is
  // resident.
  ghost function Asked(ids: seq<int>, n: nat, k: nat): set<nat> {
    set i: nat | i < |ids| && i < k && 0 <= ids[i] < n
  }

  ghost function Hits(resident: seq<bool>, ids: seq<int>, k: nat): set<nat> {
    set i: nat | i < |ids| && i < k && 0 <= ids[i] < |resident| && resident[ids[i]]
  }

  lemma OneMorePosition(resident: seq<bool>, ids: seq<int>, k: nat)
    requires k < |ids|
    ensures |Asked(ids, |resident|, k + 1)| == |Asked(ids, |resident|, k)| + if 0 <= ids[k] < |resident| then 1 else 0
    ensures |Hits(resident, ids, k + 1)| ==
            |Hits(resident, ids, k)| + if 0 <= ids[k] < |resident| && resident[ids[k]] then 1 else 0
  {
    var asked, hit := 0 <= ids[k] < |resident|, 0 <= ids[k] < |resident| && resident[ids[k]];
    assert Asked(ids, |resident|, k + 1) == Asked(ids, |resident|, k) + if asked then {k} else {};
    assert Hits(resident, ids, k + 1) == Hits(resident, ids, k) + if hit then {k} else {};
  }

  // Hits are among the asked, and both grow with the positions looked at.
  lemma CountsGrow(resident: seq<bool>, ids: seq<int>, j: nat, k: nat)
    requires j <= k
    ensures |Hits(resident, ids, k)| <= |Asked(ids, |resident|, k)|
    ensures |Asked(ids, |resident|, j)| <= |Asked(ids, |resident|, k)|
    ensures |Hits(resident, ids, j)| <= |Hits(resident, ids, k)|
  {
    SubsetSize(Hits(resident, ids, k), Asked(ids, |resident|, k));
    SubsetSize(Asked(ids, |resident|, j), Asked(ids, |resident|, k));
    SubsetSize(Hits(resident, ids, j), Hits(resident, ids, k));
  }

  // Looking only at a prefix is counting in it.
  lemma PrefixCounts(resident: seq<bool>, ids: seq<int>, k: nat)
    requires k <= |ids|
    ensures Hits(resident, ids[..k], k) == Hits(resident, ids, k)
    ensures Asked(ids[..k], |resident|, k) == Asked(ids, |resident|, k)
  {
    assert forall i | 0 <= i < k :: ids[..k][i] == ids[i];
  }

  // The four counts of a row, over its first two positions and over all.
  lemma TwoAndAll(resident: seq<bool>, ids: seq<int>, two: seq<int>)
    requires two == ids[..if |ids| < 2 then |ids| else 2]
    ensures Hits(resident, ids, |ids|) == set i: nat | i < |ids| && 0 <= ids[i] < |resident| && resident[ids[i]]
    ensures Asked(ids, |resident|, |ids|) == set i: nat | i < |ids| && 0 <= ids[i] < |resident|
    ensures (set i: nat | i < |two| && 0 <= two[i] < |resident| && resident[two[i]]) == Hits(resident, ids, 2)
    ensures (set i: nat | i < |two| && 0 <= two[i] < |resident|) == Asked(ids, |resident|, 2)
    ensures |Hits(resident, ids, 2)| <= |Asked(ids, |resident|, 2)| <= |Asked(ids, |resident|, |ids|)|
    ensures |Hits(resident, ids, 2)| <= |Hits(resident, ids, |ids|)| <= |Asked(ids, |resident|, |ids|)|
    ensures Hits(resident, ids, 2) ==
            set i: nat | i < |ids| && i < 2 && 0 <= ids[i] < |resident| && resident[ids[i]]
    ensures Asked(ids, |resident|, 2) == set i: nat | i < |ids| && i < 2 && 0 <= ids[i] < |resident|
  {
    CountsGrow(resident, ids, |two|, |ids|);
    CountsGrow(resident, ids, |two|, 2);
    assert Hits(resident, ids, 2) == Hits(resident, ids, |two|);
    assert Asked(ids, |resident|, 2) == Asked(ids, |resident|, |two|);
    PrefixCounts(resident, ids, |two|);
  }

  // A row over residents only hits with every valid position, one over others with none.
  lemma HitsAllOrNone(resident: seq<bool>, ids: seq<int>)
    ensures var hits := |set i: nat | i < |ids| && 0 <= ids[i] < |resident| && resident[ids[i]]|;
            var asked := |(set i: nat | i < |ids| && 0 <= ids[i] < |resident|)|;
            && ((forall i | 0 <= i < |ids| && 0 <= ids[i] < |resident| :: resident[ids[i]]) <==> hits == asked)
            && ((forall i | 0 <= i < |ids| && 0 <= ids[i] < |resident| :: !resident[ids[i]]) <==> hits == 0)
  {
    var hits := set i: nat | i < |ids| && 0 <= ids[i] < |resident| && resident[ids[i]];
    var asked := set i: nat | i < |ids| && 0 <= ids[i] < |resident|;
    SubsetSize(hits, asked);
    if |hits| == |asked| {
      forall i | 0 <= i < |ids| && 0 <= ids[i] < |resident| ensures resident[ids[i]] { assert i in asked; }
    }
    if forall i | 0 <= i < |ids| && 0 <= ids[i] < |resident| :: resident[ids[i]] {
      assert hits == asked;
    }
    if |hits| == 0 {
      forall i | 0 <= i < |ids| && 0 <= ids[i] < |resident| ensures !resident[ids[i]] { assert i !in hits; }
    }
    if forall i | 0 <= i < |ids| && 0 <= ids[i] < |resident| :: !resident[ids[i]] {
      assert hits == {};
    }
  }

  class LayerState {
    var resident: seq<bool>
    var score: seq<real>
    var count: seq<int>
    var lastSeen: seq<int>
    var event: nat

    function Value(): Layer
      reads this
    {
      Layer(resident, score, count, lastSeen, event)
    }

    constructor (p: Settings)
      ensures Value() == Fresh(p)
    {
      var fresh_ := Fresh(p);
      resident, score, count, lastSeen, event :=
        fresh_.resident, fresh_.score, fresh_.count, fresh_.lastSeen, fresh_.event;
    }

    // Every id of a row that names an expert was seen at this event.
    method See(ids: seq<int>, n: nat)
      requires |lastSeen| == n
      modifies this`lastSeen
      ensures |lastSeen| == n
      ensures forall e | 0 <= e < n :: lastSeen[e] == if e in ids then event else old(lastSeen[e])
    {
      for i := 0 to |ids|
        invariant |lastSeen| == n
        invariant forall e | 0 <= e < n :: lastSeen[e] == if e in ids[..i] then event else old(lastSeen[e])
      {
        assert ids[..i + 1] == ids[..i] + [ids[i]];
        if Routed(ids[i], n) { lastSeen := lastSeen[ids[i] := event]; }
      }
      assert ids[..|ids|] == ids;
    }

    method Stamp(ids: seq<int>, n: nat)
      requires |score| == n
      modifies this`score
      ensures |score| == n
      ensures forall e | 0 <= e < n :: score[e] == if e in ids then event as real else old(score[e])
    {
      for i := 0 to |ids|
        invariant |score| == n
        invariant forall e | 0 <= e < n :: score[e] == if e in ids[..i] then event as real else old(score[e])
      {
        assert ids[..i + 1] == ids[..i] + [ids[i]];
        if Routed(ids[i], n) { score := score[ids[i] := event as real]; }
      }
      assert ids[..|ids|] == ids;
    }

    method Count(ids: seq<int>, n: nat)
      requires |count| == n
      modifies this`count
      ensures |count| == n
      ensures forall e | 0 <= e < n :: count[e] == old(count[e]) + multiset(ids)[e]
    {
      for i := 0 to |ids|
        invariant |count| == n
        invariant forall e | 0 <= e < n :: count[e] == old(count[e]) + multiset(ids[..i])[e]
      {
        assert ids[..i + 1] == ids[..i] + [ids[i]];
        if Routed(ids[i], n) { count := count[ids[i] := count[ids[i]] + 1]; }
      }
      assert ids[..|ids|] == ids;
    }

    method Decay(decay: real)
      modifies this`score
      ensures |score| == |old(score)|
      ensures forall e | 0 <= e < |score| :: score[e] == old(score[e]) * decay
    {
      var was := score;
      for i := 0 to |was|
        invariant |score| == |was|
        invariant forall e | 0 <= e < |was| :: score[e] == if e < i then was[e] * decay else was[e]
      {
        score := score[i := was[i] * decay];
      }
    }

    method Reward(ids: seq<int>, credit: seq<real>, weights: seq<real>, n: nat)
      requires |score| == n && |ids| == |weights| <= |credit|
      modifies this`score
      ensures |score| == n
      ensures forall e | 0 <= e < n :: score[e] == old(score[e]) + Added(ids, credit, weights, |ids|, e)
    {
      for i := 0 to |ids|
        invariant |score| == n
        invariant forall e | 0 <= e < n :: score[e] == old(score[e]) + Added(ids, credit, weights, i, e)
      {
        if Routed(ids[i], n) {
          score := score[ids[i] := score[ids[i]] + Credit(credit, weights, i)];
        }
      }
    }

    method SetResident(ids: seq<nat>, value: bool)
      requires forall i | 0 <= i < |ids| :: ids[i] < |resident|
      modifies this`resident
      ensures |resident| == |old(resident)|
      ensures forall e | 0 <= e < |resident| :: resident[e] == if e in ids then value else old(resident[e])
    {
      for i := 0 to |ids|
        invariant |resident| == |old(resident)|
        invariant forall e | 0 <= e < |resident| :: resident[e] == if e in ids[..i] then value else old(resident[e])
      {
        assert ids[..i + 1] == ids[..i] + [ids[i]];
        resident := resident[ids[i] := value];
      }
      assert ids[..|ids|] == ids;
    }
  }

  method AnyRouted(ids: seq<int>, n: nat) returns (any: bool)
    ensures any <==> exists i :: 0 <= i < |ids| && Routed(ids[i], n)
  {
    any := false;
    for i := 0 to |ids|
      invariant any <==> exists j :: 0 <= j < i && Routed(ids[j], n)
    {
      if Routed(ids[i], n) { any := true; }
    }
  }

  method CountAsked(ids: seq<int>, n: nat) returns (k: nat)
    ensures k == |set i: nat | i < |ids| && 0 <= ids[i] < n|
  {
    k := 0;
    ghost var nobody := seq(n, _ => false);
    for i := 0 to |ids|
      invariant k == |Asked(ids, n, i)|
    {
      OneMorePosition(nobody, ids, i);
      if Routed(ids[i], n) { k := k + 1; }
    }
    assert Asked(ids, n, |ids|) == set i: nat | i < |ids| && 0 <= ids[i] < n;
  }

  method CountHits(resident: seq<bool>, ids: seq<int>) returns (k: nat)
    ensures k == |set i: nat | i < |ids| && 0 <= ids[i] < |resident| && resident[ids[i]]|
  {
    k := 0;
    for i := 0 to |ids|
      invariant k == |Hits(resident, ids, i)|
    {
      OneMorePosition(resident, ids, i);
      if Routed(ids[i], |resident|) && resident[ids[i]] { k := k + 1; }
    }
    assert Hits(resident, ids, |ids|) == set i: nat | i < |ids| && 0 <= ids[i] < |resident| && resident[ids[i]];
  }

  // The best additions and worst evictions that move the residents towards a top set.
  method Exchange(eff: seq<real>, resident: seq<bool>, capacity: nat, maxSwaps: int)
    returns (came: seq<nat>, gone: seq<nat>)
    requires |eff| == |resident| && |Residents(resident)| == capacity <= |eff|
    ensures exists top ::
              IsRefresh(eff, maxSwaps, Residents(resident), Exchanged(resident, came, gone), top, came, gone)
  {
    var desired := TopK(eff, capacity);
    ghost var top, r := SetOf(desired), Residents(resident);
    SetOfSize(desired);
    assert IsTopSet(eff, capacity, top);
    var additions := Where(seq(|eff|, e requires 0 <= e < |resident| => e in desired && !resident[e]));
    var evictions := Where(seq(|eff|, e requires 0 <= e < |resident| => resident[e] && e !in desired));
    assert SetOf(additions) == top - r;
    assert SetOf(evictions) == r - top;
    SetOfSize(additions);
    SetOfSize(evictions);
    additions := Sorted(eff, additions, true, |additions|);
    evictions := Sorted(eff, evictions, false, |evictions|);
    var k := SwapCount(maxSwaps, |additions|, |evictions|);
    PrefixOfSorted(eff, top - r, true, additions, k);
    PrefixOfSorted(eff, r - top, false, evictions, k);
    came, gone := additions[..k], evictions[..k];
    assert IsRefresh(eff, maxSwaps, r, Exchanged(resident, came, gone), top, came, gone);
  }

  ghost function Exchanged(resident: seq<bool>, came: seq<nat>, gone: seq<nat>): set<nat> {
    (Residents(resident) - SetOf(gone)) + SetOf(came)
  }

  lemma ExchangeIsRound(p: Settings, score: seq<real>, mask: seq<bool>, mask': seq<bool>, came: seq<nat>,
                        gone: seq<nat>)
    returns (w: Round)
    requires |score| == |mask| == |mask'|
    requires exists top :: IsRefresh(Effective(score, mask, p.bonus, p.cost), p.maxSwaps, Residents(mask),
                                     Exchanged(mask, came, gone), top, came, gone)
    requires forall e | 0 <= e < |mask| :: mask'[e] == if e in came then true else if e in gone then false else mask[e]
    ensures IsRound(score, p.bonus, p.cost, p.maxSwaps, mask, mask', w) && w.came == came
  {
    var top :| IsRefresh(Effective(score, mask, p.bonus, p.cost), p.maxSwaps, Residents(mask),
                         Exchanged(mask, came, gone), top, came, gone);
    w := Round(top, came, gone);
    ResidentsExchanged(mask, mask', came, gone);
  }

  lemma ResidentsExchanged(mask: seq<bool>, mask': seq<bool>, came: seq<nat>, gone: seq<nat>)
    requires |mask| == |mask'| && Below(came, |mask|)
    requires forall e | 0 <= e < |mask| :: mask'[e] == if e in came then true else if e in gone then false else mask[e]
    ensures Residents(mask') == Exchanged(mask, came, gone)
  {
  }

  lemma {:induction false} NothingAdded(ids: seq<int>, credit: seq<real>, weights: seq<real>, k: nat, n: nat, any: bool)
    requires k <= |ids| == |weights| <= |credit|
    requires any <==> exists i :: 0 <= i < |ids| && Routed(ids[i], n)
    ensures !any ==> forall e | 0 <= e < n :: Added(ids, credit, weights, k, e) == 0.0
  {
    if k > 0 { NothingAdded(ids, credit, weights, k - 1, n, any); }
  }

  class Policy {
    const p: Settings
    var layers: map<int, LayerState>
    var top2Hits: nat
    var top2Total: nat
    var top8Hits: nat
    var top8Total: nat
    var swaps: nat
    var rows: nat

    ghost predicate Valid()
      reads this, layers.Values
    {
      && p.Ok()
      && (forall l | l in layers :: layers[l] in layers.Values && Full(p, layers[l].Value()))
      && (forall k, l | k in layers && l in layers && k != l :: layers[k] != layers[l])
      && top2Hits <= top2Total <= top8Total && top2Hits <= top8Hits <= top8Total
    }

    // What a layer holds now, or would start from.
    ghost function At(layer: int): Layer
      reads this, layers.Values
    {
      if layer in layers then layers[layer].Value() else Fresh(p)
    }

    constructor (n: nat, capacity: nat, interval: nat, maxSwaps: int, decay: real, bonus: real, cost: real, kind: Kind)
      requires interval > 0
      ensures Valid()
      ensures p == Settings(n, if capacity < n then capacity else n, interval, maxSwaps, decay, bonus, cost, kind)
      ensures layers == map[] && swaps == 0 && rows == 0
    {
      p := Settings(n, if capacity < n then capacity else n, interval, maxSwaps, decay, bonus, cost, kind);
      layers := map[];
      top2Hits, top2Total, top8Hits, top8Total, swaps, rows := 0, 0, 0, 0, 0, 0;
    }

    // The state of a layer, made on first use.
    method LayerOf(layer: int) returns (state: LayerState)
      requires Valid()
      modifies this`layers
      ensures Valid() && layer in layers && layers[layer] == state
      ensures forall l :: At(l) == old(At(l))
      ensures layers.Keys == old(layers.Keys) + {layer}
      ensures layer in old(layers) || fresh(state)
      ensures state in old(layers.Values) || fresh(state)
    {
      if layer in layers {
        state := layers[layer];
      } else {
        state := new LayerState(p);
        PrefixSize(p.n, p.capacity);
        layers := layers[layer := state];
      }
    }

    method UpdateScores(state: LayerState, ids: seq<int>, weights: seq<real>)
      requires Sized(state.Value(), p.n) && Fed(p, ids, weights)
      modifies state`score, state`count, state`lastSeen
      ensures IsScored(p, old(state.Value()), state.Value(), ids, weights)
    {
      match p.kind
      case StaticUniform =>
      case LRU =>
        state.See(ids, p.n);
        state.Stamp(ids, p.n);
      case Frequency =>
        var any := AnyRouted(ids, p.n);
        if any {
          state.Count(ids, p.n);
          state.score := seq(p.n, e requires 0 <= e < |state.count| reads state => state.count[e] as real);
        }
      case Weighted(credit) =>
        state.Decay(p.decay);
        var any := AnyRouted(ids, p.n);
        NothingAdded(ids, credit, weights, |ids|, p.n, any);
        if any {
          state.Reward(ids, credit, weights, p.n);
          state.Count(ids, p.n);
          state.See(ids, p.n);
        }
    }

    method RefreshResidents(state: LayerState) returns (ghost w: Round)
      requires p.Ok() && Full(p, state.Value())
      modifies this`swaps, state`resident
      ensures |state.resident| == p.n
      ensures p.capacity >= p.n || p.kind.StaticUniform? ==> state.resident == old(state.resident) && w.came == []
      ensures p.capacity < p.n && !p.kind.StaticUniform? ==>
                IsRound(state.score, p.bonus, p.cost, p.maxSwaps, old(state.resident), state.resident, w)
      ensures swaps == old(swaps) + |w.came|
    {
      w := Round({}, [], []);
      if p.kind.StaticUniform? || p.capacity >= p.n { return; }
      var eff := Effective(state.score, state.resident, p.bonus, p.cost);
      var came, gone := Exchange(eff, state.resident, p.capacity, p.maxSwaps);
      ghost var was := state.resident;
      state.SetResident(gone, false);
      state.SetResident(came, true);
      swaps := swaps + |came|;
      w := ExchangeIsRound(p, state.score, was, state.resident, came, gone);
    }

    method Step(state: LayerState, ids: seq<int>, weights: seq<real>) returns (ghost w: Round)
      requires p.Ok() && Full(p, state.Value()) && Fed(p, ids, weights)
      modifies this`swaps, state
      ensures Full(p, state.Value())
      ensures Observed(p, old(state.Value()), state.Value(), w, Row(ids, weights))
      ensures swaps == old(swaps) + |w.came|
    {
      ghost var was := state.Value();
      state.event := state.event + 1;
      UpdateScores(state, ids, weights);
      ghost var mid := state.Value();
      w := Round({}, [], []);
      if state.event % p.interval == 0 {
        w := RefreshResidents(state);
      }
      assert Reseated(p, mid, state.Value(), w);
      assert IsObserve(p, was, mid, state.Value(), w, ids, weights);
      ObserveKeepsCapacity(p, was, state.Value(), w, Row(ids, weights));
    }

    method Observe(layer: int, ids: seq<int>, weights: seq<real>) returns (ghost w: Round)
      requires Valid() && Fed(p, ids, weights)
      modifies this, layers.Values
      ensures Valid() && rows == old(rows) + 1
      ensures layers.Keys == old(layers.Keys) + {layer}
      ensures Observed(p, old(At(layer)), At(layer), w, Row(ids, weights))
      ensures forall l | l != layer :: At(l) == old(At(l))
      ensures swaps == old(swaps) + |w.came|
      ensures var r := old(At(layer)).resident;
              && top8Hits == old(top8Hits) + |set i: nat | i < |ids| && 0 <= ids[i] < |r| && r[ids[i]]|
              && top2Hits == old(top2Hits) + |set i: nat | i < |ids| && i < 2 && 0 <= ids[i] < |r| && r[ids[i]]|
      ensures top8Total == old(top8Total) + |set i: nat | i < |ids| && 0 <= ids[i] < p.n|
      ensures top2Total == old(top2Total) + |set i: nat | i < |ids| && i < 2 && 0 <= ids[i] < p.n|
    {
      var state := Found(layer, ids);
      w := StepAt(layer, state, ids, weights);
    }

    // The layer's state, made if there is none, and its hits counted.
    method Found(layer: int, ids: seq<int>) returns (state: LayerState)
      requires Valid()
      modifies this`layers, this`rows, this`top2Hits, this`top2Total, this`top8Hits, this`top8Total
      ensures Valid() && rows == old(rows) + 1 && layer in layers && layers[layer] == state
      ensures layers.Keys == old(layers.Keys) + {layer}
      ensures state in old(layers.Values) || fresh(state)
      ensures forall l :: At(l) == old(At(l))
      ensures var r := old(At(layer)).resident;
              && top8Hits == old(top8Hits) + |set i: nat | i < |ids| && 0 <= ids[i] < |r| && r[ids[i]]|
              && top2Hits == old(top2Hits) + |set i: nat | i < |ids| && i < 2 && 0 <= ids[i] < |r| && r[ids[i]]|
      ensures top8Total == old(top8Total) + |set i: nat | i < |ids| && 0 <= ids[i] < p.n|
      ensures top2Total == old(top2Total) + |set i: nat | i < |ids| && i < 2 && 0 <= ids[i] < p.n|
    {
      state := LayerOf(layer);
      assert At(layer).resident == state.resident;
      rows := rows + 1;
      Tally(state.resident, ids);
    }

    method StepAt(ghost layer: int, state: LayerState, ids: seq<int>, weights: seq<real>) returns (ghost w: Round)
      requires Valid() && Fed(p, ids, weights) && layer in layers && layers[layer] == state
      modifies this`swaps, state
      ensures Valid() && swaps == old(swaps) + |w.came|
      ensures Observed(p, old(At(layer)), At(layer), w, Row(ids, weights))
      ensures forall l | l != layer :: At(l) == old(At(l))
    {
      w := Step(state, ids, weights);
      assert forall l | l in layers && l != layer :: layers[l] != state;
      assert At(layer) == state.Value();
    }

    // Hits are counted against the residents found, before the row changes anything.
    method Tally(resident: seq<bool>, ids: seq<int>)
      requires |resident| == p.n
      requires top2Hits <= top2Total <= top8Total && top2Hits <= top8Hits <= top8Total
      modifies this`top2Hits, this`top2Total, this`top8Hits, this`top8Total
      ensures top2Hits <= top2Total <= top8Total && top2Hits <= top8Hits <= top8Total
      ensures top8Hits == old(top8Hits) +
              |set i: nat | i < |ids| && 0 <= ids[i] < |resident| && resident[ids[i]]|
      ensures top2Hits == old(top2Hits) +
              |set i: nat | i < |ids| && i < 2 && 0 <= ids[i] < |resident| && resident[ids[i]]|
      ensures top8Total == old(top8Total) + |set i: nat | i < |ids| && 0 <= ids[i] < p.n|
      ensures top2Total == old(top2Total) + |set i: nat | i < |ids| && i < 2 && 0 <= ids[i] < p.n|
    {
      var two := if |ids| < 2 then ids else ids[..2];
      var h2 := CountHits(resident, two);
      var t2 := CountAsked(two, p.n);
      var h8 := CountHits(resident, ids);
      var t8 := CountAsked(ids, p.n);
      TwoAndAll(resident, ids, two);
      top2Hits, top2Total := top2Hits + h2, top2Total + t2;
      top8Hits, top8Total := top8Hits + h8, top8Total + t8;
    }
  }
}
