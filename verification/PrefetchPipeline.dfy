// The whole prefetch path of one layer: select demand, allocate slots, gather the
// selected experts; when a routed expert's slot holds that expert's own bytes.

module PrefetchPipeline {
  import opened TokenChoice
  import opened RouterSelection
  import opened SlotAllocation
  import opened SlotRuns
  import opened GatherLaunch

  // One forward pass of the layer. The residency mask may change between passes.
  datatype Turn = Turn(call: Call, takens: seq<seq<nat>>, resident: seq<bool>, dem: seq<nat>)

  // A layer between passes: carried tables, last publication, landing slots.
  datatype World<V, B> = World(t: Tables, pub: Publication, mem: Memory<V, B>)

  // The store has every expert the GPU does not.
  ghost predicate StoreCovers<V, F, B>(g: Gather<V, F, B>, resident: seq<bool>)
    requires g.Valid()
  {
    forall e: nat | e < |resident| && !resident[e] :: g.Has(e)
  }

  ghost predicate CanTurn<V, F, B>(g: Gather<V, F, B>, turn: Turn, w: World<V, B>)
    requires g.Valid()
  {
    && Shaped(turn.dem, w.t) && IsDemand(turn.takens, turn.resident, turn.dem)
    && StoreCovers(g, turn.resident) && g.Sized(|w.t.hold|, w.mem)
  }

  lemma SelectionIsServable<V, F, B>(g: Gather<V, F, B>, turn: Turn, w: World<V, B>, pub: Publication)
    requires g.Valid() && CanTurn(g, turn, w) && Published(turn.call, turn.dem, w.t, pub)
    ensures g.CanServe(pub.sel)
  {
    forall k | 0 <= k < |pub.sel| && pub.sel[k] >= 0 ensures g.Has(pub.sel[k]) {
      SelectedIsFetched(turn.call, turn.dem, w.t, pub, pub.sel[k]);
      DemandIsNonResident(turn.takens, turn.resident, turn.dem, pub.sel[k]);
    }
  }

  // Allocator step, then gather.
  ghost predicate IsTurn<V, F, B>(g: Gather<V, F, B>, turn: Turn, w: World<V, B>, w': World<V, B>)
    requires g.Valid() && CanTurn(g, turn, w)
  {
    && IsStep(turn.call, turn.dem, w.t, w'.t, w'.pub)
    && (SelectionIsServable(g, turn, w, w'.pub); g.Streamed(w'.pub.sel, w.mem, w'.mem))
  }

  // `hold` names what each slot physically holds, byte for byte.
  ghost predicate Truthful<V, F, B>(g: Gather<V, F, B>, w: World<V, B>)
    requires g.Valid()
  {
    && g.Sized(|w.t.hold|, w.mem)
    && forall k: nat | k < |w.t.hold| && w.t.hold[k] >= 0 :: HoldsBytes(g, w, k, w.t.hold[k])
  }

  ghost predicate HoldsBytes<V, F, B>(g: Gather<V, F, B>, w: World<V, B>, k: nat, e: nat)
    requires g.Valid() && g.Sized(|w.t.hold|, w.mem) && k < |w.t.hold|
  {
    g.Has(e) && g.SlotIs(|w.t.hold|, w.mem, k, g.Reference(e))
  }

  lemma GatherSlot<V, F, B>(g: Gather<V, F, B>, turn: Turn, w: World<V, B>, w': World<V, B>, k: nat)
    requires g.Valid() && CanTurn(g, turn, w) && IsTurn(g, turn, w, w') && k < |w.t.hold|
    ensures |w'.t.hold| == |w.t.hold| == |w'.pub.sel| && g.Sized(|w.t.hold|, w'.mem)
    ensures w'.pub.sel[k] >= 0 ==> HoldsBytes(g, w', k, w'.pub.sel[k])
    ensures forall e: nat | w'.pub.sel[k] < 0 :: HoldsBytes(g, w, k, e) <==> HoldsBytes(g, w', k, e)
  {
    SelectionIsServable(g, turn, w, w'.pub);
    g.StreamExperts(w'.pub.sel, w.mem, w'.mem, k);
  }

  // A turn that records its fetches keeps `hold` truthful.
  lemma TurnKeepsTruth<V, F, B>(g: Gather<V, F, B>, turn: Turn, w: World<V, B>, w': World<V, B>)
    requires g.Valid() && CanTurn(g, turn, w) && IsTurn(g, turn, w, w')
    requires Truthful(g, w) && turn.call.reuse >= 1
    ensures g.Sized(|w'.t.hold|, w'.mem) && Truthful(g, w')
  {
    SizedAfter(g, turn, w, w');
    forall k: nat | k < |w'.t.hold| && w'.t.hold[k] >= 0 ensures HoldsBytes(g, w', k, w'.t.hold[k]) {
      SlotKeepsTruth(g, turn, w, w', k);
    }
  }

  lemma SlotKeepsTruth<V, F, B>(g: Gather<V, F, B>, turn: Turn, w: World<V, B>, w': World<V, B>, k: nat)
    requires g.Valid() && CanTurn(g, turn, w) && IsTurn(g, turn, w, w') && turn.call.reuse >= 1
    requires k < |w'.t.hold| && w'.t.hold[k] >= 0 && g.Sized(|w'.t.hold|, w'.mem)
    requires k < |w.t.hold| && (w.t.hold[k] >= 0 ==> HoldsBytes(g, w, k, w.t.hold[k]))
    ensures HoldsBytes(g, w', k, w'.t.hold[k])
  {
    GatherSlot(g, turn, w, w', k);
    HoldEntry(turn.call, turn.dem, w.t, w'.pub.sel, w'.t.hold, w'.t.score, k);
  }

  lemma SizedAfter<V, F, B>(g: Gather<V, F, B>, turn: Turn, w: World<V, B>, w': World<V, B>)
    requires g.Valid() && CanTurn(g, turn, w) && IsTurn(g, turn, w, w')
    ensures |w'.t.hold| == |w.t.hold| && g.Sized(|w'.t.hold|, w'.mem)
  {
    if |w.t.hold| > 0 {
      GatherSlot(g, turn, w, w', 0);
    } else {
      EmptySized(g, turn, w, w');
    }
  }

  lemma EmptySized<V, F, B>(g: Gather<V, F, B>, turn: Turn, w: World<V, B>, w': World<V, B>)
    requires g.Valid() && CanTurn(g, turn, w) && IsTurn(g, turn, w, w') && |w.t.hold| == 0
    ensures g.Sized(0, w'.mem)
  {
    SelectionIsServable(g, turn, w, w'.pub);
    g.Works(w'.pub.sel);
  }

  // What a consumer of `landed` and `index` relies on: the expert is not resident, its
  // index is a landing slot of this layer, and that slot holds exactly its bytes.
  ghost predicate Served<V, F, B>(g: Gather<V, F, B>, turn: Turn, w: World<V, B>, e: nat)
    requires g.Valid() && g.Sized(|w.t.hold|, w.mem)
  {
    && e < |turn.resident| && !turn.resident[e] && e < |w.t.index|
    && exists k: nat :: ServedFrom(g, turn.call.slotBase, w, e, k)
  }

  ghost predicate ServedFrom<V, F, B>(g: Gather<V, F, B>, base: int, w: World<V, B>, e: nat, k: nat)
    requires g.Valid() && g.Sized(|w.t.hold|, w.mem) && e < |w.t.index|
  {
    k < |w.t.hold| && w.t.index[e] == base + k && HoldsBytes(g, w, k, e)
  }

  // Every expert the pass landed, for the GPU or for the CPU's skip list, is served from
  // its own bytes, and no two from the same slot.
  ghost predicate AllServed<V, F, B>(g: Gather<V, F, B>, turn: Turn, w: World<V, B>)
    requires g.Valid()
  {
    && g.Sized(|w.t.hold|, w.mem) && |w.pub.landed| == |w.pub.landedCpu| == |w.t.index| == |turn.dem|
    && Apart(w.pub.landed, w.t.index) && RoutedAreServed(g, turn, w)
  }

  ghost predicate RoutedAreServed<V, F, B>(g: Gather<V, F, B>, turn: Turn, w: World<V, B>)
    requires g.Valid() && g.Sized(|w.t.hold|, w.mem)
  {
    forall e: nat | Routed(w.pub, e) :: Served(g, turn, w, e)
  }

  // The pass publishes e, to the GPU or to the CPU's skip list.
  ghost predicate Routed(pub: Publication, e: nat) {
    e < |pub.landed| && e < |pub.landedCpu| && (pub.landed[e] || pub.landedCpu[e])
  }

  // Every slot the pass will keep holds what the tables say.
  ghost predicate KeptHoldTheirs<V, F, B>(g: Gather<V, F, B>, turn: Turn, w: World<V, B>)
    requires g.Valid() && CanTurn(g, turn, w)
  {
    forall k: nat | k in KeptSlots(turn.call, turn.dem, w.t) && k < |w.t.hold| && w.t.hold[k] >= 0 ::
      HoldsBytes(g, w, k, w.t.hold[k])
  }

  // A routed expert's slot either receives it now or was kept for it.
  ghost predicate LandsIn(turn: Turn, t: Tables, t': Tables, pub: Publication, e: nat, k: nat)
    requires Shaped(turn.dem, t) && |pub.sel| == |t.hold|
  {
    && e < |turn.resident| && !turn.resident[e] && e < |t'.index| && t'.index[e] == turn.call.slotBase + k
    && k < |t.hold| && (pub.sel[k] == e || KeptFor(turn, t, pub, e, k))
  }

  ghost predicate KeptFor(turn: Turn, t: Tables, pub: Publication, e: nat, k: nat)
    requires Shaped(turn.dem, t) && |pub.sel| == |t.hold|
  {
    && k in KeptSlots(turn.call, turn.dem, t) && k < |t.hold|
    && pub.sel[k] == -1 && t.hold[k] == e
  }

  lemma RoutedSlot(turn: Turn, t: Tables, t': Tables, pub: Publication, e: nat) returns (k: nat)
    requires Shaped(turn.dem, t) && IsDemand(turn.takens, turn.resident, turn.dem)
    requires IsStep(turn.call, turn.dem, t, t', pub) && Routed(pub, e)
    ensures turn.call.route || turn.call.cpuskip
    ensures LandsIn(turn, t, t', pub, e, k)
  {
    k := LandingSlot(turn.call, turn.dem, t, pub, t'.index, e);
    DemandIsNonResident(turn.takens, turn.resident, turn.dem, e);
  }

  lemma LandedHolds<V, F, B>(g: Gather<V, F, B>, turn: Turn, w: World<V, B>, w': World<V, B>, e: nat, k: nat)
    requires g.Valid() && CanTurn(g, turn, w) && IsTurn(g, turn, w, w') && KeptHoldTheirs(g, turn, w)
    requires LandsIn(turn, w.t, w'.t, w'.pub, e, k)
    ensures g.Sized(|w'.t.hold|, w'.mem) && k < |w'.t.hold| && HoldsBytes(g, w', k, e)
  {
    GatherSlot(g, turn, w, w', k);
    if w'.pub.sel[k] != e {
      assert KeptFor(turn, w.t, w'.pub, e, k);
    }
  }

  lemma LandedIsServed<V, F, B>(g: Gather<V, F, B>, turn: Turn, w: World<V, B>, w': World<V, B>, e: nat)
    requires g.Valid() && CanTurn(g, turn, w) && IsTurn(g, turn, w, w') && Routed(w'.pub, e)
    requires turn.call.route || turn.call.cpuskip ==> KeptHoldTheirs(g, turn, w)
    ensures g.Sized(|w'.t.hold|, w'.mem) && Served(g, turn, w', e)
  {
    var k := RoutedSlot(turn, w.t, w'.t, w'.pub, e);
    LandedHolds(g, turn, w, w', e, k);
    assert ServedFrom(g, turn.call.slotBase, w', e, k);
  }

  lemma KeptIsRouted(call: Call, dem: seq<nat>, t: Tables, t': Tables, pub: Publication, k: nat) returns (e: nat)
    requires Shaped(dem, t) && IsStep(call, dem, t, t', pub) && (call.route || call.cpuskip)
    requires k in KeptSlots(call, dem, t) && k < |t.hold|
    ensures t.hold[k] == e < |dem| && pub.sel[k] == -1 && t'.index[e] == call.slotBase + k
    ensures Routed(pub, e)
  {
    assert IsReusable(dem, t.hold, k);
    e := t.hold[k];
    assert IsKept(call, dem, t, e);
  }

  lemma IndexFixesSlot<V, F, B>(g: Gather<V, F, B>, turn: Turn, w: World<V, B>, e: nat, k: nat)
    requires g.Valid() && g.Sized(|w.t.hold|, w.mem) && Served(g, turn, w, e)
    requires w.t.index[e] == turn.call.slotBase + k
    ensures k < |w.t.hold| && HoldsBytes(g, w, k, e)
  {
    var j: nat :| ServedFrom(g, turn.call.slotBase, w, e, j);
    assert j == k;
  }

  lemma BytesBefore<V, F, B>(g: Gather<V, F, B>, turn: Turn, w: World<V, B>, w': World<V, B>, k: nat, e: nat)
    requires g.Valid() && CanTurn(g, turn, w) && IsTurn(g, turn, w, w') && k < |w.t.hold| && w'.pub.sel[k] < 0
    requires g.Sized(|w'.t.hold|, w'.mem) && k < |w'.t.hold| && HoldsBytes(g, w', k, e)
    ensures HoldsBytes(g, w, k, e)
  {
    GatherSlot(g, turn, w, w', k);
  }

  lemma KeptWasTrue<V, F, B>(g: Gather<V, F, B>, turn: Turn, w: World<V, B>, w': World<V, B>, k: nat)
    requires g.Valid() && CanTurn(g, turn, w) && IsTurn(g, turn, w, w') && AllServed(g, turn, w')
    requires turn.call.route || turn.call.cpuskip
    requires k in KeptSlots(turn.call, turn.dem, w.t) && k < |w.t.hold|
    ensures w.t.hold[k] >= 0 && HoldsBytes(g, w, k, w.t.hold[k])
  {
    var e := KeptIsRouted(turn.call, turn.dem, w.t, w'.t, w'.pub, k);
    IndexFixesSlot(g, turn, w', e, k);
    BytesBefore(g, turn, w, w', k, e);
  }

  lemma ServedMeansTrue<V, F, B>(g: Gather<V, F, B>, turn: Turn, w: World<V, B>, w': World<V, B>)
    requires g.Valid() && CanTurn(g, turn, w) && IsTurn(g, turn, w, w') && AllServed(g, turn, w')
    requires turn.call.route || turn.call.cpuskip
    ensures KeptHoldTheirs(g, turn, w)
  {
    forall k: nat | k in KeptSlots(turn.call, turn.dem, w.t) && k < |w.t.hold| && w.t.hold[k] >= 0
      ensures HoldsBytes(g, w, k, w.t.hold[k])
    {
      KeptWasTrue(g, turn, w, w', k);
    }
  }

  lemma ServesRouted<V, F, B>(g: Gather<V, F, B>, turn: Turn, w: World<V, B>, w': World<V, B>)
    requires g.Valid() && CanTurn(g, turn, w) && IsTurn(g, turn, w, w') && g.Sized(|w'.t.hold|, w'.mem)
    requires turn.call.route || turn.call.cpuskip ==> KeptHoldTheirs(g, turn, w)
    ensures RoutedAreServed(g, turn, w')
  {
    forall e: nat | Routed(w'.pub, e) ensures Served(g, turn, w', e) {
      LandedIsServed(g, turn, w, w', e);
    }
  }

  lemma TrueMeansServed<V, F, B>(g: Gather<V, F, B>, turn: Turn, w: World<V, B>, w': World<V, B>)
    requires g.Valid() && CanTurn(g, turn, w) && IsTurn(g, turn, w, w')
    requires turn.call.route || turn.call.cpuskip ==> KeptHoldTheirs(g, turn, w)
    ensures AllServed(g, turn, w')
  {
    SizedAfter(g, turn, w, w');
    RoutesApart(turn.call, turn.dem, w.t, w'.t, w'.pub);
    ServesRouted(g, turn, w, w');
  }

  // From any state at all, a pass serves everything it lands if and only if it routes
  // nowhere or each slot it keeps already holds the bytes of the expert it is kept for.
  lemma PassServesIff<V, F, B>(g: Gather<V, F, B>, turn: Turn, w: World<V, B>, w': World<V, B>)
    requires g.Valid() && CanTurn(g, turn, w) && IsTurn(g, turn, w, w')
    ensures AllServed(g, turn, w') <==> (turn.call.route || turn.call.cpuskip ==> KeptHoldTheirs(g, turn, w))
  {
    if turn.call.route || turn.call.cpuskip ==> KeptHoldTheirs(g, turn, w) {
      TrueMeansServed(g, turn, w, w');
    } else if AllServed(g, turn, w') {
      ServedMeansTrue(g, turn, w, w');
    }
  }

  // So a pass in mode 0 or 1 serves what it lands whatever it finds.
  lemma LowModesServe<V, F, B>(g: Gather<V, F, B>, turn: Turn, w: World<V, B>, w': World<V, B>)
    requires g.Valid() && CanTurn(g, turn, w) && IsTurn(g, turn, w, w') && turn.call.reuse <= 1
    ensures AllServed(g, turn, w')
  {
    PassServesIff(g, turn, w, w');
  }

  lemma TruthfulServes<V, F, B>(g: Gather<V, F, B>, turn: Turn, w: World<V, B>, w': World<V, B>)
    requires g.Valid() && CanTurn(g, turn, w) && IsTurn(g, turn, w, w') && Truthful(g, w)
    ensures AllServed(g, turn, w')
  {
    PassServesIff(g, turn, w, w');
  }

  // ---- runs -----------------------------------------------------------------------------

  ghost predicate IsRun<V, F, B>(g: Gather<V, F, B>, turns: seq<Turn>, ws: seq<World<V, B>>)
    requires g.Valid()
  {
    |ws| == |turns| + 1 && forall i: nat | i < |turns| :: TurnAt(g, turns, ws, i)
  }

  ghost predicate TurnAt<V, F, B>(g: Gather<V, F, B>, turns: seq<Turn>, ws: seq<World<V, B>>, i: nat)
    requires g.Valid() && i < |turns| && |ws| == |turns| + 1
  {
    CanTurn(g, turns[i], ws[i]) && IsTurn(g, turns[i], ws[i], ws[i + 1])
  }

  // A fresh layer: no slot is known to hold anything, `index` and the slots are arbitrary.
  ghost predicate Fresh<V, F, B>(g: Gather<V, F, B>, w: World<V, B>)
    requires g.Valid()
  {
    g.Sized(|w.t.hold|, w.mem) && NothingKnown(w.t.hold)
  }

  lemma {:induction false} Stepwise(p: nat -> bool, n: nat)
    requires p(0) && forall i: nat | i < n && p(i) :: p(i + 1)
    ensures p(n)
  {
    if n > 0 {
      Stepwise(p, n - 1);
      assert p((n - 1) + 1);
    }
  }

  ghost predicate NothingKnown(hold: seq<int>) { forall k | 0 <= k < |hold| :: hold[k] == -1 }

  // Before pass n, no pass with reuse on comes before one with reuse off.
  ghost predicate Unbroken(turns: seq<Turn>, n: nat)
    requires n <= |turns|
  {
    forall i, j | 0 <= i < j < n :: turns[i].call.reuse >= 1 ==> turns[j].call.reuse >= 1
  }

  ghost predicate SomeReuse(turns: seq<Turn>, n: nat)
    requires n <= |turns|
  {
    exists i :: 0 <= i < n && turns[i].call.reuse >= 1
  }

  // Until reuse is first on, the tables know nothing, so they cannot be wrong.
  ghost predicate Sound<V, F, B>(g: Gather<V, F, B>, turns: seq<Turn>, w: World<V, B>, n: nat)
    requires g.Valid() && n <= |turns|
  {
    Truthful(g, w) && (SomeReuse(turns, n) || NothingKnown(w.t.hold))
  }

  lemma SoundStep<V, F, B>(g: Gather<V, F, B>, turns: seq<Turn>, ws: seq<World<V, B>>, i: nat)
    requires g.Valid() && IsRun(g, turns, ws) && i < |turns| && Unbroken(turns, i + 1)
    requires Sound(g, turns, ws[i], i)
    ensures Sound(g, turns, ws[i + 1], i + 1)
  {
    assert TurnAt(g, turns, ws, i);
    if turns[i].call.reuse >= 1 {
      TurnKeepsTruth(g, turns[i], ws[i], ws[i + 1]);
      assert SomeReuse(turns, i + 1);
    } else {
      assert !SomeReuse(turns, i);
      UnknownStays(g, turns[i], ws[i], ws[i + 1]);
    }
  }

  lemma UnknownStays<V, F, B>(g: Gather<V, F, B>, turn: Turn, w: World<V, B>, w': World<V, B>)
    requires g.Valid() && CanTurn(g, turn, w) && IsTurn(g, turn, w, w')
    requires turn.call.reuse == 0 && NothingKnown(w.t.hold)
    ensures NothingKnown(w'.t.hold) && Truthful(g, w')
  {
    SizedAfter(g, turn, w, w');
  }

  lemma RunStaysSound<V, F, B>(g: Gather<V, F, B>, turns: seq<Turn>, ws: seq<World<V, B>>, n: nat)
    requires g.Valid() && IsRun(g, turns, ws) && Fresh(g, ws[0]) && n <= |turns| && Unbroken(turns, n)
    ensures Sound(g, turns, ws[n], n)
  {
    ghost var p := (i: nat) => g.Valid() && i <= |turns| && i < |ws| && Sound(g, turns, ws[i], i);
    forall i: nat | i < n && p(i) ensures p(i + 1) {
      SoundStep(g, turns, ws, i);
    }
    Stepwise(p, n);
  }

  // THE pipeline theorem. On every pass of every run from a fresh layer, every landed
  // expert is served from its own bytes, although `index` and the slots are never cleared,
  // and distinct landed experts from distinct slots: provided the pass does not act on
  // reuse, or no earlier pass turned reuse off after it had been on.
  lemma EveryLandedExpertIsServed<V, F, B>(g: Gather<V, F, B>, turns: seq<Turn>, ws: seq<World<V, B>>, n: nat)
    requires g.Valid() && IsRun(g, turns, ws) && Fresh(g, ws[0]) && n < |turns|
    requires turns[n].call.reuse <= 1 || Unbroken(turns, n)
    ensures AllServed(g, turns[n], ws[n + 1])
  {
    assert TurnAt(g, turns, ws, n);
    if turns[n].call.reuse <= 1 {
      LowModesServe(g, turns[n], ws[n], ws[n + 1]);
    } else {
      RunStaysSound(g, turns, ws, n);
      TruthfulServes(g, turns[n], ws[n], ws[n + 1]);
    }
  }

  lemma TurnKeepsDistinct<V, F, B>(g: Gather<V, F, B>, turn: Turn, w: World<V, B>, w': World<V, B>)
    requires g.Valid() && CanTurn(g, turn, w) && IsTurn(g, turn, w, w')
    requires turn.call.reuse >= 2 && NoDuplicates(w.t.hold)
    ensures NoDuplicates(w'.t.hold)
  {
    ModeTwoKeepsDistinct(turn.call, turn.dem, w.t, w'.t, w'.pub);
  }

  lemma DistinctStep<V, F, B>(g: Gather<V, F, B>, turns: seq<Turn>, ws: seq<World<V, B>>, i: nat)
    requires g.Valid() && IsRun(g, turns, ws) && i < |turns|
    requires turns[i].call.reuse >= 2 && NoDuplicates(ws[i].t.hold)
    ensures NoDuplicates(ws[i + 1].t.hold)
  {
    assert TurnAt(g, turns, ws, i);
    TurnKeepsDistinct(g, turns[i], ws[i], ws[i + 1]);
  }

  // Mode 2 throughout: no expert ever sits in two slots.
  lemma ModeTwoRunStaysDistinct<V, F, B>(g: Gather<V, F, B>, turns: seq<Turn>, ws: seq<World<V, B>>, n: nat)
    requires g.Valid() && IsRun(g, turns, ws) && n <= |turns| && NoDuplicates(ws[0].t.hold)
    requires forall i | 0 <= i < |turns| :: turns[i].call.reuse >= 2
    ensures NoDuplicates(ws[n].t.hold)
  {
    ghost var p := (i: nat) => i < |ws| && NoDuplicates(ws[i].t.hold);
    forall i: nat | i < n && p(i) ensures p(i + 1) {
      DistinctStep(g, turns, ws, i);
    }
    Stepwise(p, n);
  }

  lemma TurnKeepsRange<V, F, B>(g: Gather<V, F, B>, turn: Turn, w: World<V, B>, w': World<V, B>)
    requires g.Valid() && CanTurn(g, turn, w) && IsTurn(g, turn, w, w') && InRange(w.t.score)
    ensures InRange(w'.t.score)
  {
    ScoresStayInRange(turn.call, turn.dem, w.t, w'.pub.sel, w'.t.hold, w'.t.score);
  }

  lemma RangeStep<V, F, B>(g: Gather<V, F, B>, turns: seq<Turn>, ws: seq<World<V, B>>, i: nat)
    requires g.Valid() && IsRun(g, turns, ws) && i < |turns| && InRange(ws[i].t.score)
    ensures InRange(ws[i + 1].t.score)
  {
    assert TurnAt(g, turns, ws, i);
    TurnKeepsRange(g, turns[i], ws[i], ws[i + 1]);
  }

  // Scores stay in range over any run, from any start in range.
  lemma RunScoresStayInRange<V, F, B>(g: Gather<V, F, B>, turns: seq<Turn>, ws: seq<World<V, B>>, n: nat)
    requires g.Valid() && IsRun(g, turns, ws) && n <= |turns| && InRange(ws[0].t.score)
    ensures InRange(ws[n].t.score)
  {
    ghost var p := (i: nat) => i < |ws| && InRange(ws[i].t.score);
    forall i: nat | i < n && p(i) ensures p(i + 1) {
      RangeStep(g, turns, ws, i);
    }
    Stepwise(p, n);
  }
}
