// Which sequences of reuse modes are safe: runs exist for any passes, and a layer may be
// served another expert's bytes exactly when reuse goes on, off, and is then acted on.

// Every pass can be made, so statements about all runs are about something.
module PassRuns {
  import opened Ranking
  import opened TokenChoice
  import opened SlotAllocation
  import opened SlotRuns
  import opened GatherLaunch
  import opened PrefetchPipeline

  ghost function KeptSlot(call: Call, dem: seq<nat>, t: Tables, e: nat): (k: nat)
    requires IsKept(call, dem, t, e)
    ensures k in KeptSlots(call, dem, t) && t.hold[k] == e
  {
    var k :| k in KeptSlots(call, dem, t) && t.hold[k] == e;
    k
  }

  ghost function FetchInto(call: Call, dem: seq<nat>, t: Tables, k: nat): int
    requires Shaped(dem, t)
  {
    var evict, fetch := Evictions(call, dem, t), Fetches(call, dem, t);
    if k in evict && Position(evict, k) < |fetch| then fetch[Position(evict, k)] else -1
  }

  ghost function RouteTo(call: Call, dem: seq<nat>, t: Tables, e: nat): int
    requires Shaped(dem, t) && e < |dem|
  {
    var evict, fetch := Evictions(call, dem, t), Fetches(call, dem, t);
    if IsKept(call, dem, t, e) then call.slotBase + KeptSlot(call, dem, t, e)
    else if e in fetch && Position(fetch, e) < |evict| then call.slotBase + evict[Position(fetch, e)]
    else t.index[e]
  }

  ghost function RouteTable(call: Call, dem: seq<nat>, t: Tables): (index: seq<int>)
    requires Shaped(dem, t)
    ensures |index| == |dem| && forall e: nat | e < |dem| :: index[e] == RouteTo(call, dem, t, e)
  {
    seq(|dem|, e requires 0 <= e < |dem| => RouteTo(call, dem, t, e))
  }

  ghost function Outputs(call: Call, dem: seq<nat>, t: Tables): Publication
    requires Shaped(dem, t)
  {
    Publication(seq(|t.hold|, k requires 0 <= k < |t.hold| => FetchInto(call, dem, t, k)),
                seq(|dem|, e requires 0 <= e < |dem| => call.route && Covered(call, dem, t, e)),
                seq(|dem|, e requires 0 <= e < |dem| => call.cpuskip && Covered(call, dem, t, e)))
  }

  ghost function Updated(call: Call, dem: seq<nat>, t: Tables): Tables
    requires Shaped(dem, t)
  {
    var sel := Outputs(call, dem, t).sel;
    Tables(seq(|t.hold|, k requires 0 <= k < |t.hold| => if call.reuse > 0 && sel[k] >= 0 then sel[k] else t.hold[k]),
           seq(|t.hold|, k requires 0 <= k < |t.hold| =>
             if call.reuse > 0 then Aged(t.score[k], k in KeptSlots(call, dem, t), sel[k] >= 0) else t.score[k]),
           RouteTable(call, dem, t),
           [t.stats[0] + (if call.route then |Fetches(call, dem, t)| else 0),
            t.stats[1] + |Wanted(dem)|,
            t.stats[2] + 1,
            t.stats[3] + (if |Fetches(call, dem, t)| == 0 then 1 else 0),
            t.stats[4] + (if call.reuse > 0 then |Reusable(dem, t.hold)| else 0)])
  }

  lemma DistinctPosition(ids: seq<nat>, i: nat)
    requires Distinct(ids) && i < |ids|
    ensures Position(ids, ids[i]) == i
  {
  }

  lemma OrdersDistinct(call: Call, dem: seq<nat>, t: Tables)
    requires Shaped(dem, t)
    ensures Distinct(Evictions(call, dem, t)) && Distinct(Fetches(call, dem, t))
    ensures |Fetches(call, dem, t)| <= |Evictions(call, dem, t)|
  {
    WeakerTotal(t.score, Refillable(call, dem, t));
    LeadsSize(Weaker(t.score), Refillable(call, dem, t), Evictions(call, dem, t));
    StrongerTotal(dem, Missing(call, dem, t));
    LeadsSize(Stronger(dem), Missing(call, dem, t), Fetches(call, dem, t));
  }

  lemma OutputsPublished(call: Call, dem: seq<nat>, t: Tables)
    requires Shaped(dem, t)
    ensures Published(call, dem, t, Outputs(call, dem, t))
  {
    var evict, fetch := Evictions(call, dem, t), Fetches(call, dem, t);
    OrdersDistinct(call, dem, t);
    forall i | 0 <= i < |evict| ensures FetchInto(call, dem, t, evict[i]) == if i < |fetch| then fetch[i] else -1 {
      DistinctPosition(evict, i);
    }
  }

  lemma KeptSlotOnly(call: Call, dem: seq<nat>, t: Tables, k: nat)
    requires Shaped(dem, t) && k in KeptSlots(call, dem, t)
    ensures 0 <= t.hold[k] < |dem| && RouteTo(call, dem, t, t.hold[k]) == call.slotBase + k
  {
    assert IsReusable(dem, t.hold, k);
    assert IsKept(call, dem, t, t.hold[k]);
    var j := KeptSlot(call, dem, t, t.hold[k]);
    assert IsReusable(dem, t.hold, j);
  }

  lemma FetchRoute(call: Call, dem: seq<nat>, t: Tables, i: nat)
    requires Shaped(dem, t) && i < |Fetches(call, dem, t)|
    ensures |Fetches(call, dem, t)| <= |Evictions(call, dem, t)| && Fetches(call, dem, t)[i] < |dem|
    ensures RouteTo(call, dem, t, Fetches(call, dem, t)[i]) == call.slotBase + Evictions(call, dem, t)[i]
  {
    OrdersDistinct(call, dem, t);
    DistinctPosition(Fetches(call, dem, t), i);
    assert Fetches(call, dem, t)[i] in Missing(call, dem, t);
  }

  lemma RestStays(call: Call, dem: seq<nat>, t: Tables, e: nat)
    requires Shaped(dem, t) && e < |dem| && e !in KeptExperts(call, dem, t) && e !in Fetches(call, dem, t)
    ensures RouteTo(call, dem, t, e) == t.index[e]
  {
  }

  lemma RoutesIndexed(call: Call, dem: seq<nat>, t: Tables, index: seq<int>)
    requires Shaped(dem, t) && |index| == |dem| && forall e: nat | e < |dem| :: index[e] == RouteTo(call, dem, t, e)
    ensures Indexed(call, dem, t, index)
  {
    OrdersDistinct(call, dem, t);
    forall k | k in KeptSlots(call, dem, t) ensures index[t.hold[k]] == call.slotBase + k {
      KeptSlotOnly(call, dem, t, k);
    }
    var fetch, evict := Fetches(call, dem, t), Evictions(call, dem, t);
    forall i | 0 <= i < |fetch| ensures fetch[i] < |dem| && index[fetch[i]] == call.slotBase + evict[i] {
      FetchRoute(call, dem, t, i);
    }
    forall e: nat | e < |dem| && e !in KeptExperts(call, dem, t) && e !in fetch ensures index[e] == t.index[e] {
      RestStays(call, dem, t, e);
    }
  }

  lemma FetchedBelow(call: Call, dem: seq<nat>, t: Tables, k: nat)
    requires Shaped(dem, t)
    ensures FetchInto(call, dem, t, k) < |dem|
  {
    var evict, fetch := Evictions(call, dem, t), Fetches(call, dem, t);
    if k in evict && Position(evict, k) < |fetch| {
      assert fetch[Position(evict, k)] in Missing(call, dem, t);
    }
  }

  lemma UpdatedShaped(call: Call, dem: seq<nat>, t: Tables)
    requires Shaped(dem, t)
    ensures Shaped(dem, Updated(call, dem, t))
  {
    forall k: nat | k < |t.hold| ensures Updated(call, dem, t).hold[k] < |dem| {
      FetchedBelow(call, dem, t, k);
    }
  }

  lemma UpdatedSettles(call: Call, dem: seq<nat>, t: Tables)
    requires Shaped(dem, t)
    ensures var t' := Updated(call, dem, t);
            Settled(call, dem, t, Outputs(call, dem, t).sel, t'.hold, t'.score) && Counted(call, dem, t, t'.stats)
  {
  }

  // The allocator's step is defined on all tables and demands.
  lemma StepExists(call: Call, dem: seq<nat>, t: Tables) returns (t': Tables, pub: Publication)
    requires Shaped(dem, t)
    ensures IsStep(call, dem, t, t', pub)
  {
    t', pub := Updated(call, dem, t), Outputs(call, dem, t);
    OutputsPublished(call, dem, t);
    RoutesIndexed(call, dem, t, t'.index);
    UpdatedShaped(call, dem, t);
    UpdatedSettles(call, dem, t);
    StepFrom(call, dem, t, t', pub);
  }

  lemma StepFrom(call: Call, dem: seq<nat>, t: Tables, t': Tables, pub: Publication)
    requires Shaped(dem, t) && Shaped(dem, t') && |t'.hold| == |t.hold|
    requires Published(call, dem, t, pub) && Indexed(call, dem, t, t'.index)
    requires Settled(call, dem, t, pub.sel, t'.hold, t'.score) && Counted(call, dem, t, t'.stats)
    ensures IsStep(call, dem, t, t', pub)
  {
  }

  // ---- passes and runs -------------------------------------------------------------

  // A pass over so many slots and experts, whatever the layer's state.
  ghost predicate Fits<V, F, B>(g: Gather<V, F, B>, turn: Turn, experts: nat)
    requires g.Valid()
  {
    && |turn.dem| == experts && IsDemand(turn.takens, turn.resident, turn.dem)
    && StoreCovers(g, turn.resident)
  }

  ghost predicate Ready<V, F, B>(g: Gather<V, F, B>, w: World<V, B>, slots: nat, experts: nat)
    requires g.Valid()
  {
    && |w.t.hold| == |w.t.score| == slots && |w.t.index| == experts && |w.t.stats| == 5
    && (forall k | 0 <= k < slots :: w.t.hold[k] < experts) && g.Sized(slots, w.mem)
  }

  lemma SomeTurn<V, F, B>(g: Gather<V, F, B>, turn: Turn, w: World<V, B>, slots: nat, experts: nat)
    returns (w': World<V, B>)
    requires g.Valid() && Fits(g, turn, experts) && Ready(g, w, slots, experts)
    ensures CanTurn(g, turn, w) && IsTurn(g, turn, w, w') && Ready(g, w', slots, experts)
  {
    var t', pub := StepExists(turn.call, turn.dem, w.t);
    SelectionIsServable(g, turn, w, pub);
    var mem' := g.SomeStream(pub.sel, w.mem);
    w' := World(t', pub, mem');
    SizedAfter(g, turn, w, w');
  }

  lemma EarlierTurn<V, F, B>(g: Gather<V, F, B>, turns: seq<Turn>, ws: seq<World<V, B>>,
                             turn: Turn, w': World<V, B>, i: nat)
    requires g.Valid() && i < |turns| && |ws| == |turns| + 1 && TurnAt(g, turns, ws, i)
    ensures TurnAt(g, turns + [turn], ws + [w'], i)
  {
    assert (turns + [turn])[i] == turns[i];
    assert (ws + [w'])[i] == ws[i] && (ws + [w'])[i + 1] == ws[i + 1];
  }

  lemma LastTurn<V, F, B>(g: Gather<V, F, B>, turns: seq<Turn>, ws: seq<World<V, B>>, turn: Turn, w': World<V, B>)
    requires g.Valid() && |ws| == |turns| + 1
    requires CanTurn(g, turn, ws[|turns|]) && IsTurn(g, turn, ws[|turns|], w')
    ensures TurnAt(g, turns + [turn], ws + [w'], |turns|)
  {
    assert (turns + [turn])[|turns|] == turn;
    assert (ws + [w'])[|turns|] == ws[|turns|] && (ws + [w'])[|turns| + 1] == w';
  }

  lemma ExtendRun<V, F, B>(g: Gather<V, F, B>, turns: seq<Turn>, ws: seq<World<V, B>>, turn: Turn, w': World<V, B>)
    requires g.Valid() && IsRun(g, turns, ws) && TurnAt(g, turns + [turn], ws + [w'], |turns|)
    ensures IsRun(g, turns + [turn], ws + [w'])
  {
    forall i: nat | i < |turns| + 1 ensures TurnAt(g, turns + [turn], ws + [w'], i) {
      if i < |turns| { EarlierTurn(g, turns, ws, turn, w', i); }
    }
  }

  // Whatever passes are asked for, there is a run that makes them.
  lemma {:induction false} SomeRun<V, F, B>(g: Gather<V, F, B>, turns: seq<Turn>, w: World<V, B>,
                                            slots: nat, experts: nat) returns (ws: seq<World<V, B>>)
    requires g.Valid() && Ready(g, w, slots, experts)
    requires forall i | 0 <= i < |turns| :: Fits(g, turns[i], experts)
    ensures IsRun(g, turns, ws) && ws[0] == w && Ready(g, ws[|turns|], slots, experts)
  {
    if turns == [] {
      ws := [w];
    } else {
      var n := |turns| - 1;
      var init := SomeRun(g, turns[..n], w, slots, experts);
      ws := OneMore(g, turns[..n], init, turns[n], slots, experts);
      assert turns == turns[..n] + [turns[n]];
    }
  }

  lemma OneMore<V, F, B>(g: Gather<V, F, B>, turns: seq<Turn>, ws: seq<World<V, B>>, turn: Turn, slots: nat,
                         experts: nat)
    returns (longer: seq<World<V, B>>)
    requires g.Valid() && IsRun(g, turns, ws) && Ready(g, ws[|turns|], slots, experts) && Fits(g, turn, experts)
    ensures IsRun(g, turns + [turn], longer) && longer[0] == ws[0] && Ready(g, longer[|turns| + 1], slots, experts)
  {
    var w' := SomeTurn(g, turn, ws[|turns|], slots, experts);
    LastTurn(g, turns, ws, turn, w');
    ExtendRun(g, turns, ws, turn, w');
    longer := ws + [w'];
  }
}

module StaleSlots {
  import opened TokenChoice
  import opened SlotAllocation
  import opened SlotRuns
  import opened GatherLayout
  import opened GatherLaunch
  import opened PrefetchPipeline
  import opened PassRuns

  ghost function Modes(turns: seq<Turn>): seq<nat> {
    seq(|turns|, i requires 0 <= i < |turns| => turns[i].call.reuse)
  }

  // Reuse goes on, then off, and is acted on later.
  ghost predicate Stale(modes: seq<nat>) {
    exists i, j, l :: IsStale(modes, i, j, l)
  }

  ghost predicate IsStale(modes: seq<nat>, i: int, j: int, l: int) {
    0 <= i < j < l < |modes| && modes[i] >= 1 && modes[j] == 0 && modes[l] >= 2
  }

  ghost predicate ServesThroughout<V, F, B>(g: Gather<V, F, B>, turns: seq<Turn>, ws: seq<World<V, B>>)
    requires g.Valid() && |ws| == |turns| + 1
  {
    forall n: nat | n < |turns| :: AllServed(g, turns[n], ws[n + 1])
  }

  // Every run of a fresh layer in these modes, whatever its demand, serves what it lands.
  ghost predicate ServesAlways<V(!new), F, B(!new)>(g: Gather<V, F, B>, modes: seq<nat>)
    requires g.Valid()
  {
    forall turns, ws | IsRun(g, turns, ws) && Fresh(g, ws[0]) && Modes(turns) == modes :: ServesThroughout(g, turns, ws)
  }

  // ---- one slot ----------------------------------------------------------------------

  lemma QuietPass(call: Call, dem: seq<nat>, t: Tables, t': Tables, pub: Publication)
    requires Shaped(dem, t) && IsStep(call, dem, t, t', pub) && |t.hold| == 1 && Wanted(dem) == {}
    ensures pub.sel == [-1] && t'.hold == t.hold
  {
    QuietSelector(call, dem, t, pub);
  }

  lemma QuietSelector(call: Call, dem: seq<nat>, t: Tables, pub: Publication)
    requires Shaped(dem, t) && Published(call, dem, t, pub) && |t.hold| == 1 && Wanted(dem) == {}
    ensures pub.sel == [-1]
  {
    assert Missing(call, dem, t) == {};
    assert |Fetches(call, dem, t)| == 0;
    SlotCases(call, dem, t, pub, 0);
  }

  lemma SoleFetch(call: Call, dem: seq<nat>, t: Tables, t': Tables, pub: Publication, e: nat)
    requires Shaped(dem, t) && IsStep(call, dem, t, t', pub) && |t.hold| == 1 && Wanted(dem) == {e}
    requires !call.selective && (call.reuse < 2 || t.hold[0] != e)
    ensures pub.sel == [e] && t'.hold == if call.reuse > 0 then [e] else t.hold
  {
    NotKept(call, dem, t, e);
    KeepSizes(call, dem, t);
    FetchedHasSlot(call, dem, t, pub, 0);
    assert Fetches(call, dem, t)[0] in Missing(call, dem, t);
  }

  lemma NotKept(call: Call, dem: seq<nat>, t: Tables, e: nat)
    requires Shaped(dem, t) && |t.hold| == 1 && Wanted(dem) == {e} && (call.reuse < 2 || t.hold[0] != e)
    ensures KeptSlots(call, dem, t) == {}
  {
    forall k: nat | k < 1 ensures call.reuse >= 2 ==> !IsReusable(dem, t.hold, k) {
      if 0 <= t.hold[0] && dem[t.hold[0]] > 0 { assert t.hold[0] in Wanted(dem); }
    }
  }

  lemma SoleKept(call: Call, dem: seq<nat>, t: Tables, t': Tables, pub: Publication, e: nat)
    requires Shaped(dem, t) && IsStep(call, dem, t, t', pub) && t.hold == [e] && Wanted(dem) == {e}
    requires call.reuse >= 2 && call.route
    ensures pub.sel == [-1] && t'.hold == [e] && e < |dem| && pub.landed[e] && t'.index[e] == call.slotBase
  {
    assert e in Wanted(dem);
    assert IsReusable(dem, t.hold, 0);
    var x := KeptIsRouted(call, dem, t, t', pub, 0);
    assert IsKept(call, dem, t, e);
  }

  // ---- the run that fails ------------------------------------------------------------

  ghost function Ask(mode: nat, want: seq<nat>, x: nat, y: nat): Turn {
    Turn(Call(mode, false, true, true, 0), [want],
         seq(x + y + 1, e requires 0 <= e < x + y + 1 => e != x && e != y),
         seq(x + y + 1, e requires 0 <= e < x + y + 1 => if (e == x || e == y) && e in want then 1 else 0))
  }

  lemma AskFits<V, F, B>(g: Gather<V, F, B>, mode: nat, want: seq<nat>, x: nat, y: nat)
    requires g.Valid() && g.Has(x) && g.Has(y)
    ensures Fits(g, Ask(mode, want, x, y), x + y + 1)
  {
    forall e: nat ensures Askers([want], e) == if e in want then {0} else {} {
      assert [want][0] == want;
    }
  }

  lemma AskWants(mode: nat, x: nat, y: nat)
    ensures Wanted(Ask(mode, [], x, y).dem) == {}
    ensures Wanted(Ask(mode, [x], x, y).dem) == {x} && Wanted(Ask(mode, [y], x, y).dem) == {y}
  {
  }

  ghost function Script(modes: seq<nat>, i: nat, j: nat, l: nat, x: nat, y: nat): seq<Turn> {
    seq(|modes|, a requires 0 <= a < |modes| =>
      Ask(modes[a], if a == i || a == l then [x] else if a == j then [y] else [], x, y))
  }

  // One slot before pass a: recorded as x from pass i on, holding y from pass j on.
  ghost predicate Stage<V, F, B>(g: Gather<V, F, B>, w: World<V, B>, a: nat, i: nat, j: nat, x: nat, y: nat)
    requires g.Valid()
  {
    && w.t.hold == [if a <= i then -1 else x] && g.Sized(1, w.mem)
    && (a > j ==> HoldsBytes(g, w, 0, y))
  }

  lemma StageStep<V, F, B>(g: Gather<V, F, B>, modes: seq<nat>, w: World<V, B>, w': World<V, B>,
                           a: nat, i: nat, j: nat, l: nat, x: nat, y: nat)
    requires g.Valid() && IsStale(modes, i, j, l) && a < l && Stage(g, w, a, i, j, x, y)
    requires var turn := Script(modes, i, j, l, x, y)[a]; CanTurn(g, turn, w) && IsTurn(g, turn, w, w')
    ensures Stage(g, w', a + 1, i, j, x, y)
  {
    var turn := Script(modes, i, j, l, x, y)[a];
    AskWants(modes[a], x, y);
    if a == i {
      SoleFetch(turn.call, turn.dem, w.t, w'.t, w'.pub, x);
    } else if a == j {
      SoleFetch(turn.call, turn.dem, w.t, w'.t, w'.pub, y);
    } else {
      QuietPass(turn.call, turn.dem, w.t, w'.t, w'.pub);
    }
    GatherSlot(g, turn, w, w', 0);
  }

  lemma StageNext<V, F, B>(g: Gather<V, F, B>, modes: seq<nat>, ws: seq<World<V, B>>,
                           a: nat, i: nat, j: nat, l: nat, x: nat, y: nat)
    requires g.Valid() && IsStale(modes, i, j, l) && a < l && |ws| == |modes| + 1
    requires TurnAt(g, Script(modes, i, j, l, x, y), ws, a) && Stage(g, ws[a], a, i, j, x, y)
    ensures Stage(g, ws[a + 1], a + 1, i, j, x, y)
  {
    StageStep(g, modes, ws[a], ws[a + 1], a, i, j, l, x, y);
  }

  ghost predicate StageAt<V, F, B>(g: Gather<V, F, B>, ws: seq<World<V, B>>, a: nat, i: nat, j: nat, x: nat, y: nat) {
    g.Valid() && a < |ws| && Stage(g, ws[a], a, i, j, x, y)
  }

  lemma StageStepped<V, F, B>(g: Gather<V, F, B>, modes: seq<nat>, ws: seq<World<V, B>>,
                              a: nat, i: nat, j: nat, l: nat, x: nat, y: nat)
    requires g.Valid() && IsStale(modes, i, j, l) && a < l && IsRun(g, Script(modes, i, j, l, x, y), ws)
    requires StageAt(g, ws, a, i, j, x, y)
    ensures StageAt(g, ws, a + 1, i, j, x, y)
  {
    StageNext(g, modes, ws, a, i, j, l, x, y);
  }

  lemma StageReached<V, F, B>(g: Gather<V, F, B>, modes: seq<nat>, ws: seq<World<V, B>>,
                              i: nat, j: nat, l: nat, x: nat, y: nat)
    requires g.Valid() && IsStale(modes, i, j, l) && IsRun(g, Script(modes, i, j, l, x, y), ws)
    requires StageAt(g, ws, 0, i, j, x, y)
    ensures StageAt(g, ws, l, i, j, x, y)
  {
    ghost var p := (a: nat) => StageAt(g, ws, a, i, j, x, y);
    forall a: nat | a < l && p(a) ensures p(a + 1) {
      StageStepped(g, modes, ws, a, i, j, l, x, y);
    }
    Stepwise(p, l);
  }

  // Their layouts differ in at least one of the four buffers.
  ghost predicate Differ<V, F, B>(g: Gather<V, F, B>, x: nat, y: nat)
    requires g.Valid() && g.Has(x) && g.Has(y)
  {
    var p, q := g.Reference(x), g.Reference(y);
    Flat(p.w13) != Flat(q.w13) || Flat(p.w2) != Flat(q.w2) ||
    Flat(p.w13Scale) != Flat(q.w13Scale) || Flat(p.w2Scale) != Flat(q.w2Scale)
  }

  lemma OneLayout<V, F, B>(g: Gather<V, F, B>, w: World<V, B>, x: nat, y: nat)
    requires g.Valid() && g.Has(x) && g.Has(y) && Differ(g, x, y) && |w.t.hold| == 1 && g.Sized(1, w.mem)
    ensures !(HoldsBytes(g, w, 0, x) && HoldsBytes(g, w, 0, y))
  {
  }

  lemma StartLayer<V, F, B>(g: Gather<V, F, B>, x: nat, experts: nat) returns (w: World<V, B>)
    requires g.Valid() && g.Has(x)
    ensures Ready(g, w, 1, experts) && Fresh(g, w) && w.t.hold == [-1]
  {
    var t := Tables([-1], [0], seq(experts, e => -1), [0, 0, 0, 0, 0]);
    var mem := g.OneSlot(x);
    w := World(t, Publication([], [], []), mem);
  }

  // The pass that acts on the stale record: expert x is landed, its index is the slot,
  // and the slot holds y's bytes.
  ghost predicate ServesAnother<V, F, B>(g: Gather<V, F, B>, w: World<V, B>, x: nat, y: nat)
    requires g.Valid()
  {
    && x < |w.pub.landed| && w.pub.landed[x] && x < |w.t.index| && w.t.index[x] == 0
    && |w.t.hold| == 1 && g.Sized(1, w.mem) && HoldsBytes(g, w, 0, y)
  }

  lemma LastPassFails<V, F, B>(g: Gather<V, F, B>, modes: seq<nat>, w: World<V, B>, w': World<V, B>,
                               i: nat, j: nat, l: nat, x: nat, y: nat)
    requires g.Valid() && IsStale(modes, i, j, l) && Stage(g, w, l, i, j, x, y)
    requires var turn := Script(modes, i, j, l, x, y)[l]; CanTurn(g, turn, w) && IsTurn(g, turn, w, w')
    ensures ServesAnother(g, w', x, y)
  {
    var turn := Script(modes, i, j, l, x, y)[l];
    AskWants(modes[l], x, y);
    SoleKept(turn.call, turn.dem, w.t, w'.t, w'.pub, x);
    GatherSlot(g, turn, w, w', 0);
  }

  lemma NotAllServed<V, F, B>(g: Gather<V, F, B>, turn: Turn, w: World<V, B>, x: nat, y: nat)
    requires g.Valid() && g.Has(x) && g.Has(y) && Differ(g, x, y) && ServesAnother(g, w, x, y)
    requires |w.pub.landedCpu| == |w.pub.landed|
    ensures !AllServed(g, turn, w)
  {
    assert Routed(w.pub, x);
    NotServed(g, turn, w, x, y);
  }

  lemma NotServed<V, F, B>(g: Gather<V, F, B>, turn: Turn, w: World<V, B>, x: nat, y: nat)
    requires g.Valid() && g.Has(x) && g.Has(y) && Differ(g, x, y) && |w.t.hold| == 1 && g.Sized(1, w.mem)
    requires HoldsBytes(g, w, 0, y)
    ensures !Served(g, turn, w, x)
  {
    forall k: nat | x < |w.t.index| ensures !ServedFrom(g, turn.call.slotBase, w, x, k) {
      NotServedFrom(g, turn.call.slotBase, w, x, y, k);
    }
  }

  lemma NotServedFrom<V, F, B>(g: Gather<V, F, B>, base: int, w: World<V, B>, x: nat, y: nat, k: nat)
    requires g.Valid() && g.Has(x) && g.Has(y) && Differ(g, x, y) && |w.t.hold| == 1 && g.Sized(1, w.mem)
    requires HoldsBytes(g, w, 0, y) && x < |w.t.index|
    ensures !ServedFrom(g, base, w, x, k)
  {
    OneLayout(g, w, x, y);
  }

  // In any such sequence of modes there is a run from a fresh layer of one slot in which
  // pass l routes x to a slot holding the bytes of y.
  lemma StaleRun<V, F, B>(g: Gather<V, F, B>, modes: seq<nat>, i: nat, j: nat, l: nat, x: nat, y: nat)
    returns (turns: seq<Turn>, ws: seq<World<V, B>>)
    requires g.Valid() && g.Has(x) && g.Has(y) && IsStale(modes, i, j, l)
    ensures IsRun(g, turns, ws) && Fresh(g, ws[0]) && Modes(turns) == modes
    ensures ServesAnother(g, ws[l + 1], x, y)
    ensures Differ(g, x, y) ==> !AllServed(g, turns[l], ws[l + 1])
  {
    turns := Script(modes, i, j, l, x, y);
    assert Modes(turns) == modes;
    forall a | 0 <= a < |turns| ensures Fits(g, turns[a], x + y + 1) {
      AskFits(g, modes[a], turns[a].takens[0], x, y);
    }
    var w := StartLayer(g, x, x + y + 1);
    ws := SomeRun(g, turns, w, 1, x + y + 1);
    StageReached(g, modes, ws, i, j, l, x, y);
    assert TurnAt(g, turns, ws, l);
    LastPassFails(g, modes, ws[l], ws[l + 1], i, j, l, x, y);
    if Differ(g, x, y) { NotAllServed(g, turns[l], ws[l + 1], x, y); }
  }

  lemma FreshRunServes<V, F, B>(g: Gather<V, F, B>, turns: seq<Turn>, ws: seq<World<V, B>>)
    requires g.Valid() && IsRun(g, turns, ws) && Fresh(g, ws[0]) && !Stale(Modes(turns))
    ensures ServesThroughout(g, turns, ws)
  {
    forall n: nat | n < |turns| ensures AllServed(g, turns[n], ws[n + 1]) {
      if turns[n].call.reuse >= 2 {
        forall i, j | 0 <= i < j < n ensures turns[i].call.reuse >= 1 ==> turns[j].call.reuse >= 1 {
          assert !IsStale(Modes(turns), i, j, n);
        }
      }
      EveryLandedExpertIsServed(g, turns, ws, n);
    }
  }

  lemma StaleFails<V(!new), F, B(!new)>(g: Gather<V, F, B>, modes: seq<nat>, x: nat, y: nat)
    requires g.Valid() && g.Has(x) && g.Has(y) && Differ(g, x, y) && Stale(modes)
    ensures !ServesAlways(g, modes)
  {
    var i, j, l :| IsStale(modes, i, j, l);
    var turns, ws := StaleRun(g, modes, i, j, l, x, y);
    assert !ServesThroughout(g, turns, ws);
  }

  // THE condition on a sequence of modes: with two experts whose layouts differ to choose
  // from, every run from a fresh layer serves every landed expert from its own bytes if
  // and only if reuse is never acted on after having been on and off again.
  lemma ServesAlwaysIff<V(!new), F, B(!new)>(g: Gather<V, F, B>, modes: seq<nat>, x: nat, y: nat)
    requires g.Valid() && g.Has(x) && g.Has(y) && Differ(g, x, y)
    ensures ServesAlways(g, modes) <==> !Stale(modes)
  {
    if Stale(modes) {
      StaleFails(g, modes, x, y);
    } else {
      forall turns, ws | IsRun(g, turns, ws) && Fresh(g, ws[0]) && Modes(turns) == modes
        ensures ServesThroughout(g, turns, ws)
      {
        FreshRunServes(g, turns, ws);
      }
    }
  }
}
