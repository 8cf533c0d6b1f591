// What a slot's score says: how often it was reused since its fetch, less how long it has
// been idle. Slots, demand and scores are read directly, in the numbers of the kernel.

module ReuseScores {
  import opened Ranking
  import opened SlotAllocation
  import opened SlotRuns

  // The launch keeps slot k: it acts on reuse, and k is the first slot to hold its expert,
  // which is wanted.
  ghost predicate ReusesSlot(call: Call, dem: seq<nat>, hold: seq<int>, k: nat) {
    && call.reuse >= 2 && k < |hold| && 0 <= hold[k] < |dem| && dem[hold[k]] > 0
    && forall j | 0 <= j < k :: hold[j] != hold[k]
  }

  // It only watches the slot go by.
  ghost predicate IdlesSlot(call: Call, dem: seq<nat>, hold: seq<int>, sel: seq<int>, k: nat) {
    call.reuse >= 1 && k < |sel| && sel[k] < 0 && !ReusesSlot(call, dem, hold, k)
  }

  lemma ReusedIsKept(call: Call, dem: seq<nat>, t: Tables, k: nat)
    requires Shaped(dem, t)
    ensures ReusesSlot(call, dem, t.hold, k) <==> k in KeptSlots(call, dem, t)
  {
    assert ReusesSlot(call, dem, t.hold, k) <==> call.reuse >= 2 && IsReusable(dem, t.hold, k);
  }

  // One launch. A reused slot gains four up to 1024, a fetched one ends at two whatever it
  // had, any other loses one down to zero; with reuse off nothing moves.
  lemma ScoreAfter(call: Call, dem: seq<nat>, t: Tables, t': Tables, pub: Publication, k: nat)
    requires Shaped(dem, t) && IsStep(call, dem, t, t', pub) && k < |t.hold|
    ensures |t'.score| == |t.score| == |pub.sel| == |t.hold|
    ensures ReusesSlot(call, dem, t.hold, k) && t.score[k] <= 1020 ==> t'.score[k] == t.score[k] + 4
    ensures ReusesSlot(call, dem, t.hold, k) && t.score[k] > 1020 ==> t'.score[k] == 1024
    ensures call.reuse >= 1 && pub.sel[k] >= 0 ==> t'.score[k] == 2
    ensures IdlesSlot(call, dem, t.hold, pub.sel, k) && t.score[k] > 0 ==> t'.score[k] == t.score[k] - 1
    ensures IdlesSlot(call, dem, t.hold, pub.sel, k) && t.score[k] <= 0 ==> t'.score[k] == t.score[k]
    ensures call.reuse == 0 ==> t'.score[k] == t.score[k]
  {
    ReusedIsKept(call, dem, t, k);
    SlotCases(call, dem, t, pub, k);
  }

  // ---- over any number of launches -------------------------------------------------------

  datatype Launched = Launched(call: Call, dem: seq<nat>, pub: Publication)

  ghost predicate IsHistory(ls: seq<Launched>, ts: seq<Tables>) {
    |ts| == |ls| + 1 && forall i: nat | i < |ls| :: LaunchAt(ls, ts, i)
  }

  ghost predicate LaunchAt(ls: seq<Launched>, ts: seq<Tables>, i: nat)
    requires |ts| == |ls| + 1 && i < |ls|
  {
    Shaped(ls[i].dem, ts[i]) && IsStep(ls[i].call, ls[i].dem, ts[i], ts[i + 1], ls[i].pub)
  }

  ghost predicate FetchesAt(l: Launched, k: nat) {
    l.call.reuse >= 1 && k < |l.pub.sel| && l.pub.sel[k] >= 0
  }

  ghost predicate ReusesAt(l: Launched, t: Tables, k: nat) { ReusesSlot(l.call, l.dem, t.hold, k) }

  ghost predicate IdlesAt(l: Launched, t: Tables, k: nat) { IdlesSlot(l.call, l.dem, t.hold, l.pub.sel, k) }

  // Slot k's score between two tables: set to two, raised by a reuse, lowered by a launch.
  ghost predicate Starts(t': Tables, k: nat) { k < |t'.score| && t'.score[k] == 2 }

  ghost predicate Raised(t: Tables, t': Tables, k: nat) {
    k < |t.score| && k < |t'.score| && (t.score[k] <= 1024 ==> t'.score[k] == Capped(t.score[k] + 4))
  }

  ghost predicate Lowered(t: Tables, t': Tables, k: nat) {
    k < |t.score| && k < |t'.score| && (t.score[k] >= 0 ==> t'.score[k] == Floored(t.score[k] - 1))
  }

  function Capped(x: int): int { if x < 1024 then x else 1024 }

  function Floored(x: int): int { if x > 0 then x else 0 }

  lemma LaunchMoves(ls: seq<Launched>, ts: seq<Tables>, i: nat, k: nat)
    requires |ts| == |ls| + 1 && i < |ls| && LaunchAt(ls, ts, i)
    ensures FetchesAt(ls[i], k) ==> Starts(ts[i + 1], k)
    ensures ReusesAt(ls[i], ts[i], k) ==> Raised(ts[i], ts[i + 1], k)
    ensures IdlesAt(ls[i], ts[i], k) ==> Lowered(ts[i], ts[i + 1], k)
  {
    if FetchesAt(ls[i], k) || ReusesAt(ls[i], ts[i], k) || IdlesAt(ls[i], ts[i], k) {
      ScoreAfter(ls[i].call, ls[i].dem, ts[i], ts[i + 1], ls[i].pub, k);
    }
  }

  lemma {:induction false} RaisesAdd(ts: seq<Tables>, k: nat, a: nat, m: nat)
    requires a + m < |ts| && Starts(ts[a], k) && forall i: nat | a <= i < a + m :: Raised(ts[i], ts[i + 1], k)
    ensures k < |ts[a + m].score| && ts[a + m].score[k] == Capped(2 + 4 * m)
  {
    if m > 0 {
      RaisesAdd(ts, k, a, m - 1);
      var last := a + m - 1;
      assert Raised(ts[last], ts[last + 1], k);
    }
  }

  lemma {:induction false} LoweringsTake(ts: seq<Tables>, k: nat, a: nat, n: nat)
    requires a + n < |ts| && k < |ts[a].score| && ts[a].score[k] >= 0
    requires forall i: nat | a <= i < a + n :: Lowered(ts[i], ts[i + 1], k)
    ensures k < |ts[a + n].score| && ts[a + n].score[k] == Floored(ts[a].score[k] - n)
  {
    if n > 0 {
      LoweringsTake(ts, k, a, n - 1);
      var last := a + n - 1;
      assert Lowered(ts[last], ts[last + 1], k);
    }
  }

  lemma MovesAt(ls: seq<Launched>, ts: seq<Tables>, i: nat, k: nat)
    requires IsHistory(ls, ts) && i < |ls|
    ensures FetchesAt(ls[i], k) ==> Starts(ts[i + 1], k)
    ensures ReusesAt(ls[i], ts[i], k) ==> Raised(ts[i], ts[i + 1], k)
    ensures IdlesAt(ls[i], ts[i], k) ==> Lowered(ts[i], ts[i + 1], k)
  {
    LaunchMoves(ls, ts, i, k);
  }

  // A fetch at launch a, then m reuses, then n idle launches leave
  // max(0, min(2 + 4m, 1024) - n).
  lemma ScoreCountsUses(ls: seq<Launched>, ts: seq<Tables>, k: nat, a: nat, m: nat, n: nat)
    requires IsHistory(ls, ts) && a + 1 + m + n <= |ls| && FetchesAt(ls[a], k)
    requires forall i: nat | a + 1 <= i < a + 1 + m :: ReusesAt(ls[i], ts[i], k)
    requires forall i: nat | a + 1 + m <= i < a + 1 + m + n :: IdlesAt(ls[i], ts[i], k)
    ensures var t, earned := ts[a + 1 + m + n], if 2 + 4 * m < 1024 then 2 + 4 * m else 1024;
            k < |t.score| && t.score[k] == if earned > n then earned - n else 0
  {
    MovesAt(ls, ts, a, k);
    forall i: nat | a + 1 <= i < a + 1 + m ensures Raised(ts[i], ts[i + 1], k) { MovesAt(ls, ts, i, k); }
    RaisesAdd(ts, k, a + 1, m);
    forall i: nat | a + 1 + m <= i < a + 1 + m + n ensures Lowered(ts[i], ts[i + 1], k) { MovesAt(ls, ts, i, k); }
    LoweringsTake(ts, k, a + 1 + m, n);
  }

  // ---- what the next launch makes of it ----------------------------------------------------

  // Of two open slots the one with the lower score is overwritten first, the lower slot on
  // equal scores.
  lemma LowerScoreEvictedFirst(call: Call, dem: seq<nat>, t: Tables, pub: Publication, j: nat, k: nat)
    requires Shaped(dem, t) && Published(call, dem, t, pub) && j < |t.hold| && k < |t.hold| && j != k
    requires !ReusesSlot(call, dem, t.hold, j) && !ReusesSlot(call, dem, t.hold, k)
    requires t.score[k] < t.score[j] || (t.score[k] == t.score[j] && k < j)
    ensures k in Evictions(call, dem, t) && j in Evictions(call, dem, t)
    ensures Position(Evictions(call, dem, t), k) < Position(Evictions(call, dem, t), j)
    ensures pub.sel[j] >= 0 ==> pub.sel[k] >= 0
  {
    ReusedIsKept(call, dem, t, j);
    ReusedIsKept(call, dem, t, k);
    SlotCases(call, dem, t, pub, j);
    SlotCases(call, dem, t, pub, k);
    var pj, pk := Position(Evictions(call, dem, t), j), Position(Evictions(call, dem, t), k);
    if pj < pk { ServedInOrder(call, dem, t, pj, pk); } else { ServedInOrder(call, dem, t, pk, pj); }
  }

  // Two slots of equal score, one reused and one idle: the idle one goes first next time.
  lemma ReuseProtects(call: Call, dem: seq<nat>, t: Tables, t': Tables, pub: Publication, j: nat, k: nat,
                      call': Call, dem': seq<nat>, pub': Publication)
    requires Shaped(dem, t) && IsStep(call, dem, t, t', pub) && j < |t.hold| && k < |t.hold|
    requires ReusesSlot(call, dem, t.hold, j) && IdlesSlot(call, dem, t.hold, pub.sel, k)
    requires t.score[j] == t.score[k] && 1 <= t.score[k] <= 1023
    requires Shaped(dem', t') && Published(call', dem', t', pub')
    requires !ReusesSlot(call', dem', t'.hold, j) && !ReusesSlot(call', dem', t'.hold, k)
    ensures k in Evictions(call', dem', t') && j in Evictions(call', dem', t')
    ensures Position(Evictions(call', dem', t'), k) < Position(Evictions(call', dem', t'), j)
    ensures pub'.sel[j] >= 0 ==> pub'.sel[k] >= 0
  {
    ScoreAfter(call, dem, t, t', pub, j);
    ScoreAfter(call, dem, t, t', pub, k);
    LowerScoreEvictedFirst(call', dem', t', pub', j, k);
  }

  // ---- counters ---------------------------------------------------------------------------

  ghost function Filled(sel: seq<int>): set<nat> { set k: nat | k < |sel| && sel[k] >= 0 }

  lemma FilledAreFetches(call: Call, dem: seq<nat>, t: Tables, pub: Publication)
    requires Shaped(dem, t) && Published(call, dem, t, pub)
    ensures |Filled(pub.sel)| == |Fetches(call, dem, t)|
  {
    FetchesDistinct(call, dem, t, pub);
    FetchSetSize(call, dem, t);
    forall e ensures e in SetOf(Fetches(call, dem, t)) <==> exists k :: k in Filled(pub.sel) && pub.sel[k] == e {
      SelectedIsFetched(call, dem, t, pub, e);
      if e in Fetches(call, dem, t) {
        var k :| 0 <= k < |pub.sel| && pub.sel[k] == e;
        assert k in Filled(pub.sel);
      }
    }
    ImageSize(Filled(pub.sel), pub.sel, SetOf(Fetches(call, dem, t)));
  }

  // The five counters, from what the launch published and what it found: slots filled,
  // experts wanted, launches, launches that filled none, wanted experts already held.
  lemma CountersMean(call: Call, dem: seq<nat>, t: Tables, t': Tables, pub: Publication)
    requires Shaped(dem, t) && IsStep(call, dem, t, t', pub)
    ensures |t.stats| == |t'.stats| == 5
    ensures t'.stats[0] - t.stats[0] == if call.route then |Filled(pub.sel)| else 0
    ensures t'.stats[1] - t.stats[1] == |set e: nat | e < |dem| && dem[e] > 0|
    ensures t'.stats[2] - t.stats[2] == 1
    ensures t'.stats[3] - t.stats[3] == if forall k | 0 <= k < |pub.sel| :: pub.sel[k] < 0 then 1 else 0
    ensures t'.stats[4] - t.stats[4] ==
            if call.reuse >= 1 then |set e: nat | e < |dem| && dem[e] > 0 && e in t.hold| else 0
  {
    FilledAreFetches(call, dem, t, pub);
    KeptOnce(dem, t.hold);
    WantedDirectly(dem, t.hold);
    FilledNone(pub.sel);
  }

  lemma WantedDirectly(dem: seq<nat>, hold: seq<int>)
    ensures Wanted(dem) == set e: nat | e < |dem| && dem[e] > 0
    ensures HeldWanted(dem, hold) == set e: nat | e < |dem| && dem[e] > 0 && e in hold
  {
    assert forall e: nat :: IsHeld(hold, e) <==> e in hold;
  }

  lemma FilledNone(sel: seq<int>)
    ensures |Filled(sel)| == 0 <==> forall k | 0 <= k < |sel| :: sel[k] < 0
  {
    if forall k | 0 <= k < |sel| :: sel[k] < 0 {
      assert Filled(sel) == {};
    } else {
      var k :| 0 <= k < |sel| && sel[k] >= 0;
      assert k in Filled(sel);
    }
  }

  // Modes 0 and 1 fill min(slots, wanted) slots, and none if the launch is selective and
  // more experts are wanted than there are slots.
  lemma FillsAsManyAsFit(call: Call, dem: seq<nat>, t: Tables, pub: Publication)
    requires Shaped(dem, t) && Published(call, dem, t, pub) && call.reuse <= 1
    ensures var wanted := |set e: nat | e < |dem| && dem[e] > 0|;
            |Filled(pub.sel)| == if call.selective && wanted > |t.hold| then 0 else Min(|t.hold|, wanted)
  {
    FilledAreFetches(call, dem, t, pub);
    KeepSizes(call, dem, t);
    WantedDirectly(dem, t.hold);
  }
}
