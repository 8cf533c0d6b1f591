// What the allocator guarantees: which demand it serves, which slots it gives up,
// and what its tables mean after any number of launches.

module SlotRuns {
  import opened Ranking
  import opened SlotAllocation

  // ---- sizes -------------------------------------------------------------------

  lemma {:induction false} ImageSize(slots: set<nat>, hold: seq<int>, image: set<nat>)
    requires forall k | k in slots :: k < |hold| && hold[k] >= 0
    requires forall j, k | j in slots && k in slots && j != k :: hold[j] != hold[k]
    requires forall e :: e in image <==> exists k :: k in slots && hold[k] == e
    ensures |image| == |slots|
  {
    if slots == {} {
      assert image == {};
    } else {
      var k :| k in slots;
      var e: nat := hold[k];
      forall x ensures x in image - {e} <==> exists j :: j in slots - {k} && hold[j] == x {
        if x in image - {e} {
          var j :| j in slots && hold[j] == x;
          assert j in slots - {k};
        }
      }
      ImageSize(slots - {k}, hold, image - {e});
    }
  }

  // Keeping a slot takes one slot and one wanted expert out of the fill pass.
  lemma KeepSizes(call: Call, dem: seq<nat>, t: Tables)
    requires Shaped(dem, t)
    ensures KeptExperts(call, dem, t) <= Wanted(dem)
    ensures |KeptExperts(call, dem, t)| == |KeptSlots(call, dem, t)|
    ensures |Refillable(call, dem, t)| == |t.hold| - |KeptSlots(call, dem, t)|
    ensures |Missing(call, dem, t)| == |Wanted(dem)| - |KeptSlots(call, dem, t)|
  {
    var kept := KeptSlots(call, dem, t);
    forall j, k | j in kept && k in kept && j != k ensures t.hold[j] != t.hold[k] {
      assert IsReusable(dem, t.hold, j) && IsReusable(dem, t.hold, k);
    }
    forall e ensures e in KeptExperts(call, dem, t) <==> exists k :: k in kept && t.hold[k] == e {
      if exists k :: k in kept && t.hold[k] == e {
        assert IsKept(call, dem, t, e);
      }
    }
    ImageSize(kept, t.hold, KeptExperts(call, dem, t));
    RangeSize(|t.hold|);
    assert Refillable(call, dem, t) == Range(0, |t.hold|) - kept;
    assert kept <= Range(0, |t.hold|);
    assert Refillable(call, dem, t) !! kept && Refillable(call, dem, t) + kept == Range(0, |t.hold|);
    assert Missing(call, dem, t) !! KeptExperts(call, dem, t);
    assert Missing(call, dem, t) + KeptExperts(call, dem, t) == Wanted(dem);
  }

  // ---- which slot an expert is routed to ----------------------------------------

  ghost predicate Covered(call: Call, dem: seq<nat>, t: Tables, e: nat)
    requires Shaped(dem, t)
  {
    e in KeptExperts(call, dem, t) || e in Fetches(call, dem, t)
  }

  // A slot either is kept, or stands at its own place in the eviction order.
  lemma SlotCases(call: Call, dem: seq<nat>, t: Tables, pub: Publication, k: nat)
    requires Shaped(dem, t) && Published(call, dem, t, pub) && k < |t.hold|
    ensures k in KeptSlots(call, dem, t) ==> pub.sel[k] == -1 && k !in Evictions(call, dem, t)
    ensures k !in KeptSlots(call, dem, t) ==>
              && k in Evictions(call, dem, t)
              && var i := Position(Evictions(call, dem, t), k);
                 pub.sel[k] == if i < |Fetches(call, dem, t)| then Fetches(call, dem, t)[i] else -1
  {
    var open := Refillable(call, dem, t);
    WeakerTotal(t.score, open);
    LeadsSize(Weaker(t.score), open, Evictions(call, dem, t));
    if k in KeptSlots(call, dem, t) {
      assert k !in open;
    } else {
      assert k in open;
    }
  }

  lemma FetchedHasSlot(call: Call, dem: seq<nat>, t: Tables, pub: Publication, i: nat)
    requires Shaped(dem, t) && Published(call, dem, t, pub) && i < |Fetches(call, dem, t)|
    ensures |Fetches(call, dem, t)| <= |Evictions(call, dem, t)|
    ensures var k := Evictions(call, dem, t)[i]; k < |t.hold| && pub.sel[k] == Fetches(call, dem, t)[i]
  {
    assert Evictions(call, dem, t)[i] in Refillable(call, dem, t);
  }

  // An expert is fetched exactly when some slot selects it, and then it is wanted
  // and no kept slot already has it.
  lemma SelectedIsFetched(call: Call, dem: seq<nat>, t: Tables, pub: Publication, e: nat)
    requires Shaped(dem, t) && Published(call, dem, t, pub)
    ensures e in Fetches(call, dem, t) <==> exists k :: 0 <= k < |pub.sel| && pub.sel[k] == e
    ensures e in Fetches(call, dem, t) ==> e in Wanted(dem) && e !in KeptExperts(call, dem, t)
  {
    if e in Fetches(call, dem, t) {
      FetchedHasSlot(call, dem, t, pub, Position(Fetches(call, dem, t), e));
    }
    if k :| 0 <= k < |pub.sel| && pub.sel[k] == e {
      SlotCases(call, dem, t, pub, k);
    }
  }

  // No expert is both kept and fetched, and none is fetched twice.
  lemma FetchesDistinct(call: Call, dem: seq<nat>, t: Tables, pub: Publication)
    requires Shaped(dem, t) && Published(call, dem, t, pub)
    ensures forall j, k | 0 <= j < k < |pub.sel| && pub.sel[j] >= 0 :: pub.sel[j] != pub.sel[k]
    ensures forall j, k | 0 <= j < |pub.sel| && k in KeptSlots(call, dem, t) && pub.sel[j] >= 0 ::
              pub.sel[j] != t.hold[k]
  {
    StrongerTotal(dem, Missing(call, dem, t));
    LeadsSize(Stronger(dem), Missing(call, dem, t), Fetches(call, dem, t));
    forall j, k | 0 <= j < k < |pub.sel| && pub.sel[j] >= 0 ensures pub.sel[j] != pub.sel[k] {
      SlotCases(call, dem, t, pub, j);
      SlotCases(call, dem, t, pub, k);
    }
    forall j, k | 0 <= j < |pub.sel| && k in KeptSlots(call, dem, t) && pub.sel[j] >= 0
      ensures pub.sel[j] != t.hold[k]
    {
      SelectedIsFetched(call, dem, t, pub, pub.sel[j]);
      assert IsKept(call, dem, t, t.hold[k]);
    }
  }

  // A covered expert is wanted, its index entry is a landing slot, and after a
  // launch that records its fetches that slot's entry in `hold` is the expert.
  lemma CoveredIsHeld(call: Call, dem: seq<nat>, t: Tables, t': Tables, pub: Publication, e: nat)
    returns (k: nat)
    requires Shaped(dem, t) && IsStep(call, dem, t, t', pub)
    requires call.reuse >= 1 && e < |dem| && Covered(call, dem, t, e)
    ensures e in Wanted(dem) && k < |t.hold|
    ensures t'.index[e] == call.slotBase + k && t'.hold[k] == e
  {
    k := LandingSlot(call, dem, t, pub, t'.index, e);
    HoldEntry(call, dem, t, pub.sel, t'.hold, t'.score, k);
  }

  lemma HoldEntry(call: Call, dem: seq<nat>, t: Tables, sel: seq<int>, hold: seq<int>, score: seq<int>, k: nat)
    requires Shaped(dem, t) && Settled(call, dem, t, sel, hold, score) && k < |t.hold| && call.reuse >= 1
    ensures sel[k] >= 0 ==> hold[k] == sel[k]
    ensures sel[k] < 0 ==> hold[k] == t.hold[k]
  {
  }

  lemma LandingSlot(call: Call, dem: seq<nat>, t: Tables, pub: Publication, index: seq<int>, e: nat) returns (k: nat)
    requires Shaped(dem, t) && Published(call, dem, t, pub) && Indexed(call, dem, t, index)
    requires e < |dem| && Covered(call, dem, t, e)
    ensures k < |t.hold| && index[e] == call.slotBase + k && e in Wanted(dem)
    ensures pub.sel[k] == e || (k in KeptSlots(call, dem, t) && pub.sel[k] == -1 && t.hold[k] == e)
  {
    if e in KeptExperts(call, dem, t) {
      k :| k in KeptSlots(call, dem, t) && t.hold[k] == e;
    } else {
      var i := Position(Fetches(call, dem, t), e);
      FetchedHasSlot(call, dem, t, pub, i);
      k := Evictions(call, dem, t)[i];
    }
  }

  // Distinct routed experts are routed to distinct slots, whatever the mode.
  lemma RoutesDistinct(call: Call, dem: seq<nat>, t: Tables, t': Tables, pub: Publication, a: nat, b: nat)
    requires Shaped(dem, t) && IsStep(call, dem, t, t', pub)
    requires a < |dem| && b < |dem| && Covered(call, dem, t, a) && Covered(call, dem, t, b)
    ensures t'.index[a] == t'.index[b] ==> a == b
  {
    var ka := LandingSlot(call, dem, t, pub, t'.index, a);
    var kb := LandingSlot(call, dem, t, pub, t'.index, b);
    assert t'.index[a] == t'.index[b] ==> ka == kb;
  }

  // No two landed experts share an index.
  ghost predicate Apart(landed: seq<bool>, index: seq<int>)
    requires |landed| == |index|
  {
    forall a: nat, b: nat | a < |landed| && b < |landed| && landed[a] && landed[b] && a != b :: index[a] != index[b]
  }

  lemma RoutesApart(call: Call, dem: seq<nat>, t: Tables, t': Tables, pub: Publication)
    requires Shaped(dem, t) && IsStep(call, dem, t, t', pub)
    ensures |pub.landed| == |pub.landedCpu| == |t'.index| == |dem| && Apart(pub.landed, t'.index)
  {
    forall a: nat, b: nat | a < |dem| && b < |dem| && pub.landed[a] && pub.landed[b] && a != b
      ensures t'.index[a] != t'.index[b]
    {
      RoutesDistinct(call, dem, t, t', pub, a, b);
    }
  }

  // ---- the fill pass -------------------------------------------------------------

  // Slots are overwritten weakest first, and stronger demand goes to weaker slots.
  lemma EvictsWeakest(call: Call, dem: seq<nat>, t: Tables, pub: Publication, j: nat, k: nat)
    requires Shaped(dem, t) && Published(call, dem, t, pub) && j < |t.hold| && k < |t.hold| && j != k
    requires j !in KeptSlots(call, dem, t) && k !in KeptSlots(call, dem, t) && pub.sel[k] >= 0
    ensures pub.sel[j] == -1 ==> Weaker(t.score)(k, j)
    ensures pub.sel[j] >= 0 ==> Weaker(t.score)(j, k) == Stronger(dem)(pub.sel[j], pub.sel[k])
  {
    SlotCases(call, dem, t, pub, j);
    SlotCases(call, dem, t, pub, k);
    var pj, pk := Position(Evictions(call, dem, t), j), Position(Evictions(call, dem, t), k);
    if pj < pk { ServedInOrder(call, dem, t, pj, pk); } else { ServedInOrder(call, dem, t, pk, pj); }
  }

  lemma ServedInOrder(call: Call, dem: seq<nat>, t: Tables, i: nat, j: nat)
    requires Shaped(dem, t) && i < j < |Evictions(call, dem, t)|
    ensures var evict, weaker := Evictions(call, dem, t), Weaker(t.score);
            weaker(evict[i], evict[j]) && !weaker(evict[j], evict[i])
    ensures var fetch, stronger := Fetches(call, dem, t), Stronger(dem);
            j < |fetch| ==> stronger(fetch[i], fetch[j]) && !stronger(fetch[j], fetch[i])
  {
  }

  // The fill serves a true top-n of the missing demand: whatever is fetched comes
  // before whatever wanted expert is left out, lower id first on equal demand.
  lemma FetchesTopDemand(call: Call, dem: seq<nat>, t: Tables, pub: Publication, k: nat, e: nat)
    requires Shaped(dem, t) && Published(call, dem, t, pub)
    requires k < |pub.sel| && pub.sel[k] >= 0 && e in Wanted(dem) && !Covered(call, dem, t, e)
    ensures Stronger(dem)(pub.sel[k], e)
    ensures forall j: nat | j < |pub.sel| && j !in KeptSlots(call, dem, t) :: pub.sel[j] >= 0
  {
    SlotCases(call, dem, t, pub, k);
    var fetch, missing := Fetches(call, dem, t), Missing(call, dem, t);
    assert e in missing && e !in fetch;
    StrongerTotal(dem, missing);
    LeadsSize(Stronger(dem), missing, fetch);
    forall j: nat | j < |pub.sel| && j !in KeptSlots(call, dem, t) ensures pub.sel[j] >= 0 {
      SlotCases(call, dem, t, pub, j);
    }
  }

  // ---- coverage: measuring versus acting -------------------------------------------

  ghost function Landed(mask: seq<bool>): set<nat> {
    set e: nat | e < |mask| && mask[e]
  }

  lemma LandedAre(call: Call, dem: seq<nat>, t: Tables, pub: Publication)
    requires Shaped(dem, t) && Published(call, dem, t, pub) && call.route
    ensures Landed(pub.landed) == KeptExperts(call, dem, t) + SetOf(Fetches(call, dem, t))
  {
    FetchSetSize(call, dem, t);
  }

  lemma LandedSize(call: Call, dem: seq<nat>, t: Tables, pub: Publication)
    requires Shaped(dem, t) && Published(call, dem, t, pub) && call.route
    ensures |Landed(pub.landed)| == |KeptSlots(call, dem, t)| + |Fetches(call, dem, t)|
  {
    LandedAre(call, dem, t, pub);
    FetchSetSize(call, dem, t);
    KeepSizes(call, dem, t);
  }

  lemma FetchSetSize(call: Call, dem: seq<nat>, t: Tables)
    requires Shaped(dem, t)
    ensures var fetched := SetOf(Fetches(call, dem, t));
            |fetched| == |Fetches(call, dem, t)| && fetched !! KeptExperts(call, dem, t) && fetched <= Wanted(dem)
  {
    var fetch := Fetches(call, dem, t);
    StrongerTotal(dem, Missing(call, dem, t));
    LeadsSize(Stronger(dem), Missing(call, dem, t), fetch);
    assert Distinct(fetch);
    SetOfSize(fetch);
  }

  // From the same tables and demand, mode 2 covers min(slots, wanted) like mode 1
  // when the launch does not skip; when it skips, mode 1 covers nothing and mode 2
  // covers what it kept. So acting on reuse never covers fewer experts.
  lemma ReuseKeepsCoverage(call: Call, dem: seq<nat>, t: Tables, pub1: Publication, pub2: Publication)
    requires Shaped(dem, t) && call.route
    requires Published(call.(reuse := 1), dem, t, pub1) && Published(call.(reuse := 2), dem, t, pub2)
    ensures var n1, n2 := |Landed(pub1.landed)|, |Landed(pub2.landed)|;
            && n1 == (if Skips(call, dem, t) then 0 else Min(|t.hold|, |Wanted(dem)|))
            && n2 == (if Skips(call, dem, t) then |Reusable(dem, t.hold)| else n1)
            && n1 <= n2
    ensures |Fetches(call.(reuse := 2), dem, t)| ==
            (if Skips(call, dem, t) then 0 else Min(|t.hold|, |Wanted(dem)|) - |Reusable(dem, t.hold)|)
  {
    var c1, c2 := call.(reuse := 1), call.(reuse := 2);
    KeepSizes(c1, dem, t);
    KeepSizes(c2, dem, t);
    LandedSize(c1, dem, t, pub1);
    LandedSize(c2, dem, t, pub2);
  }

  // It is the number of experts that is preserved, not the demand they carry: one
  // slot holding an expert of demand 1 keeps it although another has demand 3.
  lemma ReuseCanServeLessDemand()
    ensures var dem, t := [1, 3], Tables([0], [0], [-1, -1], [0, 0, 0, 0, 0]);
            var call := Call(2, false, true, true, 0);
            Covered(call, dem, t, 0) && !Covered(call, dem, t, 1)
            && !Covered(call.(reuse := 1), dem, t, 0) && Covered(call.(reuse := 1), dem, t, 1)
  {
    var dem: seq<nat> := [1, 3];
    var t := Tables([0], [0], [-1, -1], [0, 0, 0, 0, 0]);
    var c1, c2 := Call(1, false, true, true, 0), Call(2, false, true, true, 0);
    assert IsReusable(dem, t.hold, 0);
    assert Reusable(dem, t.hold) == {0};
    assert IsKept(c2, dem, t, 0);
    KeepSizes(c1, dem, t);
    KeepSizes(c2, dem, t);
    assert Wanted(dem) == {0, 1};
    assert KeptExperts(c2, dem, t) == {0} by {
      assert !IsKept(c2, dem, t, 1);
    }
    var fetch := Fetches(c1, dem, t);
    assert KeptExperts(c1, dem, t) == {};
    assert |fetch| == 1;
    assert fetch[0] == 1 by {
      assert fetch[0] in {0, 1};
      assert Stronger(dem)(1, 0) && !Stronger(dem)(0, 1);
    }
  }

  // ---- scores -----------------------------------------------------------------------

  ghost predicate InRange(score: seq<int>) {
    forall k: nat | k < |score| :: 0 <= score[k] <= CAP
  }

  lemma ScoresStayInRange(call: Call, dem: seq<nat>, t: Tables, sel: seq<int>, hold: seq<int>, score: seq<int>)
    requires Shaped(dem, t) && Settled(call, dem, t, sel, hold, score) && InRange(t.score)
    ensures InRange(score)
  {
    forall k: nat | k < |score| ensures 0 <= score[k] <= CAP {
      assert score[k] == if call.reuse > 0 then Aged(t.score[k], k in KeptSlots(call, dem, t), sel[k] >= 0)
                         else t.score[k];
    }
  }

  // ---- what `hold` means ---------------------------------------------------------------

  ghost predicate NoDuplicates(hold: seq<int>) {
    forall j, k | 0 <= j < k < |hold| && hold[j] >= 0 :: hold[j] != hold[k]
  }

  // In mode 2, if no slot twice holds the same expert, what is missing is in no slot.
  lemma NotHeldAnywhere(call: Call, dem: seq<nat>, t: Tables, e: nat, k: nat)
    requires Shaped(dem, t) && call.reuse >= 2 && NoDuplicates(t.hold) && k < |t.hold|
    ensures e in Missing(call, dem, t) ==> t.hold[k] != e
  {
    if e in Wanted(dem) && t.hold[k] == e {
      assert IsReusable(dem, t.hold, k);
      assert IsKept(call, dem, t, e);
    }
  }

  // In mode 2 a fetched expert was in no slot at all, so a hold without duplicates
  // stays without.
  lemma ModeTwoKeepsDistinct(call: Call, dem: seq<nat>, t: Tables, t': Tables, pub: Publication)
    requires Shaped(dem, t) && Published(call, dem, t, pub) && call.reuse >= 2
    requires Settled(call, dem, t, pub.sel, t'.hold, t'.score)
    requires NoDuplicates(t.hold)
    ensures NoDuplicates(t'.hold)
  {
    FetchesDistinct(call, dem, t, pub);
    forall j: nat, k: nat | j < |t.hold| && k < |t.hold| && pub.sel[j] >= 0 ensures pub.sel[j] != t.hold[k] {
      SelectedIsFetched(call, dem, t, pub, pub.sel[j]);
      NotHeldAnywhere(call, dem, t, pub.sel[j], k);
    }
  }

  ghost predicate IsHeld(hold: seq<int>, e: nat) { exists k :: 0 <= k < |hold| && hold[k] == e }

  // Wanted experts some slot holds, in however many slots.
  ghost function HeldWanted(dem: seq<nat>, hold: seq<int>): set<nat> {
    set e: nat | e < |dem| && dem[e] > 0 && IsHeld(hold, e)
  }

  lemma FirstHolderReuses(dem: seq<nat>, hold: seq<int>, e: nat, n: nat) returns (k: nat)
    requires e < |dem| && dem[e] > 0 && n <= |hold| && exists j :: 0 <= j < n && hold[j] == e
    ensures k in Reusable(dem, hold) && hold[k] == e
    decreases n
  {
    if j :| 0 <= j < n - 1 && hold[j] == e {
      k := FirstHolderReuses(dem, hold, e, n - 1);
    } else {
      k := n - 1;
      assert IsReusable(dem, hold, k);
    }
  }

  // Even from a hold with duplicates each wanted expert it holds is counted once, and in
  // mode 2 kept in one slot: as many slots as experts.
  lemma KeptOnce(dem: seq<nat>, hold: seq<int>)
    ensures |Reusable(dem, hold)| == |HeldWanted(dem, hold)|
  {
    var slots := Reusable(dem, hold);
    forall j, k | j in slots && k in slots && j != k ensures hold[j] != hold[k] {
      assert IsReusable(dem, hold, j) && IsReusable(dem, hold, k);
    }
    forall e ensures e in HeldWanted(dem, hold) <==> exists k :: k in slots && hold[k] == e {
      if e in HeldWanted(dem, hold) { var k := FirstHolderReuses(dem, hold, e, |hold|); }
      if k :| k in slots && hold[k] == e { assert IsReusable(dem, hold, k) && IsHeld(hold, e); }
    }
    ImageSize(slots, hold, HeldWanted(dem, hold));
  }

  // The expert a slot's bytes belong to: the last one a launch selected into it.
  ghost function Physical(phys: seq<int>, pub: Publication): (phys': seq<int>)
    requires |pub.sel| == |phys|
  {
    seq(|phys|, k requires 0 <= k < |phys| => if pub.sel[k] >= 0 then pub.sel[k] else phys[k])
  }

  // Each expert a launch would fetch already sits where it would be put.
  ghost predicate InPlace(call: Call, dem: seq<nat>, t: Tables)
    requires Shaped(dem, t)
  {
    forall i | 0 <= i < |Fetches(call, dem, t)| && i < |Evictions(call, dem, t)| ::
      Evictions(call, dem, t)[i] < |t.hold| && t.hold[Evictions(call, dem, t)[i]] == Fetches(call, dem, t)[i]
  }

  lemma FollowsIff(hold: seq<int>, pub: Publication)
    requires |pub.sel| == |hold|
    ensures hold == Physical(hold, pub) <==> forall k: nat | k < |hold| :: pub.sel[k] >= 0 ==> pub.sel[k] == hold[k]
  {
    if hold == Physical(hold, pub) {
      forall k: nat | k < |hold| ensures pub.sel[k] >= 0 ==> pub.sel[k] == hold[k] {
        assert Physical(hold, pub)[k] == hold[k];
      }
    }
  }

  lemma RecordFollows(call: Call, dem: seq<nat>, t: Tables, pub: Publication, hold: seq<int>, score: seq<int>)
    requires Shaped(dem, t) && Settled(call, dem, t, pub.sel, hold, score)
    ensures hold == if call.reuse >= 1 then Physical(t.hold, pub) else t.hold
  {
  }

  lemma InPlaceIff(call: Call, dem: seq<nat>, t: Tables, pub: Publication)
    requires Shaped(dem, t) && Published(call, dem, t, pub)
    ensures InPlace(call, dem, t) <==> forall k: nat | k < |t.hold| :: pub.sel[k] >= 0 ==> pub.sel[k] == t.hold[k]
  {
    var fetch, evict := Fetches(call, dem, t), Evictions(call, dem, t);
    if InPlace(call, dem, t) {
      forall k: nat | k < |t.hold| ensures pub.sel[k] >= 0 ==> pub.sel[k] == t.hold[k] {
        SlotCases(call, dem, t, pub, k);
      }
    }
    if forall k: nat | k < |t.hold| :: pub.sel[k] >= 0 ==> pub.sel[k] == t.hold[k] {
      forall i | 0 <= i < |fetch| && i < |evict| ensures evict[i] < |t.hold| && t.hold[evict[i]] == fetch[i] {
        FetchedHasSlot(call, dem, t, pub, i);
      }
    }
  }

  // A launch keeps `hold` equal to the physical contents exactly when it runs with reuse
  // on, or the tables it finds already have every expert to fetch in its slot.
  lemma HoldStaysTruthful(call: Call, dem: seq<nat>, t: Tables, t': Tables, pub: Publication)
    requires Shaped(dem, t) && IsStep(call, dem, t, t', pub)
    ensures t'.hold == Physical(t.hold, pub) <==> call.reuse >= 1 || InPlace(call, dem, t)
  {
    RecordFollows(call, dem, t, pub, t'.hold, t'.score);
    FollowsIff(t.hold, pub);
    InPlaceIff(call, dem, t, pub);
  }
}
