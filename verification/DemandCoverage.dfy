// How much demand a launch covers, as opposed to how many experts: when acting on reuse
// serves at least what measuring it would.

module DemandCoverage {
  import opened Ranking
  import opened SlotAllocation
  import opened SlotRuns

  // The demand of the members of s below n.
  ghost function Carried(dem: seq<nat>, s: set<nat>, n: nat): nat
    requires n <= |dem|
  {
    if n == 0 then 0 else Carried(dem, s, n - 1) + if n - 1 in s then dem[n - 1] else 0
  }

  ghost function DemandOf(dem: seq<nat>, s: set<nat>): nat { Carried(dem, s, |dem|) }

  lemma {:induction false} CarriedSwap(dem: seq<nat>, s: set<nat>, n: nat, x: nat, y: nat)
    requires n <= |dem| && x in s && y !in s && x < |dem| && y < |dem|
    ensures Carried(dem, s - {x} + {y}, n) + (if x < n then dem[x] else 0) ==
            Carried(dem, s, n) + (if y < n then dem[y] else 0)
  {
    if n > 0 { CarriedSwap(dem, s, n - 1, x, y); }
  }

  // No member of w left out carries more than one taken.
  ghost predicate TakesHeaviest(dem: seq<nat>, w: set<nat>, a: set<nat>) {
    && a <= w && (forall e | e in w :: e < |dem|)
    && forall u, c | u in w && u !in a && c in a :: dem[u] <= dem[c]
  }

  // Then no other choice of as many carries more.
  lemma {:induction false} HeaviestCarriesMost(dem: seq<nat>, w: set<nat>, a: set<nat>, b: set<nat>)
    requires TakesHeaviest(dem, w, a) && b <= w && |b| == |a|
    ensures DemandOf(dem, b) <= DemandOf(dem, a)
    decreases |b - a|
  {
    if b - a == {} {
      SubsetSize(b, a);
    } else {
      var y :| y in b - a;
      if a <= b { SubsetSize(a, b); }
      var x :| x in a && x !in b;
      CarriedSwap(dem, b, |dem|, y, x);
      var b' := b - {y} + {x};
      assert b' - a == (b - a) - {y};
      HeaviestCarriesMost(dem, w, a, b');
    }
  }

  // Missing experts with more demand than h.
  ghost function Heavier(call: Call, dem: seq<nat>, t: Tables, h: nat): set<nat>
    requires h < |dem|
  {
    set e | e in Missing(call, dem, t) && e < |dem| && dem[e] > dem[h]
  }

  // No kept expert stands in the way of a heavier one: those fit in the other slots.
  ghost predicate KeptEarnSlots(call: Call, dem: seq<nat>, t: Tables) {
    forall k | k in Reusable(dem, t.hold) ::
      |Heavier(call.(reuse := 2), dem, t, t.hold[k])| <= |Refillable(call.(reuse := 2), dem, t)|
  }

  lemma FetchesTakeHeaviest(call: Call, dem: seq<nat>, t: Tables, u: nat, i: nat)
    requires Shaped(dem, t) && i < |Fetches(call, dem, t)| && u in Missing(call, dem, t) && u !in Fetches(call, dem, t)
    ensures Fetches(call, dem, t)[i] < |dem| && u < |dem| && dem[u] <= dem[Fetches(call, dem, t)[i]]
  {
    assert Stronger(dem)(Fetches(call, dem, t)[i], u);
  }

  // What mode 1 lands is the heaviest possible.
  lemma MeasuringTakesHeaviest(call: Call, dem: seq<nat>, t: Tables)
    requires Shaped(dem, t) && call.reuse == 1
    ensures TakesHeaviest(dem, Wanted(dem), KeptExperts(call, dem, t) + SetOf(Fetches(call, dem, t)))
  {
    assert KeptExperts(call, dem, t) == {};
    FetchSetSize(call, dem, t);
    var fetch := Fetches(call, dem, t);
    forall u, c | u in Wanted(dem) && u !in SetOf(fetch) && c in SetOf(fetch) ensures dem[u] <= dem[c] {
      FetchesTakeHeaviest(call, dem, t, u, Position(fetch, c));
    }
    assert KeptExperts(call, dem, t) + SetOf(fetch) == SetOf(fetch);
  }

  // If the kept experts earn their slots, so is what mode 2 lands.
  lemma ActingTakesHeaviest(call: Call, dem: seq<nat>, t: Tables)
    requires Shaped(dem, t) && call.reuse == 2 && !Skips(call, dem, t) && KeptEarnSlots(call, dem, t)
    ensures TakesHeaviest(dem, Wanted(dem), KeptExperts(call, dem, t) + SetOf(Fetches(call, dem, t)))
  {
    KeepSizes(call, dem, t);
    FetchSetSize(call, dem, t);
    var kept, fetch := KeptExperts(call, dem, t), Fetches(call, dem, t);
    forall u, c | u in Wanted(dem) && u !in kept + SetOf(fetch) && c in kept + SetOf(fetch) ensures dem[u] <= dem[c] {
      if c in SetOf(fetch) {
        FetchesTakeHeaviest(call, dem, t, u, Position(fetch, c));
      } else {
        KeptIsNotLighter(call, dem, t, u, c);
      }
    }
  }

  lemma KeptIsNotLighter(call: Call, dem: seq<nat>, t: Tables, u: nat, c: nat)
    requires Shaped(dem, t) && call.reuse == 2 && !Skips(call, dem, t) && KeptEarnSlots(call, dem, t)
    requires c in KeptExperts(call, dem, t) && u in Missing(call, dem, t) && u !in Fetches(call, dem, t)
    ensures dem[u] <= dem[c]
  {
    if dem[u] > dem[c] {
      var fetch, open := Fetches(call, dem, t), Refillable(call, dem, t);
      var k :| k in KeptSlots(call, dem, t) && t.hold[k] == c;
      assert call.(reuse := 2) == call;
      FetchSetSize(call, dem, t);
      forall e | e in SetOf(fetch) + {u} ensures e in Heavier(call, dem, t, c) {
        if e != u { FetchesTakeHeaviest(call, dem, t, u, Position(fetch, e)); }
      }
      SubsetSize(SetOf(fetch) + {u}, Heavier(call, dem, t, c));
      SubsetSize(SetOf(fetch) + {u}, Missing(call, dem, t));
    }
  }

  // Trading a member for a heavier outsider gains demand.
  lemma TradeGains(dem: seq<nat>, s: set<nat>, h: nat, u: nat)
    requires h in s && u !in s && h < |dem| && u < |dem| && dem[u] > dem[h]
    ensures |s - {h} + {u}| == |s| && DemandOf(dem, s) < DemandOf(dem, s - {h} + {u})
  {
    CarriedSwap(dem, s, |dem|, h, u);
  }

  // More experts outweigh a kept one than can be fetched, so one of them is left out.
  lemma HeavierLeftOut(call: Call, dem: seq<nat>, t: Tables, k: nat) returns (u: nat)
    requires Shaped(dem, t) && call.reuse == 2 && k in Reusable(dem, t.hold)
    requires |Heavier(call, dem, t, t.hold[k])| > |Refillable(call, dem, t)|
    ensures u in Missing(call, dem, t) && u !in Fetches(call, dem, t) && u < |dem| && dem[u] > dem[t.hold[k]]
  {
    var heavier, fetched := Heavier(call, dem, t, t.hold[k]), SetOf(Fetches(call, dem, t));
    FetchSetSize(call, dem, t);
    if heavier <= fetched { SubsetSize(heavier, fetched); }
    u :| u in heavier && u !in fetched;
  }

  // So a kept expert that stands in the way costs demand.
  lemma BlockingLosesDemand(call: Call, dem: seq<nat>, t: Tables, k: nat, landed: set<nat>) returns (better: set<nat>)
    requires Shaped(dem, t) && call.reuse == 2 && k in Reusable(dem, t.hold)
    requires |Heavier(call, dem, t, t.hold[k])| > |Refillable(call, dem, t)|
    requires landed == KeptExperts(call, dem, t) + SetOf(Fetches(call, dem, t)) && landed <= Wanted(dem)
    ensures better <= Wanted(dem) && |better| == |landed| && DemandOf(dem, landed) < DemandOf(dem, better)
  {
    var u := HeavierLeftOut(call, dem, t, k);
    assert IsKept(call, dem, t, t.hold[k]);
    TradeGains(dem, landed, t.hold[k], u);
    better := landed - {t.hold[k]} + {u};
  }

  // Acting on reuse serves at least the demand that measuring it would, exactly when the
  // launch skips or no reusable expert keeps a slot from heavier ones.
  lemma ReuseServesDemandIff(call: Call, dem: seq<nat>, t: Tables, pub1: Publication, pub2: Publication)
    requires Shaped(dem, t) && call.route
    requires Published(call.(reuse := 1), dem, t, pub1) && Published(call.(reuse := 2), dem, t, pub2)
    ensures DemandOf(dem, Landed(pub2.landed)) >= DemandOf(dem, Landed(pub1.landed)) <==>
            Skips(call, dem, t) || KeptEarnSlots(call, dem, t)
  {
    LandedAre(call.(reuse := 1), dem, t, pub1);
    LandedAre(call.(reuse := 2), dem, t, pub2);
    CoverageIff(call, dem, t, Landed(pub1.landed), Landed(pub2.landed));
  }

  lemma LandedSizes(call: Call, dem: seq<nat>, t: Tables)
    requires Shaped(dem, t)
    ensures KeptExperts(call, dem, t) + SetOf(Fetches(call, dem, t)) <= Wanted(dem)
    ensures !Skips(call, dem, t) ==>
              |KeptExperts(call, dem, t) + SetOf(Fetches(call, dem, t))| == Min(|t.hold|, |Wanted(dem)|)
  {
    KeepSizes(call, dem, t);
    FetchSetSize(call, dem, t);
  }

  lemma CoverageIff(call: Call, dem: seq<nat>, t: Tables, l1: set<nat>, l2: set<nat>)
    requires Shaped(dem, t)
    requires l1 == KeptExperts(call.(reuse := 1), dem, t) + SetOf(Fetches(call.(reuse := 1), dem, t))
    requires l2 == KeptExperts(call.(reuse := 2), dem, t) + SetOf(Fetches(call.(reuse := 2), dem, t))
    ensures DemandOf(dem, l2) >= DemandOf(dem, l1) <==> Skips(call, dem, t) || KeptEarnSlots(call, dem, t)
  {
    var c1, c2 := call.(reuse := 1), call.(reuse := 2);
    MeasuringTakesHeaviest(c1, dem, t);
    LandedSizes(c1, dem, t);
    LandedSizes(c2, dem, t);
    if Skips(call, dem, t) {
      NothingCarriesNothing(dem, |dem|);
      assert l1 == {};
    } else if KeptEarnSlots(call, dem, t) {
      ActingTakesHeaviest(c2, dem, t);
      HeaviestCarriesMost(dem, Wanted(dem), l2, l1);
    } else {
      var k :| k in Reusable(dem, t.hold) && |Heavier(c2, dem, t, t.hold[k])| > |Refillable(c2, dem, t)|;
      var better := BlockingLosesDemand(c2, dem, t, k, l2);
      HeaviestCarriesMost(dem, Wanted(dem), l1, better);
    }
  }

  lemma {:induction false} NothingCarriesNothing(dem: seq<nat>, n: nat)
    requires n <= |dem|
    ensures Carried(dem, {}, n) == 0
  {
    if n > 0 { NothingCarriesNothing(dem, n - 1); }
  }
}
