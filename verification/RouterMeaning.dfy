// Which experts a token asks for, read off its logits: the router's choice by sigmoid plus
// bias, the prefetcher's by the sigmoid alone, and the histogram that counts them.

module RouterMeaning {
  import opened Arith
  import opened Ranking
  import opened TokenChoice
  import opened RouterSelection

  ghost predicate IsToken(sc: Scoring, t: nat) { sc.Valid() && t < sc.tokens }

  // The token's row holds `ld` columns, the router's from `colOff` on.
  lemma InRow(sc: Scoring, t: nat, e: nat)
    requires IsToken(sc, t) && e < |sc.resident|
    ensures 0 <= t * sc.ld && t * sc.ld + sc.colOff + e < |sc.logits|
  {
    RowFits(t, sc.tokens, sc.ld);
    MulMono(0, t, sc.ld);
  }

  // The router can take expert e at all.
  ghost predicate IsCandidate(sc: Scoring, t: nat, e: nat)
    requires IsToken(sc, t) && e < |sc.resident|
  {
    InRow(sc, t, e);
    sc.sigmoid(sc.logits[t * sc.ld + sc.colOff + e]) + sc.bias[e] > -1000000000000000000000000000000.0
  }

  // It prefers e to f: larger sigmoid plus bias, the lower id on equality.
  ghost predicate Prefers(sc: Scoring, t: nat, e: nat, f: nat)
    requires IsToken(sc, t) && e < |sc.resident| && f < |sc.resident|
  {
    InRow(sc, t, e);
    InRow(sc, t, f);
    var x := sc.sigmoid(sc.logits[t * sc.ld + sc.colOff + e]) + sc.bias[e];
    var y := sc.sigmoid(sc.logits[t * sc.ld + sc.colOff + f]) + sc.bias[f];
    x > y || (x == y && e < f)
  }

  // The prefetcher does: larger sigmoid, the router's preference on equality.
  ghost predicate PrefersGate(sc: Scoring, t: nat, e: nat, f: nat)
    requires IsToken(sc, t) && e < |sc.resident| && f < |sc.resident|
  {
    InRow(sc, t, e);
    InRow(sc, t, f);
    var x := sc.sigmoid(sc.logits[t * sc.ld + sc.colOff + e]);
    var y := sc.sigmoid(sc.logits[t * sc.ld + sc.colOff + f]);
    x > y || (x == y && Prefers(sc, t, e, f))
  }

  ghost function Candidates(sc: Scoring, t: nat): set<nat>
    requires IsToken(sc, t)
  {
    set e: nat | e < |sc.resident| && IsCandidate(sc, t, e)
  }

  // The router's experts: as many candidates as it takes, at most 64, none left out that
  // it prefers to one taken.
  ghost predicate IsRouted(sc: Scoring, t: nat, top: set<nat>)
    requires IsToken(sc, t)
  {
    && top <= Candidates(sc, t) && |top| == Min(Min(sc.topk, 64), |Candidates(sc, t)|)
    && forall e: nat, f: nat | e in top && f in Candidates(sc, t) - top :: Prefers(sc, t, e, f)
  }

  // The prefetcher's among them.
  ghost predicate IsAsked(sc: Scoring, t: nat, top: set<nat>, asked: set<nat>)
    requires IsToken(sc, t) && top <= Candidates(sc, t)
  {
    && asked <= top && |asked| == Min(sc.topP, |top|)
    && forall e: nat, f: nat | e in asked && f in top - asked :: PrefersGate(sc, t, e, f)
  }

  ghost predicate Asks(sc: Scoring, t: nat, asked: set<nat>)
    requires IsToken(sc, t)
  {
    exists top :: IsRouted(sc, t, top) && IsAsked(sc, t, top, asked)
  }

  // ---- what the kernel takes ----------------------------------------------------------------

  lemma OrdersAre(sc: Scoring, t: nat, e: nat, f: nat)
    requires IsToken(sc, t) && e < |sc.resident| && f < |sc.resident|
    ensures Prefers(sc, t, e, f) <==> Higher(sc.Choice(t))(e, f)
    ensures IsCandidate(sc, t, e) <==> e in Eligible(sc.Choice(t))
    ensures sc.Score(t)[e] > sc.Score(t)[f] ==> PrefersGate(sc, t, e, f)
    ensures sc.Score(t)[e] == sc.Score(t)[f] && Prefers(sc, t, e, f) ==> PrefersGate(sc, t, e, f)
  {
    ScoringAt(sc, t, e);
    ScoringAt(sc, t, f);
  }

  lemma CandidatesAre(sc: Scoring, t: nat)
    requires IsToken(sc, t)
    ensures Candidates(sc, t) == Eligible(sc.Choice(t))
  {
    forall e: nat | e < |sc.resident| ensures IsCandidate(sc, t, e) <==> e in Eligible(sc.Choice(t)) {
      OrdersAre(sc, t, e, e);
    }
  }

  ghost function KernelTop(sc: Scoring, t: nat): seq<nat>
    requires IsToken(sc, t)
  {
    RouterTop(sc.Choice(t), sc.K())
  }

  lemma KernelRoutes(sc: Scoring, t: nat)
    requires IsToken(sc, t)
    ensures Distinct(KernelTop(sc, t)) && IsRouted(sc, t, SetOf(KernelTop(sc, t)))
  {
    var ids, choice := KernelTop(sc, t), sc.Choice(t);
    CandidatesAre(sc, t);
    HigherTotal(choice, Eligible(choice));
    LeadsSize(Higher(choice), Eligible(choice), ids);
    SetOfSize(ids);
    forall e: nat, f: nat | e in SetOf(ids) && f in Candidates(sc, t) - SetOf(ids) ensures Prefers(sc, t, e, f) {
      OrdersAre(sc, t, e, f);
      var i :| 0 <= i < |ids| && ids[i] == e;
      assert Higher(choice)(ids[i], f);
    }
  }

  lemma KernelAsks(sc: Scoring, t: nat)
    requires IsToken(sc, t)
    ensures Asks(sc, t, SetOf(sc.Takens()[t]))
  {
    var ids, taken := KernelTop(sc, t), sc.Takens()[t];
    KernelRoutes(sc, t);
    TokenPicksDistinct(sc.Choice(t), sc.Score(t), sc.K(), sc.topP);
    SetOfSize(ids);
    SetOfSize(taken);
    var s := Pick(sc.Score(t), ids);
    var pos := Top(s, Range(0, |ids|), sc.topP);
    PosBelow(s, |ids|, sc.topP);
    assert taken == Pick(ids, pos);
    forall e | e in SetOf(taken) ensures e in SetOf(ids) {
      var i :| 0 <= i < |taken| && taken[i] == e;
      assert e == ids[pos[i]];
    }
    forall e: nat, f: nat | e in SetOf(taken) && f in SetOf(ids) - SetOf(taken) ensures PrefersGate(sc, t, e, f) {
      var i :| 0 <= i < |taken| && taken[i] == e;
      var q :| 0 <= q < |ids| && ids[q] == f;
      TakenFirst(sc, t, ids, pos, i, q);
    }
    assert IsAsked(sc, t, SetOf(ids), SetOf(taken));
  }

  lemma TakenFirst(sc: Scoring, t: nat, ids: seq<nat>, pos: seq<nat>, i: nat, q: nat)
    requires IsToken(sc, t) && ids == KernelTop(sc, t) && pos == Top(Pick(sc.Score(t), ids), Range(0, |ids|), sc.topP)
    requires i < |pos| && pos[i] < |ids| && q < |ids| && ids[q] !in SetOf(Pick(ids, pos))
    requires forall j | 0 <= j < |pos| :: pos[j] < |ids|
    ensures PrefersGate(sc, t, ids[pos[i]], ids[q])
  {
    NotTaken(ids, pos, q);
    TopLeads(Pick(sc.Score(t), ids), |ids|, sc.topP, i, q);
    OrdersAre(sc, t, ids[pos[i]], ids[q]);
    if pos[i] < q { RoutedInOrder(sc, t, pos[i], q); }
  }

  lemma NotTaken(ids: seq<nat>, pos: seq<nat>, q: nat)
    requires (forall j | 0 <= j < |pos| :: pos[j] < |ids|) && q < |ids| && ids[q] !in SetOf(Pick(ids, pos))
    ensures q !in pos
  {
    forall j | 0 <= j < |pos| ensures pos[j] != q { assert Pick(ids, pos)[j] == ids[pos[j]]; }
  }

  lemma TopLeads(s: seq<real>, n: nat, p: nat, i: nat, q: nat)
    requires n <= |s| && i < |Top(s, Range(0, n), p)| && q < n && q !in Top(s, Range(0, n), p)
    ensures var k := Top(s, Range(0, n), p)[i]; k < n && (s[k] > s[q] || (s[k] == s[q] && k < q))
  {
    var pos := Top(s, Range(0, n), p);
    assert pos[i] in Range(0, n) && q in Range(0, n);
    assert Higher(s)(pos[i], q);
  }

  lemma RoutedInOrder(sc: Scoring, t: nat, p: nat, q: nat)
    requires IsToken(sc, t) && p < q < |KernelTop(sc, t)|
    ensures Prefers(sc, t, KernelTop(sc, t)[p], KernelTop(sc, t)[q])
  {
    var ids := KernelTop(sc, t);
    assert Higher(sc.Choice(t))(ids[p], ids[q]);
    OrdersAre(sc, t, ids[p], ids[q]);
  }

  // ---- there is only one answer -------------------------------------------------------------

  lemma Apart(a: set<nat>, b: set<nat>) returns (e: nat, f: nat)
    requires a != b && |a| == |b|
    ensures e in a - b && f in b - a
  {
    if forall x | x in a :: x in b { SubsetSize(a, b); }
    if forall x | x in b :: x in a { SubsetSize(b, a); }
    e :| e in a && e !in b;
    f :| f in b && f !in a;
  }

  lemma OneWay(sc: Scoring, t: nat, e: nat, f: nat)
    requires IsToken(sc, t) && e < |sc.resident| && f < |sc.resident|
    ensures !(Prefers(sc, t, e, f) && Prefers(sc, t, f, e))
    ensures !(PrefersGate(sc, t, e, f) && PrefersGate(sc, t, f, e))
  {
  }

  // Two choices of one size, each preferring its own to what it leaves, are the same.
  lemma OneRouted(sc: Scoring, t: nat, a: set<nat>, b: set<nat>)
    requires IsToken(sc, t) && IsRouted(sc, t, a) && IsRouted(sc, t, b)
    ensures a == b
  {
    if a != b {
      var e, f := Apart(a, b);
      OneWay(sc, t, e, f);
    }
  }

  lemma OneAsked(sc: Scoring, t: nat, top: set<nat>, a: set<nat>, b: set<nat>)
    requires IsToken(sc, t) && top <= Candidates(sc, t) && IsAsked(sc, t, top, a) && IsAsked(sc, t, top, b)
    ensures a == b
  {
    if a != b {
      var e, f := Apart(a, b);
      OneWay(sc, t, e, f);
    }
  }

  lemma AsksIsTaken(sc: Scoring, t: nat, asked: set<nat>)
    requires IsToken(sc, t)
    ensures Asks(sc, t, asked) <==> asked == SetOf(sc.Takens()[t])
  {
    KernelAsks(sc, t);
    var k :| IsRouted(sc, t, k) && IsAsked(sc, t, k, SetOf(sc.Takens()[t]));
    if Asks(sc, t, asked) {
      var top :| IsRouted(sc, t, top) && IsAsked(sc, t, top, asked);
      OneRouted(sc, t, k, top);
      OneAsked(sc, t, top, asked, SetOf(sc.Takens()[t]));
    }
  }

  // ---- the histogram ---------------------------------------------------------------------------

  // Every non-resident expert's count is the number of tokens that ask for it.
  ghost predicate IsHistogram(sc: Scoring, dem: seq<nat>)
    requires sc.Valid()
  {
    exists asked: seq<set<nat>> :: Counts(sc, asked, dem)
  }

  ghost predicate Counts(sc: Scoring, asked: seq<set<nat>>, dem: seq<nat>)
    requires sc.Valid()
  {
    && |asked| == sc.tokens && (forall t: nat | t < sc.tokens :: Asks(sc, t, asked[t]))
    && |dem| == |sc.resident|
    && forall e: nat | e < |dem| ::
         dem[e] == if sc.resident[e] then 0 else |set t: nat | t < |asked| && e in asked[t]|
  }

  ghost function TakenSets(sc: Scoring): (asked: seq<set<nat>>)
    requires sc.Valid()
    ensures |asked| == sc.tokens && forall t: nat | t < sc.tokens :: asked[t] == SetOf(sc.Takens()[t])
  {
    seq(sc.tokens, t requires 0 <= t < sc.tokens => SetOf(sc.Takens()[t]))
  }

  lemma SameAskers(takens: seq<seq<nat>>, asked: seq<set<nat>>, e: nat)
    requires |asked| == |takens| && forall t: nat | t < |asked| :: asked[t] == SetOf(takens[t])
    ensures Askers(takens, e) == set t: nat | t < |asked| && e in asked[t]
  {
  }

  lemma CountsAreTaken(sc: Scoring, asked: seq<set<nat>>, dem: seq<nat>)
    requires sc.Valid() && Counts(sc, asked, dem)
    ensures asked == TakenSets(sc)
  {
    forall t: nat | t < sc.tokens ensures asked[t] == TakenSets(sc)[t] {
      assert Asks(sc, t, asked[t]);
      AsksIsTaken(sc, t, asked[t]);
    }
  }

  // What the kernel's warps leave in shared memory is that histogram and no other.
  lemma DemandMeans(sc: Scoring, dem: seq<nat>)
    requires sc.Valid()
    ensures IsDemand(sc.Takens(), sc.resident, dem) <==> IsHistogram(sc, dem)
  {
    forall e: nat ensures Askers(sc.Takens(), e) == set t: nat | t < |TakenSets(sc)| && e in TakenSets(sc)[t] {
      SameAskers(sc.Takens(), TakenSets(sc), e);
    }
    if IsDemand(sc.Takens(), sc.resident, dem) {
      forall t: nat | t < sc.tokens ensures Asks(sc, t, TakenSets(sc)[t]) { AsksIsTaken(sc, t, TakenSets(sc)[t]); }
      assert Counts(sc, TakenSets(sc), dem);
    }
    if IsHistogram(sc, dem) {
      var asked: seq<set<nat>> :| Counts(sc, asked, dem);
      CountsAreTaken(sc, asked, dem);
    }
  }
}
