// From router logits to the demand histogram: the router's top-K per token, the
// top-P among them, and the count of the non-resident ones.

module TokenChoice {
  import opened Ranking

  // The kernel's "no candidate" value.
  const FLOOR: real := -1000000000000000000000000000000.0

  // Larger value first, then the lower position.
  ghost function Higher(v: seq<real>): Order {
    (a: nat, b: nat) => a < |v| && b < |v| && (v[a] > v[b] || (v[a] == v[b] && a < b))
  }

  lemma HigherTotal(v: seq<real>, s: set<nat>)
    requires forall i | i in s :: i < |v|
    ensures StrictTotal(Higher(v), s)
  {
  }

  // The first n positions of `s` by value.
  ghost function Top(v: seq<real>, s: set<nat>, n: nat): (ids: seq<nat>)
    requires forall i | i in s :: i < |v|
    ensures Leads(Higher(v), s, ids) && |ids| == Min(n, |s|)
  {
    HigherTotal(v, s);
    var all := Ranked(Higher(v), s);
    LeadsShorter(Higher(v), s, all, Min(n, |s|));
    all[..Min(n, |s|)]
  }

  lemma TopUnique(v: seq<real>, s: set<nat>, n: nat, ids: seq<nat>)
    requires forall i | i in s :: i < |v|
    requires Leads(Higher(v), s, ids) && |ids| == Min(n, |s|)
    ensures ids == Top(v, s, n)
  {
    HigherTotal(v, s);
    LeadsUnique(Higher(v), s, ids, Top(v, s, n));
  }

  ghost function Eligible(choice: seq<real>): set<nat> {
    set e: nat | e < |choice| && choice[e] > FLOOR
  }

  function Pick<T>(v: seq<T>, ids: seq<nat>): (s: seq<T>)
    requires forall i | 0 <= i < |ids| :: ids[i] < |v|
    ensures |s| == |ids| && forall i | 0 <= i < |ids| :: s[i] == v[ids[i]]
  {
    seq(|ids|, i requires 0 <= i < |ids| => v[ids[i]])
  }

  ghost function RouterTop(choice: seq<real>, k: nat): (ids: seq<nat>)
    ensures |ids| == Min(k, |Eligible(choice)|)
    ensures forall i | 0 <= i < |ids| :: ids[i] < |choice|
  {
    var ids := Top(choice, Eligible(choice), k);
    assert forall i | 0 <= i < |ids| :: ids[i] in Eligible(choice);
    ids
  }

  // What one token asks for: among its router top-k by choice, the top-p by score.
  ghost function TokenPicks(choice: seq<real>, score: seq<real>, k: nat, p: nat): (taken: seq<nat>)
    requires |score| == |choice|
    ensures |taken| <= p && |taken| <= k
    ensures forall i | 0 <= i < |taken| :: taken[i] < |choice|
  {
    var ids := RouterTop(choice, k);
    var pos := Top(Pick(score, ids), Range(0, |ids|), p);
    PosBelow(Pick(score, ids), |ids|, p);
    Pick(ids, pos)
  }

  lemma PosBelow(s: seq<real>, n: nat, p: nat)
    requires n <= |s|
    ensures |Top(s, Range(0, n), p)| == Min(p, n)
    ensures forall i | 0 <= i < Min(p, n) :: Top(s, Range(0, n), p)[i] < n
  {
    RangeSize(n);
    var pos := Top(s, Range(0, n), p);
    forall i | 0 <= i < |pos| ensures pos[i] < n {
      assert pos[i] in Range(0, n);
    }
  }

  lemma TokenPicksDistinct(choice: seq<real>, score: seq<real>, k: nat, p: nat)
    requires |score| == |choice|
    ensures var taken := TokenPicks(choice, score, k, p);
            forall i, j | 0 <= i < j < |taken| :: taken[i] != taken[j]
  {
    var ids := RouterTop(choice, k);
    HigherTotal(choice, Eligible(choice));
    LeadsSize(Higher(choice), Eligible(choice), ids);
    var s := Pick(score, ids);
    var pos := Top(s, Range(0, |ids|), p);
    PosBelow(s, |ids|, p);
    HigherTotal(s, Range(0, |ids|));
    LeadsSize(Higher(s), Range(0, |ids|), pos);
    var taken := TokenPicks(choice, score, k, p);
    forall i, j | 0 <= i < j < |taken| ensures taken[i] != taken[j] {
      assert taken[i] == ids[pos[i]] && taken[j] == ids[pos[j]];
    }
  }

  // Tokens that ask for expert e.
  ghost function Askers(takens: seq<seq<nat>>, e: nat): set<nat> {
    set t: nat | t < |takens| && e in takens[t]
  }

  // The histogram the allocator sees: non-resident demand only.
  ghost predicate IsDemand(takens: seq<seq<nat>>, resident: seq<bool>, dem: seq<nat>) {
    && |dem| == |resident|
    && forall e: nat | e < |dem| :: dem[e] == if resident[e] then 0 else |Askers(takens, e)|
  }
}

// The selection half of the fused kernel, one warp per token.
module RouterKernel {
  import opened Ranking
  import opened WarpReduce
  import opened TokenChoice

  predicate RealGreater(a: real, b: real) { a > b }

  lemma RealGreaterTotal()
    ensures TotalGreater(RealGreater)
  {
  }

  // The registers after `ids` were consumed.
  ghost predicate Consumed(choice: seq<real>, ids: seq<nat>, ch: seq<real>) {
    && |ch| == |choice|
    && forall e: nat | e < |ch| :: ch[e] == if e in ids then FLOOR else choice[e]
  }

  ghost predicate Choosing(choice: seq<real>, k: nat, ids: seq<nat>, ch: seq<real>) {
    && Consumed(choice, ids, ch)
    && Leads(Higher(choice), Eligible(choice), ids) && |ids| == Min(k, |Eligible(choice)|)
  }

  lemma ChoosingStep(choice: seq<real>, k: nat, ids: seq<nat>, ch: seq<real>, c: Cand<real>)
    requires Choosing(choice, k, ids, ch) && |ch| <= INT_MAX && IsArgmax(RealGreater, ch, FLOOR, c)
    ensures if c.at == INT_MAX then |ids| == |Eligible(choice)|
            else 0 <= c.at < |ch| && |ids| == k && Choosing(choice, k + 1, ids + [c.at], ch[c.at := FLOOR])
  {
    var elig := Eligible(choice);
    HigherTotal(choice, elig);
    LeadsSize(Higher(choice), elig, ids);
    if c.at == INT_MAX {
      forall e | e in elig ensures e in ids {
        assert e in Range(0, |ch|);
      }
    } else {
      assert c.at in elig && c.at !in ids;
      forall e | e in elig && e !in ids && e != c.at ensures Higher(choice)(c.at, e) {
        assert e in Range(0, |ch|);
        assert Better(RealGreater, c, Cand(ch[e], e));
      }
      LeadsExtend(Higher(choice), elig, ids, c.at);
    }
  }

  // `pick` lists `ids` and then -1; `pickScore` their raw scores.
  ghost predicate Picked(score: seq<real>, ids: seq<nat>, pick: seq<int>, pickScore: seq<real>) {
    && |ids| <= |pick| == |pickScore|
    && (forall i | 0 <= i < |ids| :: ids[i] < |score| && pick[i] == ids[i] && pickScore[i] == score[ids[i]])
    && forall i | |ids| <= i < |pick| :: pick[i] == -1
  }

  // The router's top-k, by repeated argmax over the warp.
  method WarpTopK(choice: seq<real>, score: seq<real>, topk: nat, width: nat, perLane: nat)
    returns (pick: seq<int>, pickScore: seq<real>)
    requires IsPow2(width) && |score| == |choice| == width * perLane && |choice| <= INT_MAX
    ensures |pick| == topk && Picked(score, RouterTop(choice, topk), pick, pickScore)
  {
    RealGreaterTotal();
    pick, pickScore := [], [];
    var ch := choice;
    ghost var ids: seq<nat> := [];
    for k := 0 to topk
      invariant |pick| == k && Choosing(choice, k, ids, ch) && Picked(score, ids, pick, pickScore)
    {
      var c := WarpArgmax(RealGreater, ch, FLOOR, width, perLane);
      ChoosingStep(choice, k, ids, ch, c);
      if c.at != INT_MAX {
        ch := ch[c.at := FLOOR];   // consume
        ids := ids + [c.at];
        pick, pickScore := pick + [c.at], pickScore + [score[c.at]];
      } else {
        pick, pickScore := pick + [-1], pickScore + [FLOOR];
      }
    }
    TopUnique(choice, Eligible(choice), topk, ids);
  }

  // Lane 0's list after the positions `pos` were consumed.
  ghost predicate Left(ids: seq<nat>, pos: seq<nat>, pick: seq<int>) {
    && |ids| <= |pick|
    && (forall i: nat | i < |ids| :: pick[i] == if i in pos then -1 else ids[i])
    && forall i | |ids| <= i < |pick| :: pick[i] == -1
  }

  // The first maximum of the scores still listed; -1 when none is.
  method BestLeft(pick: seq<int>, pickScore: seq<real>) returns (bk: int)
    requires |pickScore| == |pick| && forall k | 0 <= k < |pick| && pick[k] >= 0 :: pickScore[k] > FLOOR
    ensures -1 <= bk < |pick|
    ensures bk == -1 ==> forall k | 0 <= k < |pick| :: pick[k] < 0
    ensures bk >= 0 ==> pick[bk] >= 0 && forall k: nat | k < |pick| && pick[k] >= 0 && k != bk ::
                          Higher(pickScore)(bk, k)
  {
    var bv := FLOOR;
    bk := -1;
    for k := 0 to |pick|
      invariant -1 <= bk < k
      invariant bk == -1 ==> bv == FLOOR && forall j | 0 <= j < k :: pick[j] < 0
      invariant bk >= 0 ==> pick[bk] >= 0 && bv == pickScore[bk]
      invariant bk >= 0 ==> forall j: nat | j < k && pick[j] >= 0 && j != bk :: Higher(pickScore)(bk, j)
    {
      if pick[k] >= 0 && pickScore[k] > bv {
        bv, bk := pickScore[k], k;
      }
    }
  }

  lemma LeftStep(score: seq<real>, ids: seq<nat>, pos: seq<nat>, pick: seq<int>, pickScore: seq<real>, p: nat, bk: int)
    requires forall i | 0 <= i < |ids| :: ids[i] < |score|
    requires Left(ids, pos, pick) && |pickScore| == |pick|
    requires forall i | 0 <= i < |ids| :: pickScore[i] == score[ids[i]]
    requires Leads(Higher(Pick(score, ids)), Range(0, |ids|), pos) && |pos| == Min(p, |ids|)
    requires -1 <= bk < |pick|
    requires bk == -1 ==> forall k | 0 <= k < |pick| :: pick[k] < 0
    requires bk >= 0 ==> pick[bk] >= 0 && forall k: nat | k < |pick| && pick[k] >= 0 && k != bk ::
                           Higher(pickScore)(bk, k)
    ensures bk == -1 ==> |pos| == |ids|
    ensures bk >= 0 ==> && bk < |ids| && |pos| == p && |pos| < |ids| && bk !in pos && pick[bk] == ids[bk]
                        && Left(ids, pos + [bk], pick[bk := -1])
                        && Leads(Higher(Pick(score, ids)), Range(0, |ids|), pos + [bk])
  {
    var s, all := Pick(score, ids), Range(0, |ids|);
    HigherTotal(s, all);
    RangeSize(|ids|);
    LeadsSize(Higher(s), all, pos);
    if bk == -1 {
      forall i | i in all ensures i in pos {
        assert pick[i] < 0;
      }
    } else {
      assert bk in all;
      forall i | i in all && i !in pos && i != bk ensures Higher(s)(bk, i) {
        assert pick[i] == ids[i];
        assert Higher(pickScore)(bk, i);
      }
      LeadsExtend(Higher(s), all, pos, bk);
    }
  }

  // Among the router's picks the top-p by raw score; each non-resident one adds one
  // to the shared histogram.
  method TakeTopP(pick0: seq<int>, pickScore: seq<real>, topP: nat, resident: seq<bool>, dem: array<nat>,
                  ghost score: seq<real>, ghost ids: seq<nat>)
    returns (ghost taken: seq<nat>)
    requires Picked(score, ids, pick0, pickScore) && |score| == |resident| == dem.Length
    requires forall e | 0 <= e < |score| :: score[e] > 0.0
    requires forall i, j | 0 <= i < j < |ids| :: ids[i] != ids[j]
    modifies dem
    ensures forall i | 0 <= i < |ids| :: ids[i] < |score|
    ensures var pos := Top(Pick(score, ids), Range(0, |ids|), Min(topP, |pick0|));
            (forall i | 0 <= i < |pos| :: pos[i] < |ids|) && taken == Pick(ids, pos)
    ensures forall e: nat | e < dem.Length ::
              dem[e] == old(dem[e]) + if !resident[e] && e in taken then 1 else 0
  {
    var cut := if topP < |pick0| then topP else |pick0|;
    var pick := pick0;
    ghost var pos: seq<nat> := [];
    taken := [];
    RangeSize(|ids|);
    var p := 0;
    while p < cut
      invariant 0 <= p <= cut && |pick| == |pick0| && Left(ids, pos, pick)
      invariant Leads(Higher(Pick(score, ids)), Range(0, |ids|), pos) && |pos| == Min(p, |ids|)
      invariant (forall i | 0 <= i < |pos| :: pos[i] < |ids|) && taken == Pick(ids, pos)
      invariant forall e: nat | e < dem.Length ::
                  dem[e] == old(dem[e]) + if !resident[e] && e in taken then 1 else 0
    {
      var bk := BestLeft(pick, pickScore);
      LeftStep(score, ids, pos, pick, pickScore, p, bk);
      if bk < 0 { break; }
      var e := pick[bk];
      pick := pick[bk := -1];   // consume
      assert e !in taken by { NotYetTaken(ids, pos, bk); }
      if !resident[e] { dem[e] := dem[e] + 1; }
      taken, pos := taken + [ids[bk]], pos + [bk];
      p := p + 1;
    }
    TopUnique(Pick(score, ids), Range(0, |ids|), cut, pos);
  }

  lemma NotYetTaken(ids: seq<nat>, pos: seq<nat>, bk: nat)
    requires forall i, j | 0 <= i < j < |ids| :: ids[i] != ids[j]
    requires (forall i | 0 <= i < |pos| :: pos[i] < |ids|) && bk < |ids| && bk !in pos
    ensures ids[bk] !in Pick(ids, pos)
  {
  }
}

// The whole selection phase, and the path it replaces.
module RouterSelection {
  import opened Ranking
  import opened WarpReduce
  import opened TokenChoice
  import opened RouterKernel
  import opened Arith

  // One launch's scoring inputs. `sigmoid` is abstract; `logits` is row-major with
  // stride `ld`, and token t's row starts `colOff` elements in.
  datatype Scoring = Scoring(sigmoid: real -> real, logits: seq<real>, colOff: nat, ld: nat, tokens: nat,
                             bias: seq<real>, resident: seq<bool>, topk: nat, topP: nat)
  {
    ghost predicate Valid() {
      && |bias| == |resident| && colOff + |resident| <= ld && |logits| == tokens * ld
      && forall x :: 0.0 < sigmoid(x) < 1.0
    }

    function K(): nat { if topk < 64 then topk else 64 }

    // The token's logit for an expert, past the columns before the router's.
    function Logit(t: nat, e: nat): real
      requires Valid() && t < tokens && e < |resident|
    {
      RowFits(t, tokens, ld);
      MulMono(0, t, ld);
      logits[t * ld + colOff + e]
    }

    function Score(t: nat): (s: seq<real>)
      requires Valid() && t < tokens
      ensures |s| == |resident| && forall e | 0 <= e < |s| :: s[e] > 0.0
    {
      var s := seq(|resident|, e requires 0 <= e < |resident| => sigmoid(Logit(t, e)));
      assert forall e | 0 <= e < |s| :: s[e] > 0.0 by {
        forall e | 0 <= e < |s| ensures s[e] > 0.0 { assert s[e] == sigmoid(Logit(t, e)); }
      }
      s
    }

    function Choice(t: nat): (c: seq<real>)
      requires Valid() && t < tokens
      ensures |c| == |resident|
    {
      seq(|resident|, e requires 0 <= e < |resident| => Score(t)[e] + bias[e])
    }

    ghost function Takens(): (takens: seq<seq<nat>>)
      requires Valid()
      ensures |takens| == tokens
    {
      seq(tokens, t requires 0 <= t < tokens => TokenPicks(Choice(t), Score(t), K(), topP))
    }
  }

  // One warp selects for one token and adds to the shared histogram.
  method WarpSelect(sc: Scoring, t: nat, width: nat, perLane: nat, dem: array<nat>)
    requires sc.Valid() && t < sc.tokens && IsPow2(width)
    requires |sc.resident| == width * perLane == dem.Length && dem.Length <= INT_MAX
    modifies dem
    ensures forall e: nat | e < dem.Length ::
              dem[e] == old(dem[e]) + if !sc.resident[e] && e in sc.Takens()[t] then 1 else 0
  {
    var score, choice := sc.Score(t), sc.Choice(t);
    var pick, pickScore := WarpTopK(choice, score, sc.K(), width, perLane);
    ghost var ids := RouterTop(choice, sc.K());
    HigherTotal(choice, Eligible(choice));
    LeadsSize(Higher(choice), Eligible(choice), ids);
    ghost var taken := TakeTopP(pick, pickScore, sc.topP, sc.resident, dem, score, ids);
    RangeSize(|ids|);
    TopUnique(Pick(score, ids), Range(0, |ids|), sc.topP,
              Top(Pick(score, ids), Range(0, |ids|), Min(sc.topP, |pick|)));
    assert taken == TokenPicks(choice, score, sc.K(), sc.topP);
  }

  // The warps run in any order: `schedule` names each token once.
  method SelectDemand(sc: Scoring, width: nat, perLane: nat, schedule: seq<nat>, dem: array<nat>)
    requires sc.Valid() && IsPow2(width)
    requires |sc.resident| == width * perLane == dem.Length && dem.Length <= INT_MAX
    requires (forall i, j | 0 <= i < j < |schedule| :: schedule[i] != schedule[j])
    requires forall t :: t in schedule <==> 0 <= t < sc.tokens
    modifies dem
    ensures IsDemand(sc.Takens(), sc.resident, dem[..])
  {
    for i := 0 to dem.Length
      invariant forall e | 0 <= e < i :: dem[e] == 0
    {
      dem[i] := 0;
    }
    ghost var takens := sc.Takens();
    assert forall e: nat | e < dem.Length :: AskersIn(takens, schedule[..0], e) == {};
    for i := 0 to |schedule|
      invariant forall e: nat | e < dem.Length ::
                  dem[e] == if sc.resident[e] then 0 else |AskersIn(takens, schedule[..i], e)|
    {
      assert schedule[i] in schedule;
      WarpSelect(sc, schedule[i], width, perLane, dem);
      AskersGrow(takens, schedule, i);
    }
    assert schedule[..|schedule|] == schedule;
    forall e: nat | e < dem.Length ensures AskersIn(takens, schedule, e) == Askers(takens, e) {
    }
  }

  ghost function AskersIn(takens: seq<seq<nat>>, done: seq<nat>, e: nat): set<nat> {
    set t: nat | t < |takens| && t in done && e in takens[t]
  }

  lemma AskersGrow(takens: seq<seq<nat>>, schedule: seq<nat>, i: nat)
    requires i < |schedule| && schedule[i] < |takens|
    requires forall j, k | 0 <= j < k < |schedule| :: schedule[j] != schedule[k]
    ensures forall e: nat ::
              |AskersIn(takens, schedule[..i + 1], e)| ==
              |AskersIn(takens, schedule[..i], e)| + if e in takens[schedule[i]] then 1 else 0
  {
    var t := schedule[i];
    assert schedule[..i + 1] == schedule[..i] + [t];
    assert t !in schedule[..i];
    forall e: nat
      ensures |AskersIn(takens, schedule[..i + 1], e)| ==
              |AskersIn(takens, schedule[..i], e)| + if e in takens[t] then 1 else 0
    {
      var before, after := AskersIn(takens, schedule[..i], e), AskersIn(takens, schedule[..i + 1], e);
      assert after == if e in takens[t] then before + {t} else before;
    }
  }

  // Only non-resident experts are ever wanted.
  lemma DemandIsNonResident(takens: seq<seq<nat>>, resident: seq<bool>, dem: seq<nat>, e: nat)
    requires IsDemand(takens, resident, dem) && e < |dem|
    ensures dem[e] > 0 <==> !resident[e] && exists t :: 0 <= t < |takens| && e in takens[t]
  {
    if !resident[e] && exists t :: 0 <= t < |takens| && e in takens[t] {
      var t: nat :| t < |takens| && e in takens[t];
      assert t in Askers(takens, e);
    }
    if dem[e] > 0 {
      var t :| t in Askers(takens, e);
    }
  }

  // ---- the tensor path: topk, gather, renormalise, topk, index_add -----------------

  // The kernel's router pick is a plain top-k of the choices exactly when at least k
  // of them lie above the kernel's "no candidate" value.
  lemma PlainTopK(choice: seq<real>, k: nat, ids: seq<nat>)
    requires k <= |choice| && |ids| == k && Leads(Higher(choice), Range(0, |choice|), ids)
    ensures ids == RouterTop(choice, k) <==> k <= |Eligible(choice)|
  {
    var all, elig := Range(0, |choice|), Eligible(choice);
    HigherTotal(choice, all);
    HigherTotal(choice, elig);
    RangeSize(|choice|);
    if k <= |elig| {
      var top := RouterTop(choice, k);
      forall i, e | 0 <= i < |top| && e in all && e !in top ensures Higher(choice)(top[i], e) {
        assert top[i] in elig;
        if e in elig { assert Higher(choice)(top[i], e); }
      }
      assert forall i | 0 <= i < |top| :: top[i] in all;
      LeadsUnique(Higher(choice), all, ids, top);
    }
  }

  // Dividing every weight by one positive number leaves the top-p where it was, so
  // the kernel may skip the renormalisation: same picks, in the same order.
  lemma PathsAgree(choice: seq<real>, score: seq<real>, k: nat, p: nat,
                   ids: seq<nat>, sum: real, w: seq<real>, pos: seq<nat>)
    requires |score| == |choice| && p <= k <= |Eligible(choice)| && k <= |choice|
    requires |ids| == k && Leads(Higher(choice), Range(0, |choice|), ids)
    requires forall i | 0 <= i < k :: ids[i] < |score|
    requires |w| == k && sum > 0.0 && forall i | 0 <= i < k :: w[i] == score[ids[i]] / sum
    requires |pos| == p && Leads(Higher(w), Range(0, k), pos)
    ensures forall i | 0 <= i < p :: pos[i] < k
    ensures Pick(ids, pos) == TokenPicks(choice, score, k, p)
  {
    PlainTopK(choice, k, ids);
    var s := Pick(score, ids);
    forall a: nat, b: nat ensures Higher(w)(a, b) == Higher(s)(a, b) {
      if a < k && b < k { DivideKeepsOrder(s[a], s[b], sum); }
    }
    RangeSize(k);
    TopUnique(s, Range(0, k), p, pos);
    PosBelow(s, k, p);
  }

  lemma DivideKeepsOrder(x: real, y: real, d: real)
    requires d > 0.0
    ensures x / d > y / d <==> x > y
    ensures x / d == y / d <==> x == y
  {
    assert x / d - y / d == (x - y) / d;
    assert (x - y) / d * d == x - y;
  }

  ghost function Flatten(takens: seq<seq<nat>>): seq<nat> {
    if takens == [] then [] else Flatten(takens[..|takens| - 1]) + takens[|takens| - 1]
  }

  // demand.index_add_(0, flat, ~resident[flat])
  method IndexAdd(flat: seq<nat>, resident: seq<bool>) returns (dem: array<nat>)
    requires forall i | 0 <= i < |flat| :: flat[i] < |resident|
    ensures fresh(dem) && dem.Length == |resident|
    ensures forall e: nat | e < |resident| :: dem[e] == if resident[e] then 0 else multiset(flat)[e]
  {
    dem := new nat[|resident|](_ => 0);
    for i := 0 to |flat|
      invariant forall e: nat | e < |resident| :: dem[e] == if resident[e] then 0 else multiset(flat[..i])[e]
    {
      assert flat[..i + 1] == flat[..i] + [flat[i]];
      if !resident[flat[i]] { dem[flat[i]] := dem[flat[i]] + 1; }
    }
    assert flat[..|flat|] == flat;
  }

  // Both paths count the same thing.
  lemma {:induction false} FlatCounts(takens: seq<seq<nat>>, e: nat)
    requires forall t | 0 <= t < |takens| ::
               forall i, j | 0 <= i < j < |takens[t]| :: takens[t][i] != takens[t][j]
    ensures multiset(Flatten(takens))[e] == |Askers(takens, e)|
  {
    if takens != [] {
      var n := |takens| - 1;
      var init, last := takens[..n], takens[n];
      FlatCounts(init, e);
      DistinctCount(last, e);
      assert Askers(takens, e) == if e in last then Askers(init, e) + {n} else Askers(init, e);
    }
  }

  lemma {:induction false} DistinctCount(s: seq<nat>, e: nat)
    requires forall i, j | 0 <= i < j < |s| :: s[i] != s[j]
    ensures multiset(s)[e] == if e in s then 1 else 0
  {
    if s != [] {
      DistinctCount(s[1..], e);
      assert s == [s[0]] + s[1..];
    }
  }

  // torch.sigmoid of the router's columns, and those plus the correction bias.
  ghost predicate IsScoring(sc: Scoring, t: nat, score: seq<real>, choice: seq<real>)
    requires sc.Valid() && t < sc.tokens
  {
    && |score| == |choice| == |sc.resident|
    && forall e: nat | e < |choice| ::
         && 0 <= t * sc.ld && t * sc.ld + sc.colOff + e < |sc.logits|
         && score[e] == sc.sigmoid(sc.logits[t * sc.ld + sc.colOff + e]) && choice[e] == score[e] + sc.bias[e]
  }

  // One token on the tensor path: top-k of the choices, the chosen scores over their sum,
  // top-p of those.
  ghost predicate IsReferenceRow(sc: Scoring, score: seq<real>, choice: seq<real>, ids: seq<nat>, sum: real,
                                 w: seq<real>, pos: seq<nat>)
    requires |score| == |choice|
  {
    && |ids| == |w| == sc.topk && Leads(Higher(choice), Range(0, |choice|), ids)
    && (forall i | 0 <= i < |ids| :: ids[i] < |score|)
    && sum > 0.0 && (forall i | 0 <= i < |w| :: w[i] == score[ids[i]] / sum)
    && |pos| == sc.topP && Leads(Higher(w), Range(0, sc.topk), pos) && forall i | 0 <= i < |pos| :: pos[i] < sc.topk
  }

  ghost predicate IsReferencePick(sc: Scoring, t: nat, picks: seq<nat>)
    requires sc.Valid() && t < sc.tokens
  {
    exists score: seq<real>, choice: seq<real>, ids: seq<nat>, sum: real, w: seq<real>, pos: seq<nat> ::
      IsScoring(sc, t, score, choice) && IsReferenceRow(sc, score, choice, ids, sum, w, pos) && picks == Pick(ids, pos)
  }

  // The kernel's limits leave the token alone: enough choices above its "no candidate"
  // value, and no more than its list holds.
  ghost predicate Unclipped(sc: Scoring, t: nat)
    requires sc.Valid() && t < sc.tokens
  {
    && sc.topP <= sc.topk <= 64
    && forall score, choice | IsScoring(sc, t, score, choice) :: sc.topk <= |Eligible(choice)|
  }

  lemma ScoringAt(sc: Scoring, t: nat, e: nat)
    requires sc.Valid() && t < sc.tokens && e < |sc.resident|
    ensures 0 <= t * sc.ld && t * sc.ld + sc.colOff + e < |sc.logits|
    ensures sc.Score(t)[e] == sc.sigmoid(sc.logits[t * sc.ld + sc.colOff + e])
    ensures sc.Choice(t)[e] == sc.sigmoid(sc.logits[t * sc.ld + sc.colOff + e]) + sc.bias[e]
  {
    RowFits(t, sc.tokens, sc.ld);
    MulMono(0, t, sc.ld);
    assert sc.Logit(t, e) == sc.logits[t * sc.ld + sc.colOff + e];
  }

  lemma ScoringIs(sc: Scoring, t: nat, score: seq<real>, choice: seq<real>)
    requires sc.Valid() && t < sc.tokens && IsScoring(sc, t, score, choice)
    ensures score == sc.Score(t) && choice == sc.Choice(t)
  {
    forall e: nat | e < |choice| ensures score[e] == sc.Score(t)[e] && choice[e] == sc.Choice(t)[e] {
      ScoringAt(sc, t, e);
    }
  }

  lemma ReferenceRowAgrees(sc: Scoring, t: nat, ids: seq<nat>, sum: real, w: seq<real>, pos: seq<nat>)
    requires sc.Valid() && t < sc.tokens && sc.topP <= sc.topk <= |Eligible(sc.Choice(t))|
    requires IsReferenceRow(sc, sc.Score(t), sc.Choice(t), ids, sum, w, pos)
    ensures Pick(ids, pos) == TokenPicks(sc.Choice(t), sc.Score(t), sc.topk, sc.topP)
  {
    RangeSize(|sc.resident|);
    SubsetSize(Eligible(sc.Choice(t)), Range(0, |sc.resident|));
    PathsAgree(sc.Choice(t), sc.Score(t), sc.topk, sc.topP, ids, sum, w, pos);
  }

  lemma ReferencePicksAgree(sc: Scoring, t: nat, picks: seq<nat>)
    requires sc.Valid() && t < sc.tokens && Unclipped(sc, t) && IsReferencePick(sc, t, picks)
    ensures picks == sc.Takens()[t] && forall i, j | 0 <= i < j < |picks| :: picks[i] != picks[j]
  {
    var score: seq<real>, choice: seq<real>, ids: seq<nat>, sum: real, w: seq<real>, pos: seq<nat> :|
      IsScoring(sc, t, score, choice) && IsReferenceRow(sc, score, choice, ids, sum, w, pos) && picks == Pick(ids, pos);
    ScoringIs(sc, t, score, choice);
    ReferenceRowAgrees(sc, t, ids, sum, w, pos);
    TokenPicksDistinct(sc.Choice(t), sc.Score(t), sc.topk, sc.topP);
  }

  // THE agreement of the two paths: the tensor path's scatter-add over every token's picks
  // is the very histogram the kernel's warps count.
  lemma HistogramsAgree(sc: Scoring, picks: seq<seq<nat>>, dem: seq<nat>)
    requires sc.Valid() && |picks| == sc.tokens
    requires forall t: nat | t < sc.tokens :: Unclipped(sc, t) && IsReferencePick(sc, t, picks[t])
    requires |dem| == |sc.resident|
    requires forall e: nat | e < |dem| :: dem[e] == if sc.resident[e] then 0 else multiset(Flatten(picks))[e]
    ensures IsDemand(sc.Takens(), sc.resident, dem)
  {
    forall t: nat | t < sc.tokens
      ensures picks[t] == sc.Takens()[t] && forall i, j | 0 <= i < j < |picks[t]| :: picks[t][i] != picks[t][j]
    {
      ReferencePicksAgree(sc, t, picks[t]);
    }
    assert picks == sc.Takens();
    forall e: nat | e < |dem| ensures multiset(Flatten(picks))[e] == |Askers(picks, e)| {
      FlatCounts(picks, e);
    }
  }

  // ---- conservation: the histogram's total is the number of non-resident picks ------

  ghost function NonResident(flat: seq<nat>, resident: seq<bool>): nat
    requires forall i | 0 <= i < |flat| :: flat[i] < |resident|
  {
    if flat == [] then 0
    else NonResident(flat[..|flat| - 1], resident) + if resident[flat[|flat| - 1]] then 0 else 1
  }

  lemma {:induction false} DemandTotal(flat: seq<nat>, resident: seq<bool>, dem: seq<int>)
    requires (forall i | 0 <= i < |flat| :: flat[i] < |resident|) && |dem| == |resident|
    requires forall e: nat | e < |dem| :: dem[e] == if resident[e] then 0 else multiset(flat)[e]
    ensures Sum(dem) == NonResident(flat, resident)
  {
    if flat == [] {
      SumZero(dem);
    } else {
      var n := |flat| - 1;
      var init, e := flat[..n], flat[n];
      assert flat == init + [e];
      if resident[e] {
        DemandTotal(init, resident, dem);
      } else {
        DemandTotal(init, resident, dem[e := dem[e] - 1]);
        SumUpdate(dem, e, dem[e] - 1);
      }
    }
  }

  lemma {:induction false} SumZero(s: seq<int>)
    requires forall i | 0 <= i < |s| :: s[i] == 0
    ensures Sum(s) == 0
  {
    if s != [] { SumZero(s[..|s| - 1]); }
  }

  lemma {:induction false} SumUpdate(s: seq<int>, i: nat, x: int)
    requires i < |s|
    ensures Sum(s[i := x]) == Sum(s) - s[i] + x
  {
    var n := |s| - 1;
    if i < n {
      SumUpdate(s[..n], i, x);
      assert s[i := x][..n] == s[..n][i := x];
    } else {
      assert s[i := x][..n] == s[..n];
    }
  }
}
