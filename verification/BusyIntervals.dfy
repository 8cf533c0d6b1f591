// How long the GPU was busy: merging overlapping event intervals, their total length, and
// the gaps between them.

module BusyIntervals {
  import opened RealArith

  datatype Interval = Interval(s: real, e: real)

  ghost predicate Proper(iv: seq<Interval>) { forall i | 0 <= i < |iv| :: iv[i].s <= iv[i].e }

  // x lies in one of the intervals.
  ghost predicate Covered(iv: seq<Interval>, x: real) { exists i :: 0 <= i < |iv| && iv[i].s <= x <= iv[i].e }

  // In order with daylight between neighbours.
  ghost predicate Separated(m: seq<Interval>) {
    Proper(m) && forall i, j | 0 <= i < j < |m| :: m[i].e < m[j].s
  }

  ghost predicate SameCover(a: seq<Interval>, b: seq<Interval>) { forall x :: Covered(a, x) <==> Covered(b, x) }

  ghost function Total(m: seq<Interval>): real {
    if m == [] then 0.0 else Total(m[..|m| - 1]) + (m[|m| - 1].e - m[|m| - 1].s)
  }

  // ---- sorting ---------------------------------------------------------------------------------------------

  predicate Before(a: Interval, b: Interval) { a.s < b.s || (a.s == b.s && a.e <= b.e) }

  function Insert(x: Interval, iv: seq<Interval>): seq<Interval> {
    if iv == [] then [x]
    else if Before(iv[|iv| - 1], x) then iv + [x]
    else Insert(x, iv[..|iv| - 1]) + [iv[|iv| - 1]]
  }

  // The library sort on pairs.
  function Sorted(iv: seq<Interval>): seq<Interval> {
    if iv == [] then [] else Insert(iv[|iv| - 1], Sorted(iv[..|iv| - 1]))
  }

  ghost predicate Ordered(iv: seq<Interval>) { forall i, j | 0 <= i < j < |iv| :: Before(iv[i], iv[j]) }

  lemma {:induction false} InsertContents(x: Interval, iv: seq<Interval>)
    ensures multiset(Insert(x, iv)) == multiset(iv) + multiset{x}
  {
    if iv != [] {
      var last, init := iv[|iv| - 1], iv[..|iv| - 1];
      assert iv == init + [last];
      if !Before(last, x) { InsertContents(x, init); }
    }
  }

  lemma {:induction false} InsertOrders(x: Interval, iv: seq<Interval>)
    requires Ordered(iv)
    ensures Ordered(Insert(x, iv))
  {
    if iv != [] && !Before(iv[|iv| - 1], x) {
      var last, init := iv[|iv| - 1], iv[..|iv| - 1];
      InsertOrders(x, init);
      var rest := Insert(x, init);
      InsertContents(x, init);
      forall i | 0 <= i < |rest| ensures Before(rest[i], last) {
        assert rest[i] in multiset(rest);
        FromInitOr(init, x, rest[i]);
      }
    }
  }

  lemma FromInitOr(init: seq<Interval>, x: Interval, y: Interval)
    requires y in multiset(init) + multiset{x}
    ensures y == x || y in init
  {
    assert y in multiset(init) || y == x;
  }

  lemma {:induction false} SortedOrders(iv: seq<Interval>)
    ensures Ordered(Sorted(iv)) && multiset(Sorted(iv)) == multiset(iv)
  {
    if iv != [] {
      var init := iv[..|iv| - 1];
      assert iv == init + [iv[|iv| - 1]];
      SortedOrders(init);
      InsertOrders(iv[|iv| - 1], Sorted(init));
      InsertContents(iv[|iv| - 1], Sorted(init));
    }
  }

  // ---- merging -----------------------------------------------------------------------------------------------

  // Extends the last block if the interval touches it, else starts another.
  function Push(m: seq<Interval>, x: Interval): seq<Interval> {
    if m != [] && x.s <= m[|m| - 1].e then m[..|m| - 1] + [Interval(m[|m| - 1].s, Max(m[|m| - 1].e, x.e))]
    else m + [x]
  }

  function Merged(iv: seq<Interval>): seq<Interval> {
    if iv == [] then [] else Push(Merged(iv[..|iv| - 1]), iv[|iv| - 1])
  }

  ghost predicate StartsBy(m: seq<Interval>, t: real) { forall i | 0 <= i < |m| :: m[i].s <= t }

  lemma PushKeeps(m: seq<Interval>, x: Interval)
    requires Separated(m) && x.s <= x.e && StartsBy(m, x.s)
    ensures Separated(Push(m, x)) && Push(m, x) != [] && StartsBy(Push(m, x), x.s)
  {
  }

  lemma PushCovers(m: seq<Interval>, x: Interval, p: real)
    requires Separated(m) && x.s <= x.e && StartsBy(m, x.s)
    ensures Covered(Push(m, x), p) <==> Covered(m, p) || x.s <= p <= x.e
  {
    var n := Push(m, x);
    if m != [] && x.s <= m[|m| - 1].e {
      var k := |m| - 1;
      assert n[k] == Interval(m[k].s, Max(m[k].e, x.e));
      if Covered(m, p) {
        var i :| 0 <= i < |m| && m[i].s <= p <= m[i].e;
        assert n[i].s <= p <= n[i].e;
      }
      if x.s <= p <= x.e { assert n[k].s <= p <= n[k].e; }
      if Covered(n, p) {
        var i :| 0 <= i < |n| && n[i].s <= p <= n[i].e;
        if i < k { assert n[i] == m[i]; } else { assert m[k].s <= p; }
      }
    } else {
      if Covered(m, p) {
        var i :| 0 <= i < |m| && m[i].s <= p <= m[i].e;
        assert n[i] == m[i];
      }
      if x.s <= p <= x.e { assert n[|m|] == x; }
      if Covered(n, p) {
        var i :| 0 <= i < |n| && n[i].s <= p <= n[i].e;
        if i < |m| { assert n[i] == m[i]; }
      }
    }
  }

  ghost predicate StartsOrdered(iv: seq<Interval>) { forall i, j | 0 <= i < j < |iv| :: iv[i].s <= iv[j].s }

  lemma {:induction false} MergedSeparates(iv: seq<Interval>)
    requires Proper(iv) && StartsOrdered(iv)
    ensures Separated(Merged(iv)) && (iv != [] ==> Merged(iv) != [] && StartsBy(Merged(iv), iv[|iv| - 1].s))
  {
    if iv != [] {
      PrefixReady(iv);
      PushKeeps(Merged(iv[..|iv| - 1]), iv[|iv| - 1]);
    }
  }

  // What came before the last interval is separated and starts no later.
  lemma {:induction false} PrefixReady(iv: seq<Interval>)
    requires Proper(iv) && StartsOrdered(iv) && iv != []
    ensures var m := Merged(iv[..|iv| - 1]); Separated(m) && StartsBy(m, iv[|iv| - 1].s)
    decreases iv, 0
  {
    var init := iv[..|iv| - 1];
    if init != [] {
      assert init[|init| - 1].s <= iv[|iv| - 1].s;
      PrefixReady(init);
      PushKeeps(Merged(init[..|init| - 1]), init[|init| - 1]);
    }
  }

  lemma {:induction false} MergedCovers(iv: seq<Interval>, p: real)
    requires Proper(iv) && StartsOrdered(iv)
    ensures Covered(Merged(iv), p) <==> Covered(iv, p)
  {
    if iv != [] {
      var init, x := iv[..|iv| - 1], iv[|iv| - 1];
      MergedCovers(init, p);
      PrefixReady(iv);
      PushCovers(Merged(init), x, p);
      CoveredAppend(init, x, p);
      assert iv == init + [x];
    }
  }

  // Merging sorted intervals separates them and changes no point.
  lemma MergedIsCanonical(iv: seq<Interval>)
    requires Proper(iv) && StartsOrdered(iv)
    ensures Separated(Merged(iv)) && SameCover(Merged(iv), iv)
  {
    MergedSeparates(iv);
    forall p ensures Covered(Merged(iv), p) <==> Covered(iv, p) { MergedCovers(iv, p); }
  }

  lemma CoveredAppend(init: seq<Interval>, x: Interval, p: real)
    ensures Covered(init + [x], p) <==> Covered(init, p) || x.s <= p <= x.e
  {
    var n := init + [x];
    if Covered(init, p) {
      var i :| 0 <= i < |init| && init[i].s <= p <= init[i].e;
      assert n[i] == init[i];
    }
    if x.s <= p <= x.e { assert n[|init|] == x; }
  }

  // ---- the separated form is unique ----------------------------------------------------------------------

  // Two separated lists covering the same points are the same list.
  lemma {:induction false} SeparatedIsUnique(a: seq<Interval>, b: seq<Interval>)
    requires Separated(a) && Separated(b) && SameCover(a, b)
    ensures a == b
    decreases |a|
  {
    if a == [] {
      if b != [] { StartsCovered(b, 0); }
    } else {
      StartsCovered(a, 0);
      assert Covered(b, a[0].s);
      SameHead(a, b);
      SameHead(b, a);
      assert a[0] == b[0];
      TailsCover(a, b);
      SeparatedIsUnique(a[1..], b[1..]);
      assert a == [a[0]] + a[1..] && b == [b[0]] + b[1..];
    }
  }

  lemma StartsCovered(a: seq<Interval>, i: nat)
    requires Proper(a) && i < |a|
    ensures Covered(a, a[i].s) && Covered(a, a[i].e)
  {
  }

  lemma SameHead(a: seq<Interval>, b: seq<Interval>)
    requires Separated(a) && Separated(b) && SameCover(a, b) && a != [] && b != []
    ensures a[0].s >= b[0].s
    ensures a[0].s == b[0].s ==> a[0].e <= b[0].e
  {
    StartsCovered(a, 0);
    assert Covered(b, a[0].s);
    if a[0].s == b[0].s && a[0].e > b[0].e { var x := PointPast(a, b); }
  }

  // A point of a's first block just past the end of b's.
  lemma PointPast(a: seq<Interval>, b: seq<Interval>) returns (x: real)
    requires Separated(a) && Separated(b) && a != [] && b != [] && a[0].s <= b[0].e < a[0].e
    ensures Covered(a, x) && !Covered(b, x)
  {
    x := if |b| > 1 && b[1].s <= a[0].e then (b[0].e + b[1].s) / 2.0 else a[0].e;
    assert a[0].s <= x <= a[0].e;
    forall i | 0 <= i < |b| ensures !(b[i].s <= x <= b[i].e) {
      if i > 1 { assert b[1].s <= b[1].e < b[i].s; }
    }
  }

  lemma TailsCover(a: seq<Interval>, b: seq<Interval>)
    requires Separated(a) && Separated(b) && SameCover(a, b) && a != [] && b != [] && a[0] == b[0]
    ensures Separated(a[1..]) && Separated(b[1..]) && SameCover(a[1..], b[1..])
  {
    forall x ensures Covered(a[1..], x) <==> Covered(b[1..], x) {
      TailCovers(a, x);
      TailCovers(b, x);
      assert Covered(a, x) <==> Covered(b, x);
    }
  }

  lemma TailCovers(a: seq<Interval>, x: real)
    requires Separated(a) && a != []
    ensures Covered(a[1..], x) <==> Covered(a, x) && x > a[0].e
  {
    if Covered(a[1..], x) {
      var i :| 0 <= i < |a[1..]| && a[1..][i].s <= x <= a[1..][i].e;
      var next := i + 1;
      assert a[next] == a[1..][i];
      assert a[0].e < a[next].s;
    }
    if Covered(a, x) && x > a[0].e {
      var i :| 0 <= i < |a| && a[i].s <= x <= a[i].e;
      assert a[1..][i - 1] == a[i];
    }
  }

  // ---- the two programs -------------------------------------------------------------------------------------

  // What sorting then merging makes of any list.
  function Blocks(iv: seq<Interval>): seq<Interval> { Merged(Sorted(iv)) }

  lemma SameMembers(a: seq<Interval>, b: seq<Interval>, x: real)
    requires multiset(a) == multiset(b)
    ensures Covered(a, x) ==> Covered(b, x)
  {
    if Covered(a, x) {
      var i :| 0 <= i < |a| && a[i].s <= x <= a[i].e;
      assert a[i] in multiset(b);
      assert a[i] in b;
    }
  }

  lemma SortedProper(iv: seq<Interval>)
    requires Proper(iv)
    ensures Proper(Sorted(iv)) && StartsOrdered(Sorted(iv)) && multiset(Sorted(iv)) == multiset(iv)
  {
    SortedOrders(iv);
    var s := Sorted(iv);
    forall i | 0 <= i < |s| ensures s[i].s <= s[i].e {
      assert s[i] in multiset(iv);
      assert s[i] in iv;
    }
    forall i, j | 0 <= i < j < |s| ensures s[i].s <= s[j].s { assert Before(s[i], s[j]); }
  }

  // The blocks are the one separated list with the events' points.
  lemma BlocksAreTheUnion(iv: seq<Interval>, m: seq<Interval>)
    requires Proper(iv)
    ensures Separated(m) && SameCover(m, iv) <==> m == Blocks(iv)
  {
    SortedProper(iv);
    MergedIsCanonical(Sorted(iv));
    forall x ensures Covered(Blocks(iv), x) <==> Covered(iv, x) {
      assert Covered(Merged(Sorted(iv)), x) <==> Covered(Sorted(iv), x);
      SameMembers(iv, Sorted(iv), x);
      SameMembers(Sorted(iv), iv, x);
    }
    if Separated(m) && SameCover(m, iv) {
      forall x ensures Covered(m, x) <==> Covered(Blocks(iv), x) {
        assert Covered(m, x) <==> Covered(iv, x);
      }
      SeparatedIsUnique(m, Blocks(iv));
    }
  }

  // So busy time depends only on the points covered, not on how events split or overlap.
  lemma BusyDependsOnPoints(a: seq<Interval>, b: seq<Interval>)
    requires Proper(a) && Proper(b) && SameCover(a, b)
    ensures Total(Blocks(a)) == Total(Blocks(b))
  {
    BlocksAreTheUnion(a, Blocks(a));
    forall x ensures Covered(Blocks(a), x) <==> Covered(b, x) {
      assert Covered(Blocks(a), x) <==> Covered(a, x);
      assert Covered(a, x) <==> Covered(b, x);
    }
    BlocksAreTheUnion(b, Blocks(a));
  }

  // How a push changes the last block and what stands before it.
  lemma PushShape(m: seq<Interval>, x: Interval)
    requires m != []
    ensures var n, last := Push(m, x), m[|m| - 1];
            && n != []
            && n[..|n| - 1] == (if x.s > last.e then m else m[..|m| - 1])
            && n[|n| - 1] == if x.s > last.e then x else Interval(last.s, Max(last.e, x.e))
  {
  }

  lemma TotalPush(m: seq<Interval>, x: Interval)
    requires Separated(m) && x.s <= x.e && StartsBy(m, x.s)
    ensures Total(m) <= Total(Push(m, x)) <= Total(m) + (x.e - x.s)
  {
    if m != [] { PushShape(m, x); } else { assert Push(m, x)[..0] == []; }
  }

  // Overlap is counted once: busy time is at most the events' durations added up.
  lemma {:induction false} BusyAtMostDurations(iv: seq<Interval>)
    requires Proper(iv) && StartsOrdered(iv)
    ensures 0.0 <= Total(Merged(iv)) <= Total(iv)
  {
    if iv != [] {
      var init, x := iv[..|iv| - 1], iv[|iv| - 1];
      BusyAtMostDurations(init);
      PrefixReady(iv);
      TotalPush(Merged(init), x);
    }
  }

  // The running union: what is closed so far, and the block still open.
  method Union(intervals: seq<Interval>) returns (tot: real)
    requires Proper(intervals)
    ensures tot == Total(Blocks(intervals))
  {
    if intervals == [] { return 0.0; }
    var iv := Sorted(intervals);
    SortedOrders(intervals);
    assert |iv| == |multiset(intervals)|;
    var cs, ce := iv[0].s, iv[0].e;
    tot := 0.0;
    ghost var closed: seq<Interval> := [];
    FirstBlock(iv);
    for i := 1 to |iv|
      invariant Merged(iv[..i]) == closed + [Interval(cs, ce)] && tot == Total(closed)
    {
      var x := iv[i];
      MergedStep(iv, i);
      PushOpen(closed, Interval(cs, ce), x);
      if x.s > ce {
        TotalAppend(closed, Interval(cs, ce));
        closed := closed + [Interval(cs, ce)];
        tot := tot + (ce - cs);
        cs, ce := x.s, x.e;
      } else {
        ce := Max(ce, x.e);
      }
    }
    assert iv[..|iv|] == iv;
    TotalAppend(closed, Interval(cs, ce));
    tot := tot + (ce - cs);
  }

  lemma PushOpen(closed: seq<Interval>, last: Interval, x: Interval)
    ensures Push(closed + [last], x) ==
            if x.s > last.e then (closed + [last]) + [x] else closed + [Interval(last.s, Max(last.e, x.e))]
  {
    assert (closed + [last])[..|closed|] == closed;
  }

  lemma TotalAppend(m: seq<Interval>, x: Interval)
    ensures Total(m + [x]) == Total(m) + (x.e - x.s)
  {
    assert (m + [x])[..|m|] == m;
  }

  lemma FirstBlock(iv: seq<Interval>)
    requires iv != []
    ensures Merged(iv[..1]) == [iv[0]]
  {
    assert iv[..1][..0] == [];
  }

  lemma MergedStep(iv: seq<Interval>, i: nat)
    requires i < |iv|
    ensures Merged(iv[..i + 1]) == Push(Merged(iv[..i]), iv[i])
  {
    assert iv[..i + 1][..i] == iv[..i];
  }

  datatype Gap = Gap(start: real, stop: real)

  ghost function GapTotal(g: seq<Gap>): real {
    if g == [] then 0.0 else GapTotal(g[..|g| - 1]) + (g[|g| - 1].stop - g[|g| - 1].start)
  }

  // The blocks, the idle stretches between them, and the times.
  method IdleReport(intervals: seq<Interval>)
    returns (merged: seq<Interval>, gaps: seq<Gap>, span: real, busy: real, idle: real)
    requires Proper(intervals) && intervals != []
    ensures merged == Blocks(intervals)
    ensures merged != [] && span == merged[|merged| - 1].e - merged[0].s
    ensures busy == Total(merged)
    ensures idle == GapTotal(gaps) && busy + idle == span
    ensures |gaps| == |merged| - 1
    ensures forall i | 0 <= i < |gaps| :: gaps[i] == Gap(merged[i].e, merged[i + 1].s) && gaps[i].start < gaps[i].stop
  {
    var iv := Sorted(intervals);
    SortedProper(intervals);
    assert |iv| == |multiset(intervals)|;
    merged := MergeAll(iv);
    MergedSeparates(iv);
    span := merged[|merged| - 1].e - merged[0].s;
    busy := SumBlocks(merged);
    idle := span - busy;
    gaps := FindGaps(merged);
    BusyAndGaps(merged, gaps);
  }

  // The merge loop: the last block grows in place or another is appended.
  method MergeAll(iv: seq<Interval>) returns (merged: seq<Interval>)
    ensures merged == Merged(iv)
  {
    merged := [];
    for i := 0 to |iv|
      invariant merged == Merged(iv[..i])
    {
      MergedStep(iv, i);
      var x, k := iv[i], |merged|;
      if k > 0 && x.s <= merged[k - 1].e {
        merged := merged[k - 1 := Interval(merged[k - 1].s, Max(merged[k - 1].e, x.e))];
      } else {
        merged := merged + [x];
      }
    }
    assert iv[..|iv|] == iv;
  }

  method SumBlocks(m: seq<Interval>) returns (t: real)
    ensures t == Total(m)
  {
    t := 0.0;
    for i := 0 to |m|
      invariant t == Total(m[..i])
    {
      assert m[..i + 1][..i] == m[..i];
      t := t + (m[i].e - m[i].s);
    }
    assert m[..|m|] == m;
  }

  method FindGaps(m: seq<Interval>) returns (gaps: seq<Gap>)
    requires m != [] && Separated(m)
    ensures |gaps| == |m| - 1
    ensures forall i | 0 <= i < |gaps| :: gaps[i] == Gap(m[i].e, m[i + 1].s) && gaps[i].start < gaps[i].stop
  {
    gaps := [];
    for i := 1 to |m|
      invariant |gaps| == i - 1
      invariant forall j | 0 <= j < |gaps| :: gaps[j] == Gap(m[j].e, m[j + 1].s) && gaps[j].start < gaps[j].stop
    {
      if m[i].s > m[i - 1].e { gaps := gaps + [Gap(m[i - 1].e, m[i].s)]; }
    }
  }

  // Busy and idle make up the span, to the last microsecond.
  lemma {:induction false} BusyAndGaps(m: seq<Interval>, gaps: seq<Gap>)
    requires m != [] && |gaps| == |m| - 1
    requires forall i | 0 <= i < |gaps| :: gaps[i] == Gap(m[i].e, m[i + 1].s)
    ensures Total(m) + GapTotal(gaps) == m[|m| - 1].e - m[0].s
    decreases |m|
  {
    var k := |m| - 1;
    if k > 0 {
      BusyAndGaps(m[..k], gaps[..k - 1]);
      assert gaps[k - 1] == Gap(m[k - 1].e, m[k - 1 + 1].s);
    } else {
      assert m[..0] == [] && Total(m[..0]) == 0.0;
    }
  }

  // The span is the events' own: nothing starts before the first block or ends after the last.
  lemma SpanIsExtent(iv: seq<Interval>, k: nat)
    requires Proper(iv) && k < |iv|
    ensures Blocks(iv) != [] && Blocks(iv)[0].s <= iv[k].s && iv[k].e <= Blocks(iv)[|Blocks(iv)| - 1].e
  {
    var m := Blocks(iv);
    BlocksAreTheUnion(iv, m);
    StartsCovered(iv, k);
    assert Covered(m, iv[k].s) && Covered(m, iv[k].e);
    Within(m, iv[k].s);
    Within(m, iv[k].e);
  }

  lemma Within(m: seq<Interval>, x: real)
    requires Separated(m) && Covered(m, x)
    ensures m != [] && m[0].s <= x <= m[|m| - 1].e
  {
  }
}
