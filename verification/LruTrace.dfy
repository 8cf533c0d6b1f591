// The per-layer LRU miss model over a routing trace, and why its answers for
// different capacities are comparable.

module LruTrace {
  import opened Ranking

  // ---- recency --------------------------------------------------------------------

  function Without(s: seq<int>, e: int): (r: seq<int>)
    ensures forall x :: x in r <==> x in s && x != e
    ensures |r| <= |s|
  {
    if s == [] then []
    else if s[|s| - 1] == e then Without(s[..|s| - 1], e)
    else Without(s[..|s| - 1], e) + [s[|s| - 1]]
  }

  function Touch(s: seq<int>, e: int): seq<int> { Without(s, e) + [e] }

  // The distinct ids of a trace, least recently used first.
  ghost function Recency(trace: seq<int>): (r: seq<int>)
    ensures forall x :: x in r <==> x in trace
  {
    if trace == [] then [] else Touch(Recency(trace[..|trace| - 1]), trace[|trace| - 1])
  }

  // Dropping an id from a list without repetitions.
  lemma {:induction false} WithoutSplit(s: seq<int>, e: int)
    requires Distinct(s)
    ensures Distinct(Without(s, e))
    ensures e !in s ==> Without(s, e) == s
    ensures forall k | 0 <= k < |s| && s[k] == e :: Without(s, e) == s[..k] + s[k + 1..]
  {
    WithoutDistinct(s, e);
    forall k | 0 <= k < |s| && s[k] == e ensures Without(s, e) == s[..k] + s[k + 1..] { WithoutAt(s, k); }
  }

  lemma {:induction false} WithoutDistinct(s: seq<int>, e: int)
    requires Distinct(s)
    ensures Distinct(Without(s, e)) && (e !in s ==> Without(s, e) == s)
  {
    if s != [] {
      var init, last := s[..|s| - 1], s[|s| - 1];
      WithoutDistinct(init, e);
      assert s == init + [last];
      assert last !in init;
      if e != last { assert Without(s, e) == Without(init, e) + [last] && last !in Without(init, e); }
    }
  }

  lemma {:induction false} WithoutAt(s: seq<int>, k: nat)
    requires Distinct(s) && k < |s|
    ensures Without(s, s[k]) == s[..k] + s[k + 1..]
  {
    var n := |s| - 1;
    if k == n {
      WithoutDistinct(s[..n], s[n]);
      assert s[n + 1..] == [];
    } else {
      WithoutAt(s[..n], k);
      assert s[..n][..k] == s[..k] && s[k + 1..] == s[..n][k + 1..] + [s[n]];
    }
  }

  lemma {:induction false} RecencyDistinct(trace: seq<int>)
    ensures Distinct(Recency(trace))
  {
    if trace != [] {
      RecencyDistinct(trace[..|trace| - 1]);
      WithoutSplit(Recency(trace[..|trace| - 1]), trace[|trace| - 1]);
    }
  }

  function WithoutAll(s: seq<int>, t: seq<int>): (r: seq<int>) {
    if t == [] then s else Without(WithoutAll(s, t[..|t| - 1]), t[|t| - 1])
  }

  lemma {:induction false} WithoutConcat(a: seq<int>, b: seq<int>, e: int)
    ensures Without(a + b, e) == Without(a, e) + Without(b, e)
  {
    if b == [] {
      assert a + b == a;
    } else {
      var n := |b| - 1;
      assert (a + b)[..|a + b| - 1] == a + b[..n];
      WithoutConcat(a, b[..n], e);
    }
  }

  // Later uses push everything they mention to the end.
  lemma {:induction false} RecencyConcat(a: seq<int>, b: seq<int>)
    ensures Recency(a + b) == WithoutAll(Recency(a), b) + Recency(b)
  {
    if b == [] {
      assert a + b == a;
    } else {
      var n := |b| - 1;
      assert (a + b)[..|a + b| - 1] == a + b[..n];
      RecencyConcat(a, b[..n]);
      WithoutConcat(WithoutAll(Recency(a), b[..n]), Recency(b[..n]), b[n]);
    }
  }

  lemma {:induction false} WithoutAllKeepsLast(s: seq<int>, e: int, t: seq<int>)
    requires e !in t
    ensures exists r :: WithoutAll(s + [e], t) == r + [e]
  {
    if t == [] {
      assert WithoutAll(s + [e], t) == s + [e];
    } else {
      var n := |t| - 1;
      WithoutAllKeepsLast(s, e, t[..n]);
      var r :| WithoutAll(s + [e], t[..n]) == r + [e];
      assert (r + [e])[..|r + [e]| - 1] == r;
      assert WithoutAll(s + [e], t) == Without(r, t[n]) + [e];
    }
  }

  lemma {:induction false} RecencySize(trace: seq<int>)
    ensures |Recency(trace)| == |SetOf(trace)|
  {
    RecencyDistinct(trace);
    SetOfSize(Recency(trace));
    assert SetOf(Recency(trace)) == SetOf(trace);
  }

  // ---- the cache ----------------------------------------------------------------------

  // The c most recently used ids, in recency order.
  ghost function Newest(s: seq<int>, c: nat): (r: seq<int>)
    ensures |r| == if |s| < c then |s| else c
  {
    s[Excess(|s|, c)..]
  }

  function Excess(n: nat, c: nat): nat { if n <= c then 0 else n - c }

  // What a capacity-c cache holds after a trace.
  ghost function CacheAfter(trace: seq<int>, c: nat): seq<int> {
    Newest(Recency(trace), c)
  }

  // One access of the model: hit moves to the end, miss appends and may drop the head.
  method Access(cache: seq<int>, e: int, c: nat, ghost seen: seq<int>) returns (cache': seq<int>, missed: bool)
    requires cache == CacheAfter(seen, c)
    ensures cache' == CacheAfter(seen + [e], c)
    ensures missed <==> e !in cache
  {
    AccessKeepsNewest(seen, e, c);
    missed := e !in cache;
    if !missed {
      cache' := Touch(cache, e);          // move_to_end
    } else {
      cache' := cache + [e];
      if |cache'| > c {
        cache' := cache'[1..];            // popitem(last=False)
      }
    }
  }

  lemma AccessKeepsNewest(seen: seq<int>, e: int, c: nat)
    ensures var cache := CacheAfter(seen, c);
            CacheAfter(seen + [e], c) ==
            if e in cache then Touch(cache, e)
            else if |cache + [e]| > c then (cache + [e])[1..] else cache + [e]
  {
    assert (seen + [e])[..|seen + [e]| - 1] == seen;
    RecencyDistinct(seen);
    TouchNewest(Recency(seen), e, c);
  }

  lemma TouchNewest(s: seq<int>, e: int, c: nat)
    requires Distinct(s)
    ensures var cache := Newest(s, c);
            Newest(Touch(s, e), c) ==
            if e in cache then Touch(cache, e)
            else if |cache + [e]| > c then (cache + [e])[1..] else cache + [e]
  {
    var cache := Newest(s, c);
    var d := |s| - |cache|;
    WithoutSplit(s, e);
    if e in cache {
      var k :| 0 <= k < |cache| && cache[k] == e;
      TouchKept(s, d, k, c);
    } else if e in s {
      var k :| 0 <= k < |s| && s[k] == e;
      assert forall i | 0 <= i < |cache| :: cache[i] == s[d + i];
      assert forall i | d <= i < |s| :: s[i] == cache[i - d];
      TouchOld(s, k, c);
    }
  }

  lemma TouchKept(s: seq<int>, d: nat, k: nat, c: nat)
    requires Distinct(s) && d + k < |s| && d == Excess(|s|, c)
    ensures Newest(s, c)[k] == s[d + k]
    ensures Newest(Touch(s, s[d + k]), c) == Touch(Newest(s, c), s[d + k])
  {
    TouchIs(s, d + k);
    TouchIs(s[d..], k);
    MoveInTail(s, d, k, s[d + k]);
  }

  lemma TouchIs(s: seq<int>, k: nat)
    requires Distinct(s) && k < |s|
    ensures Touch(s, s[k]) == s[..k] + s[k + 1..] + [s[k]] && |Touch(s, s[k])| == |s|
  {
    WithoutSplit(s, s[k]);
  }

  lemma MoveInTail(s: seq<int>, d: nat, k: nat, e: int)
    requires d + k < |s|
    ensures (s[..d + k] + s[d + k + 1..] + [e])[d..] == s[d..][..k] + s[d..][k + 1..] + [e]
  {
  }

  lemma TouchOld(s: seq<int>, k: nat, c: nat)
    requires Distinct(s) && k < Excess(|s|, c)
    ensures Newest(Touch(s, s[k]), c) == (Newest(s, c) + [s[k]])[1..]
  {
    TouchIs(s, k);
    var t := s[..k] + s[k + 1..] + [s[k]];
    assert t[|s| - c..] == (s[|s| - c..] + [s[k]])[1..];
  }

  // ---- misses ------------------------------------------------------------------------------

  ghost function Misses(trace: seq<int>, c: nat): nat {
    if trace == [] then 0
    else
      var n := |trace| - 1;
      Misses(trace[..n], c) + if trace[n] in CacheAfter(trace[..n], c) then 0 else 1
  }

  function Flatten(steps: seq<seq<int>>): seq<int> {
    if steps == [] then [] else Flatten(steps[..|steps| - 1]) + steps[|steps| - 1]
  }

  ghost function TotalMisses(layers: seq<seq<seq<int>>>, c: nat): nat {
    if layers == [] then 0
    else TotalMisses(layers[..|layers| - 1], c) + Misses(Flatten(layers[|layers| - 1]), c)
  }

  ghost function TotalUses(layers: seq<seq<seq<int>>>): nat {
    if layers == [] then 0 else TotalUses(layers[..|layers| - 1]) + |Flatten(layers[|layers| - 1])|
  }

  // for lid in layers: a fresh cache; for ids in its steps: for e in ids: access
  method MissModel(layers: seq<seq<seq<int>>>, c: nat) returns (miss: nat, tot: nat)
    ensures miss == TotalMisses(layers, c) && tot == TotalUses(layers)
  {
    miss, tot := 0, 0;
    for l := 0 to |layers|
      invariant miss == TotalMisses(layers[..l], c) && tot == TotalUses(layers[..l])
    {
      assert layers[..l + 1][..l] == layers[..l];
      var cache: seq<int> := [];
      var steps := layers[l];
      for i := 0 to |steps|
        invariant cache == CacheAfter(Flatten(steps[..i]), c)
        invariant miss == TotalMisses(layers[..l], c) + Misses(Flatten(steps[..i]), c)
        invariant tot == TotalUses(layers[..l]) + |Flatten(steps[..i])|
      {
        assert steps[..i + 1][..i] == steps[..i];
        var m;
        cache, m := RunStep(cache, steps[i], c, Flatten(steps[..i]));
        miss, tot := miss + m, tot + |steps[i]|;
      }
      assert steps[..|steps|] == steps;
    }
    assert layers[..|layers|] == layers;
  }

  method RunStep(cache0: seq<int>, ids: seq<int>, c: nat, ghost seen: seq<int>) returns (cache: seq<int>, miss: nat)
    requires cache0 == CacheAfter(seen, c)
    ensures cache == CacheAfter(seen + ids, c)
    ensures Misses(seen + ids, c) == Misses(seen, c) + miss
  {
    cache, miss := cache0, 0;
    ghost var now := seen;
    for k := 0 to |ids|
      invariant now == seen + ids[..k]
      invariant cache == CacheAfter(now, c) && Misses(now, c) == Misses(seen, c) + miss
    {
      MissStep(now, ids[k], c);
      var m;
      cache, m := Access(cache, ids[k], c, now);
      if m { miss := miss + 1; }
      Snoc(seen, ids, k);
      now := now + [ids[k]];
    }
    assert ids[..|ids|] == ids;
  }

  lemma Snoc(a: seq<int>, b: seq<int>, k: nat)
    requires k < |b|
    ensures a + b[..k] + [b[k]] == a + b[..k + 1]
  {
  }

  lemma MissStep(now: seq<int>, e: int, c: nat)
    ensures Misses(now + [e], c) == Misses(now, c) + if e in CacheAfter(now, c) then 0 else 1
  {
    assert (now + [e])[..|now|] == now;
  }

  // ---- comparing capacities ----------------------------------------------------------------

  // Inclusion: at every moment the smaller cache is the newest part of the larger.
  lemma Inclusion(trace: seq<int>, c1: nat, c2: nat)
    requires c1 <= c2
    ensures CacheAfter(trace, c1) == Newest(CacheAfter(trace, c2), c1)
    ensures forall e | e in CacheAfter(trace, c1) :: e in CacheAfter(trace, c2)
  {
    assert CacheAfter(trace, c1) == Newest(CacheAfter(trace, c2), c1);
  }

  lemma {:induction false} MissesFallWithCapacity(trace: seq<int>, c1: nat, c2: nat)
    requires c1 <= c2
    ensures Misses(trace, c2) <= Misses(trace, c1)
  {
    if trace != [] {
      var n := |trace| - 1;
      MissesFallWithCapacity(trace[..n], c1, c2);
      Inclusion(trace[..n], c1, c2);
    }
  }

  lemma {:induction false} ModelFallsWithCapacity(layers: seq<seq<seq<int>>>, c1: nat, c2: nat)
    requires c1 <= c2
    ensures TotalMisses(layers, c2) <= TotalMisses(layers, c1)
  {
    if layers != [] {
      ModelFallsWithCapacity(layers[..|layers| - 1], c1, c2);
      MissesFallWithCapacity(Flatten(layers[|layers| - 1]), c1, c2);
    }
  }

  // Recency is the order of last use: after an id used last at position j come exactly
  // the ids used since, in their own recency order.
  lemma SplitAtLastUse(trace: seq<int>, j: nat) returns (older: seq<int>)
    requires j < |trace| && trace[j] !in trace[j + 1..]
    ensures Recency(trace) == older + [trace[j]] + Recency(trace[j + 1..])
  {
    var e, past, since := trace[j], trace[..j], trace[j + 1..];
    assert trace == (past + [e]) + since;
    RecencyConcat(past + [e], since);
    assert (past + [e])[..|past + [e]| - 1] == past;
    WithoutAllKeepsLast(Without(Recency(past), e), e, since);
    older :| WithoutAll(Recency(past + [e]), since) == older + [e];
  }

  // Independently of the cache: an id used last at position j is a hit exactly when
  // fewer than c distinct ids were used since.
  lemma HitIffFewSince(trace: seq<int>, j: nat, c: nat)
    requires j < |trace| && trace[j] !in trace[j + 1..]
    ensures trace[j] in CacheAfter(trace, c) <==> |SetOf(trace[j + 1..])| < c
  {
    var older := SplitAtLastUse(trace, j);
    RecencyDistinct(trace);
    RecencySize(trace[j + 1..]);
    var s, d := Recency(trace), Excess(|Recency(trace)|, c);
    assert s[|older|] == trace[j];
    if |older| >= d {
      assert Newest(s, c)[|older| - d] == trace[j];
    } else {
      assert forall i | 0 <= i < |Newest(s, c)| :: Newest(s, c)[i] == s[d + i];
    }
  }

  // An id never used before is a miss at every capacity, and with room for every id used
  // so far any other is a hit.
  lemma FirstUseMisses(trace: seq<int>, e: int, c: nat)
    ensures e in CacheAfter(trace, c) ==> e in trace
    ensures e in trace && |SetOf(trace)| <= c ==> e in CacheAfter(trace, c)
  {
    RecencySize(trace);
  }

  // Position j misses independently of any cache: its id was never used before, or at
  // least c distinct ids were used since its last use.
  ghost predicate IsFar(trace: seq<int>, j: nat, c: nat)
    requires j < |trace|
  {
    forall i: nat | i < j && trace[i] == trace[j] && trace[j] !in trace[i + 1..j] :: |SetOf(trace[i + 1..j])| >= c
  }

  lemma LastUseBefore(trace: seq<int>, j: nat, k: nat) returns (i: nat)
    requires j < |trace| && k <= j && trace[j] in trace[..k] && trace[j] !in trace[k..j]
    ensures i < j && trace[i] == trace[j] && trace[j] !in trace[i + 1..j]
  {
    i := k - 1;
    if trace[i] == trace[j] {
      assert trace[i + 1..j] == trace[k..j];
    } else {
      assert trace[k - 1..j] == [trace[i]] + trace[k..j];
      assert trace[..k] == trace[..k - 1] + [trace[i]];
      i := LastUseBefore(trace, j, k - 1);
    }
  }

  lemma MissIffFar(trace: seq<int>, j: nat, c: nat)
    requires j < |trace|
    ensures trace[j] !in CacheAfter(trace[..j], c) <==> IsFar(trace, j, c)
  {
    forall i: nat | i < j && trace[i] == trace[j] && trace[j] !in trace[i + 1..j]
      ensures trace[j] in CacheAfter(trace[..j], c) <==> |SetOf(trace[i + 1..j])| < c
    {
      assert trace[..j][i + 1..] == trace[i + 1..j];
      HitIffFewSince(trace[..j], i, c);
    }
    if trace[j] in trace[..j] {
      assert trace[j..j] == [];
      var i := LastUseBefore(trace, j, j);
    } else {
      FirstUseMisses(trace[..j], trace[j], c);
      assert forall i: nat | i < j :: trace[..j][i] == trace[i];
    }
  }

  ghost function FarUses(trace: seq<int>, c: nat, n: nat): set<nat>
    requires n <= |trace|
  {
    set j: nat | j < n && IsFar(trace, j, c)
  }

  lemma OneMoreFar(trace: seq<int>, c: nat, n: nat)
    requires n < |trace|
    ensures |FarUses(trace, c, n + 1)| == |FarUses(trace, c, n)| + if IsFar(trace, n, c) then 1 else 0
  {
    assert FarUses(trace, c, n + 1) == FarUses(trace, c, n) + if IsFar(trace, n, c) then {n} else {};
  }

  lemma PrefixMiss(trace: seq<int>, c: nat, n: nat)
    requires n < |trace|
    ensures Misses(trace[..n + 1], c) == Misses(trace[..n], c) + if IsFar(trace, n, c) then 1 else 0
  {
    assert trace[..n + 1] == trace[..n] + [trace[n]];
    MissStep(trace[..n], trace[n], c);
    MissIffFar(trace, n, c);
  }

  lemma {:induction false} MissesOfPrefix(trace: seq<int>, c: nat, n: nat)
    requires n <= |trace|
    ensures Misses(trace[..n], c) == |FarUses(trace, c, n)|
  {
    if n == 0 {
      assert FarUses(trace, c, 0) == {};
    } else {
      MissesOfPrefix(trace, c, n - 1);
      PrefixMiss(trace, c, n - 1);
      OneMoreFar(trace, c, n - 1);
    }
  }

  // The miss count of the model is the number of such positions.
  lemma MissesAreFarUses(trace: seq<int>, c: nat)
    ensures Misses(trace, c) == |set j: nat | j < |trace| && IsFar(trace, j, c)|
  {
    MissesOfPrefix(trace, c, |trace|);
    assert trace[..|trace|] == trace;
  }

  lemma OneMoreUse(trace: seq<int>, e: int)
    ensures |SetOf(trace + [e])| == |SetOf(trace)| + if e in trace then 0 else 1
  {
    assert SetOf(trace + [e]) == SetOf(trace) + {e};
    assert e in SetOf(trace) <==> e in trace;
  }

  // So a cache misses at least once for each distinct id, and no more than that once it
  // has room for them all.
  lemma {:induction false} CompulsoryMisses(trace: seq<int>, c: nat)
    ensures Misses(trace, c) >= |SetOf(trace)|
    ensures |SetOf(trace)| <= c ==> Misses(trace, c) == |SetOf(trace)|
  {
    if trace == [] {
      assert SetOf(trace) == {};
    } else {
      var n := |trace| - 1;
      CompulsoryMisses(trace[..n], c);
      FirstUseMisses(trace[..n], trace[n], c);
      OneMoreUse(trace[..n], trace[n]);
      assert trace == trace[..n] + [trace[n]];
    }
  }
}
