// What torch.where, torch.topk and torch.argsort promise: ascending ids of a mask, and
// ids in order of a key, with ties broken any way.

module TorchSelect {
  import opened Ranking

  // The ids where a mask holds.
  ghost function Residents(mask: seq<bool>): set<nat> {
    set e: nat | e < |mask| && mask[e]
  }

  // The first k of `s` when sorted by eff (descending or ascending), any order on ties.
  ghost predicate IsSortedPrefix(eff: seq<real>, s: set<nat>, descending: bool, ids: seq<nat>) {
    && (forall e | e in s :: e < |eff|)
    && (forall i | 0 <= i < |ids| :: ids[i] in s)
    && (forall i, j | 0 <= i < j < |ids| :: ids[i] != ids[j])
    && (forall i, j | 0 <= i < j < |ids| ::
         if descending then eff[ids[i]] >= eff[ids[j]] else eff[ids[i]] <= eff[ids[j]])
    && (forall i, e | 0 <= i < |ids| && e in s && e !in ids ::
          if descending then eff[ids[i]] >= eff[e] else eff[ids[i]] <= eff[e])
  }

  predicate Below(ids: seq<nat>, n: nat) { forall i | 0 <= i < |ids| :: ids[i] < n }

  // The ids where the mask holds, ascending.
  method Where(mask: seq<bool>) returns (ids: seq<nat>)
    ensures SetOf(ids) == Residents(mask) && Below(ids, |mask|) && Distinct(ids)
    ensures forall i, j | 0 <= i < j < |ids| :: ids[i] < ids[j]
  {
    ids := [];
    for e := 0 to |mask|
      invariant forall i | 0 <= i < |ids| :: ids[i] < e && mask[ids[i]]
      invariant forall i, j | 0 <= i < j < |ids| :: ids[i] < ids[j]
      invariant forall x: nat | x < e && mask[x] :: x in ids
    {
      if mask[e] { ids := ids + [e]; }
    }
  }

  predicate Ahead(eff: seq<real>, descending: bool, a: nat, b: nat)
    requires a < |eff| && b < |eff|
  {
    if descending then eff[a] >= eff[b] else eff[a] <= eff[b]
  }

  predicate AheadOfAll(eff: seq<real>, descending: bool, e: nat, ids: seq<nat>)
    requires e < |eff| && Below(ids, |eff|)
  {
    forall i | 0 <= i < |ids| :: Ahead(eff, descending, e, ids[i])
  }

  // A position of `ids` that no other is ahead of.
  method Best(eff: seq<real>, ids: seq<nat>, descending: bool) returns (p: nat)
    requires ids != [] && Below(ids, |eff|)
    ensures p < |ids| && AheadOfAll(eff, descending, ids[p], ids)
  {
    p := 0;
    for i := 0 to |ids|
      invariant p < |ids| && forall j | 0 <= j < i :: Ahead(eff, descending, ids[p], ids[j])
    {
      if !Ahead(eff, descending, ids[p], ids[i]) { p := i; }
    }
  }

  // Takes the leading id out of `ids`.
  method Pick(eff: seq<real>, ids: seq<nat>, descending: bool) returns (e: nat, rest: seq<nat>)
    requires ids != [] && Below(ids, |eff|) && Distinct(ids)
    ensures e in ids && e < |eff| && |rest| == |ids| - 1 && Below(rest, |eff|) && Distinct(rest)
    ensures SetOf(rest) == SetOf(ids) - {e} && AheadOfAll(eff, descending, e, rest)
  {
    var p := Best(eff, ids, descending);
    e := ids[p];
    rest := ids[..p] + ids[p + 1..];
    forall x | x in ids && x != e ensures x in rest {
      var i :| 0 <= i < |ids| && ids[i] == x;
      assert x == rest[if i < p then i else i - 1];
    }
    assert forall i | 0 <= i < |rest| :: rest[i] == ids[if i < p then i else i + 1];
  }

  // The first k of `ids` sorted by eff: topk over everything, argsort over a selection.
  method Sorted(eff: seq<real>, ids: seq<nat>, descending: bool, k: nat) returns (out: seq<nat>)
    requires k <= |ids| && Below(ids, |eff|) && Distinct(ids)
    ensures |out| == k && IsSortedPrefix(eff, SetOf(ids), descending, out)
  {
    out := [];
    var rest := ids;
    while |out| < k
      invariant |out| + |rest| == |ids| && |out| <= k
      invariant Below(rest, |eff|) && Distinct(rest) && Below(out, |eff|) && Distinct(out)
      invariant SetOf(rest) == SetOf(ids) - SetOf(out) && SetOf(out) <= SetOf(ids)
      invariant forall i, j | 0 <= i < j < |out| :: Ahead(eff, descending, out[i], out[j])
      invariant forall i | 0 <= i < |out| :: AheadOfAll(eff, descending, out[i], rest)
      decreases k - |out|
    {
      var e, left := Pick(eff, rest, descending);
      assert e in SetOf(rest);
      Extended(eff, descending, out, rest, e, left);
      assert SetOf(out + [e]) == SetOf(out) + {e};
      out, rest := out + [e], left;
    }
    forall i, e | 0 <= i < |out| && e in SetOf(ids) && e !in out ensures Ahead(eff, descending, out[i], e) {
      assert e in SetOf(rest);
      var j :| 0 <= j < |rest| && rest[j] == e;
      assert AheadOfAll(eff, descending, out[i], rest);
    }
  }

  lemma Extended(eff: seq<real>, descending: bool, out: seq<nat>, rest: seq<nat>, e: nat, left: seq<nat>)
    requires Below(out, |eff|) && Below(rest, |eff|) && Below(left, |eff|) && e < |eff|
    requires Distinct(out) && e in rest && SetOf(left) == SetOf(rest) - {e} && SetOf(rest) !! SetOf(out)
    requires forall i | 0 <= i < |out| :: AheadOfAll(eff, descending, out[i], rest)
    requires AheadOfAll(eff, descending, e, left)
    requires forall i, j | 0 <= i < j < |out| :: Ahead(eff, descending, out[i], out[j])
    ensures Distinct(out + [e])
    ensures forall i, j | 0 <= i < j < |out + [e]| :: Ahead(eff, descending, (out + [e])[i], (out + [e])[j])
    ensures forall i | 0 <= i < |out + [e]| :: AheadOfAll(eff, descending, (out + [e])[i], left)
  {
    assert e in SetOf(rest);
    forall i | 0 <= i < |out| ensures out[i] != e && Ahead(eff, descending, out[i], e) {
      assert out[i] in SetOf(out) && AheadOfAll(eff, descending, out[i], rest);
    }
    forall i, j | 0 <= i < |out| && 0 <= j < |left| ensures Ahead(eff, descending, out[i], left[j]) {
      assert left[j] in SetOf(left) && AheadOfAll(eff, descending, out[i], rest);
    }
  }

  lemma PrefixOfSorted(eff: seq<real>, s: set<nat>, descending: bool, ids: seq<nat>, k: nat)
    requires IsSortedPrefix(eff, s, descending, ids) && k <= |ids|
    ensures IsSortedPrefix(eff, s, descending, ids[..k])
  {
    var out := ids[..k];
    assert forall q | 0 <= q < k :: out[q] == ids[q];
    forall i, e | 0 <= i < |out| && e in s && e !in out
      ensures if descending then eff[out[i]] >= eff[e] else eff[out[i]] <= eff[e]
    {
      PassedOver(eff, s, descending, ids, k, i, e);
    }
  }

  lemma PassedOver(eff: seq<real>, s: set<nat>, descending: bool, ids: seq<nat>, k: nat, i: nat, e: nat)
    requires IsSortedPrefix(eff, s, descending, ids) && i < k <= |ids| && e in s && e !in ids[..k]
    ensures if descending then eff[ids[i]] >= eff[e] else eff[ids[i]] <= eff[e]
  {
    if e in ids {
      var j :| 0 <= j < |ids| && ids[j] == e;
      assert forall q | 0 <= q < k :: ids[..k][q] == ids[q] && ids[..k][q] in ids[..k];
    }
  }

  // torch.topk: the k best of all positions, best first.
  method TopK(eff: seq<real>, k: nat) returns (out: seq<nat>)
    requires k <= |eff|
    ensures |out| == k && IsSortedPrefix(eff, Range(0, |eff|), true, out)
  {
    var mask := seq(|eff|, _ => true);
    var all := Where(mask);
    assert Residents(mask) == Range(0, |eff|);
    RangeSize(|eff|);
    SetOfSize(all);
    out := Sorted(eff, all, true, k);
  }
}
