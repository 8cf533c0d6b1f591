// Strict orders on ids and the initial segments they induce.
//
// Every selection of the prefetcher is an initial segment of some strict order:
// a router's top-K, the demand the fill pass serves, the slots it evicts.

module Ranking {

  type Order = (nat, nat) -> bool

  ghost predicate StrictTotal(lt: Order, s: set<nat>) {
    && (forall a | a in s :: !lt(a, a))
    && (forall a, b | a in s && b in s && a != b :: lt(a, b) || lt(b, a))
    && (forall a, b, c | a in s && b in s && c in s && lt(a, b) && lt(b, c) :: lt(a, c))
  }

  // `ids` lists the first |ids| members of `s`, in order.
  ghost predicate Leads(lt: Order, s: set<nat>, ids: seq<nat>) {
    && (forall i | 0 <= i < |ids| :: ids[i] in s)
    && (forall i, j | 0 <= i < j < |ids| :: lt(ids[i], ids[j]))
    && (forall i, e | 0 <= i < |ids| && e in s && e !in ids :: lt(ids[i], e))
  }

  // An initial segment is determined by its length.
  lemma {:induction false} LeadsUnique(lt: Order, s: set<nat>, a: seq<nat>, b: seq<nat>)
    requires StrictTotal(lt, s) && Leads(lt, s, a) && Leads(lt, s, b) && |a| <= |b|
    ensures a == b[..|a|]
  {
    if |a| > 0 {
      var n := |a| - 1;
      LeadsShorter(lt, s, a, n);
      LeadsUnique(lt, s, a[..n], b);
      NextAgrees(lt, s, a, b, n);
      assert a == a[..n] + [a[n]];
    }
  }

  lemma NextAgrees(lt: Order, s: set<nat>, a: seq<nat>, b: seq<nat>, n: nat)
    requires StrictTotal(lt, s) && Leads(lt, s, a) && Leads(lt, s, b)
    requires n < |a| && n < |b| && a[..n] == b[..n]
    ensures a[n] == b[n]
  {
    NotAfter(lt, s, a, b, n);
    NotAfter(lt, s, b, a, n);
  }

  lemma NotAfter(lt: Order, s: set<nat>, a: seq<nat>, b: seq<nat>, n: nat)
    requires StrictTotal(lt, s) && Leads(lt, s, a) && Leads(lt, s, b)
    requires n < |a| && n < |b| && a[..n] == b[..n]
    ensures b[n] == a[n] || lt(b[n], a[n])
  {
    forall j | 0 <= j < n ensures a[n] != b[j] {
      assert b[j] == a[..n][j] == a[j];
      assert lt(a[j], a[n]);
    }
  }

  lemma LeadsShorter(lt: Order, s: set<nat>, ids: seq<nat>, n: nat)
    requires Leads(lt, s, ids) && n <= |ids|
    ensures Leads(lt, s, ids[..n])
  {
    forall i, e | 0 <= i < n && e in s && e !in ids[..n] ensures lt(ids[..n][i], e) {
      if e in ids {
        var j :| 0 <= j < |ids| && ids[j] == e;
        assert forall i | 0 <= i < n :: ids[..n][i] == ids[i];
      }
    }
  }

  lemma LeadsExtend(lt: Order, s: set<nat>, ids: seq<nat>, m: nat)
    requires Leads(lt, s, ids) && m in s && m !in ids
    requires forall e | e in s && e !in ids && e != m :: lt(m, e)
    ensures Leads(lt, s, ids + [m])
  {
  }

  // A segment has no repetition, and one as long as the set is the whole set.
  lemma LeadsSize(lt: Order, s: set<nat>, ids: seq<nat>)
    requires StrictTotal(lt, s) && Leads(lt, s, ids)
    ensures forall i, j | 0 <= i < j < |ids| :: ids[i] != ids[j]
    ensures |ids| <= |s|
    ensures |ids| == |s| ==> (forall e | e in s :: e in ids)
    ensures (forall e | e in s :: e in ids) ==> |ids| == |s|
  {
    assert Distinct(ids);
    SetOfSize(ids);
    var members := SetOf(ids);
    assert members <= s;
    SubsetSize(members, s);
    if |ids| == |s| {
      assert members == s by { if members != s { SubsetSize(members, s); } }
    }
    if forall e | e in s :: e in ids {
      assert members == s;
    }
  }

  predicate Distinct<T(==)>(s: seq<T>) { forall i, j | 0 <= i < j < |s| :: s[i] != s[j] }

  ghost function SetOf<T>(s: seq<T>): set<T> { set e | e in s }

  lemma {:induction false} SetOfSize<T>(s: seq<T>)
    requires Distinct(s)
    ensures |SetOf(s)| == |s|
  {
    if s != [] {
      var n := |s| - 1;
      SetOfSize(s[..n]);
      assert SetOf(s) == SetOf(s[..n]) + {s[n]};
    }
  }

  ghost function Min(a: nat, b: nat): nat { if a < b then a else b }

  lemma {:induction false} SubsetSize<T>(a: set<T>, b: set<T>)
    requires a <= b
    ensures |a| <= |b|
    ensures |a| == |b| ==> a == b
  {
    if a != {} {
      var x :| x in a;
      SubsetSize(a - {x}, b - {x});
    }
  }

  ghost predicate IsLeast(lt: Order, s: set<nat>, m: nat) {
    m in s && forall e | e in s && e != m :: lt(m, e)
  }

  lemma {:induction false} LeastExists(lt: Order, s: set<nat>)
    requires StrictTotal(lt, s) && s != {}
    ensures exists m :: IsLeast(lt, s, m)
  {
    var x :| x in s;
    var rest := s - {x};
    if rest == {} {
      assert s == {x};
      assert IsLeast(lt, s, x);
    } else {
      LeastExists(lt, rest);
      var y :| IsLeast(lt, rest, y);
      assert IsLeast(lt, s, if lt(x, y) then x else y);
    }
  }

  // All of `s`, in order.
  ghost function Ranked(lt: Order, s: set<nat>): (ids: seq<nat>)
    requires StrictTotal(lt, s)
    ensures Leads(lt, s, ids) && |ids| == |s|
  {
    if s == {} then [] else
      var m := Least(lt, s);
      var rest := Ranked(lt, s - {m});
      LeadsPrepend(lt, s, m, rest);
      [m] + rest
  }

  ghost function Least(lt: Order, s: set<nat>): (m: nat)
    requires StrictTotal(lt, s) && s != {}
    ensures m in s && forall e | e in s && e != m :: lt(m, e)
  {
    LeastExists(lt, s);
    var m :| IsLeast(lt, s, m);
    m
  }

  lemma LeadsPrepend(lt: Order, s: set<nat>, m: nat, rest: seq<nat>)
    requires m in s && (forall e | e in s && e != m :: lt(m, e))
    requires Leads(lt, s - {m}, rest)
    ensures Leads(lt, s, [m] + rest)
  {
    var ids := [m] + rest;
    forall i, e | 0 <= i < |ids| && e in s && e !in ids ensures lt(ids[i], e) {
      assert e != ids[0] && e !in rest;
    }
  }

  // Where an id stands in a list.
  ghost function Position(ids: seq<nat>, e: nat): (i: nat)
    requires e in ids
    ensures i < |ids| && ids[i] == e
  {
    var i :| 0 <= i < |ids| && ids[i] == e;
    i
  }

  // ---- intervals of ids ------------------------------------------------------

  ghost predicate Within(lo: nat, i: nat, hi: nat) {
    lo <= i < hi
  }

  ghost function Range(lo: nat, hi: nat): set<nat> {
    set i: nat | lo <= i < hi && Within(lo, i, hi)
  }

  lemma {:induction false} RangeSize(n: nat)
    ensures |Range(0, n)| == n
  {
    if n > 0 {
      RangeSize(n - 1);
      assert Range(0, n) == Range(0, n - 1) + {n - 1};
    }
  }
}
