// The reference layout of one expert, and the four tilings the gather kernels use.

module GatherLayout {
  import opened Arith

  type Mat<V> = seq<seq<V>>

  ghost predicate IsMat<V>(m: Mat<V>, rows: nat, cols: nat) {
    |m| == rows && forall r | 0 <= r < rows :: |m[r]| == cols
  }

  function Concat<V>(parts: seq<seq<V>>): seq<V> {
    if parts == [] then [] else Concat(parts[..|parts| - 1]) + parts[|parts| - 1]
  }

  // Row-major memory.
  function Flat<V>(m: Mat<V>): seq<V> { Concat(m) }

  lemma {:induction false} ConcatLength<V>(parts: seq<seq<V>>, w: nat)
    requires forall p | 0 <= p < |parts| :: |parts[p]| == w
    ensures |Concat(parts)| == |parts| * w
  {
    if parts != [] {
      ConcatLength(parts[..|parts| - 1], w);
      assert |parts| * w == (|parts| - 1) * w + w;
    }
  }

  lemma {:induction false} ConcatAt<V>(parts: seq<seq<V>>, w: nat, p: nat, x: nat)
    requires forall k | 0 <= k < |parts| :: |parts[k]| == w
    requires p < |parts| && x < w
    ensures |Concat(parts)| == |parts| * w
    ensures 0 <= p * w + x < |parts| * w && Concat(parts)[p * w + x] == parts[p][x]
  {
    var n := |parts| - 1;
    ConcatLength(parts, w);
    ConcatLength(parts[..n], w);
    RowFits(p, |parts|, w);
    MulMono(0, p, w);
    if p < n {
      ConcatAt(parts[..n], w, p, x);
    }
  }

  lemma {:induction false} ConcatAppend<V>(a: seq<seq<V>>, b: seq<seq<V>>)
    ensures Concat(a + b) == Concat(a) + Concat(b)
  {
    if b == [] {
      assert a + b == a;
    } else {
      var n := |b| - 1;
      ConcatAppend(a, b[..n]);
      assert (a + b)[..|a + b| - 1] == a + b[..n];
    }
  }

  // Laying the matrices end to end and then flattening is flattening each.
  lemma {:induction false} FlatOfConcat<V>(ms: seq<Mat<V>>, flats: seq<seq<V>>)
    requires |flats| == |ms| && forall p | 0 <= p < |ms| :: flats[p] == Flat(ms[p])
    ensures Flat(Concat(ms)) == Concat(flats)
  {
    if ms != [] {
      var n := |ms| - 1;
      FlatOfConcat(ms[..n], flats[..n]);
      ConcatAppend(Concat(ms[..n]), ms[n]);
    }
  }

  // ---- interleaved scales ---------------------------------------------------------

  // reshape(n, g/a, a).permute(1, 0, 2).reshape(g/a, n*a): row q holds, for each of
  // the n rows in turn, its a entries of group q.
  function Interleave<V>(s: Mat<V>, n: nat, g: nat): (r: Mat<V>)
    requires IsMat(s, n, g)
  {
    var a := if g % 4 == 0 then 4 else 1;
    seq(g / a, q requires 0 <= q < g / a =>
      seq(n * a, x requires 0 <= x < n * a => InterleavedEntry(s, n, g, a, q, x)))
  }

  function InterleavedEntry<V>(s: Mat<V>, n: nat, g: nat, a: nat, q: nat, x: nat): V
    requires IsMat(s, n, g) && a > 0 && g % a == 0 && q < g / a && x < n * a
  {
    DivBelow(x, a, n);
    RowFits(q, g / a, a);
    DivMod(g, a);
    s[x / a][q * a + x % a]
  }

  // Where entry (row, k) of an [n, g] scale matrix goes.
  function Slot4(n: nat, row: nat, k: nat): nat {
    (k / 4) * (n * 4) + row * 4 + k % 4
  }

  lemma Slot4Fits(n: nat, g: nat, row: nat, k: nat)
    requires row < n && k < g && g % 4 == 0
    ensures Slot4(n, row, k) < n * g
    ensures Slot4(n, row, k) / (n * 4) == k / 4
    ensures Slot4(n, row, k) % (n * 4) == row * 4 + k % 4
    ensures (Slot4(n, row, k) % (n * 4)) / 4 == row && (Slot4(n, row, k) % (n * 4)) % 4 == k % 4
  {
    RowFits(row, n, 4);
    DivModUnique(k / 4, n * 4, row * 4 + k % 4);
    DivModUnique(row, 4, k % 4);
    RowFits(k / 4, g / 4, n * 4);
    Quarters(n, g);
  }

  lemma InterleaveAt<V>(s: Mat<V>, n: nat, g: nat, row: nat, k: nat)
    requires IsMat(s, n, g) && g % 4 == 0 && row < n && k < g
    ensures |Flat(Interleave(s, n, g))| == n * g
    ensures Slot4(n, row, k) < n * g && Flat(Interleave(s, n, g))[Slot4(n, row, k)] == s[row][k]
  {
    var m := Interleave(s, n, g);
    var q, x := k / 4, row * 4 + k % 4;
    Slot4Fits(n, g, row, k);
    RowFits(row, n, 4);
    DivModUnique(row, 4, k % 4);
    assert m[q][x] == InterleavedEntry(s, n, g, 4, q, x);
    ConcatAt(m, n * 4, q, x);
    Quarters(n, g);
  }

  lemma Quarters(n: nat, g: nat)
    requires g % 4 == 0
    ensures (g / 4) * (n * 4) == n * g
  {
    assert g == (g / 4) * 4;
    assert (g / 4) * (n * 4) == n * ((g / 4) * 4);
  }

  // The scale kernels always interleave in fours; their stores stay inside the slot of
  // n * g elements exactly when g is a multiple of four. (The reference falls back to
  // an alignment of one otherwise; the kernels do not.)
  lemma ScalesStayInSlot(n: nat, g: nat)
    requires n >= 2 && g >= 1
    ensures (forall row: nat, k: nat | row < n && k < g :: Slot4(n, row, k) < n * g) <==> g % 4 == 0
  {
    if g % 4 == 0 {
      forall row: nat, k: nat | row < n && k < g ensures Slot4(n, row, k) < n * g {
        Slot4Fits(n, g, row, k);
      }
    } else {
      LastScaleEscapes(n, g);
    }
  }

  lemma LastScaleEscapes(n: nat, g: nat)
    requires n >= 2 && g >= 1 && g % 4 != 0
    ensures Slot4(n, n - 1, g - 1) >= n * g
  {
    var q, r := g / 4, g % 4;
    assert (g - 1) / 4 == q && (g - 1) % 4 == r - 1;
    assert n * g == q * (n * 4) + n * r by {
      assert g == q * 4 + r;
      assert n * (q * 4 + r) == n * (q * 4) + n * r;
      assert n * (q * 4) == q * (n * 4);
    }
    MulMono(r, 3, n);
  }
}
