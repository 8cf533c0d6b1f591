// stream_experts as a whole: the four launches, run in any interleaving, leave each
// selected slot with exactly its expert's reference layout.

module GatherLaunch {
  import opened Arith
  import opened GridStores
  import opened GatherLayout
  import opened ExpertTilings
  import opened ExpertStream
  import opened GatherReference

  // The four destination buffers, all landing slots of a layer.
  datatype Memory<V, B> = Memory(w13: seq<V>, w2: seq<V>, w13Scale: seq<B>, w2Scale: seq<B>)

  datatype Gather<!V, !F, !B> = Gather(tb: Table, host: Host<V, F>, cast: F -> B, geo: Geometry, sh: Shard,
                                       ck: nat -> Checkpoint<V, F>, stride: nat)
  {
    ghost predicate Valid() {
      tb.Valid() && geo.Valid() && tb.nTp == geo.nTp && stride > 0
    }

    // The host store has expert e, and the checkpoint describes it.
    ghost predicate Has(e: nat)
      requires Valid()
    {
      Covers(ck(e), geo, sh) && Stores(tb, host, e, ck(e), geo, sh)
    }

    ghost predicate CanServe(sel: seq<int>)
      requires Valid()
    {
      forall s | 0 <= s < |sel| && sel[s] >= 0 :: Has(sel[s])
    }

    ghost function Reference(e: nat): Expected<V, B>
      requires Valid() && Has(e)
    {
      BuildExpected(ck(e), geo, sh, cast)
    }

    ghost function L13(sel: seq<int>): Launch<V>
      requires Valid()
    {
      W13Weights(tb, host, sel, geo.vecPerTpBlock, stride)
    }

    ghost function L2(sel: seq<int>): Launch<V>
      requires Valid()
    {
      W2Weights(tb, host, sel, geo.hidden, geo.perRow, VEC, stride)
    }

    ghost function L13Scale(sel: seq<int>): Launch<B>
      requires Valid()
    {
      W13Scales(tb, host, cast, sel, geo.tpMoe, geo.g, stride)
    }

    ghost function L2Scale(sel: seq<int>): Launch<B>
      requires Valid()
    {
      W2Scales(tb, host, cast, sel, geo.hidden, geo.tpG, stride)
    }

    ghost predicate Sized(n: nat, m: Memory<V, B>)
      requires Valid()
    {
      && |m.w13| == n * L13([]).t.size && |m.w2| == n * L2([]).t.size
      && |m.w13Scale| == n * L13Scale([]).t.size && |m.w2Scale| == n * L2Scale([]).t.size
    }

    lemma L13Works(sel: seq<int>)
      requires Valid() && CanServe(sel)
      ensures L13(sel).Valid()
    {
      RunsValid(2 * geo.nTp, geo.vecPerTpBlock, VEC);
      forall s | 0 <= s < |sel| && sel[s] >= 0 ensures L13(sel).t.IsSource(L13(sel).parts(sel[s])) {
        W13Reference(tb, host, sel[s], ck(sel[s]), geo, sh);
      }
    }

    lemma L2Works(sel: seq<int>)
      requires Valid() && CanServe(sel)
      ensures L2(sel).Valid()
    {
      BandsValid(geo.hidden, geo.nTp, geo.perRow, VEC);
      forall s | 0 <= s < |sel| && sel[s] >= 0 ensures L2(sel).t.IsSource(L2(sel).parts(sel[s])) {
        W2Reference(tb, host, sel[s], ck(sel[s]), geo, sh, geo.perRow, VEC);
      }
    }

    lemma L13ScaleWorks(sel: seq<int>)
      requires Valid() && CanServe(sel)
      ensures L13Scale(sel).Valid()
    {
      RowScalesValid(2 * geo.nTp, geo.tpMoe, geo.g);
      forall s | 0 <= s < |sel| && sel[s] >= 0 ensures L13Scale(sel).t.IsSource(L13Scale(sel).parts(sel[s])) {
        W13ScaleReference(tb, host, sel[s], ck(sel[s]), geo, sh, cast);
      }
    }

    lemma L2ScaleWorks(sel: seq<int>)
      requires Valid() && CanServe(sel)
      ensures L2Scale(sel).Valid()
    {
      GroupScalesValid(geo.hidden, geo.nTp, geo.tpG);
      forall s | 0 <= s < |sel| && sel[s] >= 0 ensures L2Scale(sel).t.IsSource(L2Scale(sel).parts(sel[s])) {
        W2ScaleReference(tb, host, sel[s], ck(sel[s]), geo, sh, cast);
      }
    }

    lemma Works(sel: seq<int>)
      requires Valid() && CanServe(sel)
      ensures L13(sel).Valid() && L2(sel).Valid() && L13Scale(sel).Valid() && L2Scale(sel).Valid()
    {
      L13Works(sel);
      L2Works(sel);
      L13ScaleWorks(sel);
      L2ScaleWorks(sel);
    }

    // The buffers after all four kernels, each under some interleaving of its threads.
    ghost predicate Streamed(sel: seq<int>, m: Memory<V, B>, m': Memory<V, B>)
      requires Valid() && CanServe(sel) && Sized(|sel|, m)
    {
      Works(sel);
      && Launched(L13(sel), m.w13, m'.w13) && Launched(L2(sel), m.w2, m'.w2)
      && Launched(L13Scale(sel), m.w13Scale, m'.w13Scale) && Launched(L2Scale(sel), m.w2Scale, m'.w2Scale)
    }

    lemma SomeStream(sel: seq<int>, m: Memory<V, B>) returns (m': Memory<V, B>)
      requires Valid() && CanServe(sel) && Sized(|sel|, m)
      ensures Streamed(sel, m, m')
    {
      Works(sel);
      var ops13 := L13(sel).ExecutionExists();
      var ops2 := L2(sel).ExecutionExists();
      var ops13Scale := L13Scale(sel).ExecutionExists();
      var ops2Scale := L2Scale(sel).ExecutionExists();
      m' := Memory(L13(sel).Run(m.w13, ops13), L2(sel).Run(m.w2, ops2),
                   L13Scale(sel).Run(m.w13Scale, ops13Scale), L2Scale(sel).Run(m.w2Scale, ops2Scale));
    }

    // Slot s of the buffers holds exactly this layout.
    ghost predicate SlotIs(n: nat, m: Memory<V, B>, s: nat, x: Expected<V, B>)
      requires Valid() && Sized(n, m) && s < n
    {
      && Segment(m.w13, n, L13([]).t.size, s) == Flat(x.w13)
      && Segment(m.w2, n, L2([]).t.size, s) == Flat(x.w2)
      && Segment(m.w13Scale, n, L13Scale([]).t.size, s) == Flat(x.w13Scale)
      && Segment(m.w2Scale, n, L2Scale([]).t.size, s) == Flat(x.w2Scale)
    }

    ghost predicate SlotSame(n: nat, m: Memory<V, B>, m': Memory<V, B>, s: nat)
      requires Valid() && Sized(n, m) && Sized(n, m') && s < n
    {
      && Segment(m'.w13, n, L13([]).t.size, s) == Segment(m.w13, n, L13([]).t.size, s)
      && Segment(m'.w2, n, L2([]).t.size, s) == Segment(m.w2, n, L2([]).t.size, s)
      && Segment(m'.w13Scale, n, L13Scale([]).t.size, s) == Segment(m.w13Scale, n, L13Scale([]).t.size, s)
      && Segment(m'.w2Scale, n, L2Scale([]).t.size, s) == Segment(m.w2Scale, n, L2Scale([]).t.size, s)
    }

    // Whatever the interleavings, a slot that selects an expert ends with that expert's
    // reference layout and a slot that selects -1 is not touched.
    lemma StreamExperts(sel: seq<int>, m: Memory<V, B>, m': Memory<V, B>, s: nat)
      requires Valid() && CanServe(sel) && Sized(|sel|, m) && Streamed(sel, m, m') && s < |sel|
      ensures Sized(|sel|, m')
      ensures if sel[s] >= 0 then SlotIs(|sel|, m', s, Reference(sel[s])) else SlotSame(|sel|, m, m', s)
    {
      Works(sel);
      L13After(sel, m.w13, m'.w13, s);
      L2After(sel, m.w2, m'.w2, s);
      L13ScaleAfter(sel, m.w13Scale, m'.w13Scale, s);
      L2ScaleAfter(sel, m.w2Scale, m'.w2Scale, s);
    }

    lemma L13Assembles(e: nat)
      requires Valid() && Has(e)
      ensures L13([]).t.IsSource(L13([]).parts(e))
      ensures L13([]).t.IsAssembly(L13([]).parts(e), Flat(Reference(e).w13))
    {
      W13Reference(tb, host, e, ck(e), geo, sh);
      ExpectedW13(ck(e), geo, sh, cast);
    }

    lemma L13After(sel: seq<int>, m: seq<V>, m': seq<V>, s: nat)
      requires Valid() && CanServe(sel) && s < |sel| && |m| == |sel| * L13([]).t.size
      requires L13(sel).Valid() && Launched(L13(sel), m, m')
      ensures |m'| == |m|
      ensures Segment(m', |sel|, L13([]).t.size, s) ==
              if sel[s] >= 0 then Flat(Reference(sel[s]).w13) else Segment(m, |sel|, L13([]).t.size, s)
    {
      assert L13(sel).t == L13([]).t;
      if sel[s] >= 0 {
        var e: nat := sel[s];
        L13Assembles(e);
        After(L13(sel), m, m', s, Flat(Reference(e).w13));
      } else {
        After(L13(sel), m, m', s, []);
      }
    }

    lemma L2Assembles(e: nat)
      requires Valid() && Has(e)
      ensures L2([]).t.IsSource(L2([]).parts(e))
      ensures L2([]).t.IsAssembly(L2([]).parts(e), Flat(Reference(e).w2))
    {
      W2Reference(tb, host, e, ck(e), geo, sh, geo.perRow, VEC);
      ExpectedW2(ck(e), geo, sh, cast);
    }

    lemma L2After(sel: seq<int>, m: seq<V>, m': seq<V>, s: nat)
      requires Valid() && CanServe(sel) && s < |sel| && |m| == |sel| * L2([]).t.size
      requires L2(sel).Valid() && Launched(L2(sel), m, m')
      ensures |m'| == |m|
      ensures Segment(m', |sel|, L2([]).t.size, s) ==
              if sel[s] >= 0 then Flat(Reference(sel[s]).w2) else Segment(m, |sel|, L2([]).t.size, s)
    {
      assert L2(sel).t == L2([]).t;
      if sel[s] >= 0 {
        var e: nat := sel[s];
        L2Assembles(e);
        After(L2(sel), m, m', s, Flat(Reference(e).w2));
      } else {
        After(L2(sel), m, m', s, []);
      }
    }

    lemma L13ScaleAssembles(e: nat)
      requires Valid() && Has(e)
      ensures L13Scale([]).t.IsSource(L13Scale([]).parts(e))
      ensures L13Scale([]).t.IsAssembly(L13Scale([]).parts(e), Flat(Reference(e).w13Scale))
    {
      W13ScaleReference(tb, host, e, ck(e), geo, sh, cast);
      ExpectedW13Scale(ck(e), geo, sh, cast);
    }

    lemma L13ScaleAfter(sel: seq<int>, m: seq<B>, m': seq<B>, s: nat)
      requires Valid() && CanServe(sel) && s < |sel| && |m| == |sel| * L13Scale([]).t.size
      requires L13Scale(sel).Valid() && Launched(L13Scale(sel), m, m')
      ensures |m'| == |m|
      ensures Segment(m', |sel|, L13Scale([]).t.size, s) ==
              if sel[s] >= 0 then Flat(Reference(sel[s]).w13Scale) else Segment(m, |sel|, L13Scale([]).t.size, s)
    {
      assert L13Scale(sel).t == L13Scale([]).t;
      if sel[s] >= 0 {
        var e: nat := sel[s];
        L13ScaleAssembles(e);
        After(L13Scale(sel), m, m', s, Flat(Reference(e).w13Scale));
      } else {
        After(L13Scale(sel), m, m', s, []);
      }
    }

    lemma L2ScaleAssembles(e: nat)
      requires Valid() && Has(e)
      ensures L2Scale([]).t.IsSource(L2Scale([]).parts(e))
      ensures L2Scale([]).t.IsAssembly(L2Scale([]).parts(e), Flat(Reference(e).w2Scale))
    {
      W2ScaleReference(tb, host, e, ck(e), geo, sh, cast);
      ExpectedW2Scale(ck(e), geo, sh, cast);
    }

    lemma L2ScaleAfter(sel: seq<int>, m: seq<B>, m': seq<B>, s: nat)
      requires Valid() && CanServe(sel) && s < |sel| && |m| == |sel| * L2Scale([]).t.size
      requires L2Scale(sel).Valid() && Launched(L2Scale(sel), m, m')
      ensures |m'| == |m|
      ensures Segment(m', |sel|, L2Scale([]).t.size, s) ==
              if sel[s] >= 0 then Flat(Reference(sel[s]).w2Scale) else Segment(m, |sel|, L2Scale([]).t.size, s)
    {
      assert L2Scale(sel).t == L2Scale([]).t;
      if sel[s] >= 0 {
        var e: nat := sel[s];
        L2ScaleAssembles(e);
        After(L2Scale(sel), m, m', s, Flat(Reference(e).w2Scale));
      } else {
        After(L2Scale(sel), m, m', s, []);
      }
    }

    // Buffers of one slot: an expert's own layout has the right sizes.
    lemma OneSlot(e: nat) returns (m: Memory<V, B>)
      requires Valid() && Has(e)
      ensures Sized(1, m)
    {
      var r := Reference(e);
      L13Assembles(e);
      L2Assembles(e);
      L13ScaleAssembles(e);
      L2ScaleAssembles(e);
      m := Memory(Flat(r.w13), Flat(r.w2), Flat(r.w13Scale), Flat(r.w2Scale));
    }
  }

  // Some interleaving of the launch's threads takes one memory to the other.
  ghost predicate Launched<X>(l: Launch<X>, m: seq<X>, m': seq<X>)
    requires l.Valid() && |m| == |l.sel| * l.t.size
  {
    exists ops :: l.IsExecution(ops) && m' == l.Run(m, ops)
  }

  ghost function Segment<X>(m: seq<X>, n: nat, size: nat, s: nat): (r: seq<X>)
    requires |m| == n * size && s < n
    ensures |r| == size
  {
    RowFits(s, n, size);
    MulMono(0, s, size);
    m[s * size..s * size + size]
  }

  lemma After<X>(l: Launch<X>, m: seq<X>, m': seq<X>, s: nat, want: seq<X>)
    requires l.Valid() && |m| == |l.sel| * l.t.size && s < |l.sel|
    requires Launched(l, m, m')
    requires l.sel[s] >= 0 ==> l.t.IsAssembly(l.parts(l.sel[s]), want)
    ensures |m'| == |m|
    ensures Segment(m', |l.sel|, l.t.size, s) == if l.sel[s] >= 0 then want else Segment(m, |l.sel|, l.t.size, s)
  {
    var ops :| l.IsExecution(ops) && m' == l.Run(m, ops);
    l.AnyOrder(m, ops, s);
    if l.sel[s] >= 0 {
      l.t.AssemblyUnique(l.parts(l.sel[s]), l.SlotOf(m', s), want);
    }
  }
}
