// The three forms of the w2 gather move the same bytes: the byte loop, the 16-byte
// loop that replaced it, and the flat copy for a single partition.

module GatherProbe {
  import opened Arith
  import opened GridStores
  import opened ExpertTilings
  import opened ExpertStream

  // Byte i of a band is byte i % 16 of store i / 16.
  lemma ByteInVector(perRow: nat, w: nat, row: nat, b: nat, i: nat)
    requires perRow > 0 && w == perRow * VEC
    ensures (i / w) * row + b * w + (i % w) * 1 ==
            ((i / VEC) / perRow) * row + b * w + ((i / VEC) % perRow) * VEC + i % VEC
  {
    var v, j := i / VEC, i % VEC;
    var r, c := v / perRow, v % perRow;
    DivMod(v, perRow);
    RowFits(c, perRow, VEC);
    Assoc(r, perRow, VEC);
    assert i == r * w + (c * VEC + j) by { assert (r * perRow + c) * VEC == r * perRow * VEC + c * VEC; }
    DivModUnique(r, w, c * VEC + j);
  }

  lemma VectorCell(rows: nat, bands: nat, perRow: nat, b: nat, i: nat)
    requires perRow > 0 && b < bands && i < rows * (perRow * VEC)
    ensures Matches(Bands(rows, bands, perRow, VEC), Bands(rows, bands, perRow * VEC, 1), b, i, 0, i / VEC, i % VEC)
  {
    var w := perRow * VEC;
    Assoc(rows, perRow, VEC);
    DivBelow(i, VEC, rows * perRow);
    DivMod(i, VEC);
    ByteInVector(perRow, w, bands * w, b, i);
    assert w * 1 == w && i * 1 == i;
  }

  // What the 16-byte stores assemble, the byte stores assemble.
  lemma SameAssembly<V>(rows: nat, bands: nat, perRow: nat, parts: seq<seq<V>>, r: seq<V>)
    requires bands > 0 && perRow > 0
    requires Bands(rows, bands, perRow, VEC).IsSource(parts)
    requires Bands(rows, bands, perRow, VEC).IsAssembly(parts, r)
    ensures Bands(rows, bands, perRow * VEC, 1).IsSource(parts)
    ensures Bands(rows, bands, perRow * VEC, 1).IsAssembly(parts, r)
    ensures Bands(rows, bands, perRow * VEC, 1).size == Bands(rows, bands, perRow, VEC).size
  {
    BytesFollow(rows, bands, perRow);
    FollowsAssembles(Bands(rows, bands, perRow, VEC), Bands(rows, bands, perRow * VEC, 1), parts, r);
  }

  lemma BytesFollow(rows: nat, bands: nat, perRow: nat)
    requires bands > 0 && perRow > 0
    ensures Follows(Bands(rows, bands, perRow, VEC), Bands(rows, bands, perRow * VEC, 1))
  {
    var t16, t1 := Bands(rows, bands, perRow, VEC), Bands(rows, bands, perRow * VEC, 1);
    SameSizes(rows, bands, perRow);
    forall b: nat, i: nat, j: nat | t1.IsCell(b, i, j)
      ensures exists i': nat, j': nat :: Matches(t16, t1, b, i, j, i', j')
    {
      VectorCell(rows, bands, perRow, b, i);
      assert Matches(t16, t1, b, i, j, i / VEC, i % VEC);
    }
  }

  lemma SameSizes(rows: nat, bands: nat, perRow: nat)
    requires bands > 0 && perRow > 0
    ensures var k, l := Bands(rows, bands, perRow, VEC), Bands(rows, bands, perRow * VEC, 1);
            k.size == l.size && k.total * k.len == l.total * l.len && k.blocks == l.blocks
  {
    assert (perRow * VEC) * 1 == perRow * VEC;
    Assoc(rows, perRow, VEC);
  }

  // With one partition the flat copy stores where the row loop stores.
  lemma FlatAssembly<V>(rows: nat, perRow: nat, parts: seq<seq<V>>, r: seq<V>)
    requires perRow > 0 && rows * perRow > 0
    requires Bands(rows, 1, perRow, VEC).IsSource(parts)
    requires Bands(rows, 1, perRow, VEC).IsAssembly(parts, r)
    ensures Runs(1, rows * perRow, VEC).IsSource(parts)
    ensures Runs(1, rows * perRow, VEC).IsAssembly(parts, r)
    ensures Runs(1, rows * perRow, VEC).size == Bands(rows, 1, perRow, VEC).size
  {
    var t, f := Bands(rows, 1, perRow, VEC), Runs(1, rows * perRow, VEC);
    Assoc(rows, perRow, VEC);
    forall b: nat, i: nat, j: nat | f.IsCell(b, i, j)
      ensures exists i': nat, j': nat :: Matches(t, f, b, i, j, i', j')
    {
      FlatCell(rows, perRow, i, j);
      assert Matches(t, f, b, i, j, i, j);
    }
    FollowsAssembles(t, f, parts, r);
  }

  lemma FlatCell(rows: nat, perRow: nat, i: nat, j: nat)
    requires perRow > 0 && rows * perRow > 0 && i < rows * perRow && j < VEC
    ensures Matches(Bands(rows, 1, perRow, VEC), Runs(1, rows * perRow, VEC), 0, i, j, i, j)
  {
    var r, c := i / perRow, i % perRow;
    DivMod(i, perRow);
    Assoc(r, perRow, VEC);
    assert (r * perRow + c) * VEC == r * perRow * VEC + c * VEC;
    assert Bands(rows, 1, perRow, VEC).off(0, i) == r * (1 * (perRow * VEC)) + 0 * (perRow * VEC) + c * VEC;
  }

  // Two launches that select the same slots and assemble the same contents leave
  // the same memory, whatever the block counts and interleavings.
  lemma SameMemory<V>(k: Launch<V>, l: Launch<V>, m: seq<V>, opsK: seq<Op>, opsL: seq<Op>)
    requires k.Valid() && l.Valid() && k.sel == l.sel && k.t.size == l.t.size && |m| == |k.sel| * k.t.size
    requires k.IsExecution(opsK) && l.IsExecution(opsL)
    requires forall s, r | 0 <= s < |k.sel| && k.sel[s] >= 0 && k.t.IsAssembly(k.parts(k.sel[s]), r) ::
               l.t.IsAssembly(l.parts(l.sel[s]), r)
    ensures k.Run(m, opsK) == l.Run(m, opsL)
  {
    var a, b := k.Run(m, opsK), l.Run(m, opsL);
    forall s | 0 <= s < |k.sel| ensures k.SlotOf(a, s) == l.SlotOf(b, s) {
      k.AnyOrder(m, opsK, s);
      l.AnyOrder(m, opsL, s);
      if k.sel[s] >= 0 {
        l.t.AssemblyUnique(l.parts(l.sel[s]), k.SlotOf(a, s), l.SlotOf(b, s));
      }
    }
    EqualBySegments(k, l, a, b);
  }

  lemma EqualBySegments<V>(k: Launch<V>, l: Launch<V>, a: seq<V>, b: seq<V>)
    requires k.sel == l.sel && k.t.size == l.t.size && |a| == |b| == |k.sel| * k.t.size
    requires forall s | 0 <= s < |k.sel| :: k.SlotOf(a, s) == l.SlotOf(b, s)
    ensures a == b
  {
    var size := k.t.size;
    forall i | 0 <= i < |a| ensures a[i] == b[i] {
      PositiveFactor(|k.sel|, size);
      DivBelow(i, size, |k.sel|);
      DivMod(i, size);
      var s := i / size;
      k.SlotFits(s);
      assert k.SlotOf(a, s)[i % size] == l.SlotOf(b, s)[i % size];
    }
  }

  // k_w2_cur and k_w2_vec (or k_w2_weights): the same memory, for every partition
  // count, block count and interleaving.
  lemma VectorMatchesByteLoop<V, F>(tb: Table, host: Host<V, F>, sel: seq<int>, hidden: nat, perRow: nat,
                                    stride16: nat, stride1: nat, m: seq<V>, ops16: seq<Op>, ops1: seq<Op>)
    requires tb.Valid() && perRow > 0 && stride1 > 0
    requires W2Weights(tb, host, sel, hidden, perRow, VEC, stride16).Valid()
    requires |m| == |sel| * Bands(hidden, tb.nTp, perRow, VEC).size
    requires W2Weights(tb, host, sel, hidden, perRow, VEC, stride16).IsExecution(ops16)
    requires W2Weights(tb, host, sel, hidden, perRow * VEC, 1, stride1).IsExecution(ops1)
    ensures W2Weights(tb, host, sel, hidden, perRow * VEC, 1, stride1).Valid()
    ensures |m| == |sel| * Bands(hidden, tb.nTp, perRow * VEC, 1).size
    ensures W2Weights(tb, host, sel, hidden, perRow, VEC, stride16).Run(m, ops16) ==
            W2Weights(tb, host, sel, hidden, perRow * VEC, 1, stride1).Run(m, ops1)
  {
    var k, l := W2Weights(tb, host, sel, hidden, perRow, VEC, stride16),
                W2Weights(tb, host, sel, hidden, perRow * VEC, 1, stride1);
    BandsValid(hidden, tb.nTp, perRow * VEC, 1);
    SameSizes(hidden, tb.nTp, perRow);
    forall s | 0 <= s < |sel| && sel[s] >= 0 ensures l.t.IsSource(l.parts(sel[s])) {
      assert k.t.IsSource(k.parts(sel[s]));
    }
    forall s, r | 0 <= s < |sel| && sel[s] >= 0 && k.t.IsAssembly(k.parts(sel[s]), r)
      ensures l.t.IsAssembly(l.parts(sel[s]), r)
    {
      SameAssembly(hidden, tb.nTp, perRow, k.parts(sel[s]), r);
    }
    SameMemory(k, l, m, ops16, ops1);
  }

  ghost function W2Flat<V, F>(tb: Table, host: Host<V, F>, sel: seq<int>, nVec: nat, stride: nat): Launch<V>
    requires tb.Valid() && nVec > 0
  {
    Launch(Runs(1, nVec, VEC), sel, W2Parts(tb, host), stride)
  }

  // k_w2_flat agrees with them when there is one partition.
  lemma FlatMatchesVector<V, F>(tb: Table, host: Host<V, F>, sel: seq<int>, hidden: nat, perRow: nat,
                                strideV: nat, strideF: nat, m: seq<V>, opsV: seq<Op>, opsF: seq<Op>)
    requires tb.Valid() && tb.nTp == 1 && perRow > 0 && hidden * perRow > 0 && strideF > 0
    requires W2Weights(tb, host, sel, hidden, perRow, VEC, strideV).Valid()
    requires |m| == |sel| * Bands(hidden, 1, perRow, VEC).size
    requires W2Weights(tb, host, sel, hidden, perRow, VEC, strideV).IsExecution(opsV)
    requires W2Flat(tb, host, sel, hidden * perRow, strideF).IsExecution(opsF)
    ensures W2Flat(tb, host, sel, hidden * perRow, strideF).Valid()
    ensures |m| == |sel| * Runs(1, hidden * perRow, VEC).size
    ensures W2Weights(tb, host, sel, hidden, perRow, VEC, strideV).Run(m, opsV) ==
            W2Flat(tb, host, sel, hidden * perRow, strideF).Run(m, opsF)
  {
    var k, l := W2Weights(tb, host, sel, hidden, perRow, VEC, strideV), W2Flat(tb, host, sel, hidden * perRow, strideF);
    RunsValid(1, hidden * perRow, VEC);
    Assoc(hidden, perRow, VEC);
    forall s | 0 <= s < |sel| && sel[s] >= 0 ensures l.t.IsSource(l.parts(sel[s])) {
      assert k.t.IsSource(k.parts(sel[s]));
    }
    forall s, r | 0 <= s < |sel| && sel[s] >= 0 && k.t.IsAssembly(k.parts(sel[s]), r)
      ensures l.t.IsAssembly(l.parts(sel[s]), r)
    {
      FlatAssembly(hidden, perRow, k.parts(sel[s]), r);
    }
    SameMemory(k, l, m, opsV, opsF);
  }

  // The next trip stores inside the destination.
  lemma RanAt<V>(l: Launch<V>, mem: seq<V>, slot: nat, blk: nat, x: nat, k: nat, i: nat, now: seq<V>)
    requires l.Valid() && |mem| == |l.sel| * l.t.size
    requires slot < |l.sel| && l.sel[slot] >= 0 && blk < l.t.blocks && x < l.stride && i < l.t.total
    requires Ran(l, mem, slot, blk, x, k, i, now)
    ensures l.Runs(Op(slot, blk, i)) && l.At(Op(slot, blk, i)) + l.t.len <= |now|
  {
    RanStep(l, mem, slot, blk, x, k, i, now);
  }

  // A trip's store takes the thread one trip further.
  lemma RanNext<V>(l: Launch<V>, mem: seq<V>, slot: nat, blk: nat, x: nat, k: nat, i: nat, was: seq<V>, now: seq<V>)
    requires l.Valid() && |mem| == |l.sel| * l.t.size
    requires slot < |l.sel| && l.sel[slot] >= 0 && blk < l.t.blocks && x < l.stride && i < l.t.total
    requires Ran(l, mem, slot, blk, x, k, i, was)
    requires var op := Op(slot, blk, i);
             l.Runs(op) && l.At(op) + l.t.len <= |was| && now == Put(was, l.At(op), l.Data(op))
    ensures Ran(l, mem, slot, blk, x, k + 1, i + l.stride, now)
  {
    RanStep(l, mem, slot, blk, x, k, i, was);
  }

  // One trip of the thread, its first k already made.
  method W2FlatAdvance<V, F>(tb: Table, host: Host<V, F>, sel: seq<int>, dst: array<V>, nVec: nat, perSlot: nat,
                             slot: nat, i: nat, ghost l: Launch<V>, ghost x: nat, ghost mem: seq<V>, ghost k: nat)
    requires tb.Valid() && tb.nTp == 1 && nVec > 0 && perSlot == nVec * VEC
    requires slot < |sel| && sel[slot] >= 0 && i < nVec
    requires l.stride > 0 && l == W2Flat(tb, host, sel, nVec, l.stride) && l.Valid() && x < l.stride
    requires |mem| == |sel| * l.t.size && Ran(l, mem, slot, 0, x, k, i, dst[..])
    modifies dst
    ensures Ran(l, mem, slot, 0, x, k + 1, i + l.stride, dst[..])
  {
    ghost var was := dst[..];
    RanAt(l, mem, slot, 0, x, k, i, was);
    W2FlatTrip(tb, host, sel, dst, nVec, perSlot, slot, i, l.stride);
    RanNext(l, mem, slot, 0, x, k, i, was, dst[..]);
  }

  // One thread of k_w2_flat.
  method W2FlatThread<V, F>(tb: Table, host: Host<V, F>, sel: seq<int>, dst: array<V>, nVec: nat, perSlot: nat,
                            slot: nat, x: nat, stride: nat)
    requires tb.Valid() && tb.nTp == 1 && nVec > 0 && perSlot == nVec * VEC
    requires var l := W2Flat(tb, host, sel, nVec, stride);
             l.Valid() && slot < |sel| && x < stride && dst.Length == |sel| * l.t.size
    modifies dst
    ensures ThreadDone(W2Flat(tb, host, sel, nVec, stride), old(dst[..]), slot, 0, x, dst[..])
  {
    ghost var l, mem, k := W2Flat(tb, host, sel, nVec, stride), dst[..], 0;
    if sel[slot] < 0 { return; }
    var i := x;
    assert l.ThreadOps(slot, 0, x)[..0] == [];
    while i < nVec
      invariant Ran(l, mem, slot, 0, x, k, i, dst[..])
    {
      W2FlatAdvance(tb, host, sel, dst, nVec, perSlot, slot, i, l, x, mem, k);
      i, k := i + stride, k + 1;
    }
    RanAll(l, mem, slot, 0, x, k, i, dst[..]);
  }

  method W2FlatTrip<V, F>(tb: Table, host: Host<V, F>, sel: seq<int>, dst: array<V>, nVec: nat, perSlot: nat,
                          slot: nat, i: nat, ghost stride: nat)
    requires tb.Valid() && tb.nTp == 1 && nVec > 0 && perSlot == nVec * VEC
    requires slot < |sel| && sel[slot] >= 0 && i < nVec
    requires var l := W2Flat(tb, host, sel, nVec, stride);
             l.Valid() && l.Runs(Op(slot, 0, i)) && l.At(Op(slot, 0, i)) + VEC <= dst.Length
    modifies dst
    ensures var l := W2Flat(tb, host, sel, nVec, stride);
            dst[..] == Put(old(dst[..]), l.At(Op(slot, 0, i)), l.Data(Op(slot, 0, i)))
  {
    var src := host.bytes(tb.Tbl(4, 0, sel[slot]));
    FlatStore(tb, host, sel, nVec, perSlot, slot, i, stride);
    StoreRun(dst, slot * perSlot + i * VEC, src, i * VEC, VEC);   // out[i] = src[i]
  }

  lemma FlatStore<V, F>(tb: Table, host: Host<V, F>, sel: seq<int>, nVec: nat, perSlot: nat, slot: nat, i: nat,
                        stride: nat)
    requires tb.Valid() && tb.nTp == 1 && nVec > 0 && perSlot == nVec * VEC
    requires slot < |sel| && sel[slot] >= 0 && i < nVec
    requires var l := W2Flat(tb, host, sel, nVec, stride); l.Valid() && l.Runs(Op(slot, 0, i))
    ensures var l, src := W2Flat(tb, host, sel, nVec, stride), host.bytes(tb.Tbl(4, 0, sel[slot]));
            && l.At(Op(slot, 0, i)) == slot * perSlot + i * VEC && i * VEC + VEC <= |src|
            && l.Data(Op(slot, 0, i)) == src[i * VEC..i * VEC + VEC]
  {
    var l := W2Flat(tb, host, sel, nVec, stride);
    RowFits(i, nVec, VEC);
    var e: nat := sel[slot];
    assert W2Parts(tb, host)(e)[0] == host.bytes(tb.Tbl(4, 0, e));
    assert l.t.IsSource(l.parts(e));
    assert l.Data(Op(slot, 0, i)) == l.t.Chunk(l.parts(e), 0, i);
  }
}
