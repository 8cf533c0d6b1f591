// The four gather kernels: what each thread runs, and what a whole launch leaves.

module ExpertStream {
  import opened Arith
  import opened GridStores
  import opened ExpertTilings

  // Host memory: each region of each expert is one allocation, found by address.
  datatype Host<V, F> = Host(bytes: nat -> seq<V>, floats: nat -> seq<F>)

  const VEC: nat := 16   // bytes per uint4 store

  // table[region][tp][expert]: regions 0 gate_w, 1 gate_s, 2 up_w, 3 up_s, 4 down_w, 5 down_s
  function Entry(region: nat, tp: nat, e: nat, nTp: nat, nExp: nat): nat {
    (region * nTp + tp) * nExp + e
  }

  lemma EntryFits(region: nat, tp: nat, e: nat, nTp: nat, nExp: nat)
    requires region < 6 && tp < nTp && e < nExp
    ensures Entry(region, tp, e, nTp, nExp) < 6 * nTp * nExp
    ensures Entry(region, tp, e, nTp, nExp) % nExp == e
    ensures (Entry(region, tp, e, nTp, nExp) / nExp) % nTp == tp
    ensures (Entry(region, tp, e, nTp, nExp) / nExp) / nTp == region
  {
    RowFits(region, 6, nTp);
    RowFits(region * nTp + tp, 6 * nTp, nExp);
    MulMono(0, region, nTp);
    DivModUnique(region * nTp + tp, nExp, e);
    DivModUnique(region, nTp, tp);
  }

  datatype Table = Table(ptrs: seq<nat>, nTp: nat, nExp: nat)
  {
    predicate Valid() { nTp > 0 && |ptrs| == 6 * nTp * nExp }

    // The address of a region; 0 for an expert the table does not list.
    function Tbl(region: nat, tp: nat, e: nat): nat
      requires Valid() && region < 6 && tp < nTp
    {
      if e < nExp then
        EntryFits(region, tp, e, nTp, nExp);
        ptrs[Entry(region, tp, e, nTp, nExp)]
      else 0
    }
  }

  function MapSeq<F, B>(cast: F -> B, s: seq<F>): (r: seq<B>)
    ensures |r| == |s| && forall i | 0 <= i < |s| :: r[i] == cast(s[i])
  {
    seq(|s|, i requires 0 <= i < |s| => cast(s[i]))
  }

  lemma BlockIsUp(blk: nat, nTp: nat)
    requires nTp > 0 && blk < 2 * nTp
    ensures blk / nTp < 2 && blk % nTp < nTp && blk == (blk / nTp) * nTp + blk % nTp
    ensures blk / nTp == 0 <==> blk < nTp
    ensures blk % nTp == if blk < nTp then blk else blk - nTp
  {
    DivBelow(blk, nTp, 2);
    DivMod(blk, nTp);
  }

  // ---- the launches ---------------------------------------------------------------------

  function W13Parts<V, F>(tb: Table, host: Host<V, F>): nat -> seq<seq<V>>
    requires tb.Valid()
  {
    (e: nat) => seq(2 * tb.nTp, blk requires 0 <= blk < 2 * tb.nTp =>
      host.bytes(tb.Tbl(if blk / tb.nTp == 0 then 0 else 2, blk % tb.nTp, e)))
  }

  ghost function W13Weights<V, F>(tb: Table, host: Host<V, F>, sel: seq<int>, vecPerTpBlock: nat,
                                  stride: nat): Launch<V>
    requires tb.Valid() && vecPerTpBlock > 0
  {
    Launch(Runs(2 * tb.nTp, vecPerTpBlock, VEC), sel, W13Parts(tb, host), stride)
  }

  function W2Parts<V, F>(tb: Table, host: Host<V, F>): nat -> seq<seq<V>>
    requires tb.Valid()
  {
    (e: nat) => seq(tb.nTp, tp requires 0 <= tp < tb.nTp => host.bytes(tb.Tbl(4, tp, e)))
  }

  // `len` is 16 for the uint4 kernel and 1 for the byte kernel it replaced.
  ghost function W2Weights<V, F>(tb: Table, host: Host<V, F>, sel: seq<int>, hidden: nat, perRow: nat, len: nat,
                                 stride: nat): Launch<V>
    requires tb.Valid() && perRow > 0 && len > 0
  {
    Launch(Bands(hidden, tb.nTp, perRow, len), sel, W2Parts(tb, host), stride)
  }

  function W13ScaleParts<V, F, B>(tb: Table, host: Host<V, F>, cast: F -> B): nat -> seq<seq<B>>
    requires tb.Valid()
  {
    (e: nat) => seq(2 * tb.nTp, blk requires 0 <= blk < 2 * tb.nTp =>
      MapSeq(cast, host.floats(tb.Tbl(if blk / tb.nTp == 0 then 1 else 3, blk % tb.nTp, e))))
  }

  ghost function W13Scales<V, F, B>(tb: Table, host: Host<V, F>, cast: F -> B, sel: seq<int>, tpMoe: nat, g: nat,
                                    stride: nat): Launch<B>
    requires tb.Valid() && tpMoe > 0 && g > 0
  {
    Launch(RowScales(2 * tb.nTp, tpMoe, g), sel, W13ScaleParts(tb, host, cast), stride)
  }

  function W2ScaleParts<V, F, B>(tb: Table, host: Host<V, F>, cast: F -> B): nat -> seq<seq<B>>
    requires tb.Valid()
  {
    (e: nat) => seq(tb.nTp, tp requires 0 <= tp < tb.nTp => MapSeq(cast, host.floats(tb.Tbl(5, tp, e))))
  }

  ghost function W2Scales<V, F, B>(tb: Table, host: Host<V, F>, cast: F -> B, sel: seq<int>, hidden: nat, tpG: nat,
                                   stride: nat): Launch<B>
    requires tb.Valid() && hidden > 0 && tpG > 0
  {
    Launch(GroupScales(hidden, tb.nTp, tpG), sel, W2ScaleParts(tb, host, cast), stride)
  }

  // ---- one thread of each kernel -----------------------------------------------------------

  // One store of consecutive elements.
  method StoreRun<V>(dst: array<V>, at: nat, src: seq<V>, from: nat, len: nat)
    requires at + len <= dst.Length && from + len <= |src|
    modifies dst
    ensures dst[..] == Put(old(dst[..]), at, src[from..from + len])
  {
    forall j | 0 <= j < len {
      dst[at + j] := src[from + j];
    }
  }

  // The thread has run its first k trips and stands at trip i.
  ghost predicate Ran<V>(l: Launch<V>, mem: seq<V>, slot: nat, blk: nat, x: nat, k: nat, i: nat, now: seq<V>)
    requires l.Valid() && |mem| == |l.sel| * l.t.size
    requires slot < |l.sel| && l.sel[slot] >= 0 && blk < l.t.blocks && x < l.stride
  {
    var ops := l.ThreadOps(slot, blk, x);
    && k <= |ops| && Trips(i, l.stride, l.t.total) == Trips(x, l.stride, l.t.total)[k..]
    && (ThreadRuns(l, slot, blk, x); now == l.Run(mem, ops[..k]))
  }

  lemma ThreadRuns<V>(l: Launch<V>, slot: nat, blk: nat, x: nat)
    requires l.stride > 0 && slot < |l.sel| && l.sel[slot] >= 0 && blk < l.t.blocks && x < l.stride
    ensures forall op | op in l.ThreadOps(slot, blk, x) :: l.Runs(op)
  {
  }

  lemma RanStep<V>(l: Launch<V>, mem: seq<V>, slot: nat, blk: nat, x: nat, k: nat, i: nat, now: seq<V>)
    requires l.Valid() && |mem| == |l.sel| * l.t.size
    requires slot < |l.sel| && l.sel[slot] >= 0 && blk < l.t.blocks && x < l.stride && i < l.t.total
    requires Ran(l, mem, slot, blk, x, k, i, now)
    ensures var op := Op(slot, blk, i);
            && l.Runs(op) && l.At(op) + l.t.len <= |now| && |now| == |mem|
            && l.Data(op) == l.t.Chunk(l.parts(l.sel[slot]), blk, i)
            && Ran(l, mem, slot, blk, x, k + 1, i + l.stride, Put(now, l.At(op), l.Data(op)))
  {
    var ops, op := l.ThreadOps(slot, blk, x), Op(slot, blk, i);
    ThreadRuns(l, slot, blk, x);
    assert Trips(x, l.stride, l.t.total)[k] == Trips(i, l.stride, l.t.total)[0] == i;
    assert ops[k] == op;
    l.StoreInSlot(op);
    assert ops[..k + 1][..k] == ops[..k];
    assert Trips(i + l.stride, l.stride, l.t.total) == Trips(i, l.stride, l.t.total)[1..];
  }

  ghost predicate ThreadDone<V>(l: Launch<V>, mem: seq<V>, slot: nat, blk: nat, x: nat, now: seq<V>)
    requires l.Valid() && |mem| == |l.sel| * l.t.size && slot < |l.sel| && blk < l.t.blocks && x < l.stride
  {
    if l.sel[slot] < 0 then now == mem
    else (ThreadRuns(l, slot, blk, x); now == l.Run(mem, l.ThreadOps(slot, blk, x)))
  }

  lemma RanAll<V>(l: Launch<V>, mem: seq<V>, slot: nat, blk: nat, x: nat, k: nat, i: nat, now: seq<V>)
    requires l.Valid() && |mem| == |l.sel| * l.t.size
    requires slot < |l.sel| && l.sel[slot] >= 0 && blk < l.t.blocks && x < l.stride && i >= l.t.total
    requires Ran(l, mem, slot, blk, x, k, i, now)
    ensures ThreadDone(l, mem, slot, blk, x, now)
  {
    var ops := l.ThreadOps(slot, blk, x);
    assert ops[..k] == ops;
  }

  method W13WeightsTrip<V, F>(tb: Table, host: Host<V, F>, sel: seq<int>, dst: array<V>,
      vecPerTpBlock: nat, vecPerSlot: nat, slot: nat, blk: nat, i: nat, ghost stride: nat)
    requires tb.Valid() && vecPerTpBlock > 0 && vecPerSlot == vecPerTpBlock * (2 * tb.nTp)
    requires var l := W13Weights(tb, host, sel, vecPerTpBlock, stride);
             l.Valid() && l.Runs(Op(slot, blk, i)) && l.At(Op(slot, blk, i)) + l.t.len <= dst.Length
    modifies dst
    ensures var l := W13Weights(tb, host, sel, vecPerTpBlock, stride);
            dst[..] == Put(old(dst[..]), l.At(Op(slot, blk, i)), l.Data(Op(slot, blk, i)))
  {
    W13Weights(tb, host, sel, vecPerTpBlock, stride).RunsBelow(Op(slot, blk, i));
    BlockIsUp(blk, tb.nTp);
    var tp, isUp := blk % tb.nTp, blk / tb.nTp;
    var src := host.bytes(tb.Tbl(if isUp != 0 then 2 else 0, tp, sel[slot]));
    var out := slot * vecPerSlot + (isUp * tb.nTp + tp) * vecPerTpBlock;
    W13WeightsStore(tb, host, sel, vecPerTpBlock, vecPerSlot, slot, blk, i, stride);
    StoreRun(dst, (out + i) * VEC, src, i * VEC, VEC);   // out[i] = src[i]
  }

  // k_w13_weights: contiguous row blocks, 16 bytes a trip.
  method W13WeightsThread<V, F>(tb: Table, host: Host<V, F>, sel: seq<int>, dst: array<V>,
      vecPerTpBlock: nat, vecPerSlot: nat, slot: nat, blk: nat, x: nat, stride: nat)
    requires tb.Valid() && vecPerTpBlock > 0 && vecPerSlot == vecPerTpBlock * (2 * tb.nTp)
    requires var l := W13Weights(tb, host, sel, vecPerTpBlock, stride);
             l.Valid() && slot < |sel| && blk < l.t.blocks && x < stride && dst.Length == |sel| * l.t.size
    modifies dst
    ensures ThreadDone(W13Weights(tb, host, sel, vecPerTpBlock, stride), old(dst[..]), slot, blk, x, dst[..])
  {
    ghost var l, mem, k := W13Weights(tb, host, sel, vecPerTpBlock, stride), dst[..], 0;
    if sel[slot] < 0 { return; }
    var i := x;
    assert l.ThreadOps(slot, blk, x)[..0] == [];
    while i < vecPerTpBlock
      invariant Ran(l, mem, slot, blk, x, k, i, dst[..])
    {
      ghost var was, op := dst[..], Op(slot, blk, i);
      RanStep(l, mem, slot, blk, x, k, i, was);
      W13WeightsTrip(tb, host, sel, dst, vecPerTpBlock, vecPerSlot, slot, blk, i, stride);
      assert dst[..] == Put(was, l.At(op), l.Data(op));
      i, k := i + stride, k + 1;
    }
    RanAll(l, mem, slot, blk, x, k, i, dst[..]);
  }

  method W2WeightsTrip<V, F>(tb: Table, host: Host<V, F>, sel: seq<int>, dst: array<V>,
      hidden: nat, perRow: nat, dstPerRow: nat, perSlot: nat, len: nat, slot: nat, blk: nat, i: nat, ghost stride: nat)
    requires tb.Valid() && perRow > 0 && len > 0 && dstPerRow == tb.nTp * perRow
    requires perSlot == hidden * (dstPerRow * len)
    requires var l := W2Weights(tb, host, sel, hidden, perRow, len, stride);
             l.Valid() && l.Runs(Op(slot, blk, i)) && l.At(Op(slot, blk, i)) + l.t.len <= dst.Length
    modifies dst
    ensures var l := W2Weights(tb, host, sel, hidden, perRow, len, stride);
            dst[..] == Put(old(dst[..]), l.At(Op(slot, blk, i)), l.Data(Op(slot, blk, i)))
  {
    W2Weights(tb, host, sel, hidden, perRow, len, stride).RunsBelow(Op(slot, blk, i));
    var src := host.bytes(tb.Tbl(4, blk, sel[slot]));
    var out := slot * perSlot + blk * perRow * len;
    var r := i / perRow;
    var c := i - r * perRow;
    W2WeightsStore(tb, host, sel, hidden, perRow, dstPerRow, perSlot, len, slot, blk, i, stride);
    StoreRun(dst, out + (r * dstPerRow + c) * len, src, i * len, len);   // out[r * dst_row + c] = src[i]
  }

  // k_w2_weights and k_w2_vec (len 16), k_w2_cur (len 1): rows strided, partitions side by side.
  method W2WeightsThread<V, F>(tb: Table, host: Host<V, F>, sel: seq<int>, dst: array<V>,
      hidden: nat, perRow: nat, dstPerRow: nat, perSlot: nat, len: nat, slot: nat, blk: nat, x: nat, stride: nat)
    requires tb.Valid() && perRow > 0 && len > 0 && dstPerRow == tb.nTp * perRow
    requires perSlot == hidden * (dstPerRow * len)
    requires var l := W2Weights(tb, host, sel, hidden, perRow, len, stride);
             l.Valid() && slot < |sel| && blk < l.t.blocks && x < stride && dst.Length == |sel| * l.t.size
    modifies dst
    ensures ThreadDone(W2Weights(tb, host, sel, hidden, perRow, len, stride), old(dst[..]), slot, blk, x, dst[..])
  {
    ghost var l, mem, k := W2Weights(tb, host, sel, hidden, perRow, len, stride), dst[..], 0;
    if sel[slot] < 0 { return; }
    var i := x;
    assert l.ThreadOps(slot, blk, x)[..0] == [];
    while i < hidden * perRow
      invariant Ran(l, mem, slot, blk, x, k, i, dst[..])
    {
      ghost var was, op := dst[..], Op(slot, blk, i);
      RanStep(l, mem, slot, blk, x, k, i, was);
      W2WeightsTrip(tb, host, sel, dst, hidden, perRow, dstPerRow, perSlot, len, slot, blk, i, stride);
      assert dst[..] == Put(was, l.At(op), l.Data(op));
      i, k := i + stride, k + 1;
    }
    RanAll(l, mem, slot, blk, x, k, i, dst[..]);
  }

  method W13ScalesTrip<V, F, B>(tb: Table, host: Host<V, F>, cast: F -> B, sel: seq<int>, dst: array<B>,
      moe: nat, g: nat, tpMoe: nat, perSlot: nat, slot: nat, blk: nat, i: nat, ghost stride: nat)
    requires tb.Valid() && tpMoe > 0 && g > 0 && g % 4 == 0 && moe == tb.nTp * tpMoe && perSlot == 2 * moe * g
    requires var l := W13Scales(tb, host, cast, sel, tpMoe, g, stride);
             l.Valid() && l.Runs(Op(slot, blk, i)) && l.At(Op(slot, blk, i)) + l.t.len <= dst.Length
    modifies dst
    ensures var l := W13Scales(tb, host, cast, sel, tpMoe, g, stride);
            dst[..] == Put(old(dst[..]), l.At(Op(slot, blk, i)), l.Data(Op(slot, blk, i)))
  {
    W13Scales(tb, host, cast, sel, tpMoe, g, stride).RunsBelow(Op(slot, blk, i));
    BlockIsUp(blk, tb.nTp);
    var tp, isUp := blk % tb.nTp, blk / tb.nTp;
    var src := host.floats(tb.Tbl(if isUp != 0 then 3 else 1, tp, sel[slot]));
    var out := slot * perSlot;
    var r := i / g;
    var k := i - r * g;
    var n := isUp * moe + tp * tpMoe + r;
    W13ScalesStore(tb, host, cast, sel, moe, g, tpMoe, perSlot, slot, blk, i, stride);
    dst[out + (k / 4) * (2 * moe * 4) + n * 4 + k % 4] := cast(src[i]);
  }

  // k_w13_scales: converted and interleaved in the same pass.
  method W13ScalesThread<V, F, B>(tb: Table, host: Host<V, F>, cast: F -> B, sel: seq<int>, dst: array<B>,
      moe: nat, g: nat, tpMoe: nat, perSlot: nat, slot: nat, blk: nat, x: nat, stride: nat)
    requires tb.Valid() && tpMoe > 0 && g > 0 && g % 4 == 0 && moe == tb.nTp * tpMoe && perSlot == 2 * moe * g
    requires var l := W13Scales(tb, host, cast, sel, tpMoe, g, stride);
             l.Valid() && slot < |sel| && blk < l.t.blocks && x < stride && dst.Length == |sel| * l.t.size
    modifies dst
    ensures ThreadDone(W13Scales(tb, host, cast, sel, tpMoe, g, stride), old(dst[..]), slot, blk, x, dst[..])
  {
    ghost var l, mem, k := W13Scales(tb, host, cast, sel, tpMoe, g, stride), dst[..], 0;
    if sel[slot] < 0 { return; }
    var i := x;
    assert l.ThreadOps(slot, blk, x)[..0] == [];
    while i < tpMoe * g
      invariant Ran(l, mem, slot, blk, x, k, i, dst[..])
    {
      ghost var was, op := dst[..], Op(slot, blk, i);
      RanStep(l, mem, slot, blk, x, k, i, was);
      W13ScalesTrip(tb, host, cast, sel, dst, moe, g, tpMoe, perSlot, slot, blk, i, stride);
      assert dst[..] == Put(was, l.At(op), l.Data(op));
      i, k := i + stride, k + 1;
    }
    RanAll(l, mem, slot, blk, x, k, i, dst[..]);
  }

  method W2ScalesTrip<V, F, B>(tb: Table, host: Host<V, F>, cast: F -> B, sel: seq<int>, dst: array<B>,
      hidden: nat, g2: nat, tpG: nat, perSlot: nat, slot: nat, blk: nat, i: nat, ghost stride: nat)
    requires tb.Valid() && hidden > 0 && tpG > 0 && g2 == tb.nTp * tpG && g2 % 4 == 0 && perSlot == hidden * g2
    requires var l := W2Scales(tb, host, cast, sel, hidden, tpG, stride);
             l.Valid() && l.Runs(Op(slot, blk, i)) && l.At(Op(slot, blk, i)) + l.t.len <= dst.Length
    modifies dst
    ensures var l := W2Scales(tb, host, cast, sel, hidden, tpG, stride);
            dst[..] == Put(old(dst[..]), l.At(Op(slot, blk, i)), l.Data(Op(slot, blk, i)))
  {
    W2Scales(tb, host, cast, sel, hidden, tpG, stride).RunsBelow(Op(slot, blk, i));
    var src := host.floats(tb.Tbl(5, blk, sel[slot]));
    var out := slot * perSlot;
    var r := i / tpG;
    var c := i - r * tpG;
    var k := blk * tpG + c;
    W2ScalesStore(tb, host, cast, sel, hidden, g2, tpG, perSlot, slot, blk, i, stride);
    dst[out + (k / 4) * (hidden * 4) + r * 4 + k % 4] := cast(src[i]);
  }

  // k_w2_scales: partitions concatenate along the groups.
  method W2ScalesThread<V, F, B>(tb: Table, host: Host<V, F>, cast: F -> B, sel: seq<int>, dst: array<B>,
      hidden: nat, g2: nat, tpG: nat, perSlot: nat, slot: nat, blk: nat, x: nat, stride: nat)
    requires tb.Valid() && hidden > 0 && tpG > 0 && g2 == tb.nTp * tpG && g2 % 4 == 0 && perSlot == hidden * g2
    requires var l := W2Scales(tb, host, cast, sel, hidden, tpG, stride);
             l.Valid() && slot < |sel| && blk < l.t.blocks && x < stride && dst.Length == |sel| * l.t.size
    modifies dst
    ensures ThreadDone(W2Scales(tb, host, cast, sel, hidden, tpG, stride), old(dst[..]), slot, blk, x, dst[..])
  {
    ghost var l, mem, k := W2Scales(tb, host, cast, sel, hidden, tpG, stride), dst[..], 0;
    if sel[slot] < 0 { return; }
    var i := x;
    assert l.ThreadOps(slot, blk, x)[..0] == [];
    while i < hidden * tpG
      invariant Ran(l, mem, slot, blk, x, k, i, dst[..])
    {
      ghost var was, op := dst[..], Op(slot, blk, i);
      RanStep(l, mem, slot, blk, x, k, i, was);
      W2ScalesTrip(tb, host, cast, sel, dst, hidden, g2, tpG, perSlot, slot, blk, i, stride);
      assert dst[..] == Put(was, l.At(op), l.Data(op));
      i, k := i + stride, k + 1;
    }
    RanAll(l, mem, slot, blk, x, k, i, dst[..]);
  }

  // ---- the address and the value of one trip, as the kernels compute them -----------------

  lemma W13WeightsStore<V, F>(tb: Table, host: Host<V, F>, sel: seq<int>, trips: nat, perSlot: nat,
                              slot: nat, blk: nat, i: nat, stride: nat)
    requires tb.Valid() && trips > 0 && perSlot == trips * (2 * tb.nTp) && slot < |sel| && sel[slot] >= 0
    requires blk < 2 * tb.nTp && i < trips
    requires var l := W13Weights(tb, host, sel, trips, stride); l.Valid() && l.Runs(Op(slot, blk, i))
    ensures blk / tb.nTp < 2 && blk % tb.nTp < tb.nTp
    ensures var l := W13Weights(tb, host, sel, trips, stride);
            var src := host.bytes(tb.Tbl(if blk / tb.nTp != 0 then 2 else 0, blk % tb.nTp, sel[slot]));
            var out := slot * perSlot + ((blk / tb.nTp) * tb.nTp + blk % tb.nTp) * trips;
            && l.At(Op(slot, blk, i)) == (out + i) * VEC && 0 <= i * VEC && i * VEC + VEC <= |src|
            && l.Data(Op(slot, blk, i)) == src[i * VEC..i * VEC + VEC]
  {
    var l := W13Weights(tb, host, sel, trips, stride);
    BlockIsUp(blk, tb.nTp);
    VecAddress(slot, blk, i, trips, 2 * tb.nTp, perSlot);
    RowFits(i, trips, VEC);
    var e: nat := sel[slot];
    var src := host.bytes(tb.Tbl(if blk / tb.nTp != 0 then 2 else 0, blk % tb.nTp, e));
    assert W13Parts(tb, host)(e)[blk] == src;
    assert l.t.IsSource(l.parts(e));
    assert l.Data(Op(slot, blk, i)) == l.t.Chunk(l.parts(e), blk, i);
  }

  lemma W2WeightsStore<V, F>(tb: Table, host: Host<V, F>, sel: seq<int>, hidden: nat, perRow: nat, dstPerRow: nat,
                             perSlot: nat, len: nat, slot: nat, blk: nat, i: nat, stride: nat)
    requires tb.Valid() && perRow > 0 && len > 0 && dstPerRow == tb.nTp * perRow
    requires perSlot == hidden * (dstPerRow * len) && slot < |sel| && sel[slot] >= 0
    requires blk < tb.nTp && i < hidden * perRow
    requires var l := W2Weights(tb, host, sel, hidden, perRow, len, stride); l.Valid() && l.Runs(Op(slot, blk, i))
    ensures var l := W2Weights(tb, host, sel, hidden, perRow, len, stride);
            var src := host.bytes(tb.Tbl(4, blk, sel[slot]));
            var r := i / perRow;
            var at := slot * perSlot + blk * perRow * len + (r * dstPerRow + (i - r * perRow)) * len;
            && l.At(Op(slot, blk, i)) == at && 0 <= i * len && i * len + len <= |src|
            && l.Data(Op(slot, blk, i)) == src[i * len..i * len + len]
  {
    var l := W2Weights(tb, host, sel, hidden, perRow, len, stride);
    BandAddress(slot, blk, i, hidden, tb.nTp, perRow, dstPerRow, len, perSlot);
    RowFits(i, hidden * perRow, len);
    MulMono(0, i, len);
    var e: nat := sel[slot];
    assert W2Parts(tb, host)(e)[blk] == host.bytes(tb.Tbl(4, blk, e));
    assert l.t.IsSource(l.parts(e));
    assert l.Data(Op(slot, blk, i)) == l.t.Chunk(l.parts(e), blk, i);
  }

  lemma W13ScalesStore<V, F, B>(tb: Table, host: Host<V, F>, cast: F -> B, sel: seq<int>, moe: nat, g: nat, tpMoe: nat,
                                perSlot: nat, slot: nat, blk: nat, i: nat, stride: nat)
    requires tb.Valid() && tpMoe > 0 && g > 0 && g % 4 == 0 && moe == tb.nTp * tpMoe && perSlot == 2 * moe * g
    requires slot < |sel| && sel[slot] >= 0 && blk < 2 * tb.nTp && i < tpMoe * g
    requires var l := W13Scales(tb, host, cast, sel, tpMoe, g, stride); l.Valid() && l.Runs(Op(slot, blk, i))
    ensures blk / tb.nTp < 2 && blk % tb.nTp < tb.nTp
    ensures var l := W13Scales(tb, host, cast, sel, tpMoe, g, stride);
            var src := host.floats(tb.Tbl(if blk / tb.nTp != 0 then 3 else 1, blk % tb.nTp, sel[slot]));
            var r := i / g;
            var k := i - r * g;
            var n := (blk / tb.nTp) * moe + (blk % tb.nTp) * tpMoe + r;
            && l.At(Op(slot, blk, i)) == slot * perSlot + (k / 4) * (2 * moe * 4) + n * 4 + k % 4
            && i < |src| && l.Data(Op(slot, blk, i)) == [cast(src[i])]
  {
    var l := W13Scales(tb, host, cast, sel, tpMoe, g, stride);
    RowScaleAddress(slot, blk, i, tb.nTp, tpMoe, moe, g, perSlot);
    BlockIsUp(blk, tb.nTp);
    var e: nat := sel[slot];
    var src := host.floats(tb.Tbl(if blk / tb.nTp != 0 then 3 else 1, blk % tb.nTp, e));
    assert W13ScaleParts(tb, host, cast)(e)[blk] == MapSeq(cast, src);
    OneElement(l, slot, blk, i, e);
  }

  lemma W2ScalesStore<V, F, B>(tb: Table, host: Host<V, F>, cast: F -> B, sel: seq<int>, hidden: nat, g2: nat, tpG: nat,
                               perSlot: nat, slot: nat, blk: nat, i: nat, stride: nat)
    requires tb.Valid() && hidden > 0 && tpG > 0 && g2 == tb.nTp * tpG && g2 % 4 == 0 && perSlot == hidden * g2
    requires slot < |sel| && sel[slot] >= 0 && blk < tb.nTp && i < hidden * tpG
    requires var l := W2Scales(tb, host, cast, sel, hidden, tpG, stride); l.Valid() && l.Runs(Op(slot, blk, i))
    ensures var l := W2Scales(tb, host, cast, sel, hidden, tpG, stride);
            var src := host.floats(tb.Tbl(5, blk, sel[slot]));
            var r := i / tpG;
            var k := blk * tpG + (i - r * tpG);
            && l.At(Op(slot, blk, i)) == slot * perSlot + (k / 4) * (hidden * 4) + r * 4 + k % 4
            && i < |src| && l.Data(Op(slot, blk, i)) == [cast(src[i])]
  {
    var l := W2Scales(tb, host, cast, sel, hidden, tpG, stride);
    DivMod(i, tpG);
    var e: nat := sel[slot];
    assert W2ScaleParts(tb, host, cast)(e)[blk] == MapSeq(cast, host.floats(tb.Tbl(5, blk, e)));
    OneElement(l, slot, blk, i, e);
  }

  lemma OneElement<V>(l: Launch<V>, slot: nat, blk: nat, i: nat, e: nat)
    requires l.Valid() && l.Runs(Op(slot, blk, i)) && l.t.len == 1 && slot < |l.sel| && l.sel[slot] == e
    ensures l.t.IsSource(l.parts(e)) && blk < l.t.blocks && i < l.t.total && l.t.total == |l.parts(e)[blk]|
    ensures l.Data(Op(slot, blk, i)) == [l.parts(e)[blk][i]]
  {
    l.RunsBelow(Op(slot, blk, i));
    assert l.t.IsSource(l.parts(e));
    assert l.Data(Op(slot, blk, i)) == l.t.Chunk(l.parts(e), blk, i);
  }

  lemma BandAddress(slot: nat, tp: nat, i: nat, hidden: nat, bands: nat, perRow: nat, dstPerRow: nat, len: nat,
                    perSlot: nat)
    requires perRow > 0 && dstPerRow == bands * perRow && perSlot == hidden * (dstPerRow * len)
    ensures var r, c := i / perRow, i % perRow;
            && i - r * perRow == c
            && slot * perSlot + tp * perRow * len + (r * dstPerRow + c) * len ==
               slot * (hidden * (bands * (perRow * len))) +
               (r * (bands * (perRow * len)) + tp * (perRow * len) + c * len)
  {
    DivMod(i, perRow);
    var r, c := i / perRow, i % perRow;
    Assoc(bands, perRow, len);
    assert dstPerRow * len == bands * (perRow * len);
    Assoc(tp, perRow, len);
    Assoc(r, dstPerRow, len);
    assert (r * dstPerRow + c) * len == r * dstPerRow * len + c * len;
  }

  lemma RowScaleAddress(slot: nat, blk: nat, i: nat, nTp: nat, tpMoe: nat, moe: nat, g: nat, perSlot: nat)
    requires nTp > 0 && blk < 2 * nTp && g > 0 && moe == nTp * tpMoe && perSlot == 2 * moe * g
    ensures i - (i / g) * g == i % g
    ensures 2 * moe == (2 * nTp) * tpMoe && perSlot == ((2 * nTp) * tpMoe) * g
    ensures (blk / nTp) * moe + (blk % nTp) * tpMoe == blk * tpMoe
  {
    DivMod(i, g);
    BlockIsUp(blk, nTp);
    Assoc(2, nTp, tpMoe);
    Assoc(blk / nTp, nTp, tpMoe);
    assert ((blk / nTp) * nTp + blk % nTp) * tpMoe == (blk / nTp) * nTp * tpMoe + (blk % nTp) * tpMoe;
  }

  lemma VecAddress(slot: nat, blk: nat, i: nat, trips: nat, blocks: nat, perSlot: nat)
    requires perSlot == trips * blocks
    ensures (slot * perSlot + blk * trips + i) * VEC ==
            slot * (blocks * (trips * VEC)) + (blk * (trips * VEC) + i * VEC)
  {
    assert slot * (trips * blocks) * VEC == slot * (blocks * (trips * VEC)) by {
      assert (trips * blocks) * VEC == blocks * (trips * VEC);
      assert slot * (trips * blocks) * VEC == slot * ((trips * blocks) * VEC);
    }
    assert (blk * trips) * VEC == blk * (trips * VEC);
  }

  // ---- the pointer table ---------------------------------------------------------------------

  lemma EntryInjective(r: nat, tp: nat, e: nat, r': nat, tp': nat, e': nat, nTp: nat, nExp: nat)
    requires r < 6 && tp < nTp && e < nExp && r' < 6 && tp' < nTp && e' < nExp
    ensures Entry(r, tp, e, nTp, nExp) == Entry(r', tp', e', nTp, nExp) <==> r == r' && tp == tp' && e == e'
  {
    EntryFits(r, tp, e, nTp, nExp);
    EntryFits(r', tp', e', nTp, nExp);
  }

  ghost predicate FilledTo(table: seq<nat>, rows: seq<seq<seq<nat>>>, nTp: nat, nExp: nat, tp: nat, e: nat)
    requires |rows| == nTp && |table| == 6 * nTp * nExp
    requires forall t | 0 <= t < nTp :: |rows[t]| == nExp && forall x | 0 <= x < nExp :: |rows[t][x]| in {0, 6}
  {
    forall r: nat, t: nat, x: nat | r < 6 && t < nTp && x < nExp :: EntryIs(table, rows, nTp, nExp, tp, e, r, t, x)
  }

  ghost predicate EntryIs(table: seq<nat>, rows: seq<seq<seq<nat>>>, nTp: nat, nExp: nat, tp: nat, e: nat,
                          r: nat, t: nat, x: nat)
    requires |rows| == nTp && |table| == 6 * nTp * nExp && r < 6 && t < nTp && x < nExp
    requires forall u | 0 <= u < nTp :: |rows[u]| == nExp && forall y | 0 <= y < nExp :: |rows[u][y]| in {0, 6}
  {
    EntryFits(r, t, x, nTp, nExp);
    table[Entry(r, t, x, nTp, nExp)] ==
      if (t < tp || (t == tp && x < e)) && rows[t][x] != [] then rows[t][x][r] else 0
  }

  // rows[tp][e] lists the six region addresses of an expert, or nothing for one that
  // has no host allocation; such an expert keeps a zero entry.
  method BuildPointerTable(rows: seq<seq<seq<nat>>>, nTp: nat, nExp: nat) returns (table: seq<nat>)
    requires |rows| == nTp
    requires forall t | 0 <= t < nTp :: |rows[t]| == nExp && forall x | 0 <= x < nExp :: |rows[t][x]| in {0, 6}
    ensures |table| == 6 * nTp * nExp && FilledTo(table, rows, nTp, nExp, nTp, 0)
  {
    MulMono(0, 6 * nTp, nExp);
    table := seq(6 * nTp * nExp, _ => 0);
    forall r: nat, t: nat, x: nat | r < 6 && t < nTp && x < nExp
      ensures EntryIs(table, rows, nTp, nExp, 0, 0, r, t, x)
    {
      EntryFits(r, t, x, nTp, nExp);
    }
    for tp := 0 to nTp
      invariant |table| == 6 * nTp * nExp && FilledTo(table, rows, nTp, nExp, tp, 0)
    {
      for e := 0 to nExp
        invariant |table| == 6 * nTp * nExp && FilledTo(table, rows, nTp, nExp, tp, e)
      {
        table := FillRow(table, rows, nTp, nExp, tp, e);
      }
      ghost var next := tp + 1;
      assert FilledTo(table, rows, nTp, nExp, next, 0) by {
        forall r: nat, t: nat, x: nat | r < 6 && t < nTp && x < nExp
          ensures EntryIs(table, rows, nTp, nExp, next, 0, r, t, x)
        {
          assert EntryIs(table, rows, nTp, nExp, tp, nExp, r, t, x);
        }
      }
    }
  }

  method FillRow(table0: seq<nat>, rows: seq<seq<seq<nat>>>, nTp: nat, nExp: nat, tp: nat, e: nat)
    returns (table: seq<nat>)
    requires |rows| == nTp && |table0| == 6 * nTp * nExp && tp < nTp && e < nExp
    requires forall t | 0 <= t < nTp :: |rows[t]| == nExp && forall x | 0 <= x < nExp :: |rows[t][x]| in {0, 6}
    requires FilledTo(table0, rows, nTp, nExp, tp, e)
    ensures |table| == |table0| && FilledTo(table, rows, nTp, nExp, tp, e + 1)
  {
    table := table0;
    if rows[tp][e] != [] {
      for region := 0 to 6
        invariant |table| == |table0|
        invariant forall i | 0 <= i < |table| && !OnRow(i, region, tp, e, nTp, nExp) :: table[i] == table0[i]
        invariant forall r: nat | r < region ::
                    Entry(r, tp, e, nTp, nExp) < |table| && table[Entry(r, tp, e, nTp, nExp)] == rows[tp][e][r]
      {
        EntryFits(region, tp, e, nTp, nExp);
        forall r: nat | r < region ensures Entry(r, tp, e, nTp, nExp) != Entry(region, tp, e, nTp, nExp) {
          EntryInjective(r, tp, e, region, tp, e, nTp, nExp);
        }
        table := table[Entry(region, tp, e, nTp, nExp) := rows[tp][e][region]];
      }
    }
    ghost var next := e + 1;
    forall r: nat, t: nat, x: nat | r < 6 && t < nTp && x < nExp
      ensures EntryIs(table, rows, nTp, nExp, tp, next, r, t, x)
    {
      assert EntryIs(table0, rows, nTp, nExp, tp, e, r, t, x);
      EntryFits(r, t, x, nTp, nExp);
      if t != tp || x != e {
        forall region: nat | region < 6 ensures Entry(region, tp, e, nTp, nExp) != Entry(r, t, x, nTp, nExp) {
          EntryInjective(region, tp, e, r, t, x, nTp, nExp);
        }
      }
    }
  }

  ghost predicate OnRow(i: nat, regions: nat, tp: nat, e: nat, nTp: nat, nExp: nat) {
    exists r: nat :: r < regions && Entry(r, tp, e, nTp, nExp) == i
  }

  // The table the kernels read is the table the host built.
  lemma TableReads(table: seq<nat>, rows: seq<seq<seq<nat>>>, nTp: nat, nExp: nat, region: nat, tp: nat, e: nat)
    requires nTp > 0 && |rows| == nTp && |table| == 6 * nTp * nExp && region < 6 && tp < nTp && e < nExp
    requires forall t | 0 <= t < nTp :: |rows[t]| == nExp && forall x | 0 <= x < nExp :: |rows[t][x]| in {0, 6}
    requires FilledTo(table, rows, nTp, nExp, nTp, 0)
    ensures Table(table, nTp, nExp).Valid()
    ensures Table(table, nTp, nExp).Tbl(region, tp, e) == if rows[tp][e] == [] then 0 else rows[tp][e][region]
  {
    assert EntryIs(table, rows, nTp, nExp, nTp, 0, region, tp, e);
  }
}
