// The layout the consumer expects of an expert, built from its checkpoint tensors,
// and the proof that the gather produces it.

module GatherReference {
  import opened Arith
  import opened GatherLayout
  import opened ExpertTilings
  import opened ExpertStream

  datatype Checkpoint<V, F> = Checkpoint(gateW: Mat<V>, gateS: Mat<F>, upW: Mat<V>, upS: Mat<F>,
                                         downW: Mat<V>, downS: Mat<F>)

  datatype Expected<V, B> = Expected(w13: Mat<V>, w2: Mat<V>, w13Scale: Mat<B>, w2Scale: Mat<B>)

  // The sizes the host code computes for its launches: this rank's share of the
  // intermediate dimension is nTp partitions of tpMoe; half sizes are bytes of two
  // packed int4 values; g, g2 and tpG count scale groups.
  datatype Geometry = Geometry(nTp: nat, tpMoe: nat, moe: nat, hidden: nat, rowBytes: nat, halfTp: nat, halfMoe: nat,
                               vecPerTpBlock: nat, perRow: nat, dstPerRow: nat, g: nat, g2: nat, tpG: nat)
  {
    ghost predicate Valid() {
      && nTp > 0 && tpMoe > 0 && hidden > 0 && vecPerTpBlock > 0 && perRow > 0 && g > 0 && tpG > 0
      && moe == nTp * tpMoe && halfMoe == nTp * halfTp && g2 == nTp * tpG && dstPerRow == nTp * perRow
      && perRow * VEC == halfTp && vecPerTpBlock * VEC == tpMoe * rowBytes
      && g % 4 == 0 && g2 % 4 == 0
    }
  }

  // stream_experts: every size from n_tp, moe, hidden and group, by truncating division.
  function HostGeometry(nTp: nat, moe: nat, hidden: nat, group: nat): Geometry
    requires nTp > 0 && group > 0
  {
    var tpMoe := Div(moe, nTp);
    Geometry(nTp, tpMoe, moe, hidden, Div(hidden, 2), Div(tpMoe, 2), Div(moe, 2),
             Div(Div(Times(tpMoe, hidden), 2), VEC), Div(Div(tpMoe, 2), VEC), Div(Div(moe, 2), VEC),
             Div(hidden, group), Div(moe, group), Div(Div(moe, group), nTp))
  }

  function Div(a: nat, b: nat): nat
    requires b > 0
  {
    a / b
  }

  function Times(a: nat, b: nat): nat {
    MulMono(0, a, b);
    a * b
  }

  // When the dimensions divide evenly (whole partitions, whole 16-byte rows of packed
  // bytes, whole scale groups in fours) the truncated sizes fit together.
  lemma HostGeometryFits(nTp: nat, tpMoe: nat, moe: nat, hidden: nat, group: nat, u: nat, h: nat, g: nat, tpG: nat)
    requires nTp > 0 && u > 0 && h > 0 && group > 0 && moe == tpMoe * nTp
    requires tpMoe == u * 32 && tpMoe == tpG * group && hidden == h * 2 && hidden == g * group
    requires g % 4 == 0 && (nTp * tpG) % 4 == 0
    ensures HostGeometry(nTp, moe, hidden, group).Valid()
    ensures var geo := HostGeometry(nTp, moe, hidden, group);
            geo.g == g && geo.tpG == tpG && geo.g2 == nTp * tpG && geo.tpMoe == tpMoe && geo.moe == nTp * tpMoe
    ensures var geo := HostGeometry(nTp, moe, hidden, group);
            && geo.nTp == nTp && geo.hidden == hidden
            && geo.rowBytes * 2 == hidden && geo.halfTp * 2 == tpMoe && geo.halfMoe * 2 == moe
  {
    DivModUnique(tpMoe, nTp, 0);
    DivModUnique(h, 2, 0);
    PackedSizes(nTp, u, h, tpMoe, moe, hidden);
    DivModUnique(g, group, 0);
    ScaleSizes(nTp, tpMoe, moe, group, tpG);
    PositiveFactor(g, group);
    PositiveFactor(tpG, group);
  }

  lemma PackedSizes(nTp: nat, u: nat, h: nat, tpMoe: nat, moe: nat, hidden: nat)
    requires u > 0 && h > 0 && tpMoe == u * 32 && hidden == h * 2 && moe == tpMoe * nTp
    ensures Div(tpMoe, 2) == u * VEC && Div(Div(tpMoe, 2), VEC) == u
    ensures Div(moe, 2) == nTp * Div(tpMoe, 2) && Div(Div(moe, 2), VEC) == nTp * u
    ensures Div(Div(Times(tpMoe, hidden), 2), VEC) == u * hidden && u * hidden > 0
    ensures (u * hidden) * VEC == tpMoe * h
  {
    var m := nTp * u;
    assert moe == m * 32;
    assert nTp * (u * 16) == m * 16;
    var v := u * hidden;
    assert (u * 32) * hidden == v * 32;
    assert (u * 32) * h == v * 16 by { assert v == (u * h) * 2; }
    Positive(u, hidden);
  }

  lemma ScaleSizes(nTp: nat, tpMoe: nat, moe: nat, group: nat, tpG: nat)
    requires nTp > 0 && group > 0 && tpMoe == tpG * group && moe == tpMoe * nTp
    ensures Div(moe, group) == nTp * tpG && Div(Div(moe, group), nTp) == tpG && moe == nTp * tpMoe
  {
    var q := nTp * tpG;
    assert moe == q * group;
    DivModUnique(q, group, 0);
    assert q == tpG * nTp;
    DivModUnique(tpG, nTp, 0);
  }

  // Where this rank's shard starts: along the rows of gate and up, along the packed
  // columns of down, along the groups of down's scales.
  datatype Shard = Shard(row: nat, col: nat, grp: nat)

  // lo, lo // 2 and lo // group, for lo = rank * moe.
  function ShardOf(rank: nat, moe: nat, group: nat): Shard
    requires group > 0
  {
    Shard(Times(rank, moe), Div(Times(rank, moe), 2), Div(Times(rank, moe), group))
  }

  lemma ShardBounds(rank: nat, moe: nat, half: nat, group: nat, g2: nat)
    requires group > 0 && moe == half * 2 && moe == g2 * group
    ensures 0 <= rank * half && 0 <= rank * g2 && ShardOf(rank, moe, group) == Shard(rank * moe, rank * half, rank * g2)
  {
    MulMono(0, rank, half);
    MulMono(0, rank, g2);
    Assoc(rank, half, 2);
    DivModUnique(rank * half, 2, 0);
    Assoc(rank, g2, group);
    DivModUnique(rank * g2, group, 0);
  }

  function Rows<V>(m: Mat<V>, lo: nat, hi: nat): Mat<V>
    requires lo <= hi <= |m|
  {
    m[lo..hi]
  }

  function Cols<V>(m: Mat<V>, lo: nat, hi: nat): (r: Mat<V>)
    requires lo <= hi && forall i | 0 <= i < |m| :: hi <= |m[i]|
    ensures IsMat(r, |m|, hi - lo)
    ensures forall i | 0 <= i < |m| :: r[i] == m[i][lo..hi]
  {
    seq(|m|, i requires 0 <= i < |m| => m[i][lo..hi])
  }

  function CastMat<F, B>(cast: F -> B, m: Mat<F>): (r: Mat<B>)
    ensures |r| == |m| && forall i | 0 <= i < |m| :: r[i] == MapSeq(cast, m[i])
  {
    seq(|m|, i requires 0 <= i < |m| => MapSeq(cast, m[i]))
  }

  // The checkpoint tensors of an expert cover this rank's shard [lo, lo + moe).
  ghost predicate Covers<V, F>(ck: Checkpoint<V, F>, geo: Geometry, sh: Shard)
    requires geo.Valid()
  {
    var hi := sh.row + geo.moe;
    && IsMat(ck.gateW, |ck.gateW|, geo.rowBytes) && IsMat(ck.upW, |ck.upW|, geo.rowBytes)
    && IsMat(ck.gateS, |ck.gateS|, geo.g) && IsMat(ck.upS, |ck.upS|, geo.g)
    && hi <= |ck.gateW| && hi <= |ck.upW| && hi <= |ck.gateS| && hi <= |ck.upS|
    && |ck.downW| == |ck.downS| == geo.hidden
    && (forall r | 0 <= r < geo.hidden :: sh.col + geo.halfMoe <= |ck.downW[r]|)
    && (forall r | 0 <= r < geo.hidden :: sh.grp + geo.g2 <= |ck.downS[r]|)
  }

  // The rows [lo, lo + moe) of gate, then those of up.
  function Both<X>(a: Mat<X>, b: Mat<X>, lo: nat, moe: nat): Mat<X>
    requires lo + moe <= |a| && lo + moe <= |b|
  {
    Rows(a, lo, lo + moe) + Rows(b, lo, lo + moe)
  }

  ghost function RowScaleMat<F, B>(cast: F -> B, a: Mat<F>, b: Mat<F>, lo: nat, moe: nat, g: nat): Mat<B>
    requires lo + moe <= |a| && lo + moe <= |b| && IsMat(a, |a|, g) && IsMat(b, |b|, g)
  {
    Interleave(CastMat(cast, Both(a, b, lo, moe)), 2 * moe, g)
  }

  ghost function GroupScaleMat<F, B>(cast: F -> B, m: Mat<F>, lo: nat, g: nat): Mat<B>
    requires forall r | 0 <= r < |m| :: lo + g <= |m[r]|
  {
    Interleave(CastMat(cast, Cols(m, lo, lo + g)), |m|, g)
  }

  // The packed columns of down this rank holds.
  ghost function DownShard<V, F>(ck: Checkpoint<V, F>, geo: Geometry, sh: Shard): Mat<V>
    requires geo.Valid() && Covers(ck, geo, sh)
  {
    Cols(ck.downW, sh.col, sh.col + geo.halfMoe)
  }

  // gate/up shard by rows, down by columns; scales are cast, concatenated, interleaved.
  ghost function BuildExpected<V, F, B>(ck: Checkpoint<V, F>, geo: Geometry, sh: Shard, cast: F -> B): Expected<V, B>
    requires geo.Valid() && Covers(ck, geo, sh)
  {
    PartBounds(geo, sh, 0);
    Expected(
      Both(ck.gateW, ck.upW, sh.row, geo.moe),
      DownShard(ck, geo, sh),
      RowScaleMat(cast, ck.gateS, ck.upS, sh.row, geo.moe, geo.g),
      GroupScaleMat(cast, ck.downS, sh.grp, geo.g2))
  }

  lemma ExpectedW13<V, F, B>(ck: Checkpoint<V, F>, geo: Geometry, sh: Shard, cast: F -> B)
    requires geo.Valid() && Covers(ck, geo, sh)
    ensures BuildExpected(ck, geo, sh, cast).w13 == Both(ck.gateW, ck.upW, sh.row, geo.moe)
  {
  }

  lemma ExpectedW2<V, F, B>(ck: Checkpoint<V, F>, geo: Geometry, sh: Shard, cast: F -> B)
    requires geo.Valid() && Covers(ck, geo, sh)
    ensures BuildExpected(ck, geo, sh, cast).w2 == DownShard(ck, geo, sh)
  {
  }

  lemma ExpectedW13Scale<V, F, B>(ck: Checkpoint<V, F>, geo: Geometry, sh: Shard, cast: F -> B)
    requires geo.Valid() && Covers(ck, geo, sh)
    ensures BuildExpected(ck, geo, sh, cast).w13Scale == RowScaleMat(cast, ck.gateS, ck.upS, sh.row, geo.moe, geo.g)
  {
  }

  lemma ExpectedW2Scale<V, F, B>(ck: Checkpoint<V, F>, geo: Geometry, sh: Shard, cast: F -> B)
    requires geo.Valid() && Covers(ck, geo, sh)
    ensures BuildExpected(ck, geo, sh, cast).w2Scale == GroupScaleMat(cast, ck.downS, sh.grp, geo.g2)
  {
  }

  // The host store holds expert e: partition tp has the tp-th slice of the shard.
  ghost predicate Stores<V, F>(tb: Table, host: Host<V, F>, e: nat, ck: Checkpoint<V, F>, geo: Geometry, sh: Shard)
    requires geo.Valid() && Covers(ck, geo, sh) && tb.Valid() && tb.nTp == geo.nTp
  {
    && e < tb.nExp
    && forall tp: nat | tp < geo.nTp :: StoresPart(tb, host, e, ck, geo, sh, tp)
  }

  ghost predicate StoresPart<V, F>(tb: Table, host: Host<V, F>, e: nat, ck: Checkpoint<V, F>, geo: Geometry,
                                   sh: Shard, tp: nat)
    requires geo.Valid() && Covers(ck, geo, sh) && tb.Valid() && tb.nTp == geo.nTp && tp < geo.nTp
  {
    PartBounds(geo, sh, tp);
    var r := sh.row + tp * geo.tpMoe;
    var c := sh.col + tp * geo.halfTp;
    var k := sh.grp + tp * geo.tpG;
    && host.bytes(tb.Tbl(0, tp, e)) == Flat(Rows(ck.gateW, r, r + geo.tpMoe))
    && host.floats(tb.Tbl(1, tp, e)) == Flat(Rows(ck.gateS, r, r + geo.tpMoe))
    && host.bytes(tb.Tbl(2, tp, e)) == Flat(Rows(ck.upW, r, r + geo.tpMoe))
    && host.floats(tb.Tbl(3, tp, e)) == Flat(Rows(ck.upS, r, r + geo.tpMoe))
    && host.bytes(tb.Tbl(4, tp, e)) == Flat(Cols(ck.downW, c, c + geo.halfTp))
    && host.floats(tb.Tbl(5, tp, e)) == Flat(Cols(ck.downS, k, k + geo.tpG))
  }

  lemma PartBounds(geo: Geometry, sh: Shard, tp: nat)
    requires geo.Valid() && tp < geo.nTp
    ensures tp * geo.tpMoe + geo.tpMoe <= geo.moe && 0 <= tp * geo.tpMoe
    ensures tp * geo.halfTp + geo.halfTp <= geo.halfMoe && 0 <= tp * geo.halfTp
    ensures tp * geo.tpG + geo.tpG <= geo.g2 && 0 <= tp * geo.tpG
  {
    RowFits(tp, geo.nTp, geo.tpMoe);
    RowFits(tp, geo.nTp, geo.halfTp);
    RowFits(tp, geo.nTp, geo.tpG);
    MulMono(0, tp, geo.tpMoe);
    MulMono(0, tp, geo.halfTp);
    MulMono(0, tp, geo.tpG);
  }

  // ---- weights -----------------------------------------------------------------------------

  lemma FlatSize<V>(m: Mat<V>, rows: nat, cols: nat)
    requires IsMat(m, rows, cols)
    ensures |Flat(m)| == rows * cols
  {
    ConcatLength(m, cols);
  }

  // Consecutive slices of rows, end to end, are the rows.
  lemma {:induction false} SlicesConcat<V>(m: Mat<V>, lo: nat, per: nat, n: nat, slices: seq<Mat<V>>)
    requires 0 <= n * per && lo + n * per <= |m| && |slices| == n
    requires forall p: nat | p < n ::
               0 <= p * per && p * per + per <= n * per && slices[p] == m[lo + p * per..lo + p * per + per]
    ensures Concat(slices) == m[lo..lo + n * per]
  {
    if n > 0 {
      assert n * per == (n - 1) * per + per;
      forall p: nat | p < n - 1
        ensures 0 <= p * per && p * per + per <= (n - 1) * per
      {
        RowFits(p, n - 1, per);
        MulMono(0, p, per);
      }
      MulMono(0, n - 1, per);
      SlicesConcat(m, lo, per, n - 1, slices[..n - 1]);
    }
  }

  lemma RunsAssemble<V>(blocks: nat, trips: nat, len: nat, parts: seq<seq<V>>)
    requires trips > 0 && len > 0 && Runs(blocks, trips, len).IsSource(parts)
    ensures Runs(blocks, trips, len).IsAssembly(parts, Concat(parts))
  {
    var t, w := Runs(blocks, trips, len), trips * len;
    ConcatLength(parts, w);
    forall b: nat, i: nat, j: nat | t.IsCell(b, i, j)
      ensures t.off(b, i) + j < t.size && Concat(parts)[t.off(b, i) + j] == t.Chunk(parts, b, i)[j]
    {
      RunsCell(blocks, trips, len, w, b, i, j);
      RowFits(i, trips, len);
      MulMono(0, i, len);
      ConcatAt(parts, w, b, i * len + j);
    }
  }

  // Slice p of n slices of `per` rows, starting at lo.
  ghost function Slice<X>(m: Mat<X>, lo: nat, per: nat, n: nat, p: nat): (r: Mat<X>)
    requires p < n && lo + n * per <= |m|
    ensures 0 <= p * per && p * per + per <= n * per && |r| == per && r == m[lo + p * per..lo + p * per + per]
  {
    RowFits(p, n, per);
    MulMono(0, p, per);
    Rows(m, lo + p * per, lo + p * per + per)
  }

  ghost function Slices<X>(m: Mat<X>, lo: nat, per: nat, n: nat): (ms: seq<Mat<X>>)
    requires 0 <= n * per && lo + n * per <= |m|
    ensures |ms| == n && forall p | 0 <= p < n :: ms[p] == Slice(m, lo, per, n, p)
  {
    seq(n, p requires 0 <= p < n => Slice(m, lo, per, n, p))
  }

  lemma SlicesAreRows<X>(m: Mat<X>, lo: nat, per: nat, n: nat)
    requires 0 <= n * per && lo + n * per <= |m|
    ensures Concat(Slices(m, lo, per, n)) == Rows(m, lo, lo + n * per)
  {
    var ms := Slices(m, lo, per, n);
    forall p: nat | p < n
      ensures 0 <= p * per && p * per + per <= n * per && ms[p] == m[lo + p * per..lo + p * per + per]
    {
      assert ms[p] == Slice(m, lo, per, n, p);
    }
    SlicesConcat(m, lo, per, n, ms);
  }

  // The gate slices, then the up slices: what the w13 kernels copy, block by block.
  lemma BlockSlices<X>(a: Mat<X>, b: Mat<X>, lo: nat, per: nat, n: nat, blk: nat)
    requires n > 0 && blk < 2 * n && 0 <= n * per && lo + n * per <= |a| && lo + n * per <= |b|
    ensures blk % n < n
    ensures (Slices(a, lo, per, n) + Slices(b, lo, per, n))[blk] ==
            Slice(if blk / n == 0 then a else b, lo, per, n, blk % n)
  {
    BlockIsUp(blk, n);
    var ms, ns := Slices(a, lo, per, n), Slices(b, lo, per, n);
    if blk < n {
      assert (ms + ns)[blk] == ms[blk];
    } else {
      assert (ms + ns)[blk] == ns[blk - n];
    }
  }

  lemma W13Block<V, F>(tb: Table, host: Host<V, F>, e: nat, ck: Checkpoint<V, F>, geo: Geometry, sh: Shard, lo: nat,
                       blk: nat)
    requires geo.Valid() && Covers(ck, geo, sh) && tb.Valid() && tb.nTp == geo.nTp
    requires Stores(tb, host, e, ck, geo, sh) && blk < 2 * geo.nTp && lo == sh.row
    ensures W13Parts(tb, host)(e)[blk] ==
            Flat((Slices(ck.gateW, lo, geo.tpMoe, geo.nTp) + Slices(ck.upW, lo, geo.tpMoe, geo.nTp))[blk])
    ensures |W13Parts(tb, host)(e)[blk]| == geo.tpMoe * geo.rowBytes
  {
    BlockIsUp(blk, geo.nTp);
    BlockSlices(ck.gateW, ck.upW, lo, geo.tpMoe, geo.nTp, blk);
    assert StoresPart(tb, host, e, ck, geo, sh, blk % geo.nTp);
    FlatSize(Slice(if blk / geo.nTp == 0 then ck.gateW else ck.upW, lo, geo.tpMoe, geo.nTp, blk % geo.nTp),
             geo.tpMoe, geo.rowBytes);
  }

  // Blocks that are the slices of a and then of b concatenate to the rows of both.
  lemma BlocksConcat<X>(a: Mat<X>, b: Mat<X>, lo: nat, per: nat, n: nat, moe: nat, parts: seq<seq<X>>)
    requires moe == n * per && lo + moe <= |a| && lo + moe <= |b| && |parts| == 2 * n
    requires forall blk: nat | blk < 2 * n ::
               parts[blk] == Flat((Slices(a, lo, per, n) + Slices(b, lo, per, n))[blk])
    ensures Concat(parts) == Flat(Both(a, b, lo, moe))
  {
    var ms, ns := Slices(a, lo, per, n), Slices(b, lo, per, n);
    FlatOfConcat(ms + ns, parts);
    ConcatAppend(ms, ns);
    SlicesAreRows(a, lo, per, n);
    SlicesAreRows(b, lo, per, n);
    assert Concat(ms + ns) == Both(a, b, lo, moe);
  }

  lemma W13Blocks<V, F>(tb: Table, host: Host<V, F>, e: nat, ck: Checkpoint<V, F>, geo: Geometry, sh: Shard, lo: nat)
    requires geo.Valid() && Covers(ck, geo, sh) && tb.Valid() && tb.nTp == geo.nTp
    requires Stores(tb, host, e, ck, geo, sh) && lo == sh.row
    ensures geo.vecPerTpBlock > 0
    ensures Runs(2 * geo.nTp, geo.vecPerTpBlock, VEC).IsSource(W13Parts(tb, host)(e))
    ensures lo + geo.moe <= |ck.gateW| && lo + geo.moe <= |ck.upW|
    ensures Concat(W13Parts(tb, host)(e)) ==
            Flat(Both(ck.gateW, ck.upW, lo, geo.moe))
  {
    var parts := W13Parts(tb, host)(e);
    PartBounds(geo, sh, 0);
    forall blk: nat | blk < 2 * geo.nTp
      ensures |parts[blk]| == geo.vecPerTpBlock * VEC
      ensures parts[blk] ==
              Flat((Slices(ck.gateW, lo, geo.tpMoe, geo.nTp) + Slices(ck.upW, lo, geo.tpMoe, geo.nTp))[blk])
    {
      W13Block(tb, host, e, ck, geo, sh, lo, blk);
    }
    BlocksConcat(ck.gateW, ck.upW, lo, geo.tpMoe, geo.nTp, geo.moe, parts);
  }

  lemma W13Reference<V, F>(tb: Table, host: Host<V, F>, e: nat, ck: Checkpoint<V, F>, geo: Geometry, sh: Shard)
    requires geo.Valid() && Covers(ck, geo, sh) && tb.Valid() && tb.nTp == geo.nTp
    requires Stores(tb, host, e, ck, geo, sh)
    ensures geo.vecPerTpBlock > 0
    ensures var t, parts := Runs(2 * geo.nTp, geo.vecPerTpBlock, VEC), W13Parts(tb, host)(e);
            && t.IsSource(parts)
            && t.IsAssembly(parts, Flat(Both(ck.gateW, ck.upW, sh.row, geo.moe)))
  {
    W13Blocks(tb, host, e, ck, geo, sh, sh.row);
    RunsAssemble(2 * geo.nTp, geo.vecPerTpBlock, VEC, W13Parts(tb, host)(e));
  }

  // Bands of columns side by side are the whole rows.
  lemma BandsAssemble<V>(rows: nat, bands: nat, perRow: nat, len: nat, parts: seq<seq<V>>, m: Mat<V>, bs: seq<Mat<V>>)
    requires bands > 0 && perRow > 0 && len > 0
    requires Bands(rows, bands, perRow, len).IsSource(parts) && IsMat(m, rows, bands * (perRow * len)) && |bs| == bands
    requires forall b: nat | b < bands :: IsMat(bs[b], rows, perRow * len) && parts[b] == Flat(bs[b])
    requires forall b: nat | b < bands :: BandOf(m, bs[b], b, perRow * len)
    ensures Bands(rows, bands, perRow, len).IsAssembly(parts, Flat(m))
  {
    var t := Bands(rows, bands, perRow, len);
    FlatSize(m, rows, bands * (perRow * len));
    forall b: nat, i: nat, j: nat | t.IsCell(b, i, j)
      ensures t.off(b, i) + j < t.size && Flat(m)[t.off(b, i) + j] == t.Chunk(parts, b, i)[j]
    {
      BandCellValue(rows, bands, perRow, len, perRow * len, bands * (perRow * len), m, bs[b], b, i, j);
      RowFits(i, rows * perRow, len);
      MulMono(0, i, len);
    }
  }

  // Each row of `band` is columns [b * w, b * w + w) of that row of `m`.
  ghost predicate BandOf<V>(m: Mat<V>, band: Mat<V>, b: nat, w: nat) {
    && |band| == |m| && 0 <= b * w
    && forall r | 0 <= r < |m| :: b * w + w <= |m[r]| && band[r] == m[r][b * w..b * w + w]
  }

  lemma BandCellValue<V>(rows: nat, bands: nat, perRow: nat, len: nat, w: nat, row: nat, m: Mat<V>, band: Mat<V>,
                         b: nat, i: nat, j: nat)
    requires perRow > 0 && w == perRow * len && row == bands * w && IsMat(m, rows, row) && IsMat(band, rows, w)
    requires b < bands && i < rows * perRow && j < len
    requires BandOf(m, band, b, w)
    ensures var o := (i / perRow) * row + b * w + (i % perRow) * len + j;
            0 <= o < |Flat(m)| && 0 <= i * len + j < |Flat(band)| && Flat(m)[o] == Flat(band)[i * len + j]
  {
    var r, c := i / perRow, i % perRow;
    BandIndex(rows, bands, perRow, len, w, row, b, i, j);
    ConcatAt(m, row, r, b * w + (c * len + j));
    ConcatAt(band, w, r, c * len + j);
  }

  lemma BandIndex(rows: nat, bands: nat, perRow: nat, len: nat, w: nat, row: nat, b: nat, i: nat, j: nat)
    requires perRow > 0 && w == perRow * len && row == bands * w
    requires b < bands && i < rows * perRow && j < len
    ensures i / perRow < rows && i % perRow < perRow
    ensures 0 <= b * w && 0 <= (i % perRow) * len && (i % perRow) * len + j < w && b * w + w <= row
    ensures i * len == (i / perRow) * w + (i % perRow) * len
  {
    var r, c := i / perRow, i % perRow;
    DivBelow(i, perRow, rows);
    DivMod(i, perRow);
    MulMono(0, b, w);
    MulMono(0, c, len);
    RowFits(c, perRow, len);
    RowFits(b, bands, w);
    assert (r * perRow + c) * len == r * perRow * len + c * len;
    Assoc(r, perRow, len);
  }

  lemma W2Reference<V, F>(tb: Table, host: Host<V, F>, e: nat, ck: Checkpoint<V, F>, geo: Geometry, sh: Shard,
                          perRow: nat, len: nat)
    requires geo.Valid() && Covers(ck, geo, sh) && tb.Valid() && tb.nTp == geo.nTp
    requires Stores(tb, host, e, ck, geo, sh) && perRow > 0 && len > 0 && perRow * len == geo.halfTp
    ensures var t, parts := Bands(geo.hidden, geo.nTp, perRow, len), W2Parts(tb, host)(e);
            && t.IsSource(parts)
            && t.IsAssembly(parts, Flat(DownShard(ck, geo, sh)))
  {
    W2Bands(tb, host, e, ck, geo, sh, geo.halfTp, sh.col);
    PartBounds(geo, sh, 0);
    ColsAssemble(ck.downW, geo.nTp, geo.halfTp, geo.halfMoe, sh.col, perRow, len, W2Parts(tb, host)(e));
  }

  lemma ColsAssemble<X>(m: Mat<X>, n: nat, w: nat, total: nat, lo: nat, perRow: nat, len: nat, parts: seq<seq<X>>)
    requires n > 0 && perRow > 0 && len > 0 && w == perRow * len && |parts| == n && total == n * w
    requires forall i | 0 <= i < |m| :: lo + total <= |m[i]|
    requires forall tp: nat | tp < n ::
               && IsMat(ColSlices(m, n, w, lo)[tp], |m|, w)
               && parts[tp] == Flat(ColSlices(m, n, w, lo)[tp]) && |parts[tp]| == |m| * w
    ensures var t := Bands(|m|, n, perRow, len);
            t.IsSource(parts) && t.IsAssembly(parts, Flat(Cols(m, lo, lo + total)))
  {
    Assoc(|m|, perRow, len);
    ColSlicesAreBands(m, n, w, lo);
    BandsAssemble(|m|, n, perRow, len, parts, Cols(m, lo, lo + total), ColSlices(m, n, w, lo));
  }

  // Every partition's down block is its band of the shard's columns.
  lemma W2Bands<V, F>(tb: Table, host: Host<V, F>, e: nat, ck: Checkpoint<V, F>, geo: Geometry, sh: Shard,
                      w: nat, lo: nat)
    requires geo.Valid() && Covers(ck, geo, sh) && tb.Valid() && tb.nTp == geo.nTp
    requires Stores(tb, host, e, ck, geo, sh) && w == geo.halfTp && lo == sh.col
    ensures geo.halfMoe == geo.nTp * w
    ensures forall i | 0 <= i < |ck.downW| :: lo + geo.nTp * w <= |ck.downW[i]|
    ensures forall tp: nat | tp < geo.nTp ::
              && IsMat(ColSlices(ck.downW, geo.nTp, w, lo)[tp], geo.hidden, w)
              && W2Parts(tb, host)(e)[tp] == Flat(ColSlices(ck.downW, geo.nTp, w, lo)[tp])
              && |W2Parts(tb, host)(e)[tp]| == geo.hidden * w
  {
    forall tp: nat | tp < geo.nTp
      ensures IsMat(ColSlices(ck.downW, geo.nTp, w, lo)[tp], geo.hidden, w)
      ensures W2Parts(tb, host)(e)[tp] == Flat(ColSlices(ck.downW, geo.nTp, w, lo)[tp])
      ensures |W2Parts(tb, host)(e)[tp]| == geo.hidden * w
    {
      assert StoresPart(tb, host, e, ck, geo, sh, tp);
      FlatSize(ColSlice(ck.downW, geo.nTp, w, lo, tp), geo.hidden, w);
    }
  }

  ghost function ColSlices<X>(m: Mat<X>, n: nat, w: nat, lo: nat): (ms: seq<Mat<X>>)
    requires 0 <= n * w && forall i | 0 <= i < |m| :: lo + n * w <= |m[i]|
    ensures |ms| == n && forall p | 0 <= p < n :: ms[p] == ColSlice(m, n, w, lo, p)
  {
    seq(n, p requires 0 <= p < n => ColSlice(m, n, w, lo, p))
  }

  lemma ColSlicesAreBands<X>(m: Mat<X>, n: nat, w: nat, lo: nat)
    requires 0 <= n * w && forall i | 0 <= i < |m| :: lo + n * w <= |m[i]|
    ensures forall p: nat | p < n :: BandOf(Cols(m, lo, lo + n * w), ColSlices(m, n, w, lo)[p], p, w)
  {
    forall p: nat | p < n ensures BandOf(Cols(m, lo, lo + n * w), ColSlices(m, n, w, lo)[p], p, w) {
      var band := ColSlice(m, n, w, lo, p);
      forall r | 0 <= r < |m| ensures band[r] == Cols(m, lo, lo + n * w)[r][p * w..p * w + w] {
        SubSlice(m[r], lo, lo + n * w, p * w, p * w + w);
      }
    }
  }

  lemma SubSlice<X>(s: seq<X>, lo: nat, hi: nat, a: nat, b: nat)
    requires lo <= hi <= |s| && a <= b <= hi - lo
    ensures s[lo..hi][a..b] == s[lo + a..lo + b]
  {
    forall k | 0 <= k < b - a ensures s[lo..hi][a..b][k] == s[lo + a..lo + b][k] {
      assert s[lo..hi][a + k] == s[lo + (a + k)];
    }
  }

  ghost function ColSlice<X>(m: Mat<X>, n: nat, w: nat, lo: nat, p: nat): (r: Mat<X>)
    requires p < n && forall i | 0 <= i < |m| :: lo + n * w <= |m[i]|
    ensures 0 <= p * w && p * w + w <= n * w && IsMat(r, |m|, w)
    ensures forall i | 0 <= i < |m| :: r[i] == m[i][lo + p * w..lo + p * w + w]
  {
    RowFits(p, n, w);
    MulMono(0, p, w);
    Cols(m, lo + p * w, lo + p * w + w)
  }

  // ---- scales -------------------------------------------------------------------------------

  lemma {:induction false} FlatCast<F, B>(cast: F -> B, m: Mat<F>)
    ensures Flat(CastMat(cast, m)) == MapSeq(cast, Flat(m))
  {
    if m == [] {
      assert CastMat(cast, m) == [];
    } else {
      var n := |m| - 1;
      FlatCast(cast, m[..n]);
      assert CastMat(cast, m)[..n] == CastMat(cast, m[..n]);
      assert MapSeq(cast, Flat(m)) == MapSeq(cast, Flat(m[..n])) + MapSeq(cast, m[n]);
    }
  }

  // An interleaved entry is the entry of the block it came from.
  lemma ScaleValue<B>(n: nat, g: nat, m: Mat<B>, row: nat, k: nat, h: nat, w: nat, block: Mat<B>,
                      r: nat, c: nat, i: nat)
    requires g % 4 == 0 && IsMat(m, n, g) && row < n && k < g
    requires IsMat(block, h, w) && r < h && c < w && i == r * w + c && m[row][k] == block[r][c]
    ensures Slot4(n, row, k) < |Flat(Interleave(m, n, g))| && i < |Flat(block)|
    ensures Flat(Interleave(m, n, g))[Slot4(n, row, k)] == Flat(block)[i]
  {
    InterleaveAt(m, n, g, row, k);
    ConcatAt(block, w, r, c);
  }

  lemma RowScalesAssemble<B>(blocks: nat, per: nat, g: nat, parts: seq<seq<B>>, m: Mat<B>)
    requires blocks > 0 && per > 0 && g > 0 && g % 4 == 0
    requires RowScales(blocks, per, g).IsSource(parts) && IsMat(m, blocks * per, g)
    requires forall b: nat | b < blocks ::
               0 <= b * per && b * per + per <= |m| && parts[b] == Flat(m[b * per..b * per + per])
    ensures RowScales(blocks, per, g).IsAssembly(parts, Flat(Interleave(m, blocks * per, g)))
  {
    var t, n := RowScales(blocks, per, g), blocks * per;
    var out := Flat(Interleave(m, n, g));
    Positive(blocks, per);
    InterleaveAt(m, n, g, 0, 0);
    forall b: nat, i: nat, j: nat | t.IsCell(b, i, j)
      ensures t.off(b, i) + j < t.size && out[t.off(b, i) + j] == t.Chunk(parts, b, i)[j]
    {
      RowScaleCell(blocks, per, g, parts, m, b, i, j);
    }
  }

  lemma RowScaleCell<B>(blocks: nat, per: nat, g: nat, parts: seq<seq<B>>, m: Mat<B>, b: nat, i: nat, j: nat)
    requires blocks > 0 && per > 0 && g > 0 && g % 4 == 0
    requires var t := RowScales(blocks, per, g); t.IsSource(parts) && t.IsCell(b, i, j)
    requires IsMat(m, blocks * per, g) && 0 <= b * per && b * per + per <= |m|
    requires parts[b] == Flat(m[b * per..b * per + per])
    ensures var t, out := RowScales(blocks, per, g), Flat(Interleave(m, blocks * per, g));
            t.off(b, i) + j < |out| && out[t.off(b, i) + j] == t.Chunk(parts, b, i)[j]
  {
    DivBelow(i, g, per);
    DivMod(i, g);
    ScaleValue(blocks * per, g, m, b * per + i / g, i % g, per, g, m[b * per..b * per + per], i / g, i % g, i);
    var t := RowScales(blocks, per, g);
    assert j == 0 && t.off(b, i) == Slot4(blocks * per, b * per + i / g, i % g);
    t.ChunkAt(parts, b, i, j, i);
  }

  lemma GroupScalesAssemble<B>(n: nat, bands: nat, per: nat, g: nat, parts: seq<seq<B>>, m: Mat<B>, bs: seq<Mat<B>>)
    requires n > 0 && per > 0 && bands > 0 && g == bands * per && g % 4 == 0
    requires GroupScales(n, bands, per).IsSource(parts) && IsMat(m, n, g) && |bs| == bands
    requires forall b: nat | b < bands :: IsMat(bs[b], n, per) && parts[b] == Flat(bs[b])
    requires forall b: nat | b < bands :: BandOf(m, bs[b], b, per)
    ensures GroupScales(n, bands, per).IsAssembly(parts, Flat(Interleave(m, n, g)))
  {
    var t := GroupScales(n, bands, per);
    var out := Flat(Interleave(m, n, g));
    Positive(bands, per);
    InterleaveAt(m, n, g, 0, 0);
    forall b: nat, i: nat, j: nat | t.IsCell(b, i, j)
      ensures t.off(b, i) + j < t.size && out[t.off(b, i) + j] == t.Chunk(parts, b, i)[j]
    {
      GroupScaleCell(n, bands, per, g, parts, m, bs[b], b, i, j);
    }
  }

  lemma GroupScaleCell<B>(n: nat, bands: nat, per: nat, g: nat, parts: seq<seq<B>>, m: Mat<B>, band: Mat<B>,
                          b: nat, i: nat, j: nat)
    requires n > 0 && per > 0 && bands > 0 && g == bands * per && g % 4 == 0
    requires var t := GroupScales(n, bands, per); t.IsSource(parts) && t.IsCell(b, i, j)
    requires IsMat(m, n, g) && IsMat(band, n, per) && parts[b] == Flat(band) && BandOf(m, band, b, per)
    ensures var t, out := GroupScales(n, bands, per), Flat(Interleave(m, n, g));
            t.off(b, i) + j < |out| && out[t.off(b, i) + j] == t.Chunk(parts, b, i)[j]
  {
    DivBelow(i, per, n);
    DivMod(i, per);
    RowFits(b, bands, per);
    MulMono(0, b, per);
    BandAt(m, band, b, per, b * per, i / per, i % per);
    ScaleValue(n, g, m, i / per, b * per + i % per, n, per, band, i / per, i % per, i);
    var t := GroupScales(n, bands, per);
    assert j == 0 && t.off(b, i) == Slot4(n, i / per, b * per + i % per);
    t.ChunkAt(parts, b, i, j, i);
  }

  lemma BandAt<V>(m: Mat<V>, band: Mat<V>, b: nat, per: nat, lo: nat, r: nat, c: nat)
    requires BandOf(m, band, b, per) && lo == b * per && r < |m| && c < per
    ensures r < |band| && c < |band[r]| && lo + c < |m[r]| && m[r][lo + c] == band[r][c]
  {
  }

  // The rows of block blk of the concatenated gate and up rows are its slice.
  lemma BlockRows<X>(a: Mat<X>, b: Mat<X>, lo: nat, per: nat, n: nat, moe: nat, blk: nat)
    requires n > 0 && blk < 2 * n && moe == n * per && lo + moe <= |a| && lo + moe <= |b|
    ensures blk % n < n && 0 <= blk * per && blk * per + per <= 2 * moe
    ensures Both(a, b, lo, moe)[blk * per..blk * per + per] ==
            Slice(if blk / n == 0 then a else b, lo, per, n, blk % n)
  {
    BlockIsUp(blk, n);
    var p := blk % n;
    BothRows(a, b, lo, per, n, moe, p);
    if blk >= n {
      UpBlock(n, p, per);
    }
  }

  lemma BothRows<X>(a: Mat<X>, b: Mat<X>, lo: nat, per: nat, n: nat, moe: nat, p: nat)
    requires p < n && moe == n * per && lo + moe <= |a| && lo + moe <= |b|
    ensures 0 <= p * per && p * per + per <= moe
    ensures Both(a, b, lo, moe)[p * per..p * per + per] == Slice(a, lo, per, n, p)
    ensures Both(a, b, lo, moe)[moe + p * per..moe + p * per + per] == Slice(b, lo, per, n, p)
  {
    RowFits(p, n, per);
    MulMono(0, p, per);
    var ra, rb, x := Rows(a, lo, lo + moe), Rows(b, lo, lo + moe), p * per;
    HalfSlice(ra, rb, x, x + per);
    SubSlice(a, lo, lo + moe, x, x + per);
    SubSlice(b, lo, lo + moe, x, x + per);
  }

  lemma UpBlock(n: nat, p: nat, per: nat)
    ensures (n + p) * per == n * per + p * per
  {
  }

  lemma HalfSlice<X>(a: seq<X>, b: seq<X>, lo: nat, hi: nat)
    requires lo <= hi <= |a| == |b|
    ensures (a + b)[lo..hi] == a[lo..hi]
    ensures (a + b)[|a| + lo..|a| + hi] == b[lo..hi]
  {
  }

  lemma CastSlice<F, B>(cast: F -> B, m: Mat<F>, a: nat, b: nat)
    requires a <= b <= |m|
    ensures CastMat(cast, m)[a..b] == CastMat(cast, m[a..b])
  {
  }

  lemma CastBlock<F, B>(cast: F -> B, a: Mat<F>, b: Mat<F>, lo: nat, per: nat, n: nat, moe: nat, g: nat, blk: nat)
    requires n > 0 && blk < 2 * n && moe == n * per && lo + moe <= |a| && lo + moe <= |b|
    requires IsMat(a, |a|, g) && IsMat(b, |b|, g)
    ensures blk % n < n && 0 <= blk * per && blk * per + per <= 2 * moe
    ensures var m := CastMat(cast, Both(a, b, lo, moe));
            var part := Flat(Slice(if blk / n == 0 then a else b, lo, per, n, blk % n));
            IsMat(m, 2 * moe, g) && MapSeq(cast, part) == Flat(m[blk * per..blk * per + per]) && |part| == per * g
  {
    BlockRows(a, b, lo, per, n, moe, blk);
    var slice := Slice(if blk / n == 0 then a else b, lo, per, n, blk % n);
    FlatSize(slice, per, g);
    FlatCast(cast, slice);
    CastSlice(cast, Both(a, b, lo, moe), blk * per, blk * per + per);
  }

  lemma W13ScaleSource<V, F>(tb: Table, host: Host<V, F>, e: nat, ck: Checkpoint<V, F>, geo: Geometry, sh: Shard,
                             lo: nat, blk: nat)
    requires geo.Valid() && Covers(ck, geo, sh) && tb.Valid() && tb.nTp == geo.nTp
    requires Stores(tb, host, e, ck, geo, sh) && blk < 2 * geo.nTp && lo == sh.row
    ensures blk % geo.nTp < geo.nTp && blk / geo.nTp < 2
    ensures host.floats(tb.Tbl(if blk / geo.nTp == 0 then 1 else 3, blk % geo.nTp, e)) ==
            Flat(Slice(if blk / geo.nTp == 0 then ck.gateS else ck.upS, lo, geo.tpMoe, geo.nTp, blk % geo.nTp))
  {
    BlockIsUp(blk, geo.nTp);
    assert StoresPart(tb, host, e, ck, geo, sh, blk % geo.nTp);
  }

  // Casting the sources block by block is what the interleaved assembly starts from.
  lemma CastBlocks<F, B>(cast: F -> B, a: Mat<F>, b: Mat<F>, lo: nat, per: nat, n: nat, moe: nat, g: nat,
                         parts: seq<seq<B>>)
    requires n > 0 && per > 0 && g > 0 && g % 4 == 0 && moe == n * per && lo + moe <= |a| && lo + moe <= |b|
    requires IsMat(a, |a|, g) && IsMat(b, |b|, g) && |parts| == 2 * n
    requires forall blk: nat | blk < 2 * n ::
               parts[blk] == MapSeq(cast, Flat(Slice(if blk / n == 0 then a else b, lo, per, n, blk % n)))
    ensures var t := RowScales(2 * n, per, g);
            && t.IsSource(parts)
            && t.IsAssembly(parts, Flat(RowScaleMat(cast, a, b, lo, moe, g)))
  {
    var m := CastMat(cast, Both(a, b, lo, moe));
    forall blk: nat | blk < 2 * n
      ensures 0 <= blk * per && blk * per + per <= |m| && |parts[blk]| == per * g
      ensures parts[blk] == Flat(m[blk * per..blk * per + per])
    {
      CastBlock(cast, a, b, lo, per, n, moe, g, blk);
    }
    CastBlock(cast, a, b, lo, per, n, moe, g, 0);
    Assoc(2, n, per);
    RowScalesAssemble(2 * n, per, g, parts, m);
  }

  lemma W13ScaleReference<V, F, B>(tb: Table, host: Host<V, F>, e: nat, ck: Checkpoint<V, F>, geo: Geometry, sh: Shard,
                                   cast: F -> B)
    requires geo.Valid() && Covers(ck, geo, sh) && tb.Valid() && tb.nTp == geo.nTp
    requires Stores(tb, host, e, ck, geo, sh)
    ensures geo.g > 0
    ensures var t, parts := RowScales(2 * geo.nTp, geo.tpMoe, geo.g), W13ScaleParts(tb, host, cast)(e);
            && t.IsSource(parts)
            && t.IsAssembly(parts, Flat(RowScaleMat(cast, ck.gateS, ck.upS, sh.row, geo.moe, geo.g)))
  {
    var lo, parts := sh.row, W13ScaleParts(tb, host, cast)(e);
    PartBounds(geo, sh, 0);
    forall blk: nat | blk < 2 * geo.nTp
      ensures blk % geo.nTp < geo.nTp
      ensures parts[blk] == MapSeq(cast, Flat(Slice(if blk / geo.nTp == 0 then ck.gateS else ck.upS,
                                                    lo, geo.tpMoe, geo.nTp, blk % geo.nTp)))
    {
      W13ScaleSource(tb, host, e, ck, geo, sh, lo, blk);
    }
    CastBlocks(cast, ck.gateS, ck.upS, lo, geo.tpMoe, geo.nTp, geo.moe, geo.g, parts);
  }

  lemma W2ScaleReference<V, F, B>(tb: Table, host: Host<V, F>, e: nat, ck: Checkpoint<V, F>, geo: Geometry, sh: Shard,
                                  cast: F -> B)
    requires geo.Valid() && Covers(ck, geo, sh) && tb.Valid() && tb.nTp == geo.nTp
    requires Stores(tb, host, e, ck, geo, sh)
    ensures geo.tpG > 0
    ensures var t, parts := GroupScales(geo.hidden, geo.nTp, geo.tpG), W2ScaleParts(tb, host, cast)(e);
            && t.IsSource(parts)
            && t.IsAssembly(parts, Flat(GroupScaleMat(cast, ck.downS, sh.grp, geo.g2)))
  {
    W2ScaleSources(tb, host, e, ck, geo, sh, cast);
    GroupColsAssemble(cast, ck.downS, geo.nTp, geo.tpG, geo.g2, sh.grp, W2ScaleParts(tb, host, cast)(e));
  }

  lemma W2ScaleSources<V, F, B>(tb: Table, host: Host<V, F>, e: nat, ck: Checkpoint<V, F>, geo: Geometry, sh: Shard,
                                cast: F -> B)
    requires geo.Valid() && Covers(ck, geo, sh) && tb.Valid() && tb.nTp == geo.nTp
    requires Stores(tb, host, e, ck, geo, sh)
    ensures forall tp: nat | tp < geo.nTp ::
              W2ScaleParts(tb, host, cast)(e)[tp] ==
              MapSeq(cast, Flat(ColSlices(ck.downS, geo.nTp, geo.tpG, sh.grp)[tp]))
  {
    forall tp: nat | tp < geo.nTp
      ensures W2ScaleParts(tb, host, cast)(e)[tp] ==
              MapSeq(cast, Flat(ColSlices(ck.downS, geo.nTp, geo.tpG, sh.grp)[tp]))
    {
      assert StoresPart(tb, host, e, ck, geo, sh, tp);
    }
  }

  lemma GroupColsAssemble<F, B>(cast: F -> B, m: Mat<F>, n: nat, per: nat, g: nat, lo: nat, parts: seq<seq<B>>)
    requires n > 0 && per > 0 && |m| > 0 && g == n * per && g % 4 == 0 && |parts| == n
    requires forall i | 0 <= i < |m| :: lo + g <= |m[i]|
    requires forall tp: nat | tp < n :: parts[tp] == MapSeq(cast, Flat(ColSlices(m, n, per, lo)[tp]))
    ensures var t := GroupScales(|m|, n, per);
            t.IsSource(parts) && t.IsAssembly(parts, Flat(GroupScaleMat(cast, m, lo, g)))
  {
    CastColSlices(cast, m, n, per, lo);
    GroupScalesAssemble(|m|, n, per, g, parts,
                        CastMat(cast, Cols(m, lo, lo + g)), CastAll(cast, ColSlices(m, n, per, lo)));
  }

  function CastAll<F, B>(cast: F -> B, ms: seq<Mat<F>>): (r: seq<Mat<B>>)
    ensures |r| == |ms| && forall p | 0 <= p < |ms| :: r[p] == CastMat(cast, ms[p])
  {
    seq(|ms|, p requires 0 <= p < |ms| => CastMat(cast, ms[p]))
  }

  lemma CastBand<F, B>(cast: F -> B, m: Mat<F>, band: Mat<F>, b: nat, w: nat)
    requires BandOf(m, band, b, w)
    ensures BandOf(CastMat(cast, m), CastMat(cast, band), b, w)
  {
    forall r | 0 <= r < |m|
      ensures CastMat(cast, band)[r] == CastMat(cast, m)[r][b * w..b * w + w]
    {
    }
  }

  lemma CastColSlices<F, B>(cast: F -> B, m: Mat<F>, n: nat, per: nat, lo: nat)
    requires 0 <= n * per && forall i | 0 <= i < |m| :: lo + n * per <= |m[i]|
    ensures forall tp: nat | tp < n ::
              && IsMat(CastAll(cast, ColSlices(m, n, per, lo))[tp], |m|, per)
              && MapSeq(cast, Flat(ColSlices(m, n, per, lo)[tp])) == Flat(CastAll(cast, ColSlices(m, n, per, lo))[tp])
              && |Flat(CastAll(cast, ColSlices(m, n, per, lo))[tp])| == |m| * per
    ensures forall tp: nat | tp < n ::
              BandOf(CastMat(cast, Cols(m, lo, lo + n * per)), CastAll(cast, ColSlices(m, n, per, lo))[tp], tp, per)
  {
    var slices := ColSlices(m, n, per, lo);
    ColSlicesAreBands(m, n, per, lo);
    forall tp: nat | tp < n
      ensures IsMat(CastAll(cast, slices)[tp], |m|, per)
      ensures MapSeq(cast, Flat(slices[tp])) == Flat(CastAll(cast, slices)[tp])
      ensures |Flat(CastAll(cast, slices)[tp])| == |m| * per
      ensures BandOf(CastMat(cast, Cols(m, lo, lo + n * per)), CastAll(cast, slices)[tp], tp, per)
    {
      FlatSize(slices[tp], |m|, per);
      FlatCast(cast, slices[tp]);
      CastBand(cast, Cols(m, lo, lo + n * per), slices[tp], tp, per);
    }
  }
}
