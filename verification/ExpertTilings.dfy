// The index arithmetic of the four gather kernels, as tilings of one slot.

module ExpertTilings {
  import opened Arith
  import opened GridStores
  import opened GatherLayout

  // ---- k_w13_weights: `blocks` contiguous runs of `trips` stores, w elements each -------

  function RunsOff(w: nat, len: nat): (nat, nat) -> nat {
    (b: nat, i: nat) => b * w + i * len
  }

  function RunsLoc(w: nat, len: nat): nat -> (nat, nat, nat)
    requires w > 0 && len > 0
  {
    (o: nat) => (o / w, (o % w) / len, (o % w) % len)
  }

  function Runs(blocks: nat, trips: nat, len: nat): Tiling
    requires trips > 0 && len > 0
  {
    Positive(trips, len);
    var w := trips * len;
    Tiling(blocks, trips, len, blocks * w, RunsOff(w, len), RunsLoc(w, len))
  }

  lemma RunsCell(blocks: nat, trips: nat, len: nat, w: nat, b: nat, i: nat, j: nat)
    requires w == trips * len && b < blocks && i < trips && j < len
    ensures w > 0 && b * w + i * len + j < blocks * w
    ensures (b * w + i * len + j) / w == b && (b * w + i * len + j) % w == i * len + j
    ensures (i * len + j) / len == i && (i * len + j) % len == j
  {
    Positive(trips, len);
    RowFits(i, trips, len);
    RowFits(b, blocks, w);
    MulMono(0, i, len);
    DivModUnique(b, w, i * len + j);
    DivModUnique(i, len, j);
  }

  lemma RunsLocated(blocks: nat, trips: nat, len: nat, w: nat, o: nat)
    requires trips > 0 && len > 0 && w == trips * len && o < blocks * w
    ensures w > 0 && o / w < blocks && (o % w) / len < trips && (o % w) % len < len
    ensures (o / w) * w + ((o % w) / len) * len + (o % w) % len == o
  {
    Positive(trips, len);
    DivBelow(o, w, blocks);
    DivMod(o, w);
    DivBelow(o % w, len, trips);
    DivMod(o % w, len);
  }

  lemma RunsCellAt(blocks: nat, trips: nat, len: nat, b: nat, i: nat, j: nat)
    requires trips > 0 && len > 0
    requires Runs(blocks, trips, len).IsCell(b, i, j)
    ensures Runs(blocks, trips, len).Stored(b, i, j)
  {
    RunsCell(blocks, trips, len, trips * len, b, i, j);
  }

  lemma RunsLocatedAt(blocks: nat, trips: nat, len: nat, o: nat)
    requires trips > 0 && len > 0
    requires o < Runs(blocks, trips, len).size
    ensures Runs(blocks, trips, len).Located(o)
  {
    RunsLocated(blocks, trips, len, trips * len, o);
  }

  lemma RunsValid(blocks: nat, trips: nat, len: nat)
    requires trips > 0 && len > 0
    ensures Runs(blocks, trips, len).Valid()
  {
    var t := Runs(blocks, trips, len);
    forall b: nat, i: nat, j: nat | t.IsCell(b, i, j)
      ensures t.Stored(b, i, j)
    {
      RunsCellAt(blocks, trips, len, b, i, j);
    }
    forall o: nat | o < t.size ensures t.Located(o) {
      RunsLocatedAt(blocks, trips, len, o);
    }
  }

  // ---- k_w2_weights: rows of `perRow` stores; block tp is a band of w columns -------------

  function BandOff(perRow: nat, w: nat, row: nat, len: nat): (nat, nat) -> nat
    requires perRow > 0
  {
    (tp: nat, i: nat) => (i / perRow) * row + tp * w + (i % perRow) * len
  }

  function BandLoc(perRow: nat, w: nat, row: nat, len: nat): nat -> (nat, nat, nat)
    requires w > 0 && row > 0 && len > 0
  {
    (o: nat) => BandPlace(perRow, w, row, len, o)
  }

  // The band, trip and place in the trip's store of an element.
  function BandPlace(perRow: nat, w: nat, row: nat, len: nat, o: nat): (nat, nat, nat)
    requires w > 0 && row > 0 && len > 0
  {
    DivMod(o, row);
    DivMod(o % row, w);
    DivMod((o % row) % w, len);
    MulMono(0, o / row, perRow);
    ((o % row) / w, (o / row) * perRow + ((o % row) % w) / len, ((o % row) % w) % len)
  }

  function Bands(rows: nat, bands: nat, perRow: nat, len: nat): Tiling
    requires bands > 0 && perRow > 0 && len > 0
  {
    Positive(perRow, len);
    var w := perRow * len;
    Positive(bands, w);
    var row := bands * w;
    Tiling(bands, rows * perRow, len, rows * row, BandOff(perRow, w, row, len), BandLoc(perRow, w, row, len))
  }

  lemma BandsCell(rows: nat, bands: nat, perRow: nat, len: nat, w: nat, row: nat, b: nat, i: nat, j: nat)
    requires perRow > 0 && w == perRow * len && row == bands * w
    requires b < bands && i < rows * perRow && j < len
    ensures w > 0 && row > 0
    ensures var o := (i / perRow) * row + b * w + (i % perRow) * len + j;
            && 0 <= o < rows * row && o / row == i / perRow
            && (o % row) / w == b && ((o % row) % w) / len == i % perRow && ((o % row) % w) % len == j
            && (i / perRow) * perRow + i % perRow == i
  {
    Positive(perRow, len);
    Positive(bands, w);
    var r, c := i / perRow, i % perRow;
    DivBelow(i, perRow, rows);
    DivMod(i, perRow);
    RunsCell(bands, perRow, len, w, b, c, j);
    RowFits(r, rows, row);
    MulMono(0, r, row);
    MulMono(0, b, w);
    MulMono(0, c, len);
    DivModUnique(r, row, b * w + c * len + j);
  }

  lemma BandsLocated(rows: nat, bands: nat, perRow: nat, len: nat, w: nat, row: nat, o: nat)
    requires bands > 0 && perRow > 0 && len > 0 && w == perRow * len && row == bands * w && o < rows * row
    ensures w > 0 && row > 0
    ensures var i := (o / row) * perRow + ((o % row) % w) / len;
            && 0 <= (o % row) / w < bands && 0 <= i < rows * perRow && ((o % row) % w) % len < len
            && (i / perRow) * row + ((o % row) / w) * w + (i % perRow) * len + ((o % row) % w) % len == o
  {
    Positive(perRow, len);
    Positive(bands, w);
    DivBelow(o, row, rows);
    DivMod(o, row);
    var r, q := o / row, o % row;
    RunsLocated(bands, perRow, len, w, q);
    var c := (q % w) / len;
    RowFits(r, rows, perRow);
    MulMono(0, r, perRow);
    DivModUnique(r, perRow, c);
    assert r * row + q == o && (q / w) * w + c * len + (q % w) % len == q;
  }

  lemma BandsCellAt(rows: nat, bands: nat, perRow: nat, len: nat, b: nat, i: nat, j: nat)
    requires bands > 0 && perRow > 0 && len > 0
    requires Bands(rows, bands, perRow, len).IsCell(b, i, j)
    ensures Bands(rows, bands, perRow, len).Stored(b, i, j)
  {
    BandsCell(rows, bands, perRow, len, perRow * len, bands * (perRow * len), b, i, j);
  }

  lemma BandsLocatedAt(rows: nat, bands: nat, perRow: nat, len: nat, o: nat)
    requires bands > 0 && perRow > 0 && len > 0
    requires o < Bands(rows, bands, perRow, len).size
    ensures Bands(rows, bands, perRow, len).Located(o)
  {
    BandsLocated(rows, bands, perRow, len, perRow * len, bands * (perRow * len), o);
  }

  lemma BandsValid(rows: nat, bands: nat, perRow: nat, len: nat)
    requires bands > 0 && perRow > 0 && len > 0
    ensures Bands(rows, bands, perRow, len).Valid()
  {
    var t := Bands(rows, bands, perRow, len);
    forall b: nat, i: nat, j: nat | t.IsCell(b, i, j)
      ensures t.Stored(b, i, j)
    {
      BandsCellAt(rows, bands, perRow, len, b, i, j);
    }
    forall o: nat | o < t.size ensures t.Located(o) {
      BandsLocatedAt(rows, bands, perRow, len, o);
    }
  }

  // ---- the scale kernels: interleaved in groups of four ----------------------------------

  // The (row, group) an interleaved address belongs to.
  function UnSlot4(n: nat, o: nat): (nat, nat)
    requires n > 0
  {
    ((o % (n * 4)) / 4, (o / (n * 4)) * 4 + (o % (n * 4)) % 4)
  }

  lemma UnSlot4Of(n: nat, g: nat, row: nat, k: nat)
    requires row < n && k < g && g % 4 == 0
    ensures Slot4(n, row, k) < n * g && UnSlot4(n, Slot4(n, row, k)) == (row, k)
  {
    Slot4Fits(n, g, row, k);
  }

  lemma Slot4OfUn(n: nat, g: nat, o: nat)
    requires n > 0 && g % 4 == 0 && o < n * g
    ensures var rk := UnSlot4(n, o); rk.0 < n && rk.1 < g && Slot4(n, rk.0, rk.1) == o
  {
    Quarters(n, g);
    DivBelow(o, n * 4, g / 4);
    DivMod(o, n * 4);
    var x := o % (n * 4);
    DivBelow(x, 4, n);
    DivMod(x, 4);
    var q := o / (n * 4);
    DivModUnique(q, 4, x % 4);
  }

  // k_w13_scales: block b holds the rows [b * per, b * per + per) of all `g` groups.
  function RowScaleOff(n: nat, per: nat, g: nat): (nat, nat) -> nat
    requires g > 0
  {
    (b: nat, i: nat) => Slot4(n, b * per + i / g, i % g)
  }

  function RowScaleLoc(n: nat, per: nat, g: nat): nat -> (nat, nat, nat)
    requires n > 0 && per > 0
  {
    (o: nat) => var rk := UnSlot4(n, o); (rk.0 / per, (rk.0 % per) * g + rk.1, 0)
  }

  function RowScales(blocks: nat, per: nat, g: nat): Tiling
    requires blocks > 0 && per > 0 && g > 0
  {
    Positive(blocks, per);
    Tiling(blocks, per * g, 1, (blocks * per) * g,
           RowScaleOff(blocks * per, per, g), RowScaleLoc(blocks * per, per, g))
  }

  lemma RowScalesCell(blocks: nat, per: nat, g: nat, b: nat, i: nat, j: nat)
    requires blocks > 0 && per > 0 && g > 0 && g % 4 == 0 && RowScales(blocks, per, g).IsCell(b, i, j)
    ensures RowScales(blocks, per, g).Stored(b, i, j)
  {
    Positive(blocks, per);
    DivBelow(i, g, per);
    DivMod(i, g);
    RowFits(b, blocks, per);
    MulMono(0, b, per);
    UnSlot4Of(blocks * per, g, b * per + i / g, i % g);
    DivModUnique(b, per, i / g);
  }

  lemma RowScalesLocated(blocks: nat, per: nat, g: nat, o: nat)
    requires blocks > 0 && per > 0 && g > 0 && g % 4 == 0 && o < (blocks * per) * g
    ensures RowScales(blocks, per, g).Located(o)
  {
    Positive(blocks, per);
    Slot4OfUn(blocks * per, g, o);
    var rk := UnSlot4(blocks * per, o);
    DivBelow(rk.0, per, blocks);
    DivMod(rk.0, per);
    RowFits(rk.0 % per, per, g);
    MulMono(0, rk.0 % per, g);
    DivModUnique(rk.0 % per, g, rk.1);
  }

  lemma RowScalesValid(blocks: nat, per: nat, g: nat)
    requires blocks > 0 && per > 0 && g > 0 && g % 4 == 0
    ensures RowScales(blocks, per, g).Valid()
  {
    var t := RowScales(blocks, per, g);
    forall b: nat, i: nat, j: nat | t.IsCell(b, i, j) ensures t.Stored(b, i, j) {
      RowScalesCell(blocks, per, g, b, i, j);
    }
    forall o: nat | o < t.size ensures t.Located(o) {
      RowScalesLocated(blocks, per, g, o);
    }
  }

  // k_w2_scales: block tp holds the groups [tp * per, tp * per + per) of all `n` rows.
  function GroupScaleOff(n: nat, per: nat): (nat, nat) -> nat
    requires per > 0
  {
    (tp: nat, i: nat) => Slot4(n, i / per, tp * per + i % per)
  }

  function GroupScaleLoc(n: nat, per: nat): nat -> (nat, nat, nat)
    requires n > 0 && per > 0
  {
    (o: nat) => var rk := UnSlot4(n, o); (rk.1 / per, rk.0 * per + rk.1 % per, 0)
  }

  function GroupScales(n: nat, bands: nat, per: nat): Tiling
    requires n > 0 && per > 0
  {
    Tiling(bands, n * per, 1, n * (bands * per), GroupScaleOff(n, per), GroupScaleLoc(n, per))
  }

  lemma GroupScalesCell(n: nat, bands: nat, per: nat, b: nat, i: nat, j: nat)
    requires n > 0 && per > 0 && (bands * per) % 4 == 0 && GroupScales(n, bands, per).IsCell(b, i, j)
    ensures GroupScales(n, bands, per).Stored(b, i, j)
  {
    DivBelow(i, per, n);
    DivMod(i, per);
    RowFits(b, bands, per);
    MulMono(0, b, per);
    UnSlot4Of(n, bands * per, i / per, b * per + i % per);
    DivModUnique(b, per, i % per);
  }

  lemma GroupScalesLocated(n: nat, bands: nat, per: nat, o: nat)
    requires n > 0 && per > 0 && (bands * per) % 4 == 0 && o < n * (bands * per)
    ensures GroupScales(n, bands, per).Located(o)
  {
    Slot4OfUn(n, bands * per, o);
    var rk := UnSlot4(n, o);
    DivBelow(rk.1, per, bands);
    DivMod(rk.1, per);
    RowFits(rk.0, n, per);
    MulMono(0, rk.0, per);
    DivModUnique(rk.0, per, rk.1 % per);
  }

  lemma GroupScalesValid(n: nat, bands: nat, per: nat)
    requires n > 0 && per > 0 && (bands * per) % 4 == 0
    ensures GroupScales(n, bands, per).Valid()
  {
    var t := GroupScales(n, bands, per);
    forall b: nat, i: nat, j: nat | t.IsCell(b, i, j) ensures t.Stored(b, i, j) {
      GroupScalesCell(n, bands, per, b, i, j);
    }
    forall o: nat | o < t.size ensures t.Located(o) {
      GroupScalesLocated(n, bands, per, o);
    }
  }
}
