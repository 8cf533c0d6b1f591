// Grid-stride copy kernels as sets of stores.
//
// A launch has `slots` x `blocks` thread groups of `stride` threads. Thread x of a
// group runs i = x, x + stride, ... while i < total, and each trip stores `len`
// consecutive elements. Threads interleave in any way at all, so an execution is
// any sequence in which every trip of every thread occurs once.

module GridStores {
  import opened Arith

  datatype Op = Op(slot: nat, blk: nat, i: nat)

  // The trips of thread x, in its program order.
  function Trips(x: nat, stride: nat, total: nat): seq<nat>
    requires stride > 0
    decreases if x < total then total - x else 0
  {
    if x >= total then [] else [x] + Trips(x + stride, stride, total)
  }

  lemma {:induction false} TripsAre(x: nat, stride: nat, total: nat, i: nat)
    requires stride > 0
    ensures i in Trips(x, stride, total) <==> x <= i < total && i % stride == x % stride
    decreases if x < total then total - x else 0
  {
    if x < total {
      StepDivMod(x, stride);
      TripsAre(x + stride, stride, total, i);
      if x < i < x + stride && i % stride == x % stride {
        DivMod(i, stride);
        DivMod(x, stride);
        assert stride * (i / stride - x / stride) == i - x;
        SmallMultiple(i / stride - x / stride, stride, i - x);
      }
    }
  }

  // Every i below `total` is a trip of exactly one thread of the group.
  lemma OneThreadPerTrip(x: nat, stride: nat, total: nat, i: nat)
    requires x < stride && i < total
    ensures i in Trips(x, stride, total) <==> x == i % stride
  {
    TripsAre(x, stride, total, i);
    DivMod(i, stride);
    assert x == 0 * stride + x;
    DivModUnique(0, stride, x);
    if x == i % stride { assert i % stride <= i; }
  }

  // Where each trip of a group stores inside its slot, and back: `loc` takes an
  // element of the slot to the block, the trip and the place in the trip's store.
  datatype Tiling = Tiling(blocks: nat, total: nat, len: nat, size: nat,
                           off: (nat, nat) -> nat, loc: nat -> (nat, nat, nat))
  {
    ghost predicate IsCell(b: nat, i: nat, j: nat) {
      b < blocks && i < total && j < len
    }

    // The stores of the trips partition the slot.
    ghost predicate Valid() {
      && len > 0
      && (forall b: nat, i: nat, j: nat | IsCell(b, i, j) :: Stored(b, i, j))
      && (forall o: nat | o < size :: Located(o))
    }

    ghost predicate Stored(b: nat, i: nat, j: nat) {
      off(b, i) + j < size && loc(off(b, i) + j) == (b, i, j)
    }

    ghost predicate Located(o: nat) {
      var c := loc(o);
      IsCell(c.0, c.1, c.2) && off(c.0, c.1) + c.2 == o
    }

    ghost predicate IsSource<V>(parts: seq<seq<V>>) {
      |parts| == blocks && forall b | 0 <= b < blocks :: |parts[b]| == total * len
    }

    // What trip i of block b reads.
    ghost function Chunk<V>(parts: seq<seq<V>>, b: nat, i: nat): (d: seq<V>)
      requires IsSource(parts) && b < blocks && i < total
      ensures |d| == len
    {
      RowFits(i, total, len);
      MulMono(0, i, len);
      parts[b][i * len..i * len + len]
    }

    lemma ChunkAt<V>(parts: seq<seq<V>>, b: nat, i: nat, j: nat, k: nat)
      requires IsSource(parts) && IsCell(b, i, j) && k == i * len + j
      ensures k < |parts[b]| && Chunk(parts, b, i)[j] == parts[b][k]
    {
      RowFits(i, total, len);
    }

    // The slot when every block b was copied from parts[b].
    ghost predicate IsAssembly<V>(parts: seq<seq<V>>, r: seq<V>)
      requires IsSource(parts)
    {
      && |r| == size
      && forall b: nat, i: nat, j: nat | IsCell(b, i, j) ::
           off(b, i) + j < size && r[off(b, i) + j] == Chunk(parts, b, i)[j]
    }

    lemma AssemblyUnique<V>(parts: seq<seq<V>>, r: seq<V>, r': seq<V>)
      requires Valid() && IsSource(parts) && IsAssembly(parts, r) && IsAssembly(parts, r')
      ensures r == r'
    {
      forall o: nat | o < size ensures r[o] == r'[o] {
        assert Located(o);
        var c := loc(o);
        assert IsCell(c.0, c.1, c.2);
      }
    }
  }

  // A store of u lands where some store of t lands, with the same source element.
  ghost predicate Matches(t: Tiling, u: Tiling, b: nat, i: nat, j: nat, i': nat, j': nat) {
    t.IsCell(b, i', j') && t.off(b, i') + j' == u.off(b, i) + j && i' * t.len + j' == i * u.len + j
  }

  ghost predicate Follows(t: Tiling, u: Tiling) {
    && u.blocks == t.blocks && u.size == t.size && u.total * u.len == t.total * t.len
    && forall b: nat, i: nat, j: nat | u.IsCell(b, i, j) :: exists i': nat, j': nat :: Matches(t, u, b, i, j, i', j')
  }

  // Then what t assembles, u assembles.
  lemma FollowsAssembles<V>(t: Tiling, u: Tiling, parts: seq<seq<V>>, r: seq<V>)
    requires Follows(t, u) && t.IsSource(parts) && t.IsAssembly(parts, r)
    ensures u.IsSource(parts) && u.IsAssembly(parts, r)
  {
    assert u.IsSource(parts);
    forall b: nat, i: nat, j: nat | u.IsCell(b, i, j)
      ensures u.off(b, i) + j < u.size && r[u.off(b, i) + j] == u.Chunk(parts, b, i)[j]
    {
      var i': nat, j': nat :| Matches(t, u, b, i, j, i', j');
      CellFollows(t, u, parts, r, b, i, j, i', j', i * u.len + j);
    }
  }

  lemma CellFollows<V>(t: Tiling, u: Tiling, parts: seq<seq<V>>, r: seq<V>, b: nat, i: nat, j: nat, i': nat, j': nat,
                       k: nat)
    requires u.size == t.size && t.IsSource(parts) && u.IsSource(parts) && t.IsAssembly(parts, r)
    requires u.IsCell(b, i, j) && Matches(t, u, b, i, j, i', j') && k == i * u.len + j
    ensures u.off(b, i) + j < u.size && r[u.off(b, i) + j] == u.Chunk(parts, b, i)[j]
  {
    t.ChunkAt(parts, b, i', j', k);
    u.ChunkAt(parts, b, i, j, k);
  }

  // One launch: the tiling, the slot selector, and each expert's source blocks.
  datatype Launch<V> = Launch(t: Tiling, sel: seq<int>, parts: nat -> seq<seq<V>>, stride: nat)
  {
    ghost predicate Valid() {
      && t.Valid() && stride > 0
      && forall s | 0 <= s < |sel| && sel[s] >= 0 :: t.IsSource(parts(sel[s]))
    }

    // The trip is run by some thread: groups of slots selecting -1 return early.
    ghost predicate Runs(op: Op) {
      && op.slot < |sel| && sel[op.slot] >= 0 && op.blk < t.blocks
      && exists x :: 0 <= x < stride && op.i in Trips(x, stride, t.total)
    }

    // Any interleaving of all the threads.
    ghost predicate IsExecution(ops: seq<Op>)
      requires stride > 0
    {
      && (forall j, k | 0 <= j < k < |ops| :: ops[j] != ops[k])
      && (forall op :: op in ops <==> Runs(op))
    }

    ghost function AllOps(): set<Op> {
      set s: nat, b: nat, i: nat | s < |sel| && b < t.blocks && i < t.total && Runs(Op(s, b, i)) :: Op(s, b, i)
    }

    // There is always an interleaving.
    lemma ExecutionExists() returns (ops: seq<Op>)
      requires stride > 0
      ensures IsExecution(ops)
    {
      ops := Listing(AllOps());
      forall op ensures op in ops <==> Runs(op) {
        RunsBelow(op);
        if Runs(op) { assert Op(op.slot, op.blk, op.i) in AllOps(); }
      }
    }

    ghost function At(op: Op): nat {
      op.slot * t.size + t.off(op.blk, op.i)
    }

    ghost predicate Touches(op: Op, a: nat) {
      At(op) <= a < At(op) + t.len
    }

    ghost function Data(op: Op): (d: seq<V>)
      requires Valid() && Runs(op)
      ensures |d| == t.len
    {
      RunsBelow(op);
      t.Chunk(parts(sel[op.slot]), op.blk, op.i)
    }

    lemma RunsBelow(op: Op)
      requires stride > 0
      ensures Runs(op) <==> op.slot < |sel| && sel[op.slot] >= 0 && op.blk < t.blocks && op.i < t.total
    {
      if op.slot < |sel| && sel[op.slot] >= 0 && op.blk < t.blocks && op.i < t.total {
        DivMod(op.i, stride);
        OneThreadPerTrip(op.i % stride, stride, t.total, op.i);
      }
      if Runs(op) {
        var x: nat :| x < stride && op.i in Trips(x, stride, t.total);
        TripsAre(x, stride, t.total, op.i);
      }
    }

    lemma StoreInSlot(op: Op)
      requires Valid() && Runs(op)
      ensures op.slot * t.size <= At(op) && At(op) + t.len <= op.slot * t.size + t.size <= |sel| * t.size
    {
      RunsBelow(op);
      RowFits(op.slot, |sel|, t.size);
      assert t.IsCell(op.blk, op.i, t.len - 1);
    }

    // The memory after a sequence of stores.
    ghost function Run(mem: seq<V>, ops: seq<Op>): (r: seq<V>)
      requires Valid() && |mem| == |sel| * t.size && forall op | op in ops :: Runs(op)
      ensures |r| == |mem|
    {
      if ops == [] then mem else
        var op := ops[|ops| - 1];
        StoreInSlot(op);
        Put(Run(mem, ops[..|ops| - 1]), At(op), Data(op))
    }

    // After any stores, an element has the value of the stores that touch it (when
    // they agree), or its old value when none does.
    lemma {:induction false} RunAt(mem: seq<V>, ops: seq<Op>, a: nat, v: V)
      requires Valid() && |mem| == |sel| * t.size && (forall op | op in ops :: Runs(op)) && a < |mem|
      requires forall op | op in ops && Touches(op, a) :: Data(op)[a - At(op)] == v
      ensures Run(mem, ops)[a] == if exists op :: op in ops && Touches(op, a) then v else mem[a]
    {
      if ops != [] {
        var op, init := ops[|ops| - 1], ops[..|ops| - 1];
        RunAt(mem, init, a, v);
        StoreInSlot(op);
      }
    }

    // The trip that stores a given element of a slot.
    ghost function Owner(slot: nat, o: nat): Op {
      Op(slot, t.loc(o).0, t.loc(o).1)
    }

    // A store touches an element exactly when it is the element's owner, so every
    // element of a selected slot is stored exactly once.
    lemma TouchesOwnerOnly(op: Op, slot: nat, o: nat)
      requires Valid() && Runs(op) && o < t.size
      ensures Touches(op, slot * t.size + o) <==> op == Owner(slot, o)
    {
      RunsBelow(op);
      StoreInSlot(op);
      assert t.Located(o);
      if Touches(op, slot * t.size + o) {
        MulMono(0, slot, t.size);
        MulMono(0, op.slot, t.size);
        SameRow(op.slot, slot, t.size, slot * t.size + o);
        var j: nat := o - t.off(op.blk, op.i);
        assert t.IsCell(op.blk, op.i, j);
      }
    }

    lemma OwnerRuns(slot: nat, o: nat)
      requires Valid() && slot < |sel| && sel[slot] >= 0 && o < t.size
      ensures Runs(Owner(slot, o))
    {
      assert t.Located(o);
      RunsBelow(Owner(slot, o));
    }

    lemma SlotFits(slot: nat)
      requires slot < |sel|
      ensures 0 <= slot * t.size && slot * t.size + t.size <= |sel| * t.size
    {
      RowFits(slot, |sel|, t.size);
      MulMono(0, slot, t.size);
    }

    ghost function SlotOf(mem: seq<V>, slot: nat): (r: seq<V>)
      requires slot < |sel| && |mem| == |sel| * t.size
      ensures |r| == t.size
    {
      SlotFits(slot);
      mem[slot * t.size..slot * t.size + t.size]
    }

    // Whatever the interleaving: a selected slot ends as its expert's assembly, any
    // other slot is untouched.
    lemma AnyOrder(mem: seq<V>, ops: seq<Op>, slot: nat)
      requires Valid() && |mem| == |sel| * t.size && IsExecution(ops) && slot < |sel|
      ensures if sel[slot] >= 0 then t.IsAssembly(parts(sel[slot]), SlotOf(Run(mem, ops), slot))
              else SlotOf(Run(mem, ops), slot) == SlotOf(mem, slot)
    {
      SlotFits(slot);
      var lo, out := slot * t.size, Run(mem, ops);
      if sel[slot] >= 0 {
        forall b: nat, i: nat, j: nat | t.IsCell(b, i, j)
          ensures t.off(b, i) + j < t.size
          ensures SlotOf(out, slot)[t.off(b, i) + j] == t.Chunk(parts(sel[slot]), b, i)[j]
        {
          assert t.Stored(b, i, j);
          CellAfter(mem, ops, slot, b, i, j);
        }
      } else {
        forall o | 0 <= o < t.size ensures SlotOf(out, slot)[o] == SlotOf(mem, slot)[o] {
          IdleAfter(mem, ops, slot, o);
        }
      }
    }

    lemma CellAfter(mem: seq<V>, ops: seq<Op>, slot: nat, b: nat, i: nat, j: nat)
      requires Valid() && |mem| == |sel| * t.size && IsExecution(ops)
      requires slot < |sel| && sel[slot] >= 0 && t.IsCell(b, i, j)
      requires slot * t.size + t.off(b, i) + j < |mem|
      ensures Run(mem, ops)[slot * t.size + t.off(b, i) + j] == t.Chunk(parts(sel[slot]), b, i)[j]
    {
      var o := t.off(b, i) + j;
      var a := slot * t.size + o;
      assert Owner(slot, o) == Op(slot, b, i);
      OwnerRuns(slot, o);
      forall op | op in ops ensures Touches(op, a) <==> op == Op(slot, b, i) {
        TouchesOwnerOnly(op, slot, o);
      }
      assert Op(slot, b, i) in ops;
      RunAt(mem, ops, a, t.Chunk(parts(sel[slot]), b, i)[j]);
    }

    lemma IdleAfter(mem: seq<V>, ops: seq<Op>, slot: nat, o: nat)
      requires Valid() && |mem| == |sel| * t.size && IsExecution(ops)
      requires slot < |sel| && sel[slot] < 0 && o < t.size && slot * t.size + o < |mem|
      ensures Run(mem, ops)[slot * t.size + o] == mem[slot * t.size + o]
    {
      var a := slot * t.size + o;
      forall op | op in ops ensures !Touches(op, a) {
        TouchesOwnerOnly(op, slot, o);
      }
      RunAt(mem, ops, a, mem[a]);
    }

    // Exactly one store of an execution touches an element of a selected slot.
    lemma ExactlyOnce(ops: seq<Op>, slot: nat, o: nat) returns (j: nat)
      requires Valid() && IsExecution(ops) && slot < |sel| && sel[slot] >= 0 && o < t.size
      ensures j < |ops| && Touches(ops[j], slot * t.size + o)
      ensures forall k | 0 <= k < |ops| && k != j :: !Touches(ops[k], slot * t.size + o)
    {
      OwnerRuns(slot, o);
      assert Owner(slot, o) in ops;
      j :| 0 <= j < |ops| && ops[j] == Owner(slot, o);
      forall k | 0 <= k < |ops| ensures Touches(ops[k], slot * t.size + o) <==> k == j {
        TouchesOwnerOnly(ops[k], slot, o);
      }
    }

    // The stores of one thread, in program order.
    ghost function ThreadOps(slot: nat, blk: nat, x: nat): (ops: seq<Op>)
      requires stride > 0
      ensures |ops| == |Trips(x, stride, t.total)|
      ensures forall k | 0 <= k < |ops| :: ops[k] == Op(slot, blk, Trips(x, stride, t.total)[k])
    {
      seq(|Trips(x, stride, t.total)|, k requires 0 <= k < |Trips(x, stride, t.total)| =>
        Op(slot, blk, Trips(x, stride, t.total)[k]))
    }
  }

  lemma {:induction false} Listing(ops: set<Op>) returns (list: seq<Op>)
    ensures forall j, k | 0 <= j < k < |list| :: list[j] != list[k]
    ensures forall op :: op in list <==> op in ops
    decreases |ops|
  {
    if ops == {} {
      list := [];
    } else {
      var op :| op in ops;
      var rest := Listing(ops - {op});
      list := [op] + rest;
    }
  }

  ghost function Put<V>(mem: seq<V>, at: nat, data: seq<V>): (r: seq<V>)
    requires at + |data| <= |mem|
    ensures |r| == |mem|
    ensures forall a | 0 <= a < |mem| :: r[a] == if at <= a < at + |data| then data[a - at] else mem[a]
  {
    mem[..at] + data + mem[at + |data|..]
  }

  lemma SameRow(p: nat, q: nat, n: nat, a: nat)
    requires p * n <= a < p * n + n && q * n <= a < q * n + n
    ensures p == q
  {
    DivModUnique(p, n, a - p * n);
    DivModUnique(q, n, a - q * n);
  }
}
