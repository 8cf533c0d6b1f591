// The inbox through which layers hand predictions forward: a layer finishing emits to
// the layers it predicts, a layer starting takes and scores what is waiting for it.

module ChainInbox {

  datatype Maybe<T> = None | Some(value: T)

  // An arm of the experiment at a depth.
  datatype Key = Key(arm: string, depth: nat)

  // A prediction, tagged with the pass and layer that made it.
  datatype Pred = Pred(pass: nat, source: int, choice: seq<nat>)

  const PERSIST := Key("persist", 1)

  type Pending = map<int, map<Key, Pred>>

  function Entry(pending: Pending, t: int, key: Key): Maybe<Pred> {
    if t in pending && key in pending[t] then Some(pending[t][key]) else None
  }

  datatype Config = Config(depths: set<nat>, deepest: nat, stride: nat, tokenLimit: nat)
  {
    ghost predicate Ok() {
      stride > 0 && 0 !in depths && forall d | d in depths :: d <= deepest
    }
  }

  datatype State = State(moe: set<int>, pending: Pending, h: map<int, nat>, ctx: set<int>)

  predicate Decodes(c: Config, tokens: nat) { 0 < tokens <= c.tokenLimit }

  // What emitting at a layer has to go on: its residual, its own choice of experts, and
  // what each arm's target router answered at each depth.
  datatype Offer = Offer(resid: bool, own: Maybe<seq<nat>>, answers: map<Key, seq<nat>>)

  ghost predicate Proper(o: Offer) {
    forall k | k in o.answers :: k.arm != "persist" && k.arm != "prevlayer"
  }

  // ---- one step each ------------------------------------------------------------------------------

  // A layer's router ran: take the inbox and, on a decode pass with a mask, score it. A
  // module without a layer id is ignored.
  ghost predicate IsScore(c: Config, s: State, s': State, lid: int, tokens: nat, masked: bool, scored: map<Key, Pred>) {
    if lid < 0 then s' == s && scored == map[] else Scores(c, s, s', lid, tokens, masked, scored)
  }

  ghost predicate Scores(c: Config, s: State, s': State, lid: int, tokens: nat, masked: bool, scored: map<Key, Pred>) {
    && s'.moe == s.moe + {lid}
    && (forall t, key :: Entry(s'.pending, t, key) == if t == lid then None else Entry(s.pending, t, key))
    && s'.ctx == (if Decodes(c, tokens) && masked then s.ctx + {lid} else s.ctx - {lid})
    && s'.h == (if Decodes(c, tokens) then s.h[lid := tokens] else s.h - {lid})
    && scored == if Decodes(c, tokens) && masked && lid in s.pending then s.pending[lid] else map[]
  }

  predicate Emits(c: Config, s: State, lid: int, o: Offer)
    requires c.stride > 0
  {
    lid % c.stride == 0 && o.resid && lid in s.moe && lid in s.h && Decodes(c, s.h[lid])
  }

  // What an emitting layer writes for a target and key, if anything.
  function Written(c: Config, s: State, lid: int, o: Offer, t: int, key: Key): Maybe<seq<nat>> {
    if t == lid then (if key == PERSIST && lid in s.ctx then o.own else None)
    else if t > lid && t - lid == key.depth && key.depth in c.depths && t in s.moe then
      (if key.arm == "prevlayer" then o.own else if key in o.answers then Some(o.answers[key]) else None)
    else None
  }

  ghost predicate IsEmit(c: Config, s: State, s': State, pass: nat, lid: int, o: Offer)
    requires c.stride > 0
  {
    && s' == s.(pending := s'.pending)
    && forall t, key :: Entry(s'.pending, t, key) ==
         if Emits(c, s, lid, o) && Written(c, s, lid, o, t, key).Some?
         then Some(Pred(pass, lid, Written(c, s, lid, o, t, key).value)) else Entry(s.pending, t, key)
  }

  // ---- the hooks ----------------------------------------------------------------------------------------

  class Inbox {
    var moe: set<int>
    var pending: Pending
    var h: map<int, nat>
    var ctx: set<int>

    function Value(): State
      reads this
    {
      State(moe, pending, h, ctx)
    }

    constructor ()
      ensures Value() == State({}, map[], map[], {})
    {
      moe, pending, h, ctx := {}, map[], map[], {};
    }

    method Score(c: Config, lid: int, tokens: nat, masked: bool) returns (scored: map<Key, Pred>)
      modifies this
      ensures IsScore(c, old(Value()), Value(), lid, tokens, masked, scored)
    {
      scored := map[];
      if lid < 0 { return; }
      moe := moe + {lid};
      var pend := if lid in pending then pending[lid] else map[];
      pending := pending - {lid};
      ctx := ctx - {lid};
      if !Decodes(c, tokens) {
        h := h - {lid};
        return;
      }
      h := h[lid := tokens];
      if !masked { return; }
      ctx := ctx + {lid};
      scored := pend;
    }

    method Put(t: int, key: Key, p: Pred)
      modifies this`pending
      ensures forall u, k :: Entry(pending, u, k) == if u == t && k == key then Some(p) else Entry(old(pending), u, k)
    {
      var inbox := if t in pending then pending[t] else map[];
      pending := pending[t := inbox[key := p]];
    }

    method Emit(c: Config, pass: nat, lid: int, o: Offer)
      requires c.Ok() && Proper(o)
      modifies this`pending
      ensures IsEmit(c, old(Value()), Value(), pass, lid, o)
    {
      if lid % c.stride != 0 || !o.resid || lid !in moe || lid !in h || !Decodes(c, h[lid]) { return; }
      ghost var s := Value();
      if lid in ctx && o.own.Some? { Put(lid, PERSIST, Pred(pass, lid, o.own.value)); }
      for d := 1 to c.deepest + 1
        invariant Value() == s.(pending := pending)
        invariant forall t, key :: Entry(pending, t, key) ==
                    if t < lid + d && Written(c, s, lid, o, t, key).Some?
                    then Some(Pred(pass, lid, Written(c, s, lid, o, t, key).value)) else Entry(s.pending, t, key)
      {
        if d in c.depths && lid + d in moe { EmitAt(c, pass, lid, d, o); }
      }
    }

    // Everything offered at one depth.
    method EmitAt(c: Config, pass: nat, lid: int, d: nat, o: Offer)
      requires d in c.depths && d > 0 && lid + d in moe && Proper(o)
      modifies this`pending
      ensures forall t, key :: Entry(pending, t, key) ==
                if t == lid + d && Written(c, old(Value()), lid, o, t, key).Some?
                then Some(Pred(pass, lid, Written(c, old(Value()), lid, o, t, key).value))
                else Entry(old(pending), t, key)
    {
      ghost var s := Value();
      if o.own.Some? { Put(lid + d, Key("prevlayer", d), Pred(pass, lid, o.own.value)); }
      var todo := set k | k in o.answers && k.depth == d;
      ghost var all := todo;
      while todo != {}
        invariant todo <= all
        invariant forall t, key :: Entry(pending, t, key) ==
                    if t == lid + d && key !in todo && Written(c, s, lid, o, t, key).Some?
                    then Some(Pred(pass, lid, Written(c, s, lid, o, t, key).value)) else Entry(s.pending, t, key)
        decreases |todo|
      {
        var k :| k in todo;
        Put(lid + d, k, Pred(pass, lid, o.answers[k]));
        todo := todo - {k};
      }
    }
  }

  // ---- whole runs ------------------------------------------------------------------------------------------

  // One visit of one layer: its inbox taken, then its own emissions.
  datatype Visit = Visit(masked: bool, scored: map<Key, Pred>, mid: State, offer: Offer)

  ghost predicate IsVisit(c: Config, s: State, s': State, pass: nat, lid: int, tokens: nat, v: Visit) {
    && c.stride > 0 && Proper(v.offer)
    && IsScore(c, s, v.mid, lid, tokens, v.masked, v.scored) && IsEmit(c, v.mid, s', pass, lid, v.offer)
  }

  predicate Ascending(layers: seq<int>) { forall i, j | 0 <= i < j < |layers| :: layers[i] < layers[j] }

  // A forward pass over the layers in order; `tokens` says whether it decodes.
  datatype Pass = Pass(tokens: nat, states: seq<State>, visits: seq<Visit>)

  ghost predicate IsPass(c: Config, layers: seq<int>, number: nat, p: Pass) {
    && |p.states| == |layers| + 1 && |p.visits| == |layers|
    && forall j | 0 <= j < |layers| ::
         IsVisit(c, p.states[j], p.states[j + 1], number, layers[j], p.tokens, p.visits[j])
  }

  ghost predicate IsRun(c: Config, layers: seq<int>, passes: seq<Pass>) {
    && c.Ok() && Ascending(layers)
    && (forall n: nat | n < |passes| :: IsPass(c, layers, n, passes[n]))
    && (|passes| > 0 ==> passes[0].states[0] == State({}, map[], map[], {}))
    && forall n | 0 < n < |passes| :: passes[n].states[0] == passes[n - 1].states[|layers|]
  }

  // A waiting prediction is as fresh as it should be: a lookahead from an earlier layer
  // of this very pass to one still to come, a persistence from the target's own last visit.
  ghost predicate IsFresh(layers: seq<int>, pass: nat, j: nat, t: int, key: Key, p: Pred)
    requires j <= |layers|
  {
    if key.arm == "persist" then
      && key.depth == 1 && p.source == t && t in layers
      && p.pass + 1 == (if t in layers[..j] then pass + 1 else pass)
    else
      key.depth > 0 && p.pass == pass && p.source == t - key.depth && p.source in layers[..j] && t in layers[j..]
  }

  ghost predicate Inv(layers: seq<int>, pass: nat, j: nat, s: State)
    requires j <= |layers|
  {
    && (forall t | t in s.moe :: t in layers && t >= 0)
    && forall t, key | Entry(s.pending, t, key).Some? ::
         t >= 0 && IsFresh(layers, pass, j, t, key, Entry(s.pending, t, key).value)
  }

  lemma Positions(layers: seq<int>, j: nat, t: int)
    requires Ascending(layers) && j < |layers|
    ensures t in layers[..j + 1] <==> t in layers[..j] || t == layers[j]
    ensures t in layers[..j] ==> t in layers && t < layers[j]
    ensures t in layers[j..] ==> t in layers && t >= layers[j]
    ensures t in layers && t > layers[j] ==> t in layers[j + 1..]
    ensures t in layers[j..] && t != layers[j] ==> t in layers[j + 1..]
  {
    assert layers[..j + 1] == layers[..j] + [layers[j]];
    assert layers[j..] == [layers[j]] + layers[j + 1..];
    if t in layers { Later(layers, j, t); }
  }

  lemma Later(layers: seq<int>, j: nat, t: int)
    requires Ascending(layers) && j < |layers| && t in layers
    ensures t > layers[j] ==> t in layers[j + 1..]
  {
    var i :| 0 <= i < |layers| && layers[i] == t;
    if t > layers[j] {
      assert i > j;
      assert layers[j + 1..][i - j - 1] == t;
    }
  }

  // A visit scores only what it should, and leaves everything waiting fresh.
  lemma VisitKeepsInv(c: Config, layers: seq<int>, pass: nat, j: nat, s: State, s': State, tokens: nat, v: Visit)
    requires c.Ok() && Ascending(layers) && j < |layers| && Inv(layers, pass, j, s)
    requires IsVisit(c, s, s', pass, layers[j], tokens, v)
    ensures Inv(layers, pass, j + 1, s')
    ensures forall key | key in v.scored :: IsDue(layers[j], pass, key, v.scored[key])
  {
    var lid := layers[j];
    forall key | key in v.scored ensures IsDue(lid, pass, key, v.scored[key]) {
      assert Entry(s.pending, lid, key) == Some(v.scored[key]);
      Positions(layers, j, lid);
    }
    forall t, key | Entry(s'.pending, t, key).Some?
      ensures t >= 0 && IsFresh(layers, pass, j + 1, t, key, Entry(s'.pending, t, key).value)
    {
      EntryStaysFresh(c, layers, pass, j, s, s', tokens, v, t, key);
    }
  }

  // What a layer may be scored on: lookaheads this pass made the right depth below it, and
  // its own persistence from the pass before.
  ghost predicate IsDue(lid: int, pass: nat, key: Key, p: Pred) {
    if key.arm == "persist" then key.depth == 1 && p.source == lid && p.pass + 1 == pass
    else key.depth > 0 && p.source == lid - key.depth && p.pass == pass
  }

  lemma EntryStaysFresh(c: Config, layers: seq<int>, pass: nat, j: nat, s: State, s': State, tokens: nat, v: Visit,
                        t: int, key: Key)
    requires c.Ok() && Ascending(layers) && j < |layers| && Inv(layers, pass, j, s)
    requires IsVisit(c, s, s', pass, layers[j], tokens, v) && Entry(s'.pending, t, key).Some?
    ensures t >= 0 && IsFresh(layers, pass, j + 1, t, key, Entry(s'.pending, t, key).value)
  {
    var lid := layers[j];
    Positions(layers, j, t);
    if Emits(c, v.mid, lid, v.offer) && Written(c, v.mid, lid, v.offer, t, key).Some? {
      Positions(layers, j, lid);
    } else {
      assert t != lid && Entry(s'.pending, t, key) == Entry(s.pending, t, key);
      Positions(layers, j, Entry(s.pending, t, key).value.source);
    }
  }

  // ---- the theorems -----------------------------------------------------------------------------------

  lemma {:induction false} RunKeepsInv(c: Config, layers: seq<int>, passes: seq<Pass>, n: nat, j: nat)
    requires IsRun(c, layers, passes) && n < |passes| && j <= |layers|
    ensures Inv(layers, n, j, passes[n].states[j])
    decreases n, j
  {
    if j > 0 {
      RunKeepsInv(c, layers, passes, n, j - 1);
      var p := passes[n];
      assert IsVisit(c, p.states[j - 1], p.states[j - 1 + 1], n, layers[j - 1], p.tokens, p.visits[j - 1]);
      VisitKeepsInv(c, layers, n, j - 1, p.states[j - 1], p.states[j], p.tokens, p.visits[j - 1]);
    } else if n > 0 {
      RunKeepsInv(c, layers, passes, n - 1, |layers|);
      NextPass(layers, n - 1, passes[n].states[0]);
    }
  }

  // Between passes only persistence is waiting.
  lemma NextPass(layers: seq<int>, n: nat, s: State)
    requires Inv(layers, n, |layers|, s)
    ensures Inv(layers, n + 1, 0, s)
  {
    assert layers[..|layers|] == layers;
    forall t, key | Entry(s.pending, t, key).Some?
      ensures t >= 0 && IsFresh(layers, n + 1, 0, t, key, Entry(s.pending, t, key).value)
    {
      assert IsFresh(layers, n, |layers|, t, key, Entry(s.pending, t, key).value);
    }
  }

  // Whatever the mix of decode and prefill passes, a layer is only ever scored on
  // predictions made for it in this pass, or by itself in the pass before.
  lemma EveryScoreIsDue(c: Config, layers: seq<int>, passes: seq<Pass>, n: nat, j: nat, key: Key)
    requires IsRun(c, layers, passes) && n < |passes| && j < |layers| && key in passes[n].visits[j].scored
    ensures IsDue(layers[j], n, key, passes[n].visits[j].scored[key])
  {
    RunKeepsInv(c, layers, passes, n, j);
    var p := passes[n];
    assert IsVisit(c, p.states[j], p.states[j + 1], n, layers[j], p.tokens, p.visits[j]);
    VisitKeepsInv(c, layers, n, j, p.states[j], p.states[j + 1], p.tokens, p.visits[j]);
  }

  // No prediction is scored twice: its pass, source and key fix where it is scored.
  lemma ScoredAtMostOnce(c: Config, layers: seq<int>, passes: seq<Pass>, n: nat, j: nat, m: nat, i: nat, key: Key)
    requires IsRun(c, layers, passes) && n < |passes| && j < |layers| && m < |passes| && i < |layers|
    requires key in passes[n].visits[j].scored && key in passes[m].visits[i].scored
    requires var p, q := passes[n].visits[j].scored[key], passes[m].visits[i].scored[key];
             p.pass == q.pass && p.source == q.source
    ensures n == m && j == i
  {
    EveryScoreIsDue(c, layers, passes, n, j, key);
    EveryScoreIsDue(c, layers, passes, m, i, key);
    SamePosition(layers, j, i);
  }

  lemma SamePosition(layers: seq<int>, j: nat, i: nat)
    requires Ascending(layers) && j < |layers| && i < |layers| && layers[j] == layers[i]
    ensures j == i
  {
  }

  // ---- nothing is lost either ------------------------------------------------------------------------------

  // An entry waits unchanged until its target is visited: no other layer writes its key.
  lemma EntryWaits(c: Config, layers: seq<int>, pass: nat, j: nat, s: State, s': State, tokens: nat, v: Visit, t: int,
                   key: Key)
    requires c.Ok() && Ascending(layers) && j < |layers| && Inv(layers, pass, j, s)
    requires IsVisit(c, s, s', pass, layers[j], tokens, v) && t != layers[j] && Entry(s.pending, t, key).Some?
    ensures Entry(s'.pending, t, key) == Entry(s.pending, t, key)
  {
    var lid := layers[j];
    var p := Entry(s.pending, t, key).value;
    assert IsFresh(layers, pass, j, t, key, p);
    Positions(layers, j, p.source);
  }

  lemma {:induction false} WaitsThrough(c: Config, layers: seq<int>, passes: seq<Pass>, n: nat, j: nat, k: nat,
                                        t: int, key: Key)
    requires IsRun(c, layers, passes) && n < |passes| && j <= k <= |layers|
    requires Entry(passes[n].states[j].pending, t, key).Some? && t !in layers[j..k]
    ensures Entry(passes[n].states[k].pending, t, key) == Entry(passes[n].states[j].pending, t, key)
    decreases k - j
  {
    if j < k {
      var p := passes[n];
      assert layers[j..k] == [layers[j]] + layers[j + 1..k];
      RunKeepsInv(c, layers, passes, n, j);
      assert IsVisit(c, p.states[j], p.states[j + 1], n, layers[j], p.tokens, p.visits[j]);
      EntryWaits(c, layers, n, j, p.states[j], p.states[j + 1], p.tokens, p.visits[j], t, key);
      WaitsThrough(c, layers, passes, n, j + 1, k, t, key);
    }
  }

  // ---- what a visit does, in tokens and the limit -------------------------------------------------------------

  // A masked visit with 1 to `tokenLimit` tokens is scored on exactly what was waiting for
  // the layer; any other visit on nothing.
  lemma VisitScores(c: Config, s: State, s': State, pass: nat, lid: int, tokens: nat, v: Visit)
    requires IsVisit(c, s, s', pass, lid, tokens, v) && lid >= 0
    ensures v.masked && 1 <= tokens <= c.tokenLimit ==>
              forall key :: (if key in v.scored then Some(v.scored[key]) else None) == Entry(s.pending, lid, key)
    ensures !v.masked || tokens == 0 || tokens > c.tokenLimit ==> v.scored == map[]
  {
  }

  // A visit with no tokens or more than the limit empties the layer's inbox, leaves no
  // residual for it and emits nothing.
  lemma PrefillOnlyEmpties(c: Config, s: State, s': State, pass: nat, lid: int, tokens: nat, v: Visit)
    requires IsVisit(c, s, s', pass, lid, tokens, v) && lid >= 0 && (tokens == 0 || tokens > c.tokenLimit)
    ensures lid !in s'.h && lid !in s'.ctx && lid in s'.moe
    ensures forall t, key :: Entry(s'.pending, t, key) == if t == lid then None else Entry(s.pending, t, key)
  {
  }

  // Towards a later layer a visit writes what it is offered at that layer's depth, if the
  // layer is known and the depth is asked for; and only on its stride, with a residual and
  // 1 to `tokenLimit` tokens.
  lemma VisitEmits(c: Config, s: State, s': State, pass: nat, lid: int, tokens: nat, v: Visit, t: int, key: Key)
    requires IsVisit(c, s, s', pass, lid, tokens, v) && 0 <= lid < t
    ensures var sends := lid % c.stride == 0 && v.offer.resid && 1 <= tokens <= c.tokenLimit
                         && t in s.moe && key.depth == t - lid && key.depth in c.depths;
            Entry(s'.pending, t, key) ==
            if sends && key.arm == "prevlayer" && v.offer.own.Some? then Some(Pred(pass, lid, v.offer.own.value))
            else if sends && key.arm != "prevlayer" && key in v.offer.answers then
              Some(Pred(pass, lid, v.offer.answers[key]))
            else Entry(s.pending, t, key)
  {
    assert Entry(v.mid.pending, t, key) == Entry(s.pending, t, key);
  }

  // To itself it leaves its own choice, if it could have been scored.
  lemma VisitPersists(c: Config, s: State, s': State, pass: nat, lid: int, tokens: nat, v: Visit, key: Key)
    requires IsVisit(c, s, s', pass, lid, tokens, v) && lid >= 0
    ensures Entry(s'.pending, lid, key) ==
            if lid % c.stride == 0 && v.offer.resid && 1 <= tokens <= c.tokenLimit && v.masked && v.offer.own.Some?
               && key == Key("persist", 1)
            then Some(Pred(pass, lid, v.offer.own.value)) else None
  {
  }

  // Any pass, even one that scores nothing, makes its layers known.
  lemma {:induction false} Registered(c: Config, layers: seq<int>, passes: seq<Pass>, n: nat, j: nat, t: int)
    requires IsRun(c, layers, passes) && n < |passes| && j <= |layers|
    ensures t in passes[n].states[j].moe <==> t >= 0 && (t in layers[..j] || (n > 0 && t in layers))
    decreases n, j
  {
    if j > 0 {
      Registered(c, layers, passes, n, j - 1, t);
      var p := passes[n];
      assert IsVisit(c, p.states[j - 1], p.states[j - 1 + 1], n, layers[j - 1], p.tokens, p.visits[j - 1]);
      assert layers[..j] == layers[..j - 1] + [layers[j - 1]];
    } else if n > 0 {
      Registered(c, layers, passes, n - 1, |layers|, t);
      assert layers[..|layers|] == layers;
    }
  }

  // A lookahead made for a later layer in a decode pass, once every layer is known, reaches
  // it unchanged in that pass, and is what it is scored on if it has a mask.
  lemma LookaheadArrives(c: Config, layers: seq<int>, passes: seq<Pass>, n: nat, j: nat, k: nat, key: Key,
                         choice: seq<nat>)
    requires IsRun(c, layers, passes) && 0 < n < |passes| && j < k < |layers| && layers[j] >= 0
    requires 1 <= passes[n].tokens <= c.tokenLimit && passes[n].visits[k].masked
    requires layers[j] % c.stride == 0 && passes[n].visits[j].offer.resid
    requires key.depth == layers[k] - layers[j] && key.depth in c.depths
    requires var o := passes[n].visits[j].offer;
             if key.arm == "prevlayer" then o.own == Some(choice) else key in o.answers && o.answers[key] == choice
    ensures key in passes[n].visits[k].scored && passes[n].visits[k].scored[key] == Pred(n, layers[j], choice)
  {
    var p := passes[n];
    var lid, t := layers[j], layers[k];
    Registered(c, layers, passes, n, j, t);
    assert IsVisit(c, p.states[j], p.states[j + 1], n, lid, p.tokens, p.visits[j]);
    VisitEmits(c, p.states[j], p.states[j + 1], n, lid, p.tokens, p.visits[j], t, key);
    assert t !in layers[j + 1..k];
    WaitsThrough(c, layers, passes, n, j + 1, k, t, key);
    assert IsVisit(c, p.states[k], p.states[k + 1], n, t, p.tokens, p.visits[k]);
    VisitScores(c, p.states[k], p.states[k + 1], n, t, p.tokens, p.visits[k]);
    assert Entry(p.states[k].pending, t, key) ==
           if key in p.visits[k].scored then Some(p.visits[k].scored[key]) else None;
  }

  // A layer's own choice is what it is scored on at its next visit, if that pass has 1 to
  // `tokenLimit` tokens and the layer a mask; any other pass in between discards it.
  lemma PersistArrives(c: Config, layers: seq<int>, passes: seq<Pass>, n: nat, j: nat, choice: seq<nat>)
    requires IsRun(c, layers, passes) && n + 1 < |passes| && j < |layers| && layers[j] >= 0
    requires 1 <= passes[n].tokens <= c.tokenLimit && passes[n].visits[j].masked && layers[j] % c.stride == 0
    requires passes[n].visits[j].offer.resid && passes[n].visits[j].offer.own == Some(choice)
    ensures var v, key := passes[n + 1].visits[j], Key("persist", 1);
            && (key in v.scored <==> 1 <= passes[n + 1].tokens <= c.tokenLimit && v.masked)
            && (key in v.scored ==> v.scored[key] == Pred(n, layers[j], choice))
  {
    var p, q, next, lid := passes[n], passes[n + 1], n + 1, layers[j];
    assert IsVisit(c, p.states[j], p.states[j + 1], n, lid, p.tokens, p.visits[j]);
    VisitPersists(c, p.states[j], p.states[j + 1], n, lid, p.tokens, p.visits[j], PERSIST);
    assert lid !in layers[j + 1..|layers|];
    WaitsThrough(c, layers, passes, n, j + 1, |layers|, lid, PERSIST);
    assert q.states[0] == p.states[|layers|];
    assert lid !in layers[0..j];
    WaitsThrough(c, layers, passes, next, 0, j, lid, PERSIST);
    assert IsVisit(c, q.states[j], q.states[j + 1], next, lid, q.tokens, q.visits[j]);
    VisitScores(c, q.states[j], q.states[j + 1], next, lid, q.tokens, q.visits[j]);
  }

  // In the very first pass no layer knows a later one, so nothing is scored.
  lemma {:induction false} FirstPassWaits(c: Config, layers: seq<int>, passes: seq<Pass>, j: nat, t: int, key: Key)
    requires IsRun(c, layers, passes) && |passes| > 0 && j <= |layers|
    ensures Entry(passes[0].states[j].pending, t, key).Some? ==> t in layers[..j]
  {
    if j > 0 {
      FirstPassWaits(c, layers, passes, j - 1, t, key);
      var p, lid := passes[0], layers[j - 1];
      assert IsVisit(c, p.states[j - 1], p.states[j - 1 + 1], 0, lid, p.tokens, p.visits[j - 1]);
      assert layers[..j] == layers[..j - 1] + [lid];
      Registered(c, layers, passes, 0, j - 1, t);
      Positions(layers, j - 1, t);
    }
  }

  lemma FirstPassScoresNothing(c: Config, layers: seq<int>, passes: seq<Pass>, j: nat)
    requires IsRun(c, layers, passes) && |passes| > 0 && j < |layers|
    ensures passes[0].visits[j].scored == map[]
  {
    var p, lid := passes[0], layers[j];
    assert IsVisit(c, p.states[j], p.states[j + 1], 0, lid, p.tokens, p.visits[j]);
    Positions(layers, j, lid);
    forall key ensures key !in p.visits[j].scored {
      FirstPassWaits(c, layers, passes, j, lid, key);
    }
  }
}
