/** Merging the environments of two branches: one PHI for each name on which they disagree. */
module MirMerge {
  import opened Ast
  import opened Scopes
  import opened Mir
  import opened MirFactory
  import opened MirMeaning
  import opened Sequences

  // ---- One layer --------------------------------------------------------------------------

  /** The names on which the layers disagree, in the order of the walk. */
  function Differing(first: Layer<Site>, second: Layer<Site>, keys: seq<string>): (d: seq<string>)
    requires forall k <- keys :: k in first && k in second
    ensures forall k :: k in d <==> k in keys && first[k].v != second[k].v
  {
    if keys == [] then []
    else
      var rest := Differing(first, second, keys[1..]);
      if first[keys[0]].v == second[keys[0]].v then rest else [keys[0]] + rest
  }

  lemma {:induction false} DifferingDistinct(first: Layer<Site>, second: Layer<Site>, keys: seq<string>)
    requires (forall k <- keys :: k in first && k in second) && Distinct(keys)
    ensures Distinct(Differing(first, second, keys))
  {
    if keys != [] { DifferingDistinct(first, second, keys[1..]); }
  }

  lemma {:induction false} DifferingSame(first: Layer<Site>, other: Layer<Site>, second: Layer<Site>, keys: seq<string>)
    requires forall k <- keys :: k in first && k in second && k in other && other[k] == first[k]
    ensures Differing(other, second, keys) == Differing(first, second, keys)
  {
    if keys != [] { DifferingSame(first, other, second, keys[1..]); }
  }

  /** The selection between the two variables a name has at the ends of the branches. */
  function Selection(id: nat, a: Site, b: Site, result: VarId): Instruction {
    Instruction(id, Phi, [PhiArg(a.block, a.v), PhiArg(b.block, b.v)], Some(result))
  }

  /** One selection per name of `d`, with consecutive ids and results. */
  function Selections(id: nat, v: VarId, d: seq<string>, first: Layer<Site>, second: Layer<Site>): (code: seq<Instruction>)
    requires forall k <- d :: k in first && k in second
    ensures |code| == |d|
    decreases |d|
  {
    if d == [] then []
    else [Selection(id, first[d[0]], second[d[0]], v)] + Selections(id + 1, v + 1, d[1..], first, second)
  }

  lemma {:induction false} SelectionsAt(id: nat, v: VarId, d: seq<string>, first: Layer<Site>, second: Layer<Site>, j: nat)
    requires (forall k <- d :: k in first && k in second) && j < |d|
    ensures Selections(id, v, d, first, second)[j] == Selection(id + j, first[d[j]], second[d[j]], v + j)
    decreases |d|
  {
    if j > 0 { SelectionsAt(id + 1, v + 1, d[1..], first, second, j - 1); }
  }

  lemma {:induction false} SelectionsSame(id: nat, v: VarId, d: seq<string>, first: Layer<Site>, other: Layer<Site>, second: Layer<Site>)
    requires forall k <- d :: k in first && k in second && k in other && other[k] == first[k]
    ensures Selections(id, v, d, other, second) == Selections(id, v, d, first, second)
    decreases |d|
  {
    if d != [] { SelectionsSame(id + 1, v + 1, d[1..], first, other, second); }
  }

  /** Each name of `d` takes its selection's result and keeps its block. */
  function Rebound(v: VarId, d: seq<string>, first: Layer<Site>): (merged: Layer<Site>)
    requires forall k <- d :: k in first
    ensures merged.Keys == first.Keys
    ensures forall k :: k in first && k !in d ==> merged[k] == first[k]
    decreases |d|
  {
    if d == [] then first
    else Rebound(v + 1, d[1..], first[d[0] := first[d[0]].(v := v)])
  }

  lemma {:induction false} ReboundAt(v: VarId, d: seq<string>, first: Layer<Site>, j: nat)
    requires (forall k <- d :: k in first) && Distinct(d) && j < |d|
    ensures Rebound(v, d, first)[d[j]] == first[d[j]].(v := v + j)
    decreases |d|
  {
    DistinctTail(d);
    if j > 0 { ReboundAt(v + 1, d[1..], first[d[0] := first[d[0]].(v := v)], j - 1); }
  }

  lemma {:induction false} MergeLayerSpec(st: State, first: Layer<Site>, second: Layer<Site>, keys: seq<string>)
    requires HasBlock(st) && (forall k <- keys :: k in first && k in second) && Distinct(keys)
    ensures var r := MergeLayer(st, first, second, keys); var d := Differing(first, second, keys);
      && Straight(st, r.0) && Code(st, r.0) == Selections(st.instrId, st.varId, d, first, second)
      && r.1 == Rebound(st.varId, d, first)
      && r.0.varId == st.varId + |d| && r.0.instrId == st.instrId + |d|
    decreases |keys|
  {
    if keys == [] {
      assert Code(st, st) == [];
    } else if first[keys[0]].v == second[keys[0]].v {
      hide Code, Straight, Selections, Rebound;
      DistinctTail(keys);
      MergeLayerSpec(st, first, second, keys[1..]);
    } else {
      MergeNameSpec(st, first, second, keys);
    }
  }

  lemma SelectionsCons(id: nat, v: VarId, k: string, d: seq<string>, first: Layer<Site>, second: Layer<Site>)
    requires (forall x <- d :: x in first && x in second) && k in first && k in second && k !in d
    ensures var next := first[k := first[k].(v := v)];
      && Selections(id, v, [k] + d, first, second) == [Selection(id, first[k], second[k], v)] + Selections(id + 1, v + 1, d, next, second)
      && Rebound(v, [k] + d, first) == Rebound(v + 1, d, next)
  {
    var next := first[k := first[k].(v := v)];
    var all := [k] + d;
    assert all[0] == k && all[1..] == d;
    assert Selections(id, v, all, first, second) == [Selection(id, first[k], second[k], v)] + Selections(id + 1, v + 1, all[1..], first, second);
    assert Rebound(v, all, first) == Rebound(v + 1, all[1..], next);
    hide Selections, Rebound;
    SelectionsSame(id + 1, v + 1, d, first, next, second);
  }

  lemma {:induction false} MergeNameSpec(st: State, first: Layer<Site>, second: Layer<Site>, keys: seq<string>)
    requires HasBlock(st) && (forall k <- keys :: k in first && k in second) && Distinct(keys)
    requires keys != [] && first[keys[0]].v != second[keys[0]].v
    ensures var r := MergeLayer(st, first, second, keys); var d := Differing(first, second, keys);
      && Straight(st, r.0) && Code(st, r.0) == Selections(st.instrId, st.varId, d, first, second)
      && r.1 == Rebound(st.varId, d, first)
      && r.0.varId == st.varId + |d| && r.0.instrId == st.instrId + |d|
    decreases |keys|, 0
  {
    hide Code, Selections, Rebound, Straight, EmitResult, MergeLayer, Differing, Distinct;
    MergeUnfold(st, first, second, keys);
    var k, a, b := keys[0], first[keys[0]], second[keys[0]];
    var os := [PhiArg(a.block, a.v), PhiArg(b.block, b.v)];
    var st1 := EmitResult(st, Phi, os);
    var next := first[k := a.(v := st.varId)];
    EmitResultCode(st, Phi, os);
    DistinctTail(keys);
    MergeLayerSpec(st1, next, second, keys[1..]);
    CodeTrans(st, st1, MergeLayer(st1, next, second, keys[1..]).0);
    SelectionsCons(st.instrId, st.varId, k, Differing(first, second, keys[1..]), first, second);
  }

  lemma MergeUnfold(st: State, first: Layer<Site>, second: Layer<Site>, keys: seq<string>)
    requires HasBlock(st) && (forall k <- keys :: k in first && k in second) && Distinct(keys)
    requires keys != [] && first[keys[0]].v != second[keys[0]].v
    ensures var k, a, b := keys[0], first[keys[0]], second[keys[0]];
      var next := first[k := a.(v := st.varId)];
      && Differing(first, second, keys) == [k] + Differing(first, second, keys[1..])
      && Differing(next, second, keys[1..]) == Differing(first, second, keys[1..])
      && MergeLayer(st, first, second, keys) ==
           MergeLayer(EmitResult(st, Phi, [PhiArg(a.block, a.v), PhiArg(b.block, b.v)]), next, second, keys[1..])
  {
    hide EmitResult;
    DistinctTail(keys);
    DifferingSame(first, first[keys[0] := first[keys[0]].(v := st.varId)], second, keys[1..]);
  }

  // ---- How far the walk gets --------------------------------------------------------------

  /** The names before the first one that is missing in the second layer, which ends the walk. */
  function Reached(keys: seq<string>, second: Layer<Site>): (r: seq<string>)
    ensures r <= keys && forall k <- r :: k in second
    ensures r == keys || keys[|r|] !in second
  {
    if keys == [] || keys[0] !in second then [] else [keys[0]] + Reached(keys[1..], second)
  }

  function Cut(keys: seq<string>, second: Layer<Site>): (r: Layer<Site>)
    ensures forall k :: k in r <==> k in Reached(keys, second)
    ensures forall k :: k in r ==> k in second && r[k] == second[k]
  {
    map k | k in Reached(keys, second) :: second[k]
  }

  /** As far as the walk gets, only the reached names of the second layer count. */
  lemma {:induction false} LayerReaches(st: State, first: Layer<Site>, second: Layer<Site>, other: Layer<Site>, keys: seq<string>)
    requires HasBlock(st) && forall k <- keys :: k in first
    requires forall k <- Reached(keys, second) :: k in other && other[k] == second[k]
    ensures MergeLayer(st, first, second, keys) == MergeLayer(st, first, other, Reached(keys, second))
    decreases |keys|
  {
    if keys != [] && keys[0] in second {
      var k, rest := keys[0], Reached(keys[1..], second);
      assert Reached(keys, second) == [k] + rest && ([k] + rest)[1..] == rest;
      assert k in Reached(keys, second);
      if first[k].v == second[k].v {
        LayerReaches(st, first, second, other, keys[1..]);
      } else {
        var st' := EmitResult(st, Phi, [PhiArg(first[k].block, first[k].v), PhiArg(second[k].block, second[k].v)]);
        LayerReaches(st', first[k := first[k].(v := st.varId)], second, other, keys[1..]);
      }
    }
  }

  // ---- All layers -------------------------------------------------------------------------

  ghost predicate Matching(e1: Stack<Site>, e2: Stack<Site>) {
    |e1| <= |e2| && forall i :: 0 <= i < |e1| ==> e1[i].Keys <= e2[i].Keys
  }

  /** The branches disagree on the name in this layer. */
  predicate Differs(e1: Stack<Site>, e2: Stack<Site>, p: (nat, string)) {
    p.0 < |e1| && p.0 < |e2| && p.1 in e1[p.0] && p.1 in e2[p.0] && e1[p.0][p.1].v != e2[p.0][p.1].v
  }

  /** Each disagreement once. */
  ghost predicate Lists(e1: Stack<Site>, e2: Stack<Site>, d: seq<(nat, string)>) {
    Distinct(d) && forall p :: p in d <==> Differs(e1, e2, p)
  }

  ghost predicate SameKeys(e1: Stack<Site>, env: Stack<Site>) {
    |env| == |e1| && forall i :: 0 <= i < |e1| ==> env[i].Keys == e1[i].Keys
  }

  ghost predicate AgreedKept(e1: Stack<Site>, e2: Stack<Site>, env: Stack<Site>) {
    |env| == |e1| &&
    forall i: nat, k :: i < |e1| && k in e1[i] && !Differs(e1, e2, (i, k)) ==> k in env[i] && env[i][k] == e1[i][k]
  }

  ghost predicate AllSelected(st: State, e1: Stack<Site>, e2: Stack<Site>, d: seq<(nat, string)>, r: (State, Stack<Site>)) {
    forall j: nat :: j < |d| ==> Selected(st, e1, e2, r, d[j], j)
  }

  /** Merging emits exactly one selection per layer and name on which the branches disagree,
      of exactly the two sites that come in, and only those names change their variable. */
  ghost predicate Merged(st: State, e1: Stack<Site>, e2: Stack<Site>, d: seq<(nat, string)>, r: (State, Stack<Site>)) {
    && Straight(st, r.0) && |Code(st, r.0)| == |d|
    && r.0.varId == st.varId + |d| && r.0.instrId == st.instrId + |d|
    && Lists(e1, e2, d) && AllSelected(st, e1, e2, d, r)
    && SameKeys(e1, r.1) && AgreedKept(e1, e2, r.1)
  }

  ghost predicate Selected(st: State, e1: Stack<Site>, e2: Stack<Site>, r: (State, Stack<Site>), p: (nat, string), j: nat) {
    && Straight(st, r.0) && j < |Code(st, r.0)| && Differs(e1, e2, p) && p.0 < |r.1| && p.1 in r.1[p.0]
    && Code(st, r.0)[j] == Selection(st.instrId + j, e1[p.0][p.1], e2[p.0][p.1], st.varId + j)
    && r.1[p.0][p.1] == e1[p.0][p.1].(v := st.varId + j)
  }

  /** The pairs of a layer, the first one of the two stacks. */
  function Paired(d: seq<string>): (r: seq<(nat, string)>) {
    seq(|d|, j requires 0 <= j < |d| => (0, d[j]))
  }

  function Deeper(d: seq<(nat, string)>): (r: seq<(nat, string)>) {
    seq(|d|, j requires 0 <= j < |d| => (d[j].0 + 1, d[j].1))
  }

  lemma DiffersLayers(e1: Stack<Site>, e2: Stack<Site>, here: seq<string>, below: seq<(nat, string)>)
    requires e1 != [] && e2 != [] && Distinct(here) && Lists(e1[1..], e2[1..], below)
    requires forall k :: k in here <==> k in e1[0] && k in e2[0] && e1[0][k].v != e2[0][k].v
    ensures Lists(e1, e2, Paired(here) + Deeper(below))
  {
    var d := Paired(here) + Deeper(below);
    forall p: (nat, string) ensures p in d <==> Differs(e1, e2, p) {
      if p.0 == 0 {
        if p.1 in here {
          var j :| 0 <= j < |here| && here[j] == p.1;
          assert d[j] == p;
        }
      } else {
        var q := (p.0 - 1, p.1);
        assert Differs(e1, e2, p) <==> Differs(e1[1..], e2[1..], q);
        if q in below {
          var j :| 0 <= j < |below| && below[j] == q;
          assert d[|here| + j] == p;
        }
      }
    }
  }

  /** The second environment as far as the walks get. */
  function CutAll(order: Order, st: State, e1: Stack<Site>, e2: Stack<Site>): (r: Stack<Site>)
    requires HasBlock(st) && IsOrder(order)
    decreases |e1|
  {
    if e1 == [] || e2 == [] then []
    else
      var keys := order(st, |e1|, e1[0].Keys);
      [Cut(keys, e2[0])] + CutAll(order, MergeLayer(st, e1[0], e2[0], keys).0, e1[1..], e2[1..])
  }

  /** Whatever the environments and the order of the walks: merging selects between exactly the
      names that the walks reach and on which the branches disagree. */
  lemma {:induction false} MergeEnvsSpec(order: Order, st: State, e1: Stack<Site>, e2: Stack<Site>) returns (d: seq<(nat, string)>)
    requires HasBlock(st) && IsOrder(order)
    ensures Merged(st, e1, CutAll(order, st, e1, e2), d, MergeEnvs(order, st, e1, e2))
    decreases |e1|
  {
    if e1 == [] || e2 == [] {
      d := [];
      assert Code(st, st) == [];
    } else {
      hide MergeLayer, Straight, Code, Selections, Rebound, Cut, Reached, Merged, Lists, Enumerates;
      var keys, cuts := order(st, |e1|, e1[0].Keys), CutAll(order, st, e1, e2);
      assert Enumerates(keys, e1[0].Keys);
      var here := LayerMerges(st, e1[0], e2[0], keys);
      var (st1, layer) := MergeLayer(st, e1[0], e2[0], keys);
      var below := MergeEnvsSpec(order, st1, e1[1..], e2[1..]);
      var (st2, rest) := MergeEnvs(order, st1, e1[1..], e2[1..]);
      assert MergeEnvs(order, st, e1, e2) == (st2, [layer] + rest);
      assert cuts[0] == Cut(keys, e2[0]) && cuts[1..] == CutAll(order, st1, e1[1..], e2[1..]);
      hide MergeEnvs, CutAll;
      d := Paired(here) + Deeper(below);
      MergedParts(st1, e1[1..], cuts[1..], below, (st2, rest));
      DiffersLayers(e1, cuts, here, below);
      CodeTrans(st, st1, st2);
      MergedCons(st, st1, st2, e1, cuts, layer, rest, here, below);
    }
  }

  lemma MergedParts(st: State, e1: Stack<Site>, e2: Stack<Site>, d: seq<(nat, string)>, r: (State, Stack<Site>))
    requires Merged(st, e1, e2, d, r)
    ensures Straight(st, r.0) && Lists(e1, e2, d)
  {}

  /** One layer, as far as the walk gets. */
  lemma LayerMerges(st: State, first: Layer<Site>, second: Layer<Site>, keys: seq<string>) returns (here: seq<string>)
    requires HasBlock(st) && Enumerates(keys, first.Keys)
    ensures var cut := Cut(keys, second);
      && Distinct(here) && (forall k :: k in here <==> k in first && k in cut && first[k].v != cut[k].v)
      && var r := MergeLayer(st, first, second, keys);
         && Straight(st, r.0) && Code(st, r.0) == Selections(st.instrId, st.varId, here, first, cut)
         && r.1 == Rebound(st.varId, here, first)
         && r.0.varId == st.varId + |here| && r.0.instrId == st.instrId + |here|
  {
    var cut, reached := Cut(keys, second), Reached(keys, second);
    hide MergeLayer, Straight, Code, Selections, Rebound, Reached, Differing;
    LayerReaches(st, first, second, cut, keys);
    assert Distinct(reached) by { assert reached <= keys && Distinct(keys); }
    here := Differing(first, cut, reached);
    DifferingDistinct(first, cut, reached);
    MergeLayerSpec(st, first, cut, reached);
  }

  /** A layer whose names are all in the matching layer of the second environment is walked to
      its end. */
  lemma {:induction false} WholeLayer(order: Order, st: State, e1: Stack<Site>, e2: Stack<Site>, i: nat)
    requires HasBlock(st) && IsOrder(order) && i < |e1| && i < |e2| && e1[i].Keys <= e2[i].Keys
    ensures i < |CutAll(order, st, e1, e2)|
    ensures forall k :: k in e1[i] ==> k in CutAll(order, st, e1, e2)[i] && CutAll(order, st, e1, e2)[i][k] == e2[i][k]
    decreases i
  {
    if i == 0 {
      assert Enumerates(order(st, |e1|, e1[0].Keys), e1[0].Keys);
    } else {
      hide MergeLayer;
      WholeLayer(order, MergeLayer(st, e1[0], e2[0], order(st, |e1|, e1[0].Keys)).0, e1[1..], e2[1..], i - 1);
    }
  }

  /** When every layer of the first environment finds its names in the matching layer of the
      second, all of the second environment counts. */
  lemma MatchingEnvs(order: Order, st: State, e1: Stack<Site>, e2: Stack<Site>) returns (d: seq<(nat, string)>)
    requires HasBlock(st) && IsOrder(order) && Matching(e1, e2)
    ensures Merged(st, e1, e2, d, MergeEnvs(order, st, e1, e2))
  {
    d := MergeEnvsSpec(order, st, e1, e2);
    var cuts := CutAll(order, st, e1, e2);
    forall i: nat | i < |e1| ensures i < |cuts| && forall k :: k in e1[i] ==> k in cuts[i] && cuts[i][k] == e2[i][k] {
      WholeLayer(order, st, e1, e2, i);
    }
    if e1 != [] { WholeLayer(order, st, e1, e2, |e1| - 1); }
    hide CutAll, Straight, Code;
    SameMerge(st, e1, cuts, e2, d, MergeEnvs(order, st, e1, e2));
  }

  lemma SameMerge(st: State, e1: Stack<Site>, e2: Stack<Site>, e3: Stack<Site>, d: seq<(nat, string)>, r: (State, Stack<Site>))
    requires Matching(e1, e3) && |e1| <= |e2| && Merged(st, e1, e2, d, r)
    requires forall i: nat, k :: i < |e1| && k in e1[i] ==> k in e2[i] && k in e3[i] && e2[i][k] == e3[i][k]
    ensures Merged(st, e1, e3, d, r)
  {
    hide Straight, Code;
    forall p ensures Differs(e1, e2, p) <==> Differs(e1, e3, p) {}
    forall j: nat | j < |d| ensures Selected(st, e1, e3, r, d[j], j) { assert Selected(st, e1, e2, r, d[j], j); }
  }

  lemma MergedCons(st: State, st1: State, st2: State, e1: Stack<Site>, e2: Stack<Site>, layer: Layer<Site>, rest: Stack<Site>,
      here: seq<string>, below: seq<(nat, string)>)
    requires e1 != [] && e2 != [] && Straight(st, st1) && Straight(st1, st2) && Straight(st, st2)
    requires Code(st, st2) == Code(st, st1) + Code(st1, st2)
    requires forall k :: k in here <==> k in e1[0] && k in e2[0] && e1[0][k].v != e2[0][k].v
    requires Distinct(here) && Code(st, st1) == Selections(st.instrId, st.varId, here, e1[0], e2[0]) && layer == Rebound(st.varId, here, e1[0])
    requires st1.varId == st.varId + |here| && st1.instrId == st.instrId + |here|
    requires Merged(st1, e1[1..], e2[1..], below, (st2, rest))
    requires Lists(e1, e2, Paired(here) + Deeper(below))
    ensures Merged(st, e1, e2, Paired(here) + Deeper(below), (st2, [layer] + rest))
  {
    hide Straight, Code, Selections, Rebound, Lists, AllSelected, SameKeys, AgreedKept, Distinct;
    SelectedCons(st, st1, st2, e1, e2, layer, rest, here, below);
    KeysCons(e1, layer, rest);
    KeptCons(e1, e2, layer, rest, here, st.varId);
  }

  lemma SelectedCons(st: State, st1: State, st2: State, e1: Stack<Site>, e2: Stack<Site>, layer: Layer<Site>, rest: Stack<Site>,
      here: seq<string>, below: seq<(nat, string)>)
    requires e1 != [] && e2 != [] && Straight(st, st1) && Straight(st1, st2) && Straight(st, st2)
    requires Code(st, st2) == Code(st, st1) + Code(st1, st2)
    requires forall k :: k in here <==> k in e1[0] && k in e2[0] && e1[0][k].v != e2[0][k].v
    requires Distinct(here) && Code(st, st1) == Selections(st.instrId, st.varId, here, e1[0], e2[0]) && layer == Rebound(st.varId, here, e1[0])
    requires st1.varId == st.varId + |here| && st1.instrId == st.instrId + |here|
    requires AllSelected(st1, e1[1..], e2[1..], below, (st2, rest))
    ensures AllSelected(st, e1, e2, Paired(here) + Deeper(below), (st2, [layer] + rest))
  {
    hide Straight, Code, Selections, Rebound, Selected, Differs, Distinct;
    var d := Paired(here) + Deeper(below);
    var r := (st2, [layer] + rest);
    forall j: nat | j < |d| ensures Selected(st, e1, e2, r, d[j], j) {
      if j < |here| {
        SelectedHere(st, st1, st2, e1, e2, layer, rest, here, j);
      } else {
        var i: nat := j - |here|;
        assert Selected(st1, e1[1..], e2[1..], (st2, rest), below[i], i);
        SelectedBelow(st, st1, st2, e1, e2, layer, rest, below, i, |here|);
      }
    }
  }

  lemma KeysCons(e1: Stack<Site>, layer: Layer<Site>, rest: Stack<Site>)
    requires e1 != [] && layer.Keys == e1[0].Keys && SameKeys(e1[1..], rest)
    ensures SameKeys(e1, [layer] + rest)
  {
    forall i | 0 < i < |e1| ensures ([layer] + rest)[i].Keys == e1[i].Keys {
      assert rest[i - 1].Keys == e1[1..][i - 1].Keys;
    }
  }

  lemma KeptCons(e1: Stack<Site>, e2: Stack<Site>, layer: Layer<Site>, rest: Stack<Site>, here: seq<string>, v: VarId)
    requires e1 != [] && e2 != [] && AgreedKept(e1[1..], e2[1..], rest)
    requires forall x :: x in here <==> x in e1[0] && x in e2[0] && e1[0][x].v != e2[0][x].v
    requires layer == Rebound(v, here, e1[0])
    ensures AgreedKept(e1, e2, [layer] + rest)
  {
    var env := [layer] + rest;
    hide Rebound;
    forall i: nat, k | i < |e1| && k in e1[i] && !Differs(e1, e2, (i, k)) ensures k in env[i] && env[i][k] == e1[i][k] {
      if i > 0 { assert k in e1[1..][i - 1] && !Differs(e1[1..], e2[1..], (i - 1, k)); }
    }
  }

  lemma SelectedHere(st: State, st1: State, st2: State, e1: Stack<Site>, e2: Stack<Site>, layer: Layer<Site>, rest: Stack<Site>, here: seq<string>, j: nat)
    requires e1 != [] && e2 != [] && Straight(st, st1) && Straight(st1, st2) && Straight(st, st2)
    requires Code(st, st2) == Code(st, st1) + Code(st1, st2) && j < |here| && Distinct(here)
    requires forall k :: k in here <==> k in e1[0] && k in e2[0] && e1[0][k].v != e2[0][k].v
    requires Code(st, st1) == Selections(st.instrId, st.varId, here, e1[0], e2[0]) && layer == Rebound(st.varId, here, e1[0])
    ensures Selected(st, e1, e2, (st2, [layer] + rest), (0, here[j]), j)
  {
    hide Straight, Code, Selections, Rebound;
    assert here[j] in here;
    SelectionsAt(st.instrId, st.varId, here, e1[0], e2[0], j);
    ReboundAt(st.varId, here, e1[0], j);
  }

  lemma SelectedBelow(st: State, st1: State, st2: State, e1: Stack<Site>, e2: Stack<Site>, layer: Layer<Site>, rest: Stack<Site>,
      below: seq<(nat, string)>, j: nat, n: nat)
    requires e1 != [] && e2 != [] && Straight(st, st1) && Straight(st1, st2) && Straight(st, st2)
    requires Code(st, st2) == Code(st, st1) + Code(st1, st2) && |Code(st, st1)| == n && j < |below|
    requires st1.varId == st.varId + n && st1.instrId == st.instrId + n
    requires Selected(st1, e1[1..], e2[1..], (st2, rest), below[j], j)
    ensures Selected(st, e1, e2, (st2, [layer] + rest), (below[j].0 + 1, below[j].1), n + j)
  {
    hide Straight, Code;
  }
}
