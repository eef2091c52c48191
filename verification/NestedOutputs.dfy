/**
 * Reading and writing a nested task's public outputs through its stack of bindings
 * (app/internal/effect/layer_project.go).
 */
module NestedOutputs {
  import opened Wrappers
  import opened SortedNames

  /** A JSON value, which the projection only passes on. */
  datatype Value = Value(json: string)

  type Outputs = map<string, Value>

  /** What a computed binding may read besides the inner outputs. */
  datatype Scope = Scope(locals: Outputs, inputs: Outputs)

  datatype Computation = Yields(value: Value) | Absent | Broken(message: string)

  /** One classified [outputs.bind] entry; refs are what a computation looks at. */
  datatype Binding =
    | Direct(key: string, innerKey: string)
    | Computed(key: string, refs: seq<string>, compute: (Outputs, Scope) -> Computation)

  /** Outermost first; the bindings are in ascending key order, as they are classified. */
  datatype Layer = Layer(effectID: string, binds: seq<Binding>)

  datatype LayerState = LayerState(outputs: Outputs, scope: Scope)

  ghost predicate DistinctKeys(binds: seq<Binding>) {
    forall i, j :: 0 <= i < j < |binds| ==> binds[i].key != binds[j].key
  }

  ghost predicate Classified(layers: seq<Layer>) {
    forall i :: 0 <= i < |layers| ==> DistinctKeys(layers[i].binds)
  }

  // ---- projection -----------------------------------------------------------------------

  /** findBinding: the first entry for the key. */
  ghost function Find(binds: seq<Binding>, key: string): (r: Option<Binding>)
    ensures r.Some? ==> exists i :: 0 <= i < |binds| && binds[i].key == key && r == Some(binds[i])
    ensures r.None? ==> forall i :: 0 <= i < |binds| ==> binds[i].key != key
  {
    if binds == [] then None
    else if binds[0].key == key then Some(binds[0])
    else Find(binds[1..], key)
  }

  predicate AllProduced(inner: Outputs, refs: seq<string>) {
    forall k | 0 <= k < |refs| :: refs[k] in inner
  }

  /** What one binding contributes to the view of its layer. */
  function Contribution(b: Binding, inner: Outputs, scope: Scope): Computation {
    match b
    case Direct(_, innerKey) => if innerKey in inner then Yields(inner[innerKey]) else Absent
    case Computed(_, refs, compute) => if AllProduced(inner, refs) then compute(inner, scope) else Absent
  }

  /** The view after the first n bindings. */
  ghost function Bound(binds: seq<Binding>, n: nat, inner: Outputs, scope: Scope): Result<Outputs>
    requires n <= |binds|
  {
    if n == 0 then Ok(map[])
    else
      match Bound(binds, n - 1, inner, scope)
      case Err(e) => Err(e)
      case Ok(view) =>
        match Contribution(binds[n - 1], inner, scope)
        case Broken(e) => Err(e)
        case Absent => Ok(view)
        case Yields(v) => Ok(view[binds[n - 1].key := v])
  }

  /** Every layer's public contract, outermost first. */
  ghost function Views(layers: seq<Layer>, states: seq<LayerState>): (r: Result<seq<Outputs>>)
    requires |layers| == |states| > 0
    ensures r.Ok? ==> |r.value| == |layers|
  {
    if |layers| == 1 then Ok([states[0].outputs])
    else
      match Views(layers[1..], states[1..])
      case Err(e) => Err(e)
      case Ok(inner) =>
        match Bound(layers[0].binds, |layers[0].binds|, inner[0], states[0].scope)
        case Err(e) => Err(e)
        case Ok(view) => Ok([view + states[0].outputs] + inner)
  }

  // ---- what a projection is -----------------------------------------------------------------

  ghost predicate RefsProduced(inner: Outputs, refs: seq<string>) {
    forall r :: 0 <= r < |refs| ==> refs[r] in inner
  }

  /** A binding evaluated over everything it reads, without success. */
  ghost predicate Breaks(b: Binding, inner: Outputs, scope: Scope) {
    b.Computed? && RefsProduced(inner, b.refs) && b.compute(inner, scope).Broken?
  }

  /** What a view shows under the key of a binding, unless the layer has a value of its own there. */
  ghost predicate Renders(b: Binding, inner: Outputs, scope: Scope, view: Outputs) {
    match b
    case Direct(key, innerKey) =>
      (key in view <==> innerKey in inner) && (key in view ==> view[key] == inner[innerKey])
    case Computed(key, refs, compute) =>
      if !RefsProduced(inner, refs) then key !in view
      else
        match compute(inner, scope)
        case Yields(value) => key in view && view[key] == value
        case Absent => key !in view
        case Broken(_) => false
  }

  /** The public contract of a layer over that of the layer inside it. */
  ghost predicate Projects(layer: Layer, inner: Outputs, state: LayerState, view: Outputs) {
    && (forall j :: 0 <= j < |layer.binds| ==> !Breaks(layer.binds[j], inner, state.scope))
    && (forall key :: key in state.outputs ==> key in view && view[key] == state.outputs[key])
    && (forall j :: 0 <= j < |layer.binds| && layer.binds[j].key !in state.outputs ==>
          Renders(layer.binds[j], inner, state.scope, view))
    && (forall key :: key in view ==> key in state.outputs || BindsKey(layer, key))
  }

  ghost predicate BindsKey(layer: Layer, key: string) {
    exists j :: 0 <= j < |layer.binds| && layer.binds[j].key == key
  }

  /** Every layer's public contract, each over the one inside it. */
  ghost predicate Projection(layers: seq<Layer>, states: seq<LayerState>, views: seq<Outputs>) {
    && |layers| == |states| == |views| > 0
    && views[|views| - 1] == states[|states| - 1].outputs
    && forall i :: 0 <= i < |layers| - 1 ==> Projects(layers[i], views[i + 1], states[i], views[i])
  }

  /** The chain cannot be projected: over the views inside some layer, a binding of it breaks. */
  ghost predicate Breaking(layers: seq<Layer>, states: seq<LayerState>) {
    exists i, j, views :: BreaksAt(layers, states, i, j, views)
  }

  ghost predicate BreaksAt(layers: seq<Layer>, states: seq<LayerState>, i: int, j: int, views: seq<Outputs>) {
    && |layers| == |states| && 0 <= i < |layers| - 1 && 0 <= j < |layers[i].binds|
    && Projection(layers[i + 1..], states[i + 1..], views) && Breaks(layers[i].binds[j], views[0], states[i].scope)
  }

  /** The views of classified layers are their projection, and there is no other. */
  lemma {:induction false} ViewsAreTheProjection(layers: seq<Layer>, states: seq<LayerState>, views: seq<Outputs>)
    requires |layers| == |states| > 0 && Classified(layers)
    ensures Views(layers, states) == Ok(views) <==> Projection(layers, states, views)
    decreases |layers|
  {
    if |layers| > 1 {
      hide Bound, Projects, DistinctKeys;
      if Views(layers, states) == Ok(views) {
        ViewsAreTheProjection(layers[1..], states[1..], views[1..]);
        BoundProjects(layers[0], views[1], states[0], views[0]);
        ProjectionOutwards(layers, states, views);
      }
      if Projection(layers, states, views) {
        ProjectionInwards(layers, states, views);
        ViewsAreTheProjection(layers[1..], states[1..], views[1..]);
        BoundProjects(layers[0], views[1], states[0], views[0]);
        assert views == [views[0]] + views[1..];
      }
    } else {
      assert views == [states[0].outputs] <==> |views| == 1 && views[0] == states[0].outputs;
    }
  }

  lemma {:induction false} ProjectionOutwards(layers: seq<Layer>, states: seq<LayerState>, views: seq<Outputs>)
    requires |layers| == |states| == |views| > 1 && Projection(layers[1..], states[1..], views[1..])
    requires Projects(layers[0], views[1], states[0], views[0])
    ensures Projection(layers, states, views)
  {
    hide Projects;
    forall i | 0 < i < |layers| - 1 ensures Projects(layers[i], views[i + 1], states[i], views[i]) {
      assert Projects(layers[1..][i - 1], views[1..][i], states[1..][i - 1], views[1..][i - 1]);
    }
  }

  lemma {:induction false} ProjectionInwards(layers: seq<Layer>, states: seq<LayerState>, views: seq<Outputs>)
    requires Projection(layers, states, views) && |layers| > 1
    ensures Projection(layers[1..], states[1..], views[1..]) && Projects(layers[0], views[1], states[0], views[0])
  {
    hide Projects;
    assert Projects(layers[0], views[0 + 1], states[0], views[0]);
    forall i | 0 <= i < |layers| - 2
      ensures Projects(layers[1..][i], views[1..][i + 1], states[1..][i], views[1..][i])
    {
      assert Projects(layers[i + 1], views[i + 1 + 1], states[i + 1], views[i + 1]);
    }
  }

  lemma {:induction false} BoundProjects(layer: Layer, inner: Outputs, state: LayerState, view: Outputs)
    requires DistinctKeys(layer.binds)
    ensures var bound := Bound(layer.binds, |layer.binds|, inner, state.scope);
            bound.Ok? && view == bound.value + state.outputs <==> Projects(layer, inner, state, view)
  {
    hide Bound, Renders, Contribution, Breaks, DistinctKeys;
    var n := |layer.binds|;
    var bound := Bound(layer.binds, n, inner, state.scope);
    BoundBreaks(layer.binds, n, inner, state.scope);
    if bound.Ok? {
      forall j | 0 <= j < n ensures Renders(layer.binds[j], inner, state.scope, bound.value) {
        BoundRenders(layer.binds, inner, state.scope, j);
      }
      BoundAt(layer.binds, n, inner, state.scope);
      var all := bound.value + state.outputs;
      forall j | 0 <= j < n && layer.binds[j].key !in state.outputs
        ensures Renders(layer.binds[j], inner, state.scope, all)
        ensures Renders(layer.binds[j], inner, state.scope, view) ==> AgreeAt(view, all, layer.binds[j].key)
      {
        RendersAlike(layer.binds[j], inner, state.scope, bound.value, all);
        RendersOne(layer.binds[j], inner, state.scope, view, all);
      }
      if Projects(layer, inner, state, view) {
        forall key ensures AgreeAt(view, all, key) {
          assert key in all ==> key in state.outputs || BindsKey(layer, key);
        }
        SameEverywhere(view, all);
      }
    }
  }

  lemma {:induction false} BoundRenders(binds: seq<Binding>, inner: Outputs, scope: Scope, j: nat)
    requires DistinctKeys(binds) && j < |binds| && Bound(binds, |binds|, inner, scope).Ok?
    ensures Renders(binds[j], inner, scope, Bound(binds, |binds|, inner, scope).value)
  {
    hide Bound, DistinctKeys;
    BoundAt(binds, |binds|, inner, scope);
  }

  lemma {:induction false} RendersAlike(b: Binding, inner: Outputs, scope: Scope, view: Outputs, view': Outputs)
    requires Renders(b, inner, scope, view) && AgreeAt(view, view', b.key)
    ensures Renders(b, inner, scope, view')
  {
  }

  lemma {:induction false} RendersOne(b: Binding, inner: Outputs, scope: Scope, view: Outputs, view': Outputs)
    requires Renders(b, inner, scope, view')
    ensures Renders(b, inner, scope, view) ==> AgreeAt(view, view', b.key)
  {
  }

  lemma {:induction false} SameEverywhere(a: Outputs, b: Outputs)
    requires forall key :: AgreeAt(a, b, key)
    ensures a == b
  {
    assert forall key :: key in a ==> AgreeAt(a, b, key);
    assert forall key :: key in b ==> AgreeAt(a, b, key);
  }

  lemma {:induction false} BoundBreaks(binds: seq<Binding>, n: nat, inner: Outputs, scope: Scope)
    requires n <= |binds|
    ensures Bound(binds, n, inner, scope).Err? <==> exists j :: 0 <= j < n && Breaks(binds[j], inner, scope)
  {
    if n > 0 {
      BoundBreaks(binds, n - 1, inner, scope);
    }
  }

  /** A chain fails to project exactly when a computation breaks over what the layers inside it show. */
  lemma {:induction false} ViewsFailIffBreaking(layers: seq<Layer>, states: seq<LayerState>)
    requires |layers| == |states| > 0 && Classified(layers)
    ensures Views(layers, states).Err? <==> Breaking(layers, states)
    decreases |layers|
  {
    if |layers| > 1 {
      hide Bound, Projection, Breaks;
      ViewsFailIffBreaking(layers[1..], states[1..]);
      var inner := Views(layers[1..], states[1..]);
      if inner.Ok? {
        ViewsAreTheProjection(layers[1..], states[1..], inner.value);
        BoundBreaks(layers[0].binds, |layers[0].binds|, inner.value[0], states[0].scope);
        if j :| 0 <= j < |layers[0].binds| && Breaks(layers[0].binds[j], inner.value[0], states[0].scope) {
          assert BreaksAt(layers, states, 0, j, inner.value);
        }
      } else {
        BreakingOutwards(layers, states);
      }
      if Breaking(layers, states) {
        var i, j, views :| BreaksAt(layers, states, i, j, views);
        if i == 0 {
          ViewsAreTheProjection(layers[1..], states[1..], views);
        } else {
          assert layers[1..][i..] == layers[i + 1..] && states[1..][i..] == states[i + 1..];
          assert BreaksAt(layers[1..], states[1..], i - 1, j, views);
        }
      }
    }
  }

  lemma {:induction false} BreakingOutwards(layers: seq<Layer>, states: seq<LayerState>)
    requires |layers| == |states| > 1 && Breaking(layers[1..], states[1..])
    ensures Breaking(layers, states)
  {
    hide Projection, Breaks;
    var i, j, views :| BreaksAt(layers[1..], states[1..], i, j, views);
    assert layers[1..][i + 1..] == layers[i + 2..] && states[1..][i + 1..] == states[i + 2..];
    assert BreaksAt(layers, states, i + 1, j, views);
  }

  // ---- projecting layer by layer --------------------------------------------------------------

  /** The views of the layers from i on. */
  ghost function ViewsFrom(layers: seq<Layer>, states: seq<LayerState>, i: nat): Result<seq<Outputs>>
    requires |layers| == |states| && i < |layers|
  {
    Views(layers[i..], states[i..])
  }

  lemma {:induction false} ViewsStep(layers: seq<Layer>, states: seq<LayerState>, i: nat)
    requires |layers| == |states| && i + 1 < |layers|
    ensures layers[i..][1..] == layers[i + 1..] && states[i..][1..] == states[i + 1..]
    ensures ViewsFrom(layers, states, i + 1).Err? ==> ViewsFrom(layers, states, i).Err?
    ensures ViewsFrom(layers, states, i + 1).Ok? ==>
              var inner := ViewsFrom(layers, states, i + 1).value;
              var bound := Bound(layers[i].binds, |layers[i].binds|, inner[0], states[i].scope);
              ViewsFrom(layers, states, i) ==
                if bound.Err? then Err(bound.message) else Ok([bound.value + states[i].outputs] + inner)
  {
  }

  lemma {:induction false} InnermostView(layers: seq<Layer>, states: seq<LayerState>)
    requires |layers| == |states| > 0
    ensures ViewsFrom(layers, states, |layers| - 1) == Ok([states[|layers| - 1].outputs])
  {
    assert layers[|layers| - 1..] == [layers[|layers| - 1]];
  }

  lemma {:induction false} BoundFailsOnwards(binds: seq<Binding>, n: nat, m: nat, inner: Outputs, scope: Scope)
    requires n <= m <= |binds| && Bound(binds, n, inner, scope).Err?
    ensures Bound(binds, m, inner, scope) == Bound(binds, n, inner, scope)
  {
    if n < m {
      BoundFailsOnwards(binds, n, m - 1, inner, scope);
    }
  }

  lemma {:induction false} ViewsFailOutwards(layers: seq<Layer>, states: seq<LayerState>, i: nat)
    requires |layers| == |states| && i < |layers| && ViewsFrom(layers, states, i).Err?
    ensures Views(layers, states).Err?
  {
    if i == 0 {
      assert layers[0..] == layers && states[0..] == states;
    } else {
      ViewsStep(layers, states, i - 1);
      ViewsFailOutwards(layers, states, i - 1);
    }
  }

  /** One layer's projection, binding by binding in classified order. */
  method ProjectLayer(layer: Layer, inner: Outputs, scope: Scope) returns (r: Result<Outputs>)
    ensures r.Ok? == Bound(layer.binds, |layer.binds|, inner, scope).Ok?
    ensures r.Ok? ==> r == Bound(layer.binds, |layer.binds|, inner, scope)
  {
    var view: Outputs := map[];
    for n := 0 to |layer.binds|
      invariant Bound(layer.binds, n, inner, scope) == Ok(view)
    {
      match Contribution(layer.binds[n], inner, scope) {
        case Broken(e) =>
          BoundFailsOnwards(layer.binds, n + 1, |layer.binds|, inner, scope);
          return Err(e);
        case Absent =>
        case Yields(v) =>
          view := view[layer.binds[n].key := v];
      }
    }
    return Ok(view);
  }

  /** ProjectLayerOutputs: the views, filled in from the innermost layer outward. */
  method ProjectLayerOutputs(layers: seq<Layer>, states: seq<LayerState>) returns (r: Result<seq<Outputs>>)
    ensures |layers| == 0 ==> r == Ok([])
    ensures |states| != |layers| && |layers| > 0 ==> r.Err?
    ensures |states| == |layers| > 0 ==> r.Ok? == Views(layers, states).Ok? && (r.Ok? ==> r == Views(layers, states))
    ensures |states| == |layers| > 0 && Classified(layers) ==>
              && (r.Err? <==> Breaking(layers, states))
              && (r.Ok? ==> forall views :: Projection(layers, states, views) <==> views == r.value)
  {
    hide Views, Bound, Classified, Breaking, Projection;
    if |layers| == 0 {
      return Ok([]);
    }
    if |states| != |layers| {
      return Err("layer records do not line up with the chain");
    }
    var n := |layers|;
    var views := new Outputs[n](_ => map[]);
    views[n - 1] := states[n - 1].outputs;
    var i := n - 1;
    InnermostView(layers, states);
    assert views[i..] == [states[i].outputs];
    while i > 0
      invariant 0 <= i < n && ViewsFrom(layers, states, i) == Ok(views[i..])
    {
      ViewsStep(layers, states, i - 1);
      var view := ProjectLayer(layers[i - 1], views[i], states[i - 1].scope);
      if view.Err? {
        ViewsFailOutwards(layers, states, i - 1);
        ProjectedRight(layers, states);
        return Err(view.message);
      }
      ghost var rest := views[i..];
      views[i - 1] := view.value + states[i - 1].outputs;
      assert views[i - 1..] == [views[i - 1]] + rest;
      i := i - 1;
    }
    assert layers[0..] == layers && states[0..] == states;
    ProjectedRight(layers, states);
    return Ok(views[..]);
  }

  lemma {:induction false} ProjectedRight(layers: seq<Layer>, states: seq<LayerState>)
    requires |layers| == |states| > 0
    ensures Classified(layers) ==>
              && (Views(layers, states).Err? <==> Breaking(layers, states))
              && forall views :: Projection(layers, states, views) <==> Views(layers, states) == Ok(views)
  {
    hide Classified;
    if Classified(layers) {
      ViewsFailIffBreaking(layers, states);
      forall views ensures Projection(layers, states, views) <==> Views(layers, states) == Ok(views) {
        ViewsAreTheProjection(layers, states, views);
      }
    }
  }

  // ---- what a public key reads --------------------------------------------------------

  lemma {:induction false} BoundAt(binds: seq<Binding>, n: nat, inner: Outputs, scope: Scope)
    requires n <= |binds| && DistinctKeys(binds) && Bound(binds, n, inner, scope).Ok?
    ensures var view := Bound(binds, n, inner, scope).value;
            && (forall k :: k in view ==> exists i :: 0 <= i < n && binds[i].key == k)
            && (forall i :: 0 <= i < n ==>
                  (binds[i].key in view <==> Contribution(binds[i], inner, scope).Yields?))
            && (forall i :: 0 <= i < n && binds[i].key in view ==>
                  Contribution(binds[i], inner, scope) == Yields(view[binds[i].key]))
            && (forall i :: 0 <= i < n ==> !Contribution(binds[i], inner, scope).Broken?)
  {
    hide Contribution;
    if n > 0 {
      BoundAt(binds, n - 1, inner, scope);
    }
  }

  /** One key of a projected layer, from the binding that names it. */
  ghost function Lookup(layer: Layer, inner: Outputs, scope: Scope, key: string): Computation {
    match Find(layer.binds, key)
    case None => Absent
    case Some(b) => Contribution(b, inner, scope)
  }

  ghost predicate Shows(view: Outputs, key: string, c: Computation) {
    match c
    case Yields(v) => key in view && view[key] == v
    case Absent => key !in view
    case Broken(_) => false
  }

  lemma {:induction false} BoundShows(layer: Layer, inner: Outputs, scope: Scope, key: string)
    requires DistinctKeys(layer.binds) && Bound(layer.binds, |layer.binds|, inner, scope).Ok?
    ensures Shows(Bound(layer.binds, |layer.binds|, inner, scope).value, key, Lookup(layer, inner, scope, key))
  {
    BoundAt(layer.binds, |layer.binds|, inner, scope);
  }

  /** One key of a layer's public contract: its own value, or what its binding contributes. */
  lemma {:induction false} ViewShows(layers: seq<Layer>, states: seq<LayerState>, key: string)
    requires |layers| == |states| > 1 && DistinctKeys(layers[0].binds) && Views(layers, states).Ok?
    ensures Views(layers[1..], states[1..]).Ok?
    ensures var view := Views(layers, states).value[0];
            if key in states[0].outputs then key in view && view[key] == states[0].outputs[key]
            else Shows(view, key, Lookup(layers[0], Views(layers[1..], states[1..]).value[0], states[0].scope, key))
  {
    BoundShows(layers[0], Views(layers[1..], states[1..]).value[0], states[0].scope, key);
  }

  /** A computation sees nothing of the layer inside but the outputs it was classified as reading. */
  ghost predicate ReadsOnlyRefs(b: Binding) {
    b.Computed? ==>
      forall inner: Outputs, inner': Outputs, scope ::
        Agree(inner, inner', b.refs) ==> b.compute(inner, scope) == b.compute(inner', scope)
  }

  ghost predicate Agree(a: Outputs, b: Outputs, keys: seq<string>) {
    forall k :: 0 <= k < |keys| ==> AgreeAt(a, b, keys[k])
  }

  ghost predicate AgreeAt(a: Outputs, b: Outputs, key: string) {
    (key in a <==> key in b) && (key in a ==> a[key] == b[key])
  }

  ghost predicate WellClassified(layers: seq<Layer>) {
    forall i, j :: 0 <= i < |layers| && 0 <= j < |layers[i].binds| ==> ReadsOnlyRefs(layers[i].binds[j])
  }

  /** The innermost outputs that a public key is rendered from. */
  ghost predicate ReadsFrom(layers: seq<Layer>, key: string, source: string) {
    if |layers| <= 1 then key == source
    else
      match Find(layers[0].binds, key)
      case None => false
      case Some(Direct(_, innerKey)) => ReadsFrom(layers[1..], innerKey, source)
      case Some(Computed(_, refs, _)) =>
        exists r :: 0 <= r < |refs| && ReadsFrom(layers[1..], refs[r], source)
  }

  /** Two records of one chain that differ in the innermost outputs only. */
  ghost predicate SameButInnermost(a: seq<LayerState>, b: seq<LayerState>) {
    && |a| == |b| > 0
    && (forall i :: 0 <= i < |a| - 1 ==> a[i] == b[i])
    && a[|a| - 1].scope == b[|a| - 1].scope
  }

  /** A public key is untouched by a write to inner outputs it is not rendered from. */
  lemma {:induction false} UnreadKeysStay(layers: seq<Layer>, before: seq<LayerState>, after: seq<LayerState>,
                                          key: string)
    requires |layers| == |before| && SameButInnermost(before, after)
    requires Classified(layers) && WellClassified(layers)
    requires Views(layers, before).Ok? && Views(layers, after).Ok?
    requires forall s :: ReadsFrom(layers, key, s) ==>
               AgreeAt(before[|before| - 1].outputs, after[|after| - 1].outputs, s)
    ensures AgreeAt(Views(layers, before).value[0], Views(layers, after).value[0], key)
  {
    if |layers| == 1 {
      assert ReadsFrom(layers, key, key);
    } else {
      hide Views, Bound, ReadsFrom, AgreeAt, Lookup, Shows, ReadsOnlyRefs, Find;
      ViewShows(layers, before, key);
      ViewShows(layers, after, key);
      var inner, inner' := Views(layers[1..], before[1..]).value[0], Views(layers[1..], after[1..]).value[0];
      assert before[0] == after[0] && SameButInnermost(before[1..], after[1..]);
      forall k | ReadsThrough(layers[0], key, k) ensures AgreeAt(inner, inner', k) {
        forall s | ReadsFrom(layers[1..], k, s)
          ensures AgreeAt(before[|before| - 1].outputs, after[|after| - 1].outputs, s)
        {
          ReadsFromInside(layers, key, k, s);
        }
        UnreadKeysStay(layers[1..], before[1..], after[1..], k);
      }
      LookupStays(layers[0], inner, inner', before[0].scope, key);
      ShownAlike(Views(layers, before).value[0], Views(layers, after).value[0], key, before[0].outputs,
                 Lookup(layers[0], inner, before[0].scope, key));
    }
  }

  /** The outputs of the layer inside that one key of a layer is rendered from. */
  ghost predicate ReadsThrough(layer: Layer, key: string, inner: string) {
    match Find(layer.binds, key)
    case None => false
    case Some(Direct(_, innerKey)) => inner == innerKey
    case Some(Computed(_, refs, _)) => exists r :: 0 <= r < |refs| && refs[r] == inner
  }

  lemma {:induction false} ReadsFromInside(layers: seq<Layer>, key: string, inner: string, source: string)
    requires |layers| > 1 && ReadsThrough(layers[0], key, inner) && ReadsFrom(layers[1..], inner, source)
    ensures ReadsFrom(layers, key, source)
  {
  }

  lemma {:induction false} LookupStays(layer: Layer, inner: Outputs, inner': Outputs, scope: Scope, key: string)
    requires forall i :: 0 <= i < |layer.binds| ==> ReadsOnlyRefs(layer.binds[i])
    requires forall k :: ReadsThrough(layer, key, k) ==> AgreeAt(inner, inner', k)
    ensures Lookup(layer, inner, scope, key) == Lookup(layer, inner', scope, key)
  {
    match Find(layer.binds, key) {
      case None =>
      case Some(Direct(_, innerKey)) =>
        assert ReadsThrough(layer, key, innerKey);
      case Some(b) =>
        assert forall r :: 0 <= r < |b.refs| ==> ReadsThrough(layer, key, b.refs[r]);
        assert Agree(inner, inner', b.refs);
    }
  }

  lemma {:induction false} ShownAlike(a: Outputs, b: Outputs, key: string, own: Outputs, c: Computation)
    requires if key in own then key in a && key in b && a[key] == own[key] == b[key]
             else Shows(a, key, c) && Shows(b, key, c)
    ensures AgreeAt(a, b, key)
  {
  }

  // ---- routing a write ----------------------------------------------------------------

  /** routeMutableKey: the inner output a write to a public key lands on. */
  ghost function Route(layers: seq<Layer>, key: string): Result<string> {
    if |layers| <= 1 then Ok(key)
    else
      match Find(layers[0].binds, key)
      case None => Err("not bound")
      case Some(Direct(_, innerKey)) => Route(layers[1..], innerKey)
      case Some(Computed(_, _, _)) => Err("read-only")
  }

  method FindBinding(binds: seq<Binding>, key: string) returns (r: Option<Binding>)
    ensures r == Find(binds, key)
  {
    assert binds[0..] == binds;
    for i := 0 to |binds|
      invariant Find(binds[i..], key) == Find(binds, key)
    {
      if binds[i].key == key {
        return Some(binds[i]);
      }
      assert binds[i..][1..] == binds[i + 1..];
    }
    return None;
  }

  method RouteMutableKey(layers: seq<Layer>, key: string) returns (layerIdx: nat, r: Result<string>)
    requires |layers| > 0
    ensures r.Ok? == Route(layers, key).Ok?
    ensures r.Ok? ==> r == Route(layers, key) && layerIdx == |layers| - 1
  {
    var current := key;
    assert layers[0..] == layers;
    for i := 0 to |layers| - 1
      invariant Route(layers[i..], current) == Route(layers, key)
    {
      assert layers[i..][1..] == layers[i + 1..];
      var b := FindBinding(layers[i].binds, current);
      match b {
        case None =>
          return 0, Err("not bound");
        case Some(Computed(_, _, _)) =>
          return 0, Err("read-only");
        case Some(Direct(_, innerKey)) =>
          current := innerKey;
      }
    }
    return |layers| - 1, Ok(current);
  }

  /** Only the innermost layer publishes values of its own; RunLayers records no others. */
  ghost predicate OnlyInnermostPublishes(states: seq<LayerState>) {
    forall i :: 0 <= i < |states| - 1 ==> states[i].outputs == map[]
  }

  /** Reading a routed key back gives whatever its inner output holds. */
  lemma {:induction false} RoutedKeyReads(layers: seq<Layer>, states: seq<LayerState>, key: string)
    requires |layers| == |states| > 0 && Classified(layers) && OnlyInnermostPublishes(states)
    requires Route(layers, key).Ok? && Views(layers, states).Ok?
    ensures var view := Views(layers, states).value[0];
            var held := states[|states| - 1].outputs;
            var target := Route(layers, key).value;
            (key in view <==> target in held) && (key in view ==> view[key] == held[target])
  {
    if |layers| > 1 {
      var inner := Views(layers[1..], states[1..]).value[0];
      RoutedKeyReads(layers[1..], states[1..], Find(layers[0].binds, key).value.innerKey);
      BoundShows(layers[0], inner, states[0].scope, key);
      assert states[0].outputs == map[];
    }
  }

  /** A routed key is rendered from its target and from nothing else. */
  lemma {:induction false} RoutedKeyReadsItsTarget(layers: seq<Layer>, key: string, source: string)
    requires |layers| > 0 && Route(layers, key).Ok?
    ensures ReadsFrom(layers, key, source) <==> source == Route(layers, key).value
  {
    if |layers| > 1 {
      RoutedKeyReadsItsTarget(layers[1..], Find(layers[0].binds, key).value.innerKey, source);
    }
  }

  // ---- writing ------------------------------------------------------------------------

  /** The innermost outputs after the given keys were written in order. */
  ghost function Written(layers: seq<Layer>, keys: seq<string>, updates: Outputs, held: Outputs): Outputs
    requires forall k :: k in keys ==> k in updates && Route(layers, k).Ok?
  {
    if keys == [] then held
    else
      var last := keys[|keys| - 1];
      var sofar := Written(layers, keys[..|keys| - 1], updates, held);
      sofar[Route(layers, last).value := updates[last]]
  }

  /** How many of the keys route before the first that does not. */
  ghost function Routable(layers: seq<Layer>, keys: seq<string>): (n: nat)
    ensures n <= |keys| && forall i :: 0 <= i < n ==> Route(layers, keys[i]).Ok?
    ensures n < |keys| ==> Route(layers, keys[n]).Err?
  {
    if keys == [] || Route(layers, keys[0]).Err? then 0 else 1 + Routable(layers, keys[1..])
  }

  lemma {:induction false} RoutableCovers(layers: seq<Layer>, keys: seq<string>)
    requires Routable(layers, keys) == |keys|
    ensures forall k :: k in keys ==> Route(layers, k).Ok?
  {
  }

  lemma {:induction false} RoutableIs(layers: seq<Layer>, keys: seq<string>, n: nat)
    requires n <= |keys| && forall i :: 0 <= i < n ==> Route(layers, keys[i]).Ok?
    requires n < |keys| ==> Route(layers, keys[n]).Err?
    ensures Routable(layers, keys) == n
  {
  }

  lemma {:induction false} WrittenNext(layers: seq<Layer>, keys: seq<string>, n: nat, updates: Outputs, held: Outputs)
    requires n <= |keys| && forall k :: k in keys[..n] ==> k in updates && Route(layers, k).Ok?
    ensures n == 0 ==> Written(layers, keys[..n], updates, held) == held
    ensures n > 0 ==> keys[n - 1] in keys[..n] && forall k :: k in keys[..n - 1] ==> k in keys[..n]
    ensures n > 0 ==>
              Written(layers, keys[..n], updates, held) ==
              Written(layers, keys[..n - 1], updates, held)[Route(layers, keys[n - 1]).value := updates[keys[n - 1]]]
  {
    if n > 0 {
      assert keys[..n][..n - 1] == keys[..n - 1];
      assert keys[..n][n - 1] == keys[n - 1];
    }
  }

  ghost predicate LastFor(layers: seq<Layer>, keys: seq<string>, i: nat)
    requires i < |keys|
  {
    forall j :: i < j < |keys| ==> Route(layers, keys[j]) != Route(layers, keys[i])
  }

  /** Each inner output ends with the value of the last key that reaches it, or stays as it was. */
  lemma {:induction false} WrittenAt(layers: seq<Layer>, keys: seq<string>, updates: Outputs, held: Outputs)
    requires forall k :: k in keys ==> k in updates && Route(layers, k).Ok?
    ensures forall i :: 0 <= i < |keys| && LastFor(layers, keys, i) ==>
              var target := Route(layers, keys[i]).value;
              target in Written(layers, keys, updates, held) &&
              Written(layers, keys, updates, held)[target] == updates[keys[i]]
    ensures forall t :: (forall i :: 0 <= i < |keys| ==> Route(layers, keys[i]) != Ok(t)) ==>
              AgreeAt(held, Written(layers, keys, updates, held), t)
  {
    hide Written, Route, LastFor;
    forall i | 0 <= i < |keys| && LastFor(layers, keys, i)
      ensures var target := Route(layers, keys[i]).value;
              target in Written(layers, keys, updates, held) &&
              Written(layers, keys, updates, held)[target] == updates[keys[i]]
    {
      LastWrites(layers, keys, updates, held, i);
    }
    forall t | forall i :: 0 <= i < |keys| ==> Route(layers, keys[i]) != Ok(t)
      ensures AgreeAt(held, Written(layers, keys, updates, held), t)
    {
      UnreachedStays(layers, keys, updates, held, t);
    }
  }

  lemma {:induction false} LastWrites(layers: seq<Layer>, keys: seq<string>, updates: Outputs, held: Outputs, i: nat)
    requires forall k :: k in keys ==> k in updates && Route(layers, k).Ok?
    requires i < |keys| && LastFor(layers, keys, i)
    ensures var target := Route(layers, keys[i]).value;
            target in Written(layers, keys, updates, held) &&
            Written(layers, keys, updates, held)[target] == updates[keys[i]]
  {
    hide Route;
    var n := |keys| - 1;
    if i < n {
      LastWrites(layers, keys[..n], updates, held, i);
    }
  }

  lemma {:induction false} UnreachedStays(layers: seq<Layer>, keys: seq<string>, updates: Outputs, held: Outputs,
                                          t: string)
    requires forall k :: k in keys ==> k in updates && Route(layers, k).Ok?
    requires forall i :: 0 <= i < |keys| ==> Route(layers, keys[i]) != Ok(t)
    ensures AgreeAt(held, Written(layers, keys, updates, held), t)
  {
    hide Route;
    if keys != [] {
      UnreachedStays(layers, keys[..|keys| - 1], updates, held, t);
    }
  }

  /** Some written key is the last for every target that was reached. */
  lemma {:induction false} LastExists(layers: seq<Layer>, keys: seq<string>, i: nat) returns (j: nat)
    requires i < |keys|
    ensures i <= j < |keys| && Route(layers, keys[j]) == Route(layers, keys[i]) && LastFor(layers, keys, j)
    decreases |keys| - i
  {
    if LastFor(layers, keys, i) {
      j := i;
    } else {
      var k :| i < k < |keys| && Route(layers, keys[k]) == Route(layers, keys[i]);
      j := LastExists(layers, keys, k);
    }
  }

  lemma {:induction false} WritingAgainChangesNothing(layers: seq<Layer>, keys: seq<string>, updates: Outputs,
                                                      held: Outputs)
    requires forall k :: k in keys ==> k in updates && Route(layers, k).Ok?
    ensures var once := Written(layers, keys, updates, held);
            Written(layers, keys, updates, once) == once
  {
    var once := Written(layers, keys, updates, held);
    var twice := Written(layers, keys, updates, once);
    WrittenAt(layers, keys, updates, held);
    WrittenAt(layers, keys, updates, once);
    forall t ensures AgreeAt(once, twice, t) {
      if i :| 0 <= i < |keys| && Route(layers, keys[i]) == Ok(t) {
        var j := LastExists(layers, keys, i);
        assert Route(layers, keys[j]).value == t;
      }
    }
    assert forall t :: t in twice <==> t in once by {
      forall t ensures t in twice <==> t in once { assert AgreeAt(once, twice, t); }
    }
    assert forall t :: t in twice ==> twice[t] == once[t] by {
      forall t | t in twice ensures twice[t] == once[t] { assert AgreeAt(once, twice, t); }
    }
  }

  ghost function Held(states: seq<LayerState>): Outputs
    requires |states| > 0
  {
    states[|states| - 1].outputs
  }

  ghost function WithHeld(states: seq<LayerState>, held: Outputs): seq<LayerState>
    requires |states| > 0
  {
    states[|states| - 1 := states[|states| - 1].(outputs := held)]
  }

  /** The public contract after a write: a bound key shows only what was projected, any other key is kept. */
  ghost function Merged(binds: seq<Binding>, projected: Outputs, old': Outputs): Outputs {
    (map k | k in old' && Find(binds, k).None? :: old'[k]) + projected
  }

  /** A stored contract that shows what its projection does on every key bound or projected. */
  ghost predicate Current(binds: seq<Binding>, projected: Outputs, public: Outputs) {
    forall key :: Find(binds, key).Some? || key in projected ==> AgreeAt(public, projected, key)
  }

  lemma {:induction false} MergedIsCurrent(binds: seq<Binding>, projected: Outputs, public: Outputs)
    ensures Current(binds, projected, Merged(binds, projected, public))
  {
  }

  class TaskState {
    var layers: seq<LayerState>
    var outputs: Outputs

    constructor (layers: seq<LayerState>, outputs: Outputs)
      ensures this.layers == layers && this.outputs == outputs
    {
      this.layers, this.outputs := layers, outputs;
    }

    /** The records are written key by key, so those before a failing key stay written. */
    method ApplyMutableOutputs(chain: seq<Layer>, updates: Outputs) returns (r: Result<()>)
      requires |chain| > 0
      modifies this
      ensures |old(layers)| != |chain| ==> r.Err? && layers == old(layers)
      ensures |old(layers)| == |chain| ==>
                var keys := Sorted(updates.Keys);
                var n := Routable(chain, keys);
                && layers == WithHeld(old(layers), Written(chain, keys[..n], updates, Held(old(layers))))
                && (r.Ok? <==> n == |keys| && Views(chain, layers).Ok?)
      ensures r.Err? ==> outputs == old(outputs)
      ensures r.Ok? ==> Applied(chain, old(layers), updates, layers)
      ensures r.Ok? ==> outputs == Merged(chain[0].binds, Views(chain, layers).value[0], old(outputs))
      ensures r.Ok? ==> Current(chain[0].binds, Views(chain, layers).value[0], outputs)
      ensures r.Ok? && Classified(chain) ==> Projection(chain, layers, Views(chain, layers).value)
    {
      hide Classified, Projection, Breaking, Views, Route, Find, Written, Routable, Sorted, Merged, Current;
      var keys := Sorted(updates.Keys);
      if |layers| != |chain| {
        return Err("layer records do not line up with the chain");
      }
      ghost var held := Held(layers);
      assert layers == WithHeld(layers, held);
      WrittenNext(chain, keys, 0, updates, held);
      for n := 0 to |keys|
        modifies this`layers
        invariant forall i :: 0 <= i < n ==> Route(chain, keys[i]).Ok?
        invariant forall k :: k in keys[..n] ==> k in updates && Route(chain, k).Ok?
        invariant layers == WithHeld(old(layers), Written(chain, keys[..n], updates, held))
      {
        var layerIdx, target := RouteMutableKey(chain, keys[n]);
        if target.Err? {
          RoutableIs(chain, keys, n);
          return Err(target.message);
        }
        WrittenNext(chain, keys, n + 1, updates, held);
        layers := layers[layerIdx := layers[layerIdx].(
          outputs := layers[layerIdx].outputs[target.value := updates[keys[n]]])];
      }
      RoutableIs(chain, keys, |keys|);
      assert keys[..|keys|] == keys;
      var views := ProjectLayerOutputs(chain, layers);
      if views.Err? {
        return Err(views.message);
      }
      assert Applied(chain, old(layers), updates, layers);
      MergedIsCurrent(chain[0].binds, views.value[0], outputs);
      outputs := KeepUnbound(chain[0].binds, views.value[0], outputs);
      return Ok(());
    }
  }

  /** The merge loop over the old contract, in whatever order its keys come. */
  method KeepUnbound(binds: seq<Binding>, fresh': Outputs, old': Outputs) returns (projected: Outputs)
    ensures projected == Merged(binds, fresh', old')
  {
    projected := fresh';
    var left := old'.Keys;
    while left != {}
      invariant left <= old'.Keys
      invariant forall k :: k in projected <==> k in fresh' || (k in old' && k !in left && Find(binds, k).None?)
      invariant forall k :: k in projected ==> projected[k] == if k in fresh' then fresh'[k] else old'[k]
    {
      var key :| key in left;
      left := left - {key};
      var bound := FindBinding(binds, key);
      if bound.None? && key !in projected {
        projected := projected[key := old'[key]];
      }
    }
  }

  // ---- the write-then-read laws ---------------------------------------------------------

  /** What a successful write of the updates leaves in the records. */
  ghost predicate Applied(chain: seq<Layer>, before: seq<LayerState>, updates: Outputs, after: seq<LayerState>) {
    var keys := Sorted(updates.Keys);
    && |chain| == |before| > 0
    && Routable(chain, keys) == |keys|
    && after == WithHeld(before, Written(chain, keys, updates, Held(before)))
    && Views(chain, after).Ok?
  }

  /** An updated key reads back its value, unless a later key in sorted order shares its inner output. */
  lemma {:induction false} WrittenKeyReadsBack(chain: seq<Layer>, before: seq<LayerState>, updates: Outputs,
                                               after: seq<LayerState>, i: nat)
    requires Classified(chain) && OnlyInnermostPublishes(before) && Applied(chain, before, updates, after)
    requires i < |Sorted(updates.Keys)|
    ensures var keys := Sorted(updates.Keys);
            var public := Views(chain, after).value[0];
            && keys[i] in public
            && (LastFor(chain, keys, i) ==> public[keys[i]] == updates[keys[i]])
            && (forall j ::
                  i < j < |keys| && Route(chain, keys[j]) == Route(chain, keys[i]) && LastFor(chain, keys, j) ==>
                  public[keys[i]] == updates[keys[j]])
  {
    var keys := Sorted(updates.Keys);
    WrittenAt(chain, keys, updates, Held(before));
    RoutedKeyReads(chain, after, keys[i]);
    var j := LastExists(chain, keys, i);
  }

  /**
   * Every other public key that no written inner output feeds keeps its value in the stored
   * contract, as long as that contract was current before the write.
   */
  lemma {:induction false} UnwrittenKeyStays(chain: seq<Layer>, before: seq<LayerState>, updates: Outputs,
                                             after: seq<LayerState>, public: Outputs, key: string)
    requires Classified(chain) && WellClassified(chain) && Applied(chain, before, updates, after)
    requires Views(chain, before).Ok?
    requires Current(chain[0].binds, Views(chain, before).value[0], public)
    requires forall k :: k in updates ==> !ReadsFrom(chain, key, Route(chain, k).value)
    ensures AgreeAt(Views(chain, before).value[0], Views(chain, after).value[0], key)
    ensures AgreeAt(public, Merged(chain[0].binds, Views(chain, after).value[0], public), key)
  {
    hide Views, ReadsFrom, Route, Written, Routable, AgreeAt, Classified, WellClassified, Sorted, Merged, Current;
    ProjectedKeyStays(chain, before, updates, after, key);
    CurrentKeyStays(chain[0].binds, Views(chain, before).value[0], Views(chain, after).value[0], public, key);
  }

  lemma {:induction false} CurrentKeyStays(binds: seq<Binding>, before: Outputs, after: Outputs, public: Outputs,
                                           key: string)
    requires Current(binds, before, public) && AgreeAt(before, after, key)
    ensures AgreeAt(public, Merged(binds, after, public), key)
  {
    hide Find;
    assert Find(binds, key).Some? || key in before ==> AgreeAt(public, before, key);
  }

  lemma {:induction false} ProjectedKeyStays(chain: seq<Layer>, before: seq<LayerState>, updates: Outputs,
                                             after: seq<LayerState>, key: string)
    requires Classified(chain) && WellClassified(chain) && Applied(chain, before, updates, after)
    requires Views(chain, before).Ok?
    requires forall k :: k in updates ==> !ReadsFrom(chain, key, Route(chain, k).value)
    ensures AgreeAt(Views(chain, before).value[0], Views(chain, after).value[0], key)
  {
    hide Views, ReadsFrom, Route, Written, Routable, AgreeAt, Classified, WellClassified, Sorted;
    var keys := Sorted(updates.Keys);
    RoutableCovers(chain, keys);
    forall s | ReadsFrom(chain, key, s) ensures AgreeAt(Held(before), Held(after), s) {
      forall i | 0 <= i < |keys| ensures Route(chain, keys[i]) != Ok(s) {
        assert keys[i] in updates;
      }
      UnreachedStays(chain, keys, updates, Held(before), s);
    }
    UnreadKeysStay(chain, before, after, key);
  }

  /** A public key without a binding has the same value before and after the merge. */
  lemma {:induction false} UnboundKeyIsKept(chain: seq<Layer>, states: seq<LayerState>, public: Outputs, key: string)
    requires |chain| == |states| > 1 && Classified(chain) && OnlyInnermostPublishes(states)
    requires Views(chain, states).Ok?
    requires Find(chain[0].binds, key).None?
    ensures AgreeAt(public, Merged(chain[0].binds, Views(chain, states).value[0], public), key)
  {
    BoundShows(chain[0], Views(chain[1..], states[1..]).value[0], states[0].scope, key);
    assert states[0].outputs == map[];
  }

  lemma {:induction false} MergingAgainChangesNothing(binds: seq<Binding>, projected: Outputs, public: Outputs)
    ensures Merged(binds, projected, Merged(binds, projected, public)) == Merged(binds, projected, public)
  {
  }

  /** Writing the same updates again changes neither the records nor the contract. */
  lemma {:induction false} WriteIsIdempotent(chain: seq<Layer>, before: seq<LayerState>, updates: Outputs,
                                             after: seq<LayerState>, public: Outputs)
    requires Applied(chain, before, updates, after)
    ensures Applied(chain, after, updates, after)
    ensures var projected := Views(chain, after).value[0];
            var merged := Merged(chain[0].binds, projected, public);
            Merged(chain[0].binds, projected, merged) == merged
  {
    hide Views, Written, Routable, Sorted, Merged, Route, Find;
    var keys := Sorted(updates.Keys);
    RoutableCovers(chain, keys);
    MergingAgainChangesNothing(chain[0].binds, Views(chain, after).value[0], public);
    WritingAgainChangesNothing(chain, keys, updates, Held(before));
    assert WithHeld(after, Held(after)) == after;
  }
}
