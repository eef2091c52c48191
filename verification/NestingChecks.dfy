/**
 * The load-time rules over one nesting chain (app/internal/config/nesting_resolve.go) and
 * what an accepted chain guarantees to the writes and lookups made at run time.
 */
module NestingChecks {
  import opened Wrappers
  import opened SortedNames
  import opened NestedOutputs

  const ENDPOINT := "interactive_endpoint"
  const RUN_SCOPE := "run"

  /** A declared output; an entry that is not a table, or whose type is a union, has no plain type. */
  datatype Property = Property(kind: Option<string>, mutable: bool)

  type Properties = map<string, Property>

  datatype InputsSchema = InputsSchema(required: seq<string>, closed: bool, props: set<string>)

  /** One effect document; a schema that cannot be loaded is an error. */
  datatype Definition = Definition(
    layer: Layer,
    sourcePath: string,
    inner: Option<string>,
    scope: string,
    terminal: bool,
    process: bool,
    innerEnv: set<string>,
    innerInputs: set<string>,
    outputs: Result<Properties>,
    inputs: Result<InputsSchema>)

  /** The layers the chain runs as. */
  ghost function Compiled(chain: seq<Definition>): (layers: seq<Layer>)
    ensures |layers| == |chain| && forall i :: 0 <= i < |chain| ==> layers[i] == chain[i].layer
  {
    seq(|chain|, i requires 0 <= i < |chain| => chain[i].layer)
  }

  ghost function Declared(d: Definition): Properties {
    if d.outputs.Ok? then d.outputs.value else map[]
  }

  predicate Mutable(props: Properties, key: string) {
    key in props && props[key].mutable
  }

  function Kind(props: Properties, key: string): Option<string> {
    if key in props then props[key].kind else None
  }

  // ---- one layer against the next -------------------------------------------------------

  ghost predicate BindingAccepted(b: Binding, outer: Properties, inner: Properties) {
    && b.key in outer
    && match b
       case Direct(key, innerKey) =>
         && (outer[key].mutable ==> innerKey in inner && inner[innerKey].mutable)
         && (outer[key].kind.Some? && innerKey in inner && inner[innerKey].kind.Some? ==>
               outer[key].kind == inner[innerKey].kind)
       case Computed(key, _, _) => !outer[key].mutable
  }

  ghost predicate InputsAccepted(bound: set<string>, schema: InputsSchema) {
    && (forall k :: k in schema.required ==> k in bound)
    && (schema.closed ==> bound <= schema.props)
  }

  ghost predicate LayerAccepted(outer: Definition, inner: Definition) {
    && outer.outputs.Ok? && inner.outputs.Ok? && inner.inputs.Ok?
    && (forall j :: 0 <= j < |outer.layer.binds| ==>
          BindingAccepted(outer.layer.binds[j], outer.outputs.value, inner.outputs.value))
    && InputsAccepted(outer.innerInputs, inner.inputs.value)
  }

  method ValidateBoundInputs(bound: set<string>, inputs: Result<InputsSchema>) returns (ok: bool)
    ensures ok <==> inputs.Ok? && InputsAccepted(bound, inputs.value)
  {
    if inputs.Err? {
      return false;
    }
    var schema := inputs.value;
    for k := 0 to |schema.required|
      invariant forall l :: 0 <= l < k ==> schema.required[l] in bound
    {
      if schema.required[k] !in bound {
        return false;
      }
    }
    if !schema.closed {
      return true;
    }
    var keys := Sorted(bound);
    for k := 0 to |keys|
      invariant forall l :: 0 <= l < k ==> keys[l] in schema.props
    {
      if keys[k] !in schema.props {
        assert keys[k] in bound;
        return false;
      }
    }
    assert forall n :: n in bound ==> n in keys;
    return true;
  }

  method ValidateLayer(outer: Definition, inner: Definition) returns (r: Result<seq<Binding>>)
    ensures r.Ok? <==> LayerAccepted(outer, inner)
    ensures r.Ok? ==> r.value == outer.layer.binds
  {
    if outer.outputs.Err? || inner.outputs.Err? {
      return Err("outputs schema");
    }
    var outerProps, innerProps := outer.outputs.value, inner.outputs.value;
    for j := 0 to |outer.layer.binds|
      invariant forall l :: 0 <= l < j ==> BindingAccepted(outer.layer.binds[l], outerProps, innerProps)
    {
      var b := outer.layer.binds[j];
      if b.key !in outerProps {
        return Err("public key missing from the layer's outputs schema");
      }
      var declared, mutable := Kind(outerProps, b.key), Mutable(outerProps, b.key);
      if b.Direct? {
        var innerKind := Kind(innerProps, b.innerKey);
        if declared.Some? && innerKind.Some? && declared != innerKind {
          return Err("type differs from the inner output's");
        }
        if mutable && !Mutable(innerProps, b.innerKey) {
          return Err("mutable key binds an immutable inner output");
        }
      } else if mutable {
        return Err("computed binding declared mutable");
      }
    }
    var ok := ValidateBoundInputs(outer.innerInputs, inner.inputs);
    if !ok {
      return Err("inner inputs");
    }
    return Ok(outer.layer.binds);
  }

  // ---- rules over the whole chain ---------------------------------------------------------

  ghost predicate ScopeAccepted(chain: seq<Definition>)
    requires |chain| > 0
  {
    var last := chain[|chain| - 1].scope;
    forall i :: 0 <= i < |chain| - 1 ==>
      chain[i].scope == "" || chain[i].scope == if last != "" then last else "run"
  }

  method ValidateChainScope(chain: seq<Definition>) returns (ok: bool)
    requires |chain| > 0
    ensures ok <==> ScopeAccepted(chain)
  {
    var innermost := chain[|chain| - 1];
    var scope := if innermost.scope != "" then innermost.scope else RUN_SCOPE;
    for i := 0 to |chain| - 1
      invariant forall j :: 0 <= j < i ==> chain[j].scope == "" || chain[j].scope == scope
    {
      if chain[i].scope != "" && chain[i].scope != scope {
        return false;
      }
    }
    return true;
  }

  /** The two declarations a chain has at most once. */
  datatype Role = Terminal | Process

  predicate Declares(d: Definition, role: Role) {
    match role
    case Terminal => d.terminal
    case Process => d.process
  }

  ghost predicate AtMostOne(chain: seq<Definition>, role: Role) {
    && (role == Terminal ==> forall i, j :: 0 <= i < j < |chain| ==> !(chain[i].terminal && chain[j].terminal))
    && (role == Process ==> forall i, j :: 0 <= i < j < |chain| ==> !(chain[i].process && chain[j].process))
  }

  /** validateChainTerminalCount and validateChainProcessCount. */
  method ValidateCount(chain: seq<Definition>, role: Role) returns (ok: bool)
    ensures ok <==> AtMostOne(chain, role)
  {
    var declaring := [];
    for i := 0 to |chain|
      invariant forall k :: 0 <= k < |declaring| ==> 0 <= declaring[k] < i && Declares(chain[declaring[k]], role)
      invariant forall k, l :: 0 <= k < l < |declaring| ==> declaring[k] < declaring[l]
      invariant forall j :: 0 <= j < i && Declares(chain[j], role) ==> j in declaring
    {
      if Declares(chain[i], role) {
        declaring := declaring + [i];
      }
    }
    if |declaring| > 1 {
      assert declaring[0] < declaring[1];
      return false;
    }
    return true;
  }

  predicate NameStart(c: char) { 'A' <= c <= 'Z' || 'a' <= c <= 'z' || c == '_' }

  /** A portable process environment name. */
  predicate EnvName(name: string) {
    && name != [] && NameStart(name[0])
    && forall k | 1 <= k < |name| :: NameStart(name[k]) || '0' <= name[k] <= '9'
  }

  /** Letters, digits and underscores, not a digit first. */
  ghost predicate Portable(name: string) {
    && name != "" && !('0' <= name[0] <= '9')
    && forall c :: c in name ==> 'A' <= c <= 'Z' || 'a' <= c <= 'z' || c == '_' || '0' <= c <= '9'
  }

  lemma {:induction false} PortableIsEnvName(name: string)
    ensures EnvName(name) <==> Portable(name)
  {
    if EnvName(name) {
      assert forall k :: 0 <= k < |name| ==> NameStart(name[k]) || '0' <= name[k] <= '9';
    }
    if Portable(name) {
      assert forall k :: 0 <= k < |name| ==> name[k] in name;
    }
  }

  /** Valid environment names, each injected by one layer of the chain only. */
  ghost predicate EnvAccepted(chain: seq<Definition>) {
    && (forall i, k :: 0 <= i < |chain| && k in chain[i].innerEnv ==> Portable(k))
    && (forall i, j, k :: 0 <= i < |chain| && 0 <= j < |chain| && k in chain[i].innerEnv && k in chain[j].innerEnv ==>
          i == j)
  }

  /** The owners recorded are exactly the layers before i, one for each key they inject. */
  ghost predicate Owned(chain: seq<Definition>, owner: map<string, nat>, i: nat)
    requires i <= |chain|
  {
    && (forall k :: k in owner ==> owner[k] < i && k in chain[owner[k]].innerEnv && Portable(k))
    && (forall j, k :: 0 <= j < i && k in chain[j].innerEnv ==> k in owner && owner[k] == j)
  }

  lemma {:induction false} TwoOwners(chain: seq<Definition>, owner: map<string, nat>, i: nat, k: string)
    requires i < |chain| && Owned(chain, owner, i) && k in owner && k in chain[i].innerEnv
    ensures !EnvAccepted(chain)
  {
    hide Portable;
    assert k in chain[owner[k]].innerEnv;
  }

  lemma {:induction false} OwnedNext(chain: seq<Definition>, owner: map<string, nat>, owned: map<string, nat>, i: nat)
    requires i < |chain| && Owned(chain, owner, i)
    requires forall k :: k in owned <==> k in owner || k in chain[i].innerEnv
    requires forall k :: k in owned ==> owned[k] == (if k in owner then owner[k] else i) && Portable(k)
    requires forall k :: k in chain[i].innerEnv ==> k !in owner
    ensures Owned(chain, owned, i + 1)
  {
    hide Portable;
  }

  lemma {:induction false} NoneOwned(chain: seq<Definition>)
    ensures Owned(chain, map[], 0)
  {
  }

  lemma {:induction false} AllOwned(chain: seq<Definition>, owner: map<string, nat>)
    requires Owned(chain, owner, |chain|)
    ensures EnvAccepted(chain)
  {
    hide Portable;
    forall i, j, k | 0 <= i < |chain| && 0 <= j < |chain| && k in chain[i].innerEnv && k in chain[j].innerEnv
      ensures i == j
    {
      assert owner[k] == i && owner[k] == j;
    }
  }

  /** One layer's keys in sorted order; none may be taken or badly named. */
  method OwnKeys(chain: seq<Definition>, owner: map<string, nat>, i: nat) returns (r: Option<map<string, nat>>)
    requires i < |chain| && Owned(chain, owner, i)
    ensures r.Some? ==> Owned(chain, r.value, i + 1)
    ensures r.None? ==> !EnvAccepted(chain)
  {
    hide EnvName, Portable, Sorted, Ascending, Before;
    var keys := Sorted(chain[i].innerEnv);
    AscendingHasNoRepeats(keys);
    var owned := owner;
    for n := 0 to |keys|
      invariant forall k :: k in owned <==> k in owner || k in keys[..n]
      invariant forall k :: k in owned ==> owned[k] == (if k in owner then owner[k] else i) && Portable(k)
      invariant forall k :: k in keys[..n] ==> k !in owner
    {
      var k := keys[n];
      assert k in chain[i].innerEnv;
      assert k !in keys[..n] && keys[..n + 1] == keys[..n] + [k];
      PortableIsEnvName(k);
      if !EnvName(k) {
        return None;
      }
      if k in owned {
        TwoOwners(chain, owner, i, k);
        return None;
      }
      owned := owned[k := i];
    }
    assert keys[..|keys|] == keys;
    OwnedNext(chain, owner, owned, i);
    return Some(owned);
  }

  method ValidateChainEnv(chain: seq<Definition>) returns (ok: bool)
    ensures ok <==> EnvAccepted(chain)
  {
    hide Owned, EnvAccepted;
    var owner: map<string, nat> := map[];
    assert Owned(chain, owner, 0) by { NoneOwned(chain); }
    for i := 0 to |chain|
      invariant Owned(chain, owner, i)
    {
      var owned := OwnKeys(chain, owner, i);
      if owned.None? {
        return false;
      }
      owner := owned.value;
    }
    AllOwned(chain, owner);
    return true;
  }

  // ---- which keys of an inner layer surface in the composed contract ------------------------

  /** The key of layer d that a public key follows to along direct bindings. */
  ghost function RouteTo(layers: seq<Layer>, key: string, d: nat): Option<string>
    requires d < |layers|
  {
    if d == 0 then Some(key)
    else
      match RouteTo(layers, key, d - 1)
      case None => None
      case Some(at) =>
        match Find(layers[d - 1].binds, at)
        case Some(Direct(_, innerKey)) => Some(innerKey)
        case _ => None
  }

  lemma {:induction false} RouteNext(layers: seq<Layer>, key: string, d: nat)
    requires 0 < d < |layers|
    ensures RouteTo(layers, key, d).Some? <==>
              RouteTo(layers, key, d - 1).Some? &&
              var b := Find(layers[d - 1].binds, RouteTo(layers, key, d - 1).value);
              b.Some? && b.value.Direct?
    ensures RouteTo(layers, key, d).Some? ==>
              RouteTo(layers, key, d).value ==
              Find(layers[d - 1].binds, RouteTo(layers, key, d - 1).value).value.innerKey
  {
  }

  type Exposure = map<string, string>

  /** Entry j is the last direct binding that gives a surfacing key to its inner key. */
  ghost predicate Surfaces(binds: seq<Binding>, outer: Exposure, j: nat, n: nat)
    requires n <= |binds|
  {
    && j < n && binds[j].Direct? && binds[j].key in outer
    && forall l :: j < l < n && binds[l].Direct? && binds[l].key in outer ==> binds[l].innerKey != binds[j].innerKey
  }

  /** One layer's exposure from the exposure of the layer outside it. */
  ghost predicate ExposedBy(binds: seq<Binding>, outer: Exposure, inner: Exposure, n: nat)
    requires n <= |binds|
  {
    && (forall k :: k in inner ==> exists j: nat :: Surfaces(binds, outer, j, n) && binds[j].innerKey == k)
    && (forall j: nat :: Surfaces(binds, outer, j, n) ==>
          binds[j].innerKey in inner && inner[binds[j].innerKey] == outer[binds[j].key])
  }

  ghost predicate IsExposure(chain: seq<Definition>, exposure: seq<Exposure>)
    requires |chain| > 0
  {
    && |exposure| == |chain|
    && exposure[0] == (map k | k in Declared(chain[0]) :: k)
    && forall i :: 0 <= i < |chain| - 1 ==>
         ExposedBy(chain[i].layer.binds, exposure[i], exposure[i + 1], |chain[i].layer.binds|)
  }

  lemma {:induction false} ExposeNext(binds: seq<Binding>, outer: Exposure, inner: Exposure, n: nat)
    requires n < |binds| && ExposedBy(binds, outer, inner, n)
    ensures ExposedBy(binds, outer,
                      if binds[n].Direct? && binds[n].key in outer
                      then inner[binds[n].innerKey := outer[binds[n].key]] else inner, n + 1)
  {
    var b := binds[n];
    var next := if b.Direct? && b.key in outer then inner[b.innerKey := outer[b.key]] else inner;
    forall k | k in next ensures exists j: nat :: Surfaces(binds, outer, j, n + 1) && binds[j].innerKey == k {
      if b.Direct? && b.key in outer && k == b.innerKey {
        assert Surfaces(binds, outer, n, n + 1);
      } else {
        var j: nat :| Surfaces(binds, outer, j, n) && binds[j].innerKey == k;
        assert Surfaces(binds, outer, j, n + 1);
      }
    }
    forall j: nat | Surfaces(binds, outer, j, n + 1)
      ensures binds[j].innerKey in next && next[binds[j].innerKey] == outer[binds[j].key]
    {
      if j < n {
        assert Surfaces(binds, outer, j, n);
      }
    }
  }

  method ComposedExposure(chain: seq<Definition>) returns (r: Result<seq<Exposure>>)
    requires |chain| > 0
    ensures r.Ok? <==> chain[0].outputs.Ok?
    ensures r.Ok? ==> IsExposure(chain, r.value)
  {
    hide ExposedBy;
    if chain[0].outputs.Err? {
      return Err("outputs schema");
    }
    var exposure: seq<Exposure> := [map k | k in chain[0].outputs.value :: k];
    for i := 0 to |chain| - 1
      invariant |exposure| == i + 1
      invariant exposure[0] == map k | k in Declared(chain[0]) :: k
      invariant forall j :: 0 <= j < i ==>
                  ExposedBy(chain[j].layer.binds, exposure[j], exposure[j + 1], |chain[j].layer.binds|)
    {
      var binds := chain[i].layer.binds;
      var inner: Exposure := map[];
      NothingExposed(binds, exposure[i]);
      for n := 0 to |binds|
        invariant ExposedBy(binds, exposure[i], inner, n)
      {
        ExposeNext(binds, exposure[i], inner, n);
        if binds[n].Direct? && binds[n].key in exposure[i] {
          inner := inner[binds[n].innerKey := exposure[i][binds[n].key]];
        }
      }
      exposure := exposure + [inner];
    }
    return Ok(exposure);
  }

  lemma {:induction false} NothingExposed(binds: seq<Binding>, outer: Exposure)
    ensures ExposedBy(binds, outer, map[], 0)
  {
  }

  /** Some binding is the last to surface under the inner key of any that does. */
  lemma {:induction false} SurfacingExists(binds: seq<Binding>, outer: Exposure, j: nat) returns (last: nat)
    requires j < |binds| && binds[j].Direct? && binds[j].key in outer
    ensures Surfaces(binds, outer, last, |binds|) && binds[last].innerKey == binds[j].innerKey
    decreases |binds| - j
  {
    if l :| j < l < |binds| && binds[l].Direct? && binds[l].key in outer && binds[l].innerKey == binds[j].innerKey {
      last := SurfacingExists(binds, outer, l);
    } else {
      last := j;
    }
  }

  lemma {:induction false} ExposedKeyComes(binds: seq<Binding>, outer: Exposure, inner: Exposure, k: string)
    returns (at: string)
    requires DistinctKeys(binds) && ExposedBy(binds, outer, inner, |binds|) && k in inner
    ensures at in outer && Find(binds, at) == Some(Direct(at, k)) && inner[k] == outer[at]
  {
    var j: nat :| Surfaces(binds, outer, j, |binds|) && binds[j].innerKey == k;
    at := binds[j].key;
    var i :| 0 <= i < |binds| && binds[i].key == at && Find(binds, at) == Some(binds[i]);
    assert i == j;
  }

  lemma {:induction false} ExposedKeyArrives(binds: seq<Binding>, outer: Exposure, inner: Exposure, at: string)
    requires ExposedBy(binds, outer, inner, |binds|)
    ensures at in outer && Find(binds, at).Some? && Find(binds, at).value.Direct? ==>
              Find(binds, at).value.innerKey in inner
  {
    if at in outer && Find(binds, at).Some? && Find(binds, at).value.Direct? {
      var j :| 0 <= j < |binds| && binds[j].key == at && Find(binds, at) == Some(binds[j]);
      var last := SurfacingExists(binds, outer, j);
    }
  }

  /** Every entry is a route from a declared public key, and every such route has an entry. */
  lemma {:induction false} ExposureIsRouting(chain: seq<Definition>, exposure: seq<Exposure>, d: nat)
    requires d < |chain| && IsExposure(chain, exposure) && Classified(Compiled(chain))
    ensures forall k :: k in exposure[d] ==>
              exposure[d][k] in Declared(chain[0]) && RouteTo(Compiled(chain), exposure[d][k], d) == Some(k)
    ensures forall p :: p in Declared(chain[0]) && RouteTo(Compiled(chain), p, d).Some? ==>
              RouteTo(Compiled(chain), p, d).value in exposure[d]
  {
    var layers := Compiled(chain);
    if d > 0 {
      hide ExposedBy, RouteTo, Find;
      var binds, outer, inner := chain[d - 1].layer.binds, exposure[d - 1], exposure[d];
      ExposureIsRouting(chain, exposure, d - 1);
      assert ExposedBy(binds, outer, inner, |binds|) && binds == layers[d - 1].binds;
      forall k | k in inner ensures inner[k] in Declared(chain[0]) && RouteTo(layers, inner[k], d) == Some(k) {
        var at := ExposedKeyComes(binds, outer, inner, k);
        RouteNext(layers, inner[k], d);
      }
      forall p | p in Declared(chain[0]) && RouteTo(layers, p, d).Some? ensures RouteTo(layers, p, d).value in inner {
        RouteNext(layers, p, d);
        ExposedKeyArrives(binds, outer, inner, RouteTo(layers, p, d - 1).value);
      }
    } else {
      forall k ensures RouteTo(layers, k, 0) == Some(k) {
      }
    }
  }

  // ---- the terminal's endpoint ----------------------------------------------------------------

  /** The first layer that declares a terminal. */
  ghost predicate FirstTerminal(chain: seq<Definition>, d: nat) {
    d < |chain| && chain[d].terminal && forall i :: 0 <= i < d ==> !chain[i].terminal
  }

  ghost predicate OwnEndpoint(b: Binding) {
    b.key == ENDPOINT && b.Computed? && b.refs == []
  }

  ghost predicate EndpointAccepted(chain: seq<Definition>, exposure: seq<Exposure>)
    requires |exposure| == |chain|
  {
    forall d: nat :: FirstTerminal(chain, d) ==>
      if d == 0 then |chain| > 1 && exists j :: 0 <= j < |chain[0].layer.binds| && OwnEndpoint(chain[0].layer.binds[j])
      else ENDPOINT in exposure[d] && exposure[d][ENDPOINT] == ENDPOINT
  }

  method ValidateChainTerminalEndpoint(chain: seq<Definition>, bindings: seq<seq<Binding>>, exposure: seq<Exposure>)
    returns (ok: bool)
    requires |chain| == |bindings| == |exposure| > 0
    requires bindings[0] == if |chain| > 1 then chain[0].layer.binds else []
    ensures ok <==> EndpointAccepted(chain, exposure)
  {
    var declaring := -1;
    for i := 0 to |chain|
      invariant declaring == -1
      invariant forall j :: 0 <= j < i ==> !chain[j].terminal
    {
      if chain[i].terminal {
        declaring := i;
        break;
      }
    }
    if declaring < 0 {
      return true;
    }
    assert FirstTerminal(chain, declaring);
    if declaring == 0 {
      for j := 0 to |bindings[0]|
        invariant forall l :: 0 <= l < j ==> !OwnEndpoint(bindings[0][l])
      {
        if bindings[0][j].key == ENDPOINT && !bindings[0][j].Direct? && |bindings[0][j].refs| == 0 {
          assert OwnEndpoint(bindings[0][j]);
          return true;
        }
      }
      return false;
    }
    return ENDPOINT in exposure[declaring] && exposure[declaring][ENDPOINT] == ENDPOINT;
  }

  // ---- the whole suite --------------------------------------------------------------------------

  /** What validateNesting accepts. */
  ghost predicate Accepted(chain: seq<Definition>)
    requires |chain| > 0
  {
    && ScopeAccepted(chain)
    && AtMostOne(chain, Terminal) && AtMostOne(chain, Process)
    && EnvAccepted(chain)
    && (forall i :: 0 <= i < |chain| - 1 ==> LayerAccepted(chain[i], chain[i + 1]))
    && chain[0].outputs.Ok?
    && forall exposure :: IsExposure(chain, exposure) ==> EndpointAccepted(chain, exposure)
  }

  method ValidateNesting(chain: seq<Definition>) returns (ok: bool)
    requires |chain| > 0
    ensures ok <==> Accepted(chain)
  {
    hide EndpointAccepted, IsExposure, LayerAccepted, EnvAccepted, ScopeAccepted;
    var scope := ValidateChainScope(chain);
    if !scope { return false; }
    var terminal := ValidateCount(chain, Terminal);
    if !terminal { return false; }
    var process := ValidateCount(chain, Process);
    if !process { return false; }
    var env := ValidateChainEnv(chain);
    if !env { return false; }
    var bindings: seq<seq<Binding>> := [];
    for i := 0 to |chain| - 1
      invariant |bindings| == i && forall j :: 0 <= j < i ==> bindings[j] == chain[j].layer.binds
      invariant forall j :: 0 <= j < i ==> LayerAccepted(chain[j], chain[j + 1])
    {
      var b := ValidateLayer(chain[i], chain[i + 1]);
      if b.Err? { return false; }
      bindings := bindings + [b.value];
    }
    bindings := bindings + [[]];
    var exposure := ComposedExposure(chain);
    if exposure.Err? { return false; }
    ExposureLength(chain, exposure.value);
    ok := ValidateChainTerminalEndpoint(chain, bindings, exposure.value);
    forall other | IsExposure(chain, other) ensures other == exposure.value {
      ExposureIsUnique(chain, exposure.value, other);
    }
  }

  lemma {:induction false} ExposureLength(chain: seq<Definition>, exposure: seq<Exposure>)
    requires |chain| > 0 && IsExposure(chain, exposure)
    ensures |exposure| == |chain|
  {
  }

  lemma {:induction false} ExposedByIsUnique(binds: seq<Binding>, outer: Exposure, a: Exposure, b: Exposure)
    requires ExposedBy(binds, outer, a, |binds|) && ExposedBy(binds, outer, b, |binds|)
    ensures a == b
  {
    forall k ensures k in a <==> k in b {
      if k in a {
        var j: nat :| Surfaces(binds, outer, j, |binds|) && binds[j].innerKey == k;
      }
      if k in b {
        var j: nat :| Surfaces(binds, outer, j, |binds|) && binds[j].innerKey == k;
      }
    }
    forall k | k in a ensures a[k] == b[k] {
      var j: nat :| Surfaces(binds, outer, j, |binds|) && binds[j].innerKey == k;
    }
  }

  lemma {:induction false} ExposureIsUnique(chain: seq<Definition>, a: seq<Exposure>, b: seq<Exposure>)
    requires |chain| > 0 && IsExposure(chain, a) && IsExposure(chain, b)
    ensures a == b
  {
    hide ExposedBy;
    for i := 0 to |chain| - 1
      invariant a[..i + 1] == b[..i + 1]
    {
      assert a[i] == a[..i + 1][i] == b[i];
      ExposedByIsUnique(chain[i].layer.binds, a[i], a[i + 1], b[i + 1]);
    }
  }

  // ---- what acceptance guarantees at run time -----------------------------------------------------

  /** Every layer on the key's way binds it. */
  ghost predicate BoundOnItsWay(layers: seq<Layer>, key: string) {
    forall d :: 0 <= d < |layers| - 1 && RouteTo(layers, key, d).Some? ==>
      Find(layers[d].binds, RouteTo(layers, key, d).value).Some?
  }

  /** The key's way runs into a computed binding. */
  ghost predicate MeetsComputed(layers: seq<Layer>, key: string) {
    exists d :: 0 <= d < |layers| - 1 && RouteTo(layers, key, d).Some? &&
      var b := Find(layers[d].binds, RouteTo(layers, key, d).value);
      b.Some? && b.value.Computed?
  }

  lemma {:induction false} RouteToShift(layers: seq<Layer>, key: string, d: nat)
    requires d + 1 < |layers| && Find(layers[0].binds, key).Some? && Find(layers[0].binds, key).value.Direct?
    ensures RouteTo(layers, key, d + 1) == RouteTo(layers[1..], Find(layers[0].binds, key).value.innerKey, d)
  {
    if d > 0 {
      RouteToShift(layers, key, d - 1);
    }
  }

  lemma {:induction false} NoRouteToShift(layers: seq<Layer>, key: string, d: nat)
    requires d + 1 < |layers|
    requires Find(layers[0].binds, key).None? || Find(layers[0].binds, key).value.Computed?
    ensures RouteTo(layers, key, d + 1).None?
  {
    if d > 0 {
      NoRouteToShift(layers, key, d - 1);
    }
  }

  /** The run-time walk arrives exactly where following the bindings layer by layer does. */
  lemma {:induction false} RouteIsRouteTo(layers: seq<Layer>, key: string)
    requires |layers| > 0
    ensures match RouteTo(layers, key, |layers| - 1)
            case Some(target) => Route(layers, key) == Ok(target)
            case None => Route(layers, key).Err?
  {
    if |layers| > 1 {
      match Find(layers[0].binds, key) {
        case Some(Direct(_, innerKey)) =>
          RouteToShift(layers, key, |layers| - 2);
          RouteIsRouteTo(layers[1..], innerKey);
        case _ =>
          NoRouteToShift(layers, key, |layers| - 2);
      }
    }
  }

  /** A way that is bound throughout and meets no computed binding goes all the way in. */
  lemma {:induction false} BoundWaysArrive(layers: seq<Layer>, key: string, d: nat)
    requires d < |layers| && BoundOnItsWay(layers, key) && !MeetsComputed(layers, key)
    ensures RouteTo(layers, key, d).Some?
  {
    if d > 0 {
      hide Find;
      BoundWaysArrive(layers, key, d - 1);
      assert 0 <= d - 1 < |layers| - 1;
    }
  }

  /** Mutability is passed inward along the route. */
  lemma {:induction false} MutableOnItsWay(chain: seq<Definition>, key: string, d: nat)
    requires d < |chain| && Accepted(chain) && Mutable(Declared(chain[0]), key)
    requires RouteTo(Compiled(chain), key, d).Some?
    ensures Mutable(Declared(chain[d]), RouteTo(Compiled(chain), key, d).value)
  {
    if d > 0 {
      MutableOnItsWay(chain, key, d - 1);
      assert LayerAccepted(chain[d - 1], chain[d]);
    }
  }

  lemma {:induction false} MutableKeyIsNotComputed(chain: seq<Definition>, key: string, d: nat)
    requires d + 1 < |chain| && Accepted(chain) && Mutable(Declared(chain[0]), key)
    requires RouteTo(Compiled(chain), key, d).Some?
    ensures var b := Find(chain[d].layer.binds, RouteTo(Compiled(chain), key, d).value);
            b.Some? ==> b.value.Direct?
  {
    MutableOnItsWay(chain, key, d);
    assert LayerAccepted(chain[d], chain[d + 1]);
  }

  /**
   * Loading guarantees writing: a mutable public key never meets a computed binding, so a write
   * to it is routed unless some layer on its way does not bind it, and it lands on an inner
   * output that is itself declared mutable.
   */
  lemma {:induction false} MutableKeysAreWritable(chain: seq<Definition>, key: string)
    requires |chain| > 0 && Accepted(chain) && Mutable(Declared(chain[0]), key)
    ensures !MeetsComputed(Compiled(chain), key)
    ensures Route(Compiled(chain), key).Ok? <==> BoundOnItsWay(Compiled(chain), key)
    ensures Route(Compiled(chain), key).Ok? ==>
              Mutable(Declared(chain[|chain| - 1]), Route(Compiled(chain), key).value)
  {
    var layers := Compiled(chain);
    hide Accepted, Find, Route, RouteTo, Declared, Mutable;
    forall d | 0 <= d < |layers| - 1 && RouteTo(layers, key, d).Some? {
      MutableKeyIsNotComputed(chain, key, d);
    }
    RouteIsRouteTo(layers, key);
    if BoundOnItsWay(layers, key) {
      BoundWaysArrive(layers, key, |layers| - 1);
    }
    if Route(layers, key).Ok? {
      MutableOnItsWay(chain, key, |layers| - 1);
      forall d | 0 <= d < |layers| - 1 && RouteTo(layers, key, d).Some?
        ensures Find(layers[d].binds, RouteTo(layers, key, d).value).Some?
      {
        RoutesHavePrefixes(layers, key, d + 1, |layers| - 1);
        RouteStep(layers, key, d);
      }
    }
  }

  lemma {:induction false} RouteStep(layers: seq<Layer>, key: string, d: nat)
    requires d + 1 < |layers| && RouteTo(layers, key, d + 1).Some?
    ensures RouteTo(layers, key, d).Some? && Find(layers[d].binds, RouteTo(layers, key, d).value).Some?
  {
  }

  lemma {:induction false} RoutesHavePrefixes(layers: seq<Layer>, key: string, d: nat, e: nat)
    requires d <= e < |layers| && RouteTo(layers, key, e).Some?
    ensures RouteTo(layers, key, d).Some?
  {
    if d < e {
      RoutesHavePrefixes(layers, key, d, e - 1);
    }
  }

  /** Every layer on the first d steps of the key's way declares a plain type for it. */
  ghost predicate TypedOnItsWay(chain: seq<Definition>, key: string, d: nat)
    requires d < |chain|
  {
    forall e :: 0 <= e <= d && RouteTo(Compiled(chain), key, e).Some? ==>
      Kind(Declared(chain[e]), RouteTo(Compiled(chain), key, e).value).Some?
  }

  /** Declared types agree along a route when every layer on it declares one. */
  lemma {:induction false} TypesAgreeAlongRoutes(chain: seq<Definition>, key: string, d: nat)
    requires d < |chain| && Accepted(chain) && RouteTo(Compiled(chain), key, d).Some?
    ensures TypedOnItsWay(chain, key, d) ==>
              Kind(Declared(chain[d]), RouteTo(Compiled(chain), key, d).value) == Kind(Declared(chain[0]), key)
  {
    assert RouteTo(Compiled(chain), key, 0) == Some(key);
    if d > 0 && TypedOnItsWay(chain, key, d) {
      TypesAgreeAlongRoutes(chain, key, d - 1);
      assert LayerAccepted(chain[d - 1], chain[d]);
    }
  }

  /** An accepted chain's mutable key reads back what is written to it, on records of a setup. */
  lemma {:induction false} MutableWritesReadBack(chain: seq<Definition>, key: string, value: Value,
                                                 before: seq<LayerState>, after: seq<LayerState>)
    requires |chain| == |before| > 0 && Accepted(chain) && Classified(Compiled(chain))
    requires Mutable(Declared(chain[0]), key) && BoundOnItsWay(Compiled(chain), key)
    requires OnlyInnermostPublishes(before)
    ensures Route(Compiled(chain), key).Ok?
    ensures var target := Route(Compiled(chain), key).value;
            && Mutable(Declared(chain[|chain| - 1]), target)
            && (after == WithHeld(before, Held(before)[target := value]) && Views(Compiled(chain), after).Ok? ==>
                  key in Views(Compiled(chain), after).value[0] && Views(Compiled(chain), after).value[0][key] == value)
  {
    hide Accepted, Route, Views, BoundOnItsWay, MeetsComputed;
    MutableKeysAreWritable(chain, key);
    if && after == WithHeld(before, Held(before)[Route(Compiled(chain), key).value := value])
       && Views(Compiled(chain), after).Ok? {
      RoutedKeyReads(Compiled(chain), after, key);
    }
  }

  /** The innermost layer's exposure and the run-time routing agree. */
  lemma {:induction false} ExposureIsWhatRoutes(chain: seq<Definition>, exposure: seq<Exposure>)
    requires |chain| > 0 && IsExposure(chain, exposure) && Classified(Compiled(chain))
    ensures forall k :: k in exposure[|chain| - 1] ==> Route(Compiled(chain), exposure[|chain| - 1][k]) == Ok(k)
    ensures forall p :: p in Declared(chain[0]) && Route(Compiled(chain), p).Ok? ==>
              Route(Compiled(chain), p).value in exposure[|chain| - 1]
  {
    ExposureIsRouting(chain, exposure, |chain| - 1);
    forall p { RouteIsRouteTo(Compiled(chain), p); }
  }

  /** A routed key shows what the layer at the end of its route shows. */
  lemma {:induction false} RoutedKeyShows(layers: seq<Layer>, states: seq<LayerState>, key: string, d: nat)
    requires |layers| == |states| > d && Classified(layers) && OnlyInnermostPublishes(states)
    requires RouteTo(layers, key, d).Some? && Views(layers, states).Ok?
    ensures var views, at := Views(layers, states).value, RouteTo(layers, key, d).value;
            (key in views[0] <==> at in views[d]) && (key in views[0] ==> views[0][key] == views[d][at])
  {
    if d > 0 {
      RoutesHavePrefixes(layers, key, 1, d);
      var innerKey := Find(layers[0].binds, key).value.innerKey;
      RouteToShift(layers, key, d - 1);
      RoutedKeyShows(layers[1..], states[1..], innerKey, d - 1);
      ViewShows(layers, states, key);
      ViewsStep(layers, states, 0);
      assert layers[0..] == layers && states[0..] == states;
    }
  }

  lemma {:induction false} TheTerminalIsFirst(chain: seq<Definition>, d: nat)
    requires d < |chain| && AtMostOne(chain, Terminal) && chain[d].terminal
    ensures FirstTerminal(chain, d)
  {
    assert Declares(chain[d], Terminal);
    assert forall i :: 0 <= i < d ==> Declares(chain[i], Terminal) == chain[i].terminal;
  }

  /** Attach, capture and send reach the terminal's own layer through the composed contract. */
  lemma {:induction false} TerminalIsReachedThroughTheContract(chain: seq<Definition>, exposure: seq<Exposure>,
                                                               states: seq<LayerState>, d: nat)
    requires 0 < d < |chain| == |states| && Accepted(chain) && IsExposure(chain, exposure)
    requires chain[d].terminal && Classified(Compiled(chain)) && OnlyInnermostPublishes(states)
    requires Views(Compiled(chain), states).Ok?
    ensures var views := Views(Compiled(chain), states).value;
            (ENDPOINT in views[0] <==> ENDPOINT in views[d]) &&
            (ENDPOINT in views[0] ==> views[0][ENDPOINT] == views[d][ENDPOINT])
  {
    hide IsExposure, RouteTo, Views, LayerAccepted, EnvAccepted, ScopeAccepted;
    TheTerminalIsFirst(chain, d);
    ExposureLength(chain, exposure);
    assert EndpointAccepted(chain, exposure);
    ExposureIsRouting(chain, exposure, d);
    RoutedKeyShows(Compiled(chain), states, ENDPOINT, d);
  }

  // ---- walking inward -------------------------------------------------------------------------------

  /** The chain follows `inner` references through the loaded definitions, never returning to a source file. */
  ghost predicate WalksInward(defs: map<string, Definition>, def: Definition, chain: seq<Definition>) {
    var whole := [def] + chain;
    && (forall i :: 0 <= i < |chain| ==>
          whole[i].inner.Some? && whole[i].inner.value in defs && whole[i + 1] == defs[whole[i].inner.value])
    && (forall i, j :: 0 <= i < j < |whole| ==> whole[i].sourcePath != whole[j].sourcePath)
  }

  /** nestingChain; a layer is known by its source file, so a repeat of one is what ends the walk. */
  method NestingChain(defs: map<string, Definition>, def: Definition) returns (chain: seq<Definition>, ok: bool)
    ensures WalksInward(defs, def, chain)
    ensures var last := ([def] + chain)[|chain|];
            ok <==> last.inner.None?
    ensures var whole := [def] + chain;
            var last := whole[|chain|];
            !ok ==> last.inner.value !in defs ||
                    exists i :: 0 <= i <= |chain| && whole[i].sourcePath == defs[last.inner.value].sourcePath
  {
    chain := [];
    var seen := {def.sourcePath};
    var cur := def;
    assert ([def] + chain)[0] == def;
    ghost var paths := (set a | a in defs :: defs[a].sourcePath) + {def.sourcePath};
    while cur.inner.Some?
      invariant WalksInward(defs, def, chain) && cur == ([def] + chain)[|chain|]
      invariant forall p :: p in seen <==> exists i :: 0 <= i <= |chain| && ([def] + chain)[i].sourcePath == p
      invariant seen <= paths
      decreases paths - seen
    {
      if cur.inner.value !in defs {
        return chain, false;
      }
      var next := defs[cur.inner.value];
      if next.sourcePath in seen {
        return chain, false;
      }
      assert next.sourcePath in paths;
      assert [def] + (chain + [next]) == ([def] + chain) + [next];
      assert forall i :: 0 <= i <= |chain| ==> ([def] + (chain + [next]))[i] == ([def] + chain)[i];
      seen := seen + {next.sourcePath};
      chain := chain + [next];
      cur := next;
    }
    return chain, true;
  }
}
