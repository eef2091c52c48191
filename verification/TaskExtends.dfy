/**
 * Composing a task document with the chain it extends (app/internal/config/extends_resolve.go)
 * and the rules that are checked separately from the merge (app/internal/lang/extends.go).
 * Chains run root first. Both sides skip a field, a schema or a properties entry that is not a
 * table, except where the merge copies it.
 */
module TaskExtends {
  import opened Wrappers
  import opened SortedNames

  /** A decoded document value; only tables are looked into. */
  datatype Json = Atom(text: string) | Table(fields: Object)

  type Object = map<string, Json>

  const TYPE := "type"
  const PROPERTIES := "properties"
  const DEFAULT := "default"

  // ---- one schema -------------------------------------------------------------------------

  /** A layer's schema; None when the layer declares none. */
  type Schema = Option<Object>

  function TypeOf(schema: Schema): Option<Json> {
    if schema.Some? && TYPE in schema.value then Some(schema.value[TYPE]) else None
  }

  function Props(schema: Schema): Object {
    if schema.Some? && PROPERTIES in schema.value && schema.value[PROPERTIES].Table?
    then schema.value[PROPERTIES].fields else map[]
  }

  /** A property the rules look at: one declared as a table. */
  ghost function Prop(schema: Schema, key: string): Option<Object> {
    if key in Props(schema) && Props(schema)[key].Table? then Some(Props(schema)[key].fields) else None
  }

  function WithoutDefault(prop: Object): Object {
    prop - {DEFAULT}
  }

  ghost predicate TableValued(schemas: seq<Schema>) {
    forall i, key :: 0 <= i < |schemas| && key in Props(schemas[i]) ==> Props(schemas[i])[key].Table?
  }

  // ---- the rules ----------------------------------------------------------------------------

  ghost predicate TypesAgree(schemas: seq<Schema>) {
    forall i, j :: 0 <= i < |schemas| && 0 <= j < |schemas| && TypeOf(schemas[i]).Some? && TypeOf(schemas[j]).Some? ==>
      TypeOf(schemas[i]) == TypeOf(schemas[j])
  }

  ghost predicate Declares(schemas: seq<Schema>, n: nat, key: string) {
    exists l :: 0 <= l < n && l < |schemas| && Prop(schemas[l], key).Some?
  }

  ghost predicate DeclaresDefault(schemas: seq<Schema>, n: nat, key: string) {
    exists l :: 0 <= l < n && l < |schemas| && Prop(schemas[l], key).Some? && DEFAULT in Prop(schemas[l], key).value
  }

  /** Among the first n layers, all that declare a key fix the same constraints, and one at most a default. */
  ghost predicate KeyAgrees(schemas: seq<Schema>, n: nat, key: string) {
    forall a, b :: 0 <= a < b < n && b < |schemas| && Prop(schemas[a], key).Some? && Prop(schemas[b], key).Some? ==>
      && WithoutDefault(Prop(schemas[a], key).value) == WithoutDefault(Prop(schemas[b], key).value)
      && !(DEFAULT in Prop(schemas[a], key).value && DEFAULT in Prop(schemas[b], key).value)
  }

  ghost predicate RulesHold(schemas: seq<Schema>) {
    TypesAgree(schemas) && forall key :: KeyAgrees(schemas, |schemas|, key)
  }

  /** What the checker remembers of one key after the first n layers. */
  ghost predicate Remembered(schemas: seq<Schema>, n: nat, key: string, known: map<string, Object>,
                             hasDefault: map<string, bool>)
    requires n <= |schemas|
  {
    && (key in known <==> Declares(schemas, n, key))
    && (key in hasDefault <==> key in known)
    && (key in known ==>
          && (hasDefault[key] <==> DeclaresDefault(schemas, n, key))
          && forall l :: 0 <= l < n && Prop(schemas[l], key).Some? ==>
               known[key] == WithoutDefault(Prop(schemas[l], key).value))
    && KeyAgrees(schemas, n, key)
  }

  lemma {:induction false} RememberedSkip(schemas: seq<Schema>, n: nat, key: string, known: map<string, Object>,
                                          hasDefault: map<string, bool>)
    requires n < |schemas| && Remembered(schemas, n, key, known, hasDefault) && Prop(schemas[n], key).None?
    ensures Remembered(schemas, n + 1, key, known, hasDefault)
  {
    hide Prop, WithoutDefault;
  }

  lemma {:induction false} RememberedFirst(schemas: seq<Schema>, n: nat, key: string, known: map<string, Object>,
                                           hasDefault: map<string, bool>)
    requires n < |schemas| && Remembered(schemas, n, key, known, hasDefault) && Prop(schemas[n], key).Some?
    requires key !in known
    ensures var prop := Prop(schemas[n], key).value;
            Remembered(schemas, n + 1, key, known[key := WithoutDefault(prop)], hasDefault[key := DEFAULT in prop])
  {
    hide Prop, WithoutDefault;
  }

  lemma {:induction false} RememberedAgain(schemas: seq<Schema>, n: nat, key: string, known: map<string, Object>,
                                           hasDefault: map<string, bool>)
    requires n < |schemas| && Remembered(schemas, n, key, known, hasDefault) && Prop(schemas[n], key).Some?
    requires key in known
    ensures var prop := Prop(schemas[n], key).value;
            if WithoutDefault(prop) != known[key] || (DEFAULT in prop && hasDefault[key]) then !RulesHold(schemas)
            else Remembered(schemas, n + 1, key, known, if DEFAULT in prop then hasDefault[key := true] else hasDefault)
  {
    hide Prop, WithoutDefault;
    var prop := Prop(schemas[n], key).value;
    var l :| 0 <= l < n && Prop(schemas[l], key).Some?;
    if WithoutDefault(prop) != known[key] {
      assert !KeyAgrees(schemas, |schemas|, key);
    } else if DEFAULT in prop && hasDefault[key] {
      var d :| 0 <= d < n && Prop(schemas[d], key).Some? && DEFAULT in Prop(schemas[d], key).value;
      assert !KeyAgrees(schemas, |schemas|, key);
    }
  }

  lemma {:induction false} RememberedElsewhere(schemas: seq<Schema>, n: nat, key: string, known: map<string, Object>,
                                               hasDefault: map<string, bool>, known': map<string, Object>,
                                               hasDefault': map<string, bool>)
    requires n <= |schemas| && Remembered(schemas, n, key, known, hasDefault)
    requires (key in known <==> key in known') && (key in known ==> known[key] == known'[key])
    requires (key in hasDefault <==> key in hasDefault') && (key in hasDefault ==> hasDefault[key] == hasDefault'[key])
    ensures Remembered(schemas, n, key, known', hasDefault')
  {
    hide Prop, WithoutDefault, KeyAgrees, DeclaresDefault, Declares;
  }

  /** What the checker remembers while it is among the keys of layer i. */
  ghost predicate Halfway(schemas: seq<Schema>, i: nat, seen: set<string>, known: map<string, Object>,
                          hasDefault: map<string, bool>)
    requires i < |schemas|
  {
    forall key :: Remembered(schemas, if key in seen then i + 1 else i, key, known, hasDefault)
  }

  ghost predicate AllRemembered(schemas: seq<Schema>, n: nat, known: map<string, Object>,
                                         hasDefault: map<string, bool>)
    requires n <= |schemas|
  {
    forall key :: Remembered(schemas, n, key, known, hasDefault)
  }

  /** One key of layer i, and the changes it makes to what is remembered. */
  method CheckKey(schemas: seq<Schema>, i: nat, key: string, ghost seen: set<string>, known: map<string, Object>,
                  hasDefault: map<string, bool>)
    returns (ok: bool, known': map<string, Object>, hasDefault': map<string, bool>)
    requires i < |schemas| && key in Props(schemas[i]) && key !in seen && Halfway(schemas, i, seen, known, hasDefault)
    ensures ok ==> Halfway(schemas, i, seen + {key}, known', hasDefault')
    ensures !ok ==> !RulesHold(schemas)
  {
    hide Remembered, RulesHold;
    known', hasDefault' := known, hasDefault;
    ok := true;
    assert Remembered(schemas, i, key, known, hasDefault);
    if Props(schemas[i])[key].Table? {
      var prop := Props(schemas[i])[key].fields;
      var declaresDefault := DEFAULT in prop;
      var candidate := WithoutDefault(prop);
      SameKeys(schemas, i, key, known, hasDefault);
      if key !in known {
        RememberedFirst(schemas, i, key, known, hasDefault);
        known', hasDefault' := known[key := candidate], hasDefault[key := declaresDefault];
      } else {
        RememberedAgain(schemas, i, key, known, hasDefault);
        if candidate != known[key] {
          return false, known, hasDefault;
        }
        if declaresDefault {
          if hasDefault[key] {
            return false, known, hasDefault;
          }
          hasDefault' := hasDefault[key := true];
        }
      }
    } else {
      RememberedSkip(schemas, i, key, known, hasDefault);
    }
    forall other ensures Remembered(schemas, if other in seen + {key} then i + 1 else i, other, known', hasDefault') {
      if other != key {
        RememberedElsewhere(schemas, if other in seen then i + 1 else i, other, known, hasDefault, known', hasDefault');
      }
    }
  }

  lemma {:induction false} SameKeys(schemas: seq<Schema>, n: nat, key: string, known: map<string, Object>,
                                    hasDefault: map<string, bool>)
    requires n <= |schemas| && Remembered(schemas, n, key, known, hasDefault)
    ensures key in known <==> key in hasDefault
  {
  }

  lemma {:induction false} LayerRemembered(schemas: seq<Schema>, i: nat, seen: set<string>, known: map<string, Object>,
                                           hasDefault: map<string, bool>)
    requires i < |schemas| && Halfway(schemas, i, seen, known, hasDefault)
    requires forall key :: key in Props(schemas[i]) ==> key in seen
    ensures AllRemembered(schemas, i + 1, known, hasDefault)
  {
    hide Remembered;
    var n := i + 1;
    forall key ensures Remembered(schemas, n, key, known, hasDefault) {
      assert Remembered(schemas, if key in seen then i + 1 else i, key, known, hasDefault);
      if key !in seen {
        RememberedSkip(schemas, i, key, known, hasDefault);
      }
    }
  }

  /** All keys of layer i in sorted order. */
  method CheckLayer(schemas: seq<Schema>, i: nat, known: map<string, Object>,
                                         hasDefault: map<string, bool>)
    returns (ok: bool, known': map<string, Object>, hasDefault': map<string, bool>)
    requires i < |schemas| && AllRemembered(schemas, i, known, hasDefault)
    ensures ok ==> AllRemembered(schemas, i + 1, known', hasDefault')
    ensures !ok ==> !RulesHold(schemas)
  {
    hide Remembered, RulesHold, Sorted;
    known', hasDefault' := known, hasDefault;
    var keys := Sorted(Props(schemas[i]).Keys);
    AscendingHasNoRepeats(keys);
    ghost var seen: set<string> := {};
    for k := 0 to |keys|
      invariant seen == set l | 0 <= l < k :: keys[l]
      invariant Halfway(schemas, i, seen, known', hasDefault')
    {
      assert keys[k] in keys && keys[k] !in seen;
      ok, known', hasDefault' := CheckKey(schemas, i, keys[k], seen, known', hasDefault');
      if !ok {
        return;
      }
      seen := seen + {keys[k]};
    }
    forall key | key in Props(schemas[i]) ensures key in seen {
      assert key in keys;
    }
    LayerRemembered(schemas, i, seen, known', hasDefault');
    return true, known', hasDefault';
  }

  ghost function DeclaredKeys(schemas: seq<Schema>): set<string> {
    set i, key | 0 <= i < |schemas| && key in Props(schemas[i]) && Prop(schemas[i], key).Some? :: key
  }

  /** SchemaKeyRules: accepts exactly the chains that keep the rules, and returns the composed keys. */
  method SchemaKeyRules(schemas: seq<Schema>) returns (r: Result<set<string>>)
    ensures r.Ok? <==> RulesHold(schemas)
    ensures r.Ok? ==> r.value == DeclaredKeys(schemas)
  {
    hide Remembered, KeyAgrees, Prop;
    var known: map<string, Object>, hasDefault: map<string, bool> := map[], map[];
    var typeValue: Option<Json> := None;
    NothingRemembered(schemas);
    for i := 0 to |schemas|
      invariant AllRemembered(schemas, i, known, hasDefault)
      invariant typeValue.None? ==> forall j :: 0 <= j < i ==> TypeOf(schemas[j]).None?
      invariant typeValue.Some? ==> exists j :: 0 <= j < i && TypeOf(schemas[j]) == typeValue
      invariant forall j :: 0 <= j < i && TypeOf(schemas[j]).Some? ==> TypeOf(schemas[j]) == typeValue
    {
      var declared := TypeOf(schemas[i]);
      if declared.Some? {
        if typeValue.None? {
          typeValue := declared;
        } else if declared != typeValue {
          return Err("type disagrees");
        }
      }
      var ok;
      ok, known, hasDefault := CheckLayer(schemas, i, known, hasDefault);
      if !ok {
        return Err("property redefined");
      }
    }
    RulesWereKept(schemas, known, hasDefault);
    return Ok(known.Keys);
  }

  lemma {:induction false} NothingRemembered(schemas: seq<Schema>)
    ensures AllRemembered(schemas, 0, map[], map[])
  {
  }

  lemma {:induction false} RulesWereKept(schemas: seq<Schema>, known: map<string, Object>,
                                         hasDefault: map<string, bool>)
    requires AllRemembered(schemas, |schemas|, known, hasDefault)
    ensures known.Keys == DeclaredKeys(schemas)
    ensures forall key :: KeyAgrees(schemas, |schemas|, key)
  {
    hide KeyAgrees;
    forall key ensures key in known <==> key in DeclaredKeys(schemas) {
      assert Remembered(schemas, |schemas|, key, known, hasDefault);
    }
    forall key ensures KeyAgrees(schemas, |schemas|, key) {
      assert Remembered(schemas, |schemas|, key, known, hasDefault);
    }
  }

  // ---- the merge ------------------------------------------------------------------------------

  /** One more layer's entry for a key: only a new default widens what is there already. */
  ghost function Combine(existing: Option<Json>, entry: Json): Json {
    if entry.Atom? || existing.None? || existing.value.Atom? then entry
    else if DEFAULT in entry.fields
    then Table(existing.value.fields[DEFAULT := entry.fields[DEFAULT]])
    else existing.value
  }

  /** A key's merged entry over the first n layers. */
  ghost function MergedKey(schemas: seq<Schema>, n: nat, key: string): Option<Json>
    requires n <= |schemas|
  {
    if n == 0 then None
    else
      var before := MergedKey(schemas, n - 1, key);
      if key in Props(schemas[n - 1]) then Some(Combine(before, Props(schemas[n - 1])[key])) else before
  }

  lemma {:induction false} MergedKeyExists(schemas: seq<Schema>, n: nat, key: string)
    requires n <= |schemas|
    ensures MergedKey(schemas, n, key).Some? <==> exists i :: 0 <= i < n && key in Props(schemas[i])
  {
    if n > 0 {
      MergedKeyExists(schemas, n - 1, key);
    }
  }

  ghost predicate IsMerged(schemas: seq<Schema>, n: nat, merged: Object)
    requires n <= |schemas|
  {
    forall key :: Entry(merged, key) == MergedKey(schemas, n, key)
  }

  ghost function Entry(merged: Object, key: string): Option<Json> {
    if key in merged then Some(merged[key]) else None
  }

  lemma {:induction false} MergedKeyNext(schemas: seq<Schema>, i: nat, key: string)
    requires i < |schemas|
    ensures MergedKey(schemas, i + 1, key) ==
              if key in Props(schemas[i]) then Some(Combine(MergedKey(schemas, i, key), Props(schemas[i])[key]))
              else MergedKey(schemas, i, key)
  {
  }

  lemma {:induction false} CombineIs(existing: Option<Json>, entry: Json)
    ensures entry.Atom? || existing.None? || existing.value.Atom? ==> Combine(existing, entry) == entry
    ensures entry.Table? && existing.Some? && existing.value.Table? ==>
              Combine(existing, entry) == Table(if DEFAULT in entry.fields
                                                then existing.value.fields[DEFAULT := entry.fields[DEFAULT]]
                                                else existing.value.fields)
  {
  }

  method MergeLayer(schemas: seq<Schema>, i: nat, merged: Object) returns (r: Object)
    requires i < |schemas| && IsMerged(schemas, i, merged)
    ensures IsMerged(schemas, i + 1, r)
  {
    hide Combine, Sorted, MergedKey, Ascending;
    r := merged;
    forall key { MergedKeyNext(schemas, i, key); }
    var props := Props(schemas[i]);
    var keys := Sorted(props.Keys);
    AscendingHasNoRepeats(keys);
    for k := 0 to |keys|
      invariant forall key :: key !in props ==> Entry(r, key) == MergedKey(schemas, i, key)
      invariant forall l :: 0 <= l < k ==> Entry(r, keys[l]) == MergedKey(schemas, i + 1, keys[l])
      invariant forall l :: k <= l < |keys| ==> Entry(r, keys[l]) == MergedKey(schemas, i, keys[l])
    {
      var key := keys[k];
      assert key in props;
      CombineIs(MergedKey(schemas, i, key), props[key]);
      if props[key].Atom? || key !in r || r[key].Atom? {
        r := r[key := props[key]];
      } else if DEFAULT in props[key].fields {
        var widened := r[key].fields[DEFAULT := props[key].fields[DEFAULT]];
        r := r[key := Table(widened)];
      }
    }
    forall key ensures Entry(r, key) == MergedKey(schemas, i + 1, key) {
      if key in props {
        var l :| 0 <= l < |keys| && keys[l] == key;
      }
    }
  }

  method MergeSchemaProperties(schemas: seq<Schema>) returns (merged: Object)
    ensures IsMerged(schemas, |schemas|, merged)
  {
    merged := map[];
    for i := 0 to |schemas|
      invariant IsMerged(schemas, i, merged)
    {
      merged := MergeLayer(schemas, i, merged);
    }
  }

  /** The first declared type, and the first layer's other keywords. */
  ghost function FirstType(schemas: seq<Schema>): Option<Json> {
    if schemas == [] then None
    else if TypeOf(schemas[0]).Some? then TypeOf(schemas[0])
    else FirstType(schemas[1..])
  }

  ghost function FirstSchema(schemas: seq<Schema>): Schema {
    if schemas == [] then None
    else if schemas[0].Some? then schemas[0]
    else FirstSchema(schemas[1..])
  }

  /** The merged field: the first schema's table, the first declared type, and all properties. */
  ghost predicate IsMergedField(schemas: seq<Schema>, merged: Schema) {
    match FirstSchema(schemas)
    case None => merged.None?
    case Some(base) =>
      && merged.Some? && PROPERTIES in merged.value && merged.value[PROPERTIES].Table?
      && IsMerged(schemas, |schemas|, merged.value[PROPERTIES].fields)
      && TypeOf(merged) == FirstType(schemas)
      && merged.value - {TYPE, PROPERTIES} == base - {TYPE, PROPERTIES}
  }

  method MergeSchemaField(schemas: seq<Schema>) returns (merged: Schema)
    ensures IsMergedField(schemas, merged)
  {
    var base: Schema, typeValue: Option<Json> := None, None;
    assert schemas[0..] == schemas;
    for i := 0 to |schemas|
      invariant FirstSchema(schemas) == if base.Some? then base else FirstSchema(schemas[i..])
      invariant FirstType(schemas) == if typeValue.Some? then typeValue else FirstType(schemas[i..])
      invariant base.None? ==> typeValue.None?
      invariant base.Some? && typeValue.None? ==> TypeOf(base).None?
    {
      assert schemas[i..][1..] == schemas[i + 1..];
      if schemas[i].Some? {
        if base.None? {
          base := schemas[i];
        }
        if typeValue.None? {
          typeValue := TypeOf(schemas[i]);
        }
      }
    }
    if base.None? {
      return None;
    }
    var table := base.value;
    if typeValue.Some? {
      table := table[TYPE := typeValue.value];
    }
    var properties := MergeSchemaProperties(schemas);
    table := table[PROPERTIES := Table(properties)];
    return Some(table);
  }

  lemma {:induction false} MergedIsUnique(schemas: seq<Schema>, a: Schema, b: Schema)
    requires IsMergedField(schemas, a) && IsMergedField(schemas, b)
    ensures a == b
  {
    if a.Some? {
      var pa, pb := a.value[PROPERTIES].fields, b.value[PROPERTIES].fields;
      assert forall key :: Entry(pa, key) == Entry(pb, key);
      forall key ensures key in pa <==> key in pb { assert Entry(pa, key) == Entry(pb, key); }
      forall key | key in pa ensures pa[key] == pb[key] { assert Entry(pa, key) == Entry(pb, key); }
      assert pa == pb;
      forall key ensures Entry(a.value, key) == Entry(b.value, key) {
        if key == TYPE {
          assert Entry(a.value, key) == TypeOf(a);
          assert Entry(b.value, key) == TypeOf(b);
        } else if key != PROPERTIES {
          assert Entry(a.value, key) == Entry(a.value - {TYPE, PROPERTIES}, key);
          assert Entry(b.value, key) == Entry(b.value - {TYPE, PROPERTIES}, key);
        }
      }
      forall key ensures key in a.value <==> key in b.value { assert Entry(a.value, key) == Entry(b.value, key); }
      forall key | key in a.value ensures a.value[key] == b.value[key] {
        assert Entry(a.value, key) == Entry(b.value, key);
      }
      assert a.value == b.value;
    }
  }

  // ---- the merge agrees with its checker ----------------------------------------------------------

  /** Over accepted layers of table-valued properties, a merged key keeps every layer's word about it. */
  ghost predicate KeepsEveryWord(schemas: seq<Schema>, n: nat, key: string, entry: Option<Json>) {
    && (entry.Some? <==> Declares(schemas, n, key))
    && (entry.Some? ==>
          && entry.value.Table?
          && (DEFAULT in entry.value.fields <==> DeclaresDefault(schemas, n, key))
          && forall l :: 0 <= l < n && l < |schemas| && Prop(schemas[l], key).Some? ==>
               var prop := Prop(schemas[l], key).value;
               && WithoutDefault(entry.value.fields) == WithoutDefault(prop)
               && (DEFAULT in prop ==> DEFAULT in entry.value.fields && entry.value.fields[DEFAULT] == prop[DEFAULT]))
  }

  lemma {:induction false} MergedKeyKeepsEveryWord(schemas: seq<Schema>, n: nat, key: string)
    requires n <= |schemas| && TableValued(schemas) && KeyAgrees(schemas, n, key)
    ensures KeepsEveryWord(schemas, n, key, MergedKey(schemas, n, key))
  {
    if n > 0 {
      MergedKeyKeepsEveryWord(schemas, n - 1, key);
      var before := MergedKey(schemas, n - 1, key);
      if key in Props(schemas[n - 1]) {
        assert Props(schemas[n - 1])[key].Table?;
        KeepsOneMore(schemas, n - 1, key, before);
      }
    }
  }

  lemma {:induction false} KeepsOneMore(schemas: seq<Schema>, n: nat, key: string, before: Option<Json>)
    requires n < |schemas| && KeyAgrees(schemas, n + 1, key) && Prop(schemas[n], key).Some?
    requires KeepsEveryWord(schemas, n, key, before)
    ensures KeepsEveryWord(schemas, n + 1, key, Some(Combine(before, Props(schemas[n])[key])))
  {
    var prop := Prop(schemas[n], key).value;
    var after := Combine(before, Table(prop));
    if before.Some? {
      assert WithoutDefault(after.fields) == WithoutDefault(before.value.fields);
      var l :| 0 <= l < n && Prop(schemas[l], key).Some?;
      assert WithoutDefault(prop) == WithoutDefault(Prop(schemas[l], key).value);
    }
  }

  /**
   * The composed schema of an accepted chain: its keys are the checker's, each key's constraints
   * equal every declaring layer's, its default is the one some layer declares, and the type is
   * every layer's.
   */
  lemma {:induction false} MergeAgreesWithRules(schemas: seq<Schema>, merged: Schema)
    requires RulesHold(schemas) && TableValued(schemas) && IsMergedField(schemas, merged)
    ensures Props(merged).Keys == DeclaredKeys(schemas)
    ensures forall key :: KeepsEveryWord(schemas, |schemas|, key, Entry(Props(merged), key))
    ensures forall i :: 0 <= i < |schemas| && TypeOf(schemas[i]).Some? ==> TypeOf(merged) == TypeOf(schemas[i])
  {
    hide KeepsEveryWord;
    FirstSchemaIsNone(schemas);
    forall key ensures KeepsEveryWord(schemas, |schemas|, key, Entry(Props(merged), key)) {
      MergedKeyKeepsEveryWord(schemas, |schemas|, key);
      if merged.None? {
        MergedKeyExists(schemas, |schemas|, key);
      }
    }
    forall key ensures key in Props(merged) <==> key in DeclaredKeys(schemas) {
      KeptKeys(schemas, key, Entry(Props(merged), key));
    }
    forall i | 0 <= i < |schemas| && TypeOf(schemas[i]).Some? ensures TypeOf(merged) == TypeOf(schemas[i]) {
      var j := FirstTypeIs(schemas, i);
    }
  }

  lemma {:induction false} KeptKeys(schemas: seq<Schema>, key: string, entry: Option<Json>)
    requires KeepsEveryWord(schemas, |schemas|, key, entry)
    ensures entry.Some? <==> key in DeclaredKeys(schemas)
  {
  }

  lemma {:induction false} FirstSchemaIsNone(schemas: seq<Schema>)
    ensures FirstSchema(schemas).None? <==> forall i :: 0 <= i < |schemas| ==> schemas[i].None?
  {
    if schemas != [] {
      FirstSchemaIsNone(schemas[1..]);
      if schemas[0].None? && FirstSchema(schemas[1..]).None? {
        assert forall i :: 0 < i < |schemas| ==> schemas[i] == schemas[1..][i - 1];
      }
    }
  }

  lemma {:induction false} FirstTypeIs(schemas: seq<Schema>, i: nat) returns (j: nat)
    requires i < |schemas| && TypeOf(schemas[i]).Some?
    ensures j <= i && FirstType(schemas) == TypeOf(schemas[j]) && TypeOf(schemas[j]).Some?
    ensures FirstSchema(schemas).Some?
  {
    if TypeOf(schemas[0]).Some? {
      j := 0;
    } else {
      j := FirstTypeIs(schemas[1..], i - 1);
      j := j + 1;
    }
  }

  // ---- merging in two steps ---------------------------------------------------------------------

  lemma {:induction false} MergedKeyOfPrefix(schemas: seq<Schema>, more: seq<Schema>, n: nat, key: string)
    requires n <= |schemas|
    ensures MergedKey(schemas + more, n, key) == MergedKey(schemas, n, key)
  {
    if n > 0 {
      MergedKeyOfPrefix(schemas, more, n - 1, key);
    }
  }

  lemma {:induction false} FirstsOfMore(schemas: seq<Schema>, last: Schema)
    ensures FirstSchema(schemas + [last]) == if FirstSchema(schemas).Some? then FirstSchema(schemas) else last
    ensures FirstType(schemas + [last]) == if FirstType(schemas).Some? then FirstType(schemas) else TypeOf(last)
    ensures FirstType(schemas).Some? ==> FirstSchema(schemas).Some?
  {
    if schemas == [] {
      assert schemas + [last] == [last];
    } else {
      assert (schemas + [last])[1..] == schemas[1..] + [last];
      FirstsOfMore(schemas[1..], last);
    }
  }

  lemma {:induction false} MergedKeyInTwoSteps(schemas: seq<Schema>, merged: Schema, last: Schema, key: string)
    requires IsMergedField(schemas, merged)
    ensures MergedKey([merged, last], 2, key) == MergedKey(schemas + [last], |schemas| + 1, key)
  {
    MergedKeyOfPrefix(schemas, [last], |schemas|, key);
    FirstSchemaIsNone(schemas);
    MergedKeyExists(schemas, |schemas|, key);
    assert MergedKey([merged, last], 0, key) == None;
    assert MergedKey([merged, last], 1, key) == Entry(Props(merged), key);
    assert MergedKey(schemas, |schemas|, key) == Entry(Props(merged), key);
    assert (schemas + [last])[|schemas|] == last;
  }

  /** Merging a chain at once is merging its base first and then the last layer onto the result. */
  lemma {:induction false} MergesInTwoSteps(schemas: seq<Schema>, merged: Schema, last: Schema, both: Schema)
    requires IsMergedField(schemas, merged) && IsMergedField([merged, last], both)
    ensures IsMergedField(schemas + [last], both)
  {
    FirstsOfMore(schemas, last);
    FirstsOfMore([merged], last);
    assert [merged] + [last] == [merged, last];
    assert FirstSchema([merged]) == merged && FirstType([merged]) == TypeOf(merged);
    if both.Some? {
      var properties := both.value[PROPERTIES].fields;
      forall key ensures Entry(properties, key) == MergedKey(schemas + [last], |schemas| + 1, key) {
        assert Entry(properties, key) == MergedKey([merged, last], 2, key);
        MergedKeyInTwoSteps(schemas, merged, last, key);
      }
    }
  }

  // ---- documents ----------------------------------------------------------------------------------

  /** A completion leaf; only a judge leaf with a non-empty id is answered by name. */
  datatype Leaf = Leaf(judge: bool, id: string, body: string)

  datatype Chain = Chain(id: string, body: string)

  datatype DoneWhen = DoneWhen(all: seq<Leaf>, budget: string)

  /** A loaded task document; `rest` is everything composition takes from the last layer as it is. */
  datatype Doc = Doc(
    observer: string,
    instruction: string,
    chains: seq<Chain>,
    doneWhen: Option<DoneWhen>,
    budget: string,
    inputsSchema: Schema,
    stateSchema: Schema,
    schemaFile: bool,
    rest: string,
    layers: seq<Doc>)

  const BLANK_LINE := "\n\n"

  /** strings.Join with a blank line. */
  function Join(texts: seq<string>): string {
    if texts == [] then ""
    else if |texts| == 1 then texts[0]
    else Join(texts[..|texts| - 1]) + BLANK_LINE + texts[|texts| - 1]
  }

  ghost function Texts(layers: seq<Doc>): seq<string> {
    if layers == [] then []
    else Texts(layers[..|layers| - 1]) +
         if layers[|layers| - 1].instruction != "" then [layers[|layers| - 1].instruction] else []
  }

  ghost function Chains(layers: seq<Doc>): seq<Chain> {
    if layers == [] then [] else Chains(layers[..|layers| - 1]) + layers[|layers| - 1].chains
  }

  function LeavesOf(doc: Doc): seq<Leaf> {
    if doc.doneWhen.Some? then doc.doneWhen.value.all else []
  }

  ghost function Leaves(layers: seq<Doc>): seq<Leaf> {
    if layers == [] then [] else Leaves(layers[..|layers| - 1]) + LeavesOf(layers[|layers| - 1])
  }

  function InputsOf(layers: seq<Doc>): (r: seq<Schema>)
    ensures |r| == |layers| && forall i :: 0 <= i < |r| ==> r[i] == layers[i].inputsSchema
  {
    seq(|layers|, i requires 0 <= i < |layers| => layers[i].inputsSchema)
  }

  function StatesOf(layers: seq<Doc>): (r: seq<Schema>)
    ensures |r| == |layers| && forall i :: 0 <= i < |r| ==> r[i] == layers[i].stateSchema
  {
    seq(|layers|, i requires 0 <= i < |layers| => layers[i].stateSchema)
  }

  /** What composing the layers gives, the schemas aside. */
  ghost function Assembled(layers: seq<Doc>, inputs: Schema, state: Schema): Doc
    requires layers != []
  {
    var last := layers[|layers| - 1];
    last.(observer := layers[0].observer,
          instruction := Join(Texts(layers)),
          chains := Chains(layers),
          doneWhen := if Leaves(layers) != [] then Some(DoneWhen(Leaves(layers), last.budget)) else last.doneWhen,
          inputsSchema := inputs,
          stateSchema := state,
          layers := layers)
  }

  ghost predicate IsComposition(layers: seq<Doc>, doc: Doc) {
    && layers != []
    && IsMergedField(InputsOf(layers), doc.inputsSchema)
    && IsMergedField(StatesOf(layers), doc.stateSchema)
    && doc == Assembled(layers, doc.inputsSchema, doc.stateSchema)
  }

  // ---- what a composed document says --------------------------------------------------------

  /** Where the i-th part begins in the concatenation of them all. */
  ghost function StartOf<T>(parts: seq<seq<T>>, i: nat): nat
    requires i <= |parts|
  {
    if i == 0 then 0 else StartOf(parts, i - 1) + |parts[i - 1]|
  }

  /** The parts one after the other, and nothing else. */
  ghost predicate Concatenates<T>(parts: seq<seq<T>>, whole: seq<T>) {
    && |whole| == StartOf(parts, |parts|)
    && forall i :: 0 <= i < |parts| ==> PartAt(parts, whole, i)
  }

  ghost predicate PartAt<T>(parts: seq<seq<T>>, whole: seq<T>, i: nat)
    requires i < |parts|
  {
    && StartOf(parts, i) <= StartOf(parts, i + 1) <= |whole|
    && whole[StartOf(parts, i)..StartOf(parts, i + 1)] == parts[i]
  }

  lemma {:induction false} StartsStay<T>(parts: seq<seq<T>>, last: seq<T>, i: nat)
    requires i <= |parts|
    ensures StartOf(parts + [last], i) == StartOf(parts, i)
  {
    if i > 0 {
      StartsStay(parts, last, i - 1);
    }
  }

  lemma {:induction false} ConcatenatesMore<T>(parts: seq<seq<T>>, whole: seq<T>, last: seq<T>)
    requires Concatenates(parts, whole)
    ensures Concatenates(parts + [last], whole + last)
  {
    var more, all := parts + [last], whole + last;
    StartsStay(parts, last, |parts|);
    forall i | 0 <= i < |more| ensures PartAt(more, all, i) {
      StartsStay(parts, last, i);
      if i < |parts| {
        StartsStay(parts, last, i + 1);
        assert PartAt(parts, whole, i);
        assert all[StartOf(parts, i)..StartOf(parts, i + 1)] == whole[StartOf(parts, i)..StartOf(parts, i + 1)];
      }
    }
  }

  /** Where the instruction of layer i begins: after the earlier ones that are not empty, a blank line after each. */
  ghost function TextStart(layers: seq<Doc>, i: nat): nat
    requires i <= |layers|
  {
    if i == 0 then 0
    else
      TextStart(layers, i - 1) +
      if layers[i - 1].instruction == "" then 0 else |layers[i - 1].instruction| + 2
  }

  /** Every instruction that is not empty stands in the text, in layer order, with a blank line between two of them. */
  ghost predicate Spelled(layers: seq<Doc>, text: string) {
    var end := TextStart(layers, |layers|);
    && |text| == (if end == 0 then 0 else end - 2)
    && forall i :: 0 <= i < |layers| && layers[i].instruction != "" ==> SpelledAt(layers, text, i, end)
  }

  ghost predicate SpelledAt(layers: seq<Doc>, text: string, i: nat, end: nat)
    requires i < |layers|
  {
    var from := TextStart(layers, i);
    var to := from + |layers[i].instruction|;
    && to <= |text| && text[from..to] == layers[i].instruction
    && (to + 2 == end || (to + 2 < |text| && text[to..to + 2] == "\n\n"))
  }

  lemma {:induction false} TextStartsStay(layers: seq<Doc>, last: Doc, i: nat)
    requires i <= |layers|
    ensures TextStart(layers + [last], i) == TextStart(layers, i)
    ensures TextStart(layers, i) <= TextStart(layers, |layers|)
    decreases i, |layers|
  {
    if i > 0 {
      TextStartsStay(layers, last, i - 1);
    }
    TextStartsAscend(layers, i, |layers|);
  }

  lemma {:induction false} TextStartsAscend(layers: seq<Doc>, i: nat, j: nat)
    requires i <= j <= |layers|
    ensures TextStart(layers, i) <= TextStart(layers, j)
  {
    if i < j {
      TextStartsAscend(layers, i, j - 1);
    }
  }

  lemma {:induction false} TextsAreSpelled(layers: seq<Doc>)
    ensures Spelled(layers, Join(Texts(layers)))
    ensures Texts(layers) == [] <==> TextStart(layers, |layers|) == 0
  {
    if layers != [] {
      hide Texts, Join, Spelled, SpelledAt;
      var n := |layers| - 1;
      var front, last := layers[..n], layers[n];
      assert layers == front + [last];
      TextsAreSpelled(front);
      OneMoreLayer(front, last);
      TextStartsStay(front, last, n);
      if last.instruction == "" {
        assert Texts(front) + [] == Texts(front);
        SpelledWithout(front, last, Join(Texts(front)));
      } else {
        JoinMore(Texts(front), last.instruction);
        SpelledWith(front, last, if Texts(front) == [] then "" else Join(Texts(front)));
        NothingJoined();
      }
    } else {
      NothingJoined();
    }
  }

  lemma {:induction false} NothingJoined()
    ensures Join([]) == "" && Texts([]) == []
  {
  }

  lemma {:induction false} SpelledWithout(layers: seq<Doc>, last: Doc, text: string)
    requires Spelled(layers, text) && last.instruction == ""
    ensures Spelled(layers + [last], text)
  {
    hide SpelledAt;
    var more, end := layers + [last], TextStart(layers, |layers|);
    TextStartsStay(layers, last, |layers|);
    assert TextStart(more, |more|) == end;
    forall i | 0 <= i < |more| && more[i].instruction != "" ensures SpelledAt(more, text, i, end) {
      assert i < |layers| && more[i] == layers[i];
      assert SpelledAt(layers, text, i, end);
      TextStartsStay(layers, last, i);
      SpelledAlike(layers, more, text, i, end);
    }
  }

  lemma {:induction false} SpelledAlike(layers: seq<Doc>, more: seq<Doc>, text: string, i: nat, end: nat)
    requires i < |layers| <= |more| && layers[i] == more[i] && TextStart(layers, i) == TextStart(more, i)
    requires SpelledAt(layers, text, i, end)
    ensures SpelledAt(more, text, i, end)
  {
    hide TextStart;
  }

  lemma {:induction false} SpelledWith(layers: seq<Doc>, last: Doc, text: string)
    requires Spelled(layers, text) && last.instruction != ""
    ensures Spelled(layers + [last], if TextStart(layers, |layers|) == 0 then last.instruction
                                     else text + BLANK_LINE + last.instruction)
  {
    hide SpelledAt;
    var more, end := layers + [last], TextStart(layers, |layers|);
    var all := if end == 0 then last.instruction else text + BLANK_LINE + last.instruction;
    TextStartsStay(layers, last, |layers|);
    assert TextStart(more, |more|) == end + |last.instruction| + 2;
    forall i | 0 <= i < |more| && more[i].instruction != ""
      ensures SpelledAt(more, all, i, TextStart(more, |more|))
    {
      if i < |layers| {
        assert SpelledAt(layers, text, i, end);
        TextStartsStay(layers, last, i);
        NothingBefore(layers, i);
        SpelledStays(layers, last, text, i, end);
      } else {
        SpelledLast(layers, last, text);
      }
    }
  }

  lemma {:induction false} NothingBefore(layers: seq<Doc>, i: nat)
    requires i < |layers| && layers[i].instruction != ""
    ensures 0 < TextStart(layers, |layers|)
  {
    TextStartsAscend(layers, i + 1, |layers|);
  }

  lemma {:induction false} SpelledLast(layers: seq<Doc>, last: Doc, text: string)
    requires |text| == (if TextStart(layers, |layers|) == 0 then 0 else TextStart(layers, |layers|) - 2)
    requires TextStart(layers + [last], |layers|) == TextStart(layers, |layers|) && TextStart(layers, |layers|) != 1
    ensures SpelledAt(layers + [last], if TextStart(layers, |layers|) == 0 then last.instruction
                                       else text + BLANK_LINE + last.instruction,
                      |layers|, TextStart(layers, |layers|) + |last.instruction| + 2)
  {
  }

  lemma {:induction false} SpelledStays(layers: seq<Doc>, last: Doc, text: string, i: nat, end: nat)
    requires i < |layers| && SpelledAt(layers, text, i, end) && |text| + 2 == end && last.instruction != ""
    requires TextStart(layers + [last], i) == TextStart(layers, i)
    ensures SpelledAt(layers + [last], text + BLANK_LINE + last.instruction, i, end + |last.instruction| + 2)
  {
    var all := text + BLANK_LINE + last.instruction;
    var from := TextStart(layers, i);
    var to := from + |layers[i].instruction|;
    assert all[from..to] == text[from..to];
    if to + 2 == end {
      assert all[to..to + 2] == BLANK_LINE;
    } else {
      assert all[to..to + 2] == text[to..to + 2];
    }
  }

  ghost predicate ChainsAre(layers: seq<Doc>, parts: seq<seq<Chain>>) {
    |parts| == |layers| && forall i :: 0 <= i < |parts| ==> parts[i] == layers[i].chains
  }

  ghost predicate LeavesAre(layers: seq<Doc>, parts: seq<seq<Leaf>>) {
    && |parts| == |layers|
    && forall i :: 0 <= i < |parts| ==>
         parts[i] == if layers[i].doneWhen.Some? then layers[i].doneWhen.value.all else []
  }

  /** Every field of a composed document but its schemas: what is the root's, the last layer's, and all the layers'. */
  ghost predicate Inherits(layers: seq<Doc>, doc: Doc)
    requires layers != []
  {
    var last := layers[|layers| - 1];
    && doc.observer == layers[0].observer
    && doc.budget == last.budget && doc.rest == last.rest && doc.schemaFile == last.schemaFile
    && doc.layers == layers
    && Spelled(layers, doc.instruction)
    && (forall parts :: ChainsAre(layers, parts) ==> Concatenates(parts, doc.chains))
    && (forall parts :: LeavesAre(layers, parts) ==>
          if StartOf(parts, |parts|) == 0 then doc.doneWhen == last.doneWhen
          else
            && doc.doneWhen.Some? && doc.doneWhen.value.budget == last.budget
            && Concatenates(parts, doc.doneWhen.value.all))
  }

  lemma {:induction false} ChainsConcatenate(layers: seq<Doc>, parts: seq<seq<Chain>>)
    requires ChainsAre(layers, parts)
    ensures Concatenates(parts, Chains(layers))
  {
    if layers != [] {
      var n := |layers| - 1;
      ChainsConcatenate(layers[..n], parts[..n]);
      ConcatenatesMore(parts[..n], Chains(layers[..n]), layers[n].chains);
      assert parts[..n] + [layers[n].chains] == parts;
    }
  }

  lemma {:induction false} LeavesConcatenate(layers: seq<Doc>, parts: seq<seq<Leaf>>)
    requires LeavesAre(layers, parts)
    ensures Concatenates(parts, Leaves(layers))
  {
    if layers != [] {
      var n := |layers| - 1;
      LeavesConcatenate(layers[..n], parts[..n]);
      ConcatenatesMore(parts[..n], Leaves(layers[..n]), LeavesOf(layers[n]));
      assert parts[..n] + [LeavesOf(layers[n])] == parts;
    }
  }

  /** What a document composed of the layers says, field by field. */
  lemma {:induction false} CompositionInherits(layers: seq<Doc>, doc: Doc)
    requires IsComposition(layers, doc)
    ensures Inherits(layers, doc)
  {
    hide IsMergedField, Spelled, Concatenates, Texts, Join, Chains, Leaves;
    TextsAreSpelled(layers);
    forall parts | ChainsAre(layers, parts) ensures Concatenates(parts, doc.chains) {
      ChainsConcatenate(layers, parts);
    }
    forall parts | LeavesAre(layers, parts)
      ensures Concatenates(parts, Leaves(layers)) && (StartOf(parts, |parts|) == 0 <==> Leaves(layers) == [])
    {
      LeavesConcatenate(layers, parts);
      ConcatenationLength(parts, Leaves(layers));
    }
  }

  lemma {:induction false} ConcatenationLength<T>(parts: seq<seq<T>>, whole: seq<T>)
    requires Concatenates(parts, whole)
    ensures |whole| == StartOf(parts, |parts|)
  {
  }

  method ComposeTaskDocument(layers: seq<Doc>) returns (composed: Doc)
    requires layers != []
    ensures IsComposition(layers, composed) && Inherits(layers, composed)
  {
    hide IsMergedField, Inherits;
    composed := layers[|layers| - 1].(observer := layers[0].observer);
    var texts: seq<string>, chains: seq<Chain>, leaves: seq<Leaf> := [], [], [];
    for i := 0 to |layers|
      invariant texts == Texts(layers[..i]) && chains == Chains(layers[..i]) && leaves == Leaves(layers[..i])
    {
      assert layers[..i + 1][..i] == layers[..i];
      if layers[i].instruction != "" {
        texts := texts + [layers[i].instruction];
      }
      chains := chains + layers[i].chains;
      if layers[i].doneWhen.Some? {
        leaves := leaves + layers[i].doneWhen.value.all;
      }
    }
    assert layers[..|layers|] == layers;
    composed := composed.(instruction := Join(texts), chains := chains);
    if |leaves| > 0 {
      composed := composed.(doneWhen := Some(DoneWhen(leaves, composed.budget)));
    }
    var inputs := MergeSchemaField(InputsOf(layers));
    var state := MergeSchemaField(StatesOf(layers));
    composed := composed.(inputsSchema := inputs, stateSchema := state, layers := layers);
    CompositionInherits(layers, composed);
  }

  lemma {:induction false} CompositionIsUnique(layers: seq<Doc>, a: Doc, b: Doc)
    requires IsComposition(layers, a) && IsComposition(layers, b)
    ensures a == b
  {
    MergedIsUnique(InputsOf(layers), a.inputsSchema, b.inputsSchema);
    MergedIsUnique(StatesOf(layers), a.stateSchema, b.stateSchema);
  }

  ghost predicate AllFilled(texts: seq<string>) {
    forall i | 0 <= i < |texts| :: texts[i] != ""
  }

  lemma {:induction false} TextsAreFilled(layers: seq<Doc>)
    ensures AllFilled(Texts(layers))
  {
    if layers != [] {
      TextsAreFilled(layers[..|layers| - 1]);
    }
  }

  lemma {:induction false} JoinIsEmpty(texts: seq<string>)
    requires AllFilled(texts)
    ensures Join(texts) == "" <==> texts == []
  {
  }

  lemma {:induction false} JoinMore(texts: seq<string>, text: string)
    ensures Join(texts + [text]) == if texts == [] then text else Join(texts) + BLANK_LINE + text
  {
    assert (texts + [text])[..|texts|] == texts;
  }

  lemma {:induction false} JoinOne(a: string, b: string)
    ensures Join([]) == "" && Join([a]) == a && Join([b]) == b
  {
  }

  lemma {:induction false} OneLayer(doc: Doc)
    ensures Texts([doc]) == (if doc.instruction != "" then [doc.instruction] else [])
    ensures Chains([doc]) == doc.chains && Leaves([doc]) == LeavesOf(doc)
    ensures InputsOf([doc]) == [doc.inputsSchema] && StatesOf([doc]) == [doc.stateSchema]
  {
    assert [doc][..0] == [];
  }

  lemma {:induction false} OneMoreLayer(layers: seq<Doc>, last: Doc)
    ensures Texts(layers + [last]) == Texts(layers) + if last.instruction != "" then [last.instruction] else []
    ensures Chains(layers + [last]) == Chains(layers) + last.chains
    ensures Leaves(layers + [last]) == Leaves(layers) + LeavesOf(last)
    ensures InputsOf(layers + [last]) == InputsOf(layers) + [last.inputsSchema]
    ensures StatesOf(layers + [last]) == StatesOf(layers) + [last.stateSchema]
  {
    assert (layers + [last])[..|layers|] == layers;
  }

  lemma {:induction false} TextsInTwoSteps(layers: seq<Doc>, base: Doc, last: Doc)
    requires base.instruction == Join(Texts(layers))
    ensures Join(Texts([base, last])) == Join(Texts(layers + [last]))
  {
    hide Texts, Join;
    JoinOne(base.instruction, last.instruction);
    OneLayer(base);
    OneMoreLayer([base], last);
    assert [base] + [last] == [base, last];
    OneMoreLayer(layers, last);
    TextsAreFilled(layers);
    JoinIsEmpty(Texts(layers));
    JoinMore(Texts(layers), last.instruction);
    JoinMore(Texts([base]), last.instruction);
    assert Texts(layers) + [] == Texts(layers) && Texts([base]) + [] == Texts([base]);
  }

  lemma {:induction false} LeavesOfComposition(layers: seq<Doc>, doc: Doc)
    requires IsComposition(layers, doc)
    ensures LeavesOf(doc) == Leaves(layers)
  {
    hide IsMergedField;
    assert Leaves(layers) == Leaves(layers[..|layers| - 1]) + LeavesOf(layers[|layers| - 1]);
  }

  /** The composed layers are all a consumer can tell apart. */
  ghost predicate SameButLayers(a: Doc, b: Doc) {
    a.(layers := []) == b.(layers := [])
  }

  /** Composing a whole chain is composing its base first and then the last document onto the result. */
  lemma {:induction false} ComposesInTwoSteps(layers: seq<Doc>, base: Doc, last: Doc, stepwise: Doc, whole: Doc)
    requires IsComposition(layers, base) && IsComposition([base, last], stepwise)
    requires IsComposition(layers + [last], whole)
    ensures SameButLayers(stepwise, whole)
  {
    hide IsMergedField, Join, Texts, Chains, Leaves, LeavesOf, InputsOf, StatesOf;
    OneMoreLayer(layers, last);
    OneLayer(base);
    OneMoreLayer([base], last);
    assert [base] + [last] == [base, last];
    assert InputsOf([base, last]) == [base.inputsSchema, last.inputsSchema];
    assert StatesOf([base, last]) == [base.stateSchema, last.stateSchema];
    MergesInTwoSteps(InputsOf(layers), base.inputsSchema, last.inputsSchema, stepwise.inputsSchema);
    MergesInTwoSteps(StatesOf(layers), base.stateSchema, last.stateSchema, stepwise.stateSchema);
    MergedIsUnique(InputsOf(layers + [last]), stepwise.inputsSchema, whole.inputsSchema);
    MergedIsUnique(StatesOf(layers + [last]), stepwise.stateSchema, whole.stateSchema);
    TextsInTwoSteps(layers, base, last);
    LeavesOfComposition(layers, base);
    assert (layers + [last])[0] == layers[0];
  }

  // ---- names that must be unique over a chain -----------------------------------------------------

  /** The ids one layer's leaves or chains answer to, in order; an entry without one answers to none. */
  type Names = seq<Option<string>>

  function JudgeNames(leaves: seq<Leaf>): (names: Names)
    ensures |names| == |leaves|
  {
    seq(|leaves|, i requires 0 <= i < |leaves| =>
      if leaves[i].judge && leaves[i].id != "" then Some(leaves[i].id) else None)
  }

  function ChainNames(chains: seq<Chain>): (names: Names)
    ensures |names| == |chains|
  {
    seq(|chains|, i requires 0 <= i < |chains| => if chains[i].id != "" then Some(chains[i].id) else None)
  }

  ghost predicate Unique(names: Names) {
    forall i, j :: 0 <= i < j < |names| && names[i].Some? ==> names[i] != names[j]
  }

  function Flat(layers: seq<Names>): Names {
    if layers == [] then [] else Flat(layers[..|layers| - 1]) + layers[|layers| - 1]
  }

  /** The ids owned so far are those of the names passed so far, none of which repeats. */
  ghost predicate Owned(names: Names, owner: map<string, nat>) {
    Unique(names) && forall id :: id in owner <==> Some(id) in names
  }

  lemma {:induction false} OwnedMore(names: Names, owner: map<string, nat>, name: Option<string>, layer: nat)
    requires Owned(names, owner)
    ensures name.None? ==> Owned(names + [name], owner)
    ensures name.Some? && name.value in owner ==> !Unique(names + [name])
    ensures name.Some? && name.value !in owner ==> Owned(names + [name], owner[name.value := layer])
  {
    if name.Some? && name.value in owner {
      var j :| 0 <= j < |names| && names[j] == name;
      assert (names + [name])[j] == (names + [name])[|names|];
    }
  }

  /** One layer's names; an error when one of them is taken. */
  method OwnNames(before: Names, names: Names, layer: nat, owner: map<string, nat>)
    returns (r: Option<map<string, nat>>)
    requires Owned(before, owner)
    ensures r.Some? ==> Owned(before + names, r.value)
    ensures r.None? ==> !Unique(before + names)
  {
    hide Owned, Unique;
    var owned: map<string, nat> := owner;
    assert before + names[..0] == before;
    for k := 0 to |names|
      invariant Owned(before + names[..k], owned)
    {
      var name := names[k];
      OwnedMore(before + names[..k], owned, name, layer);
      assert before + names[..k + 1] == (before + names[..k]) + [name];
      if name.Some? {
        if name.value in owned {
          RepeatedStays(before + names[..k + 1], names[k + 1..]);
          assert before + names == (before + names[..k + 1]) + names[k + 1..];
          return None;
        }
        owned := owned[name.value := layer];
      }
    }
    assert names[..|names|] == names;
    return Some(owned);
  }

  /** ComposedJudges and ComposedChainIDs: the ids of the chain, unless one is declared twice. */
  method ComposedNames(layers: seq<Names>) returns (r: Result<set<string>>)
    ensures r.Ok? <==> Unique(Flat(layers))
    ensures r.Ok? ==> forall id :: id in r.value <==> Some(id) in Flat(layers)
  {
    var owner: map<string, nat> := map[];
    for i := 0 to |layers|
      invariant Owned(Flat(layers[..i]), owner)
    {
      assert layers[..i + 1][..i] == layers[..i];
      var owned := OwnNames(Flat(layers[..i]), layers[i], i, owner);
      if owned.None? {
        RepeatedInWhole(layers, i + 1);
        return Err("declared twice");
      }
      owner := owned.value;
    }
    assert layers[..|layers|] == layers;
    return Ok(owner.Keys);
  }

  lemma {:induction false} RepeatedStays(names: Names, more: Names)
    requires !Unique(names)
    ensures !Unique(names + more)
  {
    var i, j :| 0 <= i < j < |names| && names[i].Some? && names[i] == names[j];
    assert (names + more)[i] == (names + more)[j];
  }

  lemma {:induction false} RepeatedInWhole(layers: seq<Names>, n: nat)
    requires n <= |layers| && !Unique(Flat(layers[..n]))
    ensures !Unique(Flat(layers))
    decreases |layers| - n
  {
    if n == |layers| {
      assert layers[..n] == layers;
    } else {
      assert layers[..n + 1][..n] == layers[..n];
      RepeatedStays(Flat(layers[..n]), layers[n]);
      RepeatedInWhole(layers, n + 1);
    }
  }

  function JudgesOf(layers: seq<Doc>): (r: seq<Names>)
    ensures |r| == |layers|
  {
    seq(|layers|, i requires 0 <= i < |layers| => JudgeNames(LeavesOf(layers[i])))
  }

  function ChainIdsOf(layers: seq<Doc>): (r: seq<Names>)
    ensures |r| == |layers|
  {
    seq(|layers|, i requires 0 <= i < |layers| => ChainNames(layers[i].chains))
  }

  /** The composed document answers to exactly the judge and chain ids the checkers saw. */
  lemma {:induction false} CompositionKeepsNames(layers: seq<Doc>, doc: Doc)
    requires IsComposition(layers, doc)
    ensures JudgeNames(LeavesOf(doc)) == Flat(JudgesOf(layers))
    ensures ChainNames(doc.chains) == Flat(ChainIdsOf(layers))
  {
    hide IsMergedField;
    LeavesOfComposition(layers, doc);
    NamesOfLayers(layers);
  }

  lemma {:induction false} NamesConcat(a: seq<Leaf>, b: seq<Leaf>, c: seq<Chain>, d: seq<Chain>)
    ensures JudgeNames(a + b) == JudgeNames(a) + JudgeNames(b)
    ensures ChainNames(c + d) == ChainNames(c) + ChainNames(d)
  {
  }

  lemma {:induction false} NamesOfLayers(layers: seq<Doc>)
    ensures JudgeNames(Leaves(layers)) == Flat(JudgesOf(layers))
    ensures ChainNames(Chains(layers)) == Flat(ChainIdsOf(layers))
  {
    if layers != [] {
      hide JudgeNames, ChainNames, LeavesOf;
      var front, last := layers[..|layers| - 1], layers[|layers| - 1];
      NamesOfLayers(front);
      NamesConcat(Leaves(front), LeavesOf(last), Chains(front), last.chains);
      assert JudgesOf(layers)[..|layers| - 1] == JudgesOf(front);
      assert ChainIdsOf(layers)[..|layers| - 1] == ChainIdsOf(front);
    }
  }

  // ---- following extends ----------------------------------------------------------------------------

  /** Where a declaration's own extends leads, resolved in its own namespace. */
  datatype Base = NoBase | BaseIs(address: string) | Unresolved

  type Links = map<string, Base>

  function LinkOf(links: Links, address: string): Base {
    if address in links then links[address] else NoBase
  }

  /** The chain that def extends, root first: the root extends nothing, everyone else the one before. */
  ghost predicate IsChain(links: Links, def: string, chain: seq<string>) {
    var whole := chain + [def];
    LinkOf(links, whole[0]) == NoBase &&
    forall i :: 0 < i < |whole| ==> LinkOf(links, whole[i]) == BaseIs(whole[i - 1])
  }

  /** A set of declarations that extends never leads out of, and none of which is a root. */
  ghost predicate Trap(links: Links, set': set<string>) {
    forall a :: a in set' ==>
      match LinkOf(links, a)
      case NoBase => false
      case BaseIs(b) => b in set'
      case Unresolved => true
  }

  lemma {:induction false} TrapsHaveNoChain(links: Links, trap: set<string>, def: string, chain: seq<string>)
    requires Trap(links, trap) && def in trap
    ensures !IsChain(links, def, chain)
    decreases |chain|
  {
    if chain == [] {
      assert (chain + [def])[0] == def;
    } else {
      var base := chain[|chain| - 1];
      var whole := chain + [def];
      assert whole[|chain|] == def && whole[|chain| - 1] == base;
      if LinkOf(links, def) == BaseIs(base) {
        var front := chain[..|chain| - 1];
        TrapsHaveNoChain(links, trap, base, front);
        assert front + [base] == chain;
        assert forall i :: 0 <= i < |chain| ==> whole[i] == chain[i];
      }
    }
  }

  /** The walk so far: from def outward, each the base of the one before. */
  ghost predicate WalksOut(links: Links, def: string, outward: seq<string>, cur: string, seen: set<string>) {
    var path := [def] + outward;
    && path[|outward|] == cur
    && (forall i :: 0 <= i < |outward| ==> LinkOf(links, path[i]) == BaseIs(path[i + 1]))
    && (forall a :: a in seen <==> a in path)
  }

  lemma {:induction false} WalkedChain(links: Links, def: string, outward: seq<string>, cur: string, seen: set<string>,
                                       chain: seq<string>)
    requires WalksOut(links, def, outward, cur, seen) && LinkOf(links, cur) == NoBase
    requires |chain| == |outward| && forall i :: 0 <= i < |chain| ==> chain[|chain| - 1 - i] == outward[i]
    ensures IsChain(links, def, chain)
  {
    var path, whole := [def] + outward, chain + [def];
    assert forall i :: 0 <= i < |whole| ==> whole[i] == path[|outward| - i];
    forall i | 0 < i < |whole| ensures LinkOf(links, whole[i]) == BaseIs(whole[i - 1]) {
      assert LinkOf(links, path[|outward| - i]) == BaseIs(path[|outward| - i + 1]);
    }
  }

  lemma {:induction false} WalkedTrap(links: Links, def: string, outward: seq<string>, cur: string, seen: set<string>)
    requires WalksOut(links, def, outward, cur, seen)
    requires LinkOf(links, cur).Unresolved? || (LinkOf(links, cur).BaseIs? && LinkOf(links, cur).address in seen)
    ensures forall chain :: !IsChain(links, def, chain)
  {
    var path := [def] + outward;
    forall a | a in seen
      ensures match LinkOf(links, a)
              case NoBase => false
              case BaseIs(b) => b in seen
              case Unresolved => true
    {
      var i :| 0 <= i < |path| && path[i] == a;
      if i < |outward| {
        assert path[i + 1] in path;
      }
    }
    assert path[0] == def;
    forall chain ensures !IsChain(links, def, chain) {
      TrapsHaveNoChain(links, seen, def, chain);
    }
  }

  /** ExtendsChain: an error exactly when following extends never arrives at a root. */
  method ExtendsChain(links: Links, def: string) returns (r: Result<seq<string>>)
    ensures r.Ok? ==> IsChain(links, def, r.value)
    ensures r.Err? ==> forall chain :: !IsChain(links, def, chain)
  {
    var outward: seq<string>, seen, cur := [], {def}, def;
    ghost var left := links.Keys;
    while true
      invariant WalksOut(links, def, outward, cur, seen)
      invariant left <= links.Keys && forall a :: a in links.Keys - left ==> a in seen
      invariant forall a :: a in seen && a != cur ==> a !in left
      invariant cur in links ==> cur in left
      decreases left
    {
      var link := LinkOf(links, cur);
      if link == NoBase {
        break;
      }
      if link.Unresolved? || link.address in seen {
        WalkedTrap(links, def, outward, cur, seen);
        return Err("unresolved or cyclic");
      }
      left := left - {cur};
      assert [def] + (outward + [link.address]) == ([def] + outward) + [link.address];
      seen := seen + {link.address};
      outward := outward + [link.address];
      cur := link.address;
    }
    var chain := seq(|outward|, i requires 0 <= i < |outward| => outward[|outward| - 1 - i]);
    WalkedChain(links, def, outward, cur, seen, chain);
    return Ok(chain);
  }

  lemma {:induction false} ChainIsUnique(links: Links, def: string, a: seq<string>, b: seq<string>)
    requires IsChain(links, def, a) && IsChain(links, def, b)
    ensures a == b
    decreases |a|
  {
    assert (a + [def])[|a|] == def && (b + [def])[|b|] == def;
    if a != [] {
      ChainOfBase(links, def, a);
    }
    if b != [] {
      ChainOfBase(links, def, b);
    }
    if a != [] && b != [] {
      var base := a[|a| - 1];
      ChainIsUnique(links, base, a[..|a| - 1], b[..|b| - 1]);
      assert a == a[..|a| - 1] + [base] && b == b[..|b| - 1] + [base];
    }
  }

  /** The chain of the base is the chain without it. */
  lemma {:induction false} ChainOfBase(links: Links, def: string, chain: seq<string>)
    requires IsChain(links, def, chain) && chain != []
    ensures LinkOf(links, def) == BaseIs(chain[|chain| - 1])
    ensures IsChain(links, chain[|chain| - 1], chain[..|chain| - 1])
  {
    var base, front, whole := chain[|chain| - 1], chain[..|chain| - 1], chain + [def];
    assert whole[|chain|] == def && whole[|chain| - 1] == base;
    assert front + [base] == chain;
    assert forall i :: 0 <= i < |chain| ==> whole[i] == chain[i];
  }

  // ---- all documents ------------------------------------------------------------------------------------

  type Docs = map<string, Doc>

  function LayersAt(docs: Docs, addresses: seq<string>): (r: seq<Doc>)
    requires forall i :: 0 <= i < |addresses| ==> addresses[i] in docs
    ensures |r| == |addresses| && forall i :: 0 <= i < |r| ==> r[i] == docs[addresses[i]]
  {
    seq(|addresses|, i requires 0 <= i < |addresses| => docs[addresses[i]])
  }

  /** A real chain may not point a schema at a sidecar file. */
  ghost predicate NoSchemaFiles(layers: seq<Doc>) {
    |layers| < 2 || forall i :: 0 <= i < |layers| ==> !layers[i].schemaFile
  }

  ghost predicate Composable(layers: seq<Doc>) {
    && NoSchemaFiles(layers)
    && RulesHold(InputsOf(layers)) && RulesHold(StatesOf(layers))
    && Unique(Flat(JudgesOf(layers))) && Unique(Flat(ChainIdsOf(layers)))
  }

  // ---- the names of a chain, leaf by leaf ---------------------------------------------------

  /** The a-th leaf of layer i is a judge that answers to the id. */
  ghost predicate JudgeAt(layers: seq<Doc>, i: int, a: int, id: string) {
    && 0 <= i < |layers| && layers[i].doneWhen.Some? && 0 <= a < |layers[i].doneWhen.value.all|
    && var leaf := layers[i].doneWhen.value.all[a];
    leaf.judge && leaf.id == id && id != ""
  }

  ghost predicate ChainIdAt(layers: seq<Doc>, i: int, a: int, id: string) {
    0 <= i < |layers| && 0 <= a < |layers[i].chains| && layers[i].chains[a].id == id && id != ""
  }

  ghost predicate NoJudgeTwice(layers: seq<Doc>) {
    forall i, a, j, b, id :: JudgeAt(layers, i, a, id) && JudgeAt(layers, j, b, id) ==> i == j && a == b
  }

  ghost predicate NoChainIdTwice(layers: seq<Doc>) {
    forall i, a, j, b, id :: ChainIdAt(layers, i, a, id) && ChainIdAt(layers, j, b, id) ==> i == j && a == b
  }

  ghost predicate NameAt(parts: seq<Names>, i: int, a: int, id: string) {
    0 <= i < |parts| && 0 <= a < |parts[i]| && parts[i][a] == Some(id)
  }

  ghost predicate NoNameTwice(parts: seq<Names>) {
    forall i, a, j, b, id :: NameAt(parts, i, a, id) && NameAt(parts, j, b, id) ==> i == j && a == b
  }

  lemma {:induction false} FlatConcatenates(parts: seq<Names>)
    ensures Concatenates(parts, Flat(parts))
  {
    if parts != [] {
      var n := |parts| - 1;
      FlatConcatenates(parts[..n]);
      ConcatenatesMore(parts[..n], Flat(parts[..n]), parts[n]);
      assert parts[..n] + [parts[n]] == parts;
    }
  }

  lemma {:induction false} StartsAscend<T>(parts: seq<seq<T>>, i: nat, j: nat)
    requires i <= j <= |parts|
    ensures StartOf(parts, i) <= StartOf(parts, j)
  {
    if i < j {
      StartsAscend(parts, i, j - 1);
    }
  }

  /** Every place in a concatenation is a place in one of the parts. */
  lemma {:induction false} PlaceInPart<T>(parts: seq<seq<T>>, p: nat, n: nat) returns (i: nat, a: nat)
    requires n <= |parts| && p < StartOf(parts, n)
    ensures i < n && a < |parts[i]| && p == StartOf(parts, i) + a
  {
    if p < StartOf(parts, n - 1) {
      i, a := PlaceInPart(parts, p, n - 1);
    } else {
      i, a := n - 1, p - StartOf(parts, n - 1);
    }
  }

  lemma {:induction false} PartPlace<T>(parts: seq<seq<T>>, whole: seq<T>, i: nat, a: nat)
    requires Concatenates(parts, whole) && i < |parts| && a < |parts[i]|
    ensures StartOf(parts, i) + a < |whole| && whole[StartOf(parts, i) + a] == parts[i][a]
  {
    assert PartAt(parts, whole, i);
    assert whole[StartOf(parts, i)..StartOf(parts, i + 1)][a] == parts[i][a];
  }

  lemma {:induction false} UniqueIffNoNameTwice(parts: seq<Names>)
    ensures Unique(Flat(parts)) <==> NoNameTwice(parts)
  {
    hide Concatenates;
    var whole := Flat(parts);
    FlatConcatenates(parts);
    ConcatenationLength(parts, whole);
    if Unique(whole) {
      forall i, a, j, b, id | NameAt(parts, i, a, id) && NameAt(parts, j, b, id) ensures i == j && a == b {
        PartPlace(parts, whole, i, a);
        PartPlace(parts, whole, j, b);
        if i < j {
          StartsAscend(parts, i + 1, j);
        } else if j < i {
          StartsAscend(parts, j + 1, i);
        }
      }
    }
    if NoNameTwice(parts) {
      forall p, q | 0 <= p < q < |whole| && whole[p].Some? ensures whole[p] != whole[q] {
        var i, a := PlaceInPart(parts, p, |parts|);
        var j, b := PlaceInPart(parts, q, |parts|);
        PartPlace(parts, whole, i, a);
        PartPlace(parts, whole, j, b);
        assert NameAt(parts, i, a, whole[p].value);
        assert whole[p] == whole[q] ==> NameAt(parts, j, b, whole[p].value);
      }
    }
  }

  /** The chain passes the checks of its names exactly when no judge and no chain id stands in it twice. */
  lemma {:induction false} NamesAreChecked(layers: seq<Doc>)
    ensures Unique(Flat(JudgesOf(layers))) <==> NoJudgeTwice(layers)
    ensures Unique(Flat(ChainIdsOf(layers))) <==> NoChainIdTwice(layers)
  {
    hide Unique, Flat;
    UniqueIffNoNameTwice(JudgesOf(layers));
    UniqueIffNoNameTwice(ChainIdsOf(layers));
    forall i, a, id ensures NameAt(JudgesOf(layers), i, a, id) <==> JudgeAt(layers, i, a, id) {
    }
    forall i, a, id ensures NameAt(ChainIdsOf(layers), i, a, id) <==> ChainIdAt(layers, i, a, id) {
    }
  }

  method RejectSchemaFileInChain(layers: seq<Doc>) returns (ok: bool)
    ensures ok <==> NoSchemaFiles(layers)
  {
    if |layers| < 2 {
      return true;
    }
    for i := 0 to |layers|
      invariant forall j :: 0 <= j < i ==> !layers[j].schemaFile
    {
      if layers[i].schemaFile {
        return false;
      }
    }
    return true;
  }

  method CheckComposable(layers: seq<Doc>) returns (ok: bool)
    ensures ok <==> Composable(layers)
  {
    hide RulesHold, Unique, NoSchemaFiles;
    ok := RejectSchemaFileInChain(layers);
    if !ok { return; }
    var inputs := SchemaKeyRules(InputsOf(layers));
    if inputs.Err? { return false; }
    var state := SchemaKeyRules(StatesOf(layers));
    if state.Err? { return false; }
    var judges := ComposedNames(JudgesOf(layers));
    if judges.Err? { return false; }
    var chains := ComposedNames(ChainIdsOf(layers));
    return chains.Ok?;
  }

  ghost predicate Loaded(docs: Docs, addresses: seq<string>) {
    forall i :: 0 <= i < |addresses| ==> addresses[i] in docs
  }

  /** The document at an address can be composed: its chain is loaded and passes every rule. */
  ghost predicate ComposableAt(docs: Docs, links: Links, address: string) {
    LinkOf(links, address) != NoBase ==>
      exists chain ::
        IsChain(links, address, chain) && Loaded(docs, chain + [address])
        && Composable(LayersAt(docs, chain + [address]))
  }

  /** What becomes of one document: it stays, or is composed from its chain's own, single-layer documents. */
  ghost predicate ComposedAt(docs: Docs, links: Links, address: string, doc: Doc)
    requires address in docs
  {
    if LinkOf(links, address) == NoBase then doc == docs[address]
    else exists chain ::
      IsChain(links, address, chain) && Loaded(docs, chain + [address]) &&
      IsComposition(LayersAt(docs, chain + [address]), doc)
  }

  /** The document at an address has the observer of the root of its chain, and the rest from its layers. */
  ghost predicate InheritsAt(docs: Docs, links: Links, address: string, doc: Doc)
    requires address in docs
  {
    if LinkOf(links, address) == NoBase then doc == docs[address]
    else forall chain :: IsChain(links, address, chain) ==>
           && chain != [] && Loaded(docs, chain + [address])
           && doc.observer == docs[chain[0]].observer
           && Inherits(LayersAt(docs, chain + [address]), doc)
  }

  lemma {:induction false} ComposedInherits(docs: Docs, links: Links, address: string, doc: Doc)
    requires address in docs && ComposedAt(docs, links, address, doc)
    ensures InheritsAt(docs, links, address, doc)
  {
    hide IsChain, IsComposition, Inherits;
    if LinkOf(links, address) != NoBase {
      var same := ChainOfComposed(docs, links, address, doc);
      CompositionInherits(LayersAt(docs, same + [address]), doc);
      RootsObserver(LayersAt(docs, same + [address]), doc);
      forall chain | IsChain(links, address, chain) ensures chain == same && chain != [] {
        ChainIsUnique(links, address, chain, same);
        ChainIsNotEmpty(links, address, chain);
      }
    }
  }

  lemma {:induction false} RootsObserver(layers: seq<Doc>, doc: Doc)
    requires layers != [] && Inherits(layers, doc)
    ensures doc.observer == layers[0].observer
  {
  }

  class Catalog {
    var docs: Docs

    constructor (docs: Docs)
      ensures this.docs == docs
    {
      this.docs := docs;
    }

    /** Every document is composed from the documents as they were loaded; the first error ends the load. */
    method ComposeExtendedTaskDocuments(links: Links) returns (ok: bool)
      modifies this
      ensures docs.Keys == old(docs).Keys
      ensures ok <==> forall a :: a in old(docs) ==> ComposableAt(old(docs), links, a)
      ensures ok ==> forall a :: a in docs ==> ComposedAt(old(docs), links, a, docs[a])
      ensures ok ==> forall a :: a in docs ==> InheritsAt(old(docs), links, a, docs[a])
    {
      hide InheritsAt, Sorted, ComposableAt, ComposedAt, SoFar;
      var original := docs;
      var addresses := Sorted(docs.Keys);
      assert forall a :: a in addresses <==> a in original.Keys;
      NoneSoFar(original, links, addresses);
      for k := 0 to |addresses|
        invariant docs.Keys == original.Keys && SoFar(original, links, addresses, k, docs)
      {
        assert addresses[k] in addresses;
        var composed := ComposeDocument(original, links, addresses[k]);
        if composed.Err? {
          return false;
        }
        OneMoreSoFar(original, links, addresses, k, docs, composed.value);
        docs := docs[addresses[k] := composed.value];
      }
      AllSoFar(original, links, addresses, docs);
      forall a | a in docs ensures InheritsAt(original, links, a, docs[a]) {
        ComposedInherits(original, links, a, docs[a]);
      }
      return true;
    }
  }

  /** The first k addresses are done; the others still hold what was loaded. */
  ghost predicate SoFar(original: Docs, links: Links, addresses: seq<string>, k: nat, docs: Docs)
    requires k <= |addresses|
  {
    && Ascending(addresses) && docs.Keys == original.Keys && (forall a :: a in addresses <==> a in original)
    && forall l :: 0 <= l < |addresses| ==>
         if l < k
         then
           && ComposableAt(original, links, addresses[l])
           && ComposedAt(original, links, addresses[l], docs[addresses[l]])
         else docs[addresses[l]] == original[addresses[l]]
  }

  lemma {:induction false} NoneSoFar(original: Docs, links: Links, addresses: seq<string>)
    requires Ascending(addresses) && forall a :: a in addresses <==> a in original.Keys
    ensures SoFar(original, links, addresses, 0, original)
  {
  }

  lemma {:induction false} OneMoreSoFar(original: Docs, links: Links, addresses: seq<string>, k: nat, docs: Docs,
                                        doc: Doc)
    requires k < |addresses| && SoFar(original, links, addresses, k, docs)
    requires ComposableAt(original, links, addresses[k]) && addresses[k] in original
    requires ComposedAt(original, links, addresses[k], doc)
    ensures SoFar(original, links, addresses, k + 1, docs[addresses[k] := doc])
  {
    hide ComposableAt, ComposedAt;
    AscendingHasNoRepeats(addresses);
    hide Ascending;
  }

  lemma {:induction false} AllSoFar(original: Docs, links: Links, addresses: seq<string>, docs: Docs)
    requires SoFar(original, links, addresses, |addresses|, docs)
    ensures forall a :: a in original ==> ComposableAt(original, links, a) && ComposedAt(original, links, a, docs[a])
  {
    hide ComposableAt, ComposedAt;
    forall a | a in original ensures ComposableAt(original, links, a) && ComposedAt(original, links, a, docs[a]) {
      assert a in addresses;
      var l :| 0 <= l < |addresses| && addresses[l] == a;
    }
  }

  method ComposeDocument(original: Docs, links: Links, address: string) returns (r: Result<Doc>)
    requires address in original
    ensures r.Ok? <==> ComposableAt(original, links, address)
    ensures r.Ok? ==> ComposedAt(original, links, address, r.value)
  {
    hide IsChain, Composable, IsComposition;
    if LinkOf(links, address) == NoBase {
      return Ok(original[address]);
    }
    var chain := ExtendsChain(links, address);
    if chain.Err? {
      return Err(chain.message);
    }
    forall other | IsChain(links, address, other) ensures other == chain.value {
      ChainIsUnique(links, address, chain.value, other);
    }
    var addresses := chain.value + [address];
    for i := 0 to |addresses|
      invariant forall j :: 0 <= j < i ==> addresses[j] in original
    {
      if addresses[i] !in original {
        return Err("chain reaches a definition outside the loaded documents");
      }
    }
    var layers := LayersAt(original, addresses);
    var ok := CheckComposable(layers);
    if !ok {
      return Err("rules");
    }
    var composed := ComposeTaskDocument(layers);
    return Ok(composed);
  }

  /** The result does not depend on the order in which the addresses are visited. */
  lemma {:induction false} OrderNeverMatters(docs: Docs, links: Links, address: string, a: Doc, b: Doc)
    requires address in docs && ComposedAt(docs, links, address, a) && ComposedAt(docs, links, address, b)
    ensures a == b
  {
    hide IsComposition, IsChain;
    if LinkOf(links, address) != NoBase {
      var chain :| IsChain(links, address, chain) && Loaded(docs, chain + [address]) &&
        IsComposition(LayersAt(docs, chain + [address]), a);
      var other :| IsChain(links, address, other) && Loaded(docs, other + [address]) &&
        IsComposition(LayersAt(docs, other + [address]), b);
      ChainIsUnique(links, address, chain, other);
      CompositionIsUnique(LayersAt(docs, chain + [address]), a, b);
    }
  }

  lemma {:induction false} ChainOfComposed(docs: Docs, links: Links, address: string, doc: Doc)
    returns (chain: seq<string>)
    requires address in docs && LinkOf(links, address) != NoBase && ComposedAt(docs, links, address, doc)
    ensures IsChain(links, address, chain) && Loaded(docs, chain + [address])
    ensures IsComposition(LayersAt(docs, chain + [address]), doc)
  {
    hide IsComposition, IsChain;
    chain :| IsChain(links, address, chain) && Loaded(docs, chain + [address]) &&
      IsComposition(LayersAt(docs, chain + [address]), doc);
  }

  lemma {:induction false} LayersBefore(docs: Docs, chain: seq<string>, address: string)
    requires Loaded(docs, chain + [address])
    ensures Loaded(docs, chain) && address in docs
    ensures LayersAt(docs, chain + [address]) == LayersAt(docs, chain) + [docs[address]]
  {
    assert forall i :: 0 <= i < |chain| ==> chain[i] == (chain + [address])[i];
    assert (chain + [address])[|chain|] == address;
  }

  /** Composing onto the base's already composed document gives the same as composing the whole chain. */
  lemma {:induction false} ComposingOntoTheBase(docs: Docs, links: Links, address: string, composed: Doc, base: Doc,
                                                stepwise: Doc)
    requires address in docs && LinkOf(links, address).BaseIs?
    requires ComposedAt(docs, links, address, composed)
    requires LinkOf(links, address).address in docs && ComposedAt(docs, links, LinkOf(links, address).address, base)
    requires IsComposition([base, docs[address]], stepwise)
    ensures SameButLayers(stepwise, composed)
  {
    hide IsComposition, LinkOf;
    var at := LinkOf(links, address).address;
    var chain := ChainOfComposed(docs, links, address, composed);
    LayersBefore(docs, chain, address);
    ChainIsNotEmpty(links, address, chain);
    ChainOfBase(links, address, chain);
    hide IsChain;
    var front := chain[..|chain| - 1];
    assert front + [at] == chain;
    if LinkOf(links, at) == NoBase {
      assert base == docs[at];
      BaseIsRoot(links, at, front);
      assert LayersAt(docs, chain) == [docs[at]];
      assert LayersAt(docs, chain + [address]) == [base, docs[address]];
      CompositionIsUnique([base, docs[address]], stepwise, composed);
    } else {
      hide ComposedAt;
      var other := ChainOfComposed(docs, links, at, base);
      ChainIsUnique(links, at, front, other);
      ComposesInTwoSteps(LayersAt(docs, chain), base, docs[address], stepwise, composed);
    }
  }

  lemma {:induction false} ChainIsNotEmpty(links: Links, def: string, chain: seq<string>)
    requires IsChain(links, def, chain) && LinkOf(links, def) != NoBase
    ensures chain != []
  {
    assert (chain + [def])[|chain|] == def;
  }

  lemma {:induction false} BaseIsRoot(links: Links, at: string, chain: seq<string>)
    requires IsChain(links, at, chain) && LinkOf(links, at) == NoBase
    ensures chain == []
  {
    if chain != [] {
      ChainOfBase(links, at, chain);
    }
  }

  ghost predicate AgreesWithRules(schemas: seq<Schema>, merged: Schema) {
    && Props(merged).Keys == DeclaredKeys(schemas)
    && (forall key :: KeepsEveryWord(schemas, |schemas|, key, Entry(Props(merged), key)))
    && forall i :: 0 <= i < |schemas| && TypeOf(schemas[i]).Some? ==> TypeOf(merged) == TypeOf(schemas[i])
  }

  /** A loaded document keeps everything its checkers vouched for. */
  lemma {:induction false} LoadedDocumentsAgree(docs: Docs, links: Links, address: string, doc: Doc, chain: seq<string>)
    requires address in docs && LinkOf(links, address) != NoBase
    requires ComposableAt(docs, links, address) && ComposedAt(docs, links, address, doc)
    requires IsChain(links, address, chain)
    ensures Loaded(docs, chain + [address])
    ensures Unique(JudgeNames(LeavesOf(doc))) && Unique(ChainNames(doc.chains))
    ensures var layers := LayersAt(docs, chain + [address]);
            && (TableValued(InputsOf(layers)) ==> AgreesWithRules(InputsOf(layers), doc.inputsSchema))
            && (TableValued(StatesOf(layers)) ==> AgreesWithRules(StatesOf(layers), doc.stateSchema))
  {
    hide IsChain, IsMergedField, RulesHold, Unique, KeepsEveryWord, TableValued;
    var same := ChainOfComposed(docs, links, address, doc);
    ChainIsUnique(links, address, chain, same);
    var other :| IsChain(links, address, other) && Loaded(docs, other + [address]) &&
      Composable(LayersAt(docs, other + [address]));
    ChainIsUnique(links, address, chain, other);
    var layers := LayersAt(docs, chain + [address]);
    CompositionKeepsNames(layers, doc);
    if TableValued(InputsOf(layers)) {
      MergeAgreesWithRules(InputsOf(layers), doc.inputsSchema);
    }
    if TableValued(StatesOf(layers)) {
      MergeAgreesWithRules(StatesOf(layers), doc.stateSchema);
    }
  }
}
