/**
 * Setting a nesting chain up from the outside in and unwinding it from the inside out
 * (app/internal/effect/layer_run.go). Running a process, resolving an action and rendering a
 * joint are answered by a host that may answer anything.
 */
module LayerRun {
  import opened Wrappers
  import opened SortedNames
  import opened NestedOutputs
  import NestingChecks

  /** One variable of a process environment, rendered NAME=VALUE. */
  datatype Assignment = Assignment(name: string, value: string)

  type Env = map<string, string>

  /** One compiled layer; a schema, where there is one, accepts or refuses a whole object. */
  datatype Step = Step(
    layer: Layer,
    setup: bool,
    cleanup: bool,
    innerEnv: set<string>,
    inputsSchema: Option<Outputs -> bool>,
    localsSchema: Option<Outputs -> bool>,
    outputsSchema: Option<Outputs -> bool>)

  datatype Status = Produced | Failed | Cleaned

  datatype Record = Record(effectID: string, inputs: Outputs, locals: Outputs, outputs: Outputs, env: Env,
                           status: Status)

  ghost predicate Accepts(schema: Option<Outputs -> bool>, values: Outputs) {
    schema.Some? ==> schema.value(values)
  }

  // ---- the environment of the layers outside ---------------------------------------------

  /** envAssignments: sorted, one per variable. */
  ghost function Assignments(env: Env): (r: seq<Assignment>)
    ensures |r| == |env.Keys|
  {
    var keys := Sorted(env.Keys);
    seq(|keys|, i requires 0 <= i < |keys| => Assignment(keys[i], env[keys[i]]))
  }

  ghost function EnclosingEnv(states: seq<Record>, i: nat): seq<Assignment>
    requires i <= |states|
  {
    if i == 0 then [] else EnclosingEnv(states, i - 1) + Assignments(states[i - 1].env)
  }

  method EnclosingEnvOf(states: seq<Record>, i: nat) returns (env: seq<Assignment>)
    requires i <= |states|
    ensures env == EnclosingEnv(states, i)
  {
    env := [];
    for j := 0 to i
      invariant env == EnclosingEnv(states, j)
    {
      var assignments := EnvAssignments(states[j].env);
      env := env + assignments;
    }
  }

  method EnvAssignments(env: Env) returns (r: seq<Assignment>)
    ensures r == Assignments(env)
  {
    if |env| == 0 {
      return [];
    }
    var keys := Sorted(env.Keys);
    r := [];
    for k := 0 to |keys|
      invariant r == Assignments(env)[..k]
    {
      r := r + [Assignment(keys[k], env[keys[k]])];
    }
  }

  /** Where the variables of layer j begin among those of the layers outside it. */
  ghost function Offset(states: seq<Record>, j: nat): nat
    requires j <= |states|
  {
    if j == 0 then 0 else Offset(states, j - 1) + |states[j - 1].env|
  }

  /** The variables of one layer, all of them and in ascending order of their names. */
  ghost predicate Renders(env: Env, block: seq<Assignment>) {
    && (forall a, b :: 0 <= a < b < |block| ==> Before(block[a].name, block[b].name))
    && (forall a :: a in block <==> a.name in env && env[a.name] == a.value)
  }

  /** The layers' variables stand one layer after the other, outermost first. */
  lemma {:induction false} EnclosingEnvIs(states: seq<Record>, i: nat, j: nat)
    requires j < i <= |states|
    ensures |EnclosingEnv(states, i)| == Offset(states, i)
    ensures Offset(states, j) <= Offset(states, j + 1) <= Offset(states, i)
    ensures Renders(states[j].env, EnclosingEnv(states, i)[Offset(states, j)..Offset(states, j + 1)])
    decreases i
  {
    hide Renders, Assignments;
    var front := EnclosingEnv(states, i - 1);
    if i > 1 {
      EnclosingEnvIs(states, i - 1, if j < i - 1 then j else i - 2);
    }
    AssignmentsRender(states[i - 1].env);
    if j == i - 1 {
      assert EnclosingEnv(states, i)[Offset(states, j)..Offset(states, j + 1)] == Assignments(states[i - 1].env);
    } else {
      assert EnclosingEnv(states, i)[Offset(states, j)..Offset(states, j + 1)] ==
             front[Offset(states, j)..Offset(states, j + 1)];
    }
  }

  lemma {:induction false} AssignmentsRender(env: Env)
    ensures Renders(env, Assignments(env)) && |Assignments(env)| == |env|
  {
    var keys, block := Sorted(env.Keys), Assignments(env);
    forall a: Assignment | a.name in env && env[a.name] == a.value ensures a in block {
      assert a.name in keys;
      var k :| 0 <= k < |keys| && keys[k] == a.name;
      assert block[k] == a;
    }
    forall a | a in block ensures a.name in env && env[a.name] == a.value {
      var k :| 0 <= k < |keys| && block[k] == a;
      assert keys[k] in env.Keys;
    }
  }

  lemma {:induction false} EnclosingEnvIsStable(a: seq<Record>, b: seq<Record>, i: nat)
    requires i <= |a| && i <= |b| && forall j :: 0 <= j < i ==> a[j].env == b[j].env
    ensures EnclosingEnv(a, i) == EnclosingEnv(b, i)
  {
    hide Assignments;
    if i > 0 {
      EnclosingEnvIsStable(a, b, i - 1);
      assert EnclosingEnv(a, i) == EnclosingEnv(a, i - 1) + Assignments(a[i - 1].env);
      assert EnclosingEnv(b, i) == EnclosingEnv(b, i - 1) + Assignments(b[i - 1].env);
    }
  }

  /** No variable is given twice. */
  ghost predicate EachOnce(env: seq<Assignment>) {
    forall a, b :: 0 <= a < b < |env| ==> env[a].name != env[b].name
  }

  lemma {:induction false} AssignmentsAre(env: Env)
    ensures forall a :: a in Assignments(env) ==> a.name in env && env[a.name] == a.value
    ensures EachOnce(Assignments(env))
  {
    var keys := Sorted(env.Keys);
    AscendingHasNoRepeats(keys);
    assert forall a :: 0 <= a < |keys| ==> keys[a] in env.Keys;
  }

  lemma {:induction false} EachOnceTogether(front: seq<Assignment>, last: seq<Assignment>, env: Env)
    requires EachOnce(front) && EachOnce(last)
    requires forall a :: a in front ==> a.name !in env
    requires forall a :: a in last ==> a.name in env
    ensures EachOnce(front + last)
  {
  }

  ghost predicate AssignedBy(states: seq<Record>, i: nat, a: Assignment)
    requires i <= |states|
  {
    exists j :: 0 <= j < i && a.name in states[j].env && states[j].env[a.name] == a.value
  }

  ghost predicate DistinctNames(states: seq<Record>) {
    forall a, b, k :: 0 <= a < |states| && 0 <= b < |states| && k in states[a].env && k in states[b].env ==> a == b
  }

  lemma {:induction false} NotAgain(states: seq<Record>, i: nat, a: Assignment)
    requires i < |states| && DistinctNames(states) && AssignedBy(states, i, a)
    ensures a.name !in states[i].env && AssignedBy(states, i + 1, a)
  {
  }

  /** A chain whose layers inject different names never assigns one twice. */
  lemma {:induction false} NoNameIsAssignedTwice(states: seq<Record>, i: nat)
    requires i <= |states| && DistinctNames(states)
    ensures forall a :: a in EnclosingEnv(states, i) ==> AssignedBy(states, i, a)
    ensures EachOnce(EnclosingEnv(states, i))
  {
    hide Assignments, DistinctNames, EachOnce, AssignedBy, Sorted;
    if i == 0 {
      NoneAssignedTwice(states);
    } else {
      assert EnclosingEnv(states, i) == EnclosingEnv(states, i - 1) + Assignments(states[i - 1].env);
      NoNameIsAssignedTwice(states, i - 1);
      var front, last := EnclosingEnv(states, i - 1), Assignments(states[i - 1].env);
      AssignmentsAre(states[i - 1].env);
      forall a | a in front ensures AssignedBy(states, i, a) && a.name !in states[i - 1].env {
        NotAgain(states, i - 1, a);
      }
      forall a | a in last ensures AssignedBy(states, i, a) {
        AssignedLast(states, i, a);
      }
      EachOnceTogether(front, last, states[i - 1].env);
    }
  }

  lemma {:induction false} NoneAssignedTwice(states: seq<Record>)
    ensures EnclosingEnv(states, 0) == [] && EachOnce([])
  {
  }

  lemma {:induction false} AssignedLast(states: seq<Record>, i: nat, a: Assignment)
    requires 0 < i <= |states| && a.name in states[i - 1].env && states[i - 1].env[a.name] == a.value
    ensures AssignedBy(states, i, a)
  {
  }

  // ---- the host ---------------------------------------------------------------------------

  /** An action of a layer, and whether it resolved. */
  datatype Attempt = Attempt(layer: nat, self: Outputs, inputs: Outputs, resolved: bool)

  /** A process, and whether it succeeded; what a setup printed is kept, what a cleanup did is not read. */
  datatype Run = Run(layer: nat, env: seq<Assignment>, ok: bool, emitted: Outputs)

  /** What a joint hands to the layer inside. */
  datatype Rendering = Rendering(env: Env, inputs: Outputs)

  /** A joint, over what its values may read, and what became of it. */
  datatype Joint = Joint(inputs: Outputs, locals: Outputs, rendered: Option<Rendering>)

  /** Whatever is asked of it is kept, together with the answer. */
  class Host {
    ghost var attempts: seq<Attempt>  // actions resolved, or tried to be
    ghost var runs: seq<Run>          // processes run
    ghost var joints: seq<Joint>      // joints rendered, or tried to be

    constructor ()
      ensures attempts == [] && runs == [] && joints == []
    {
      attempts, runs, joints := [], [], [];
    }

    method Resolve(layer: nat, self: Outputs, inputs: Outputs) returns (ok: bool)
      modifies this`attempts
      ensures attempts == old(attempts) + [Attempt(layer, self, inputs, ok)]
    {
      ok := *;
      attempts := attempts + [Attempt(layer, self, inputs, ok)];
    }

    /** None when the process failed or its output did not parse. */
    method RunSetup(layer: nat, env: seq<Assignment>) returns (emitted: Option<Outputs>)
      modifies this`runs
      ensures runs == old(runs) + [Run(layer, env, emitted.Some?, if emitted.Some? then emitted.value else map[])]
    {
      emitted := *;
      runs := runs + [Run(layer, env, emitted.Some?, if emitted.Some? then emitted.value else map[])];
    }

    method RunCleanup(layer: nat, env: seq<Assignment>) returns (ok: bool)
      modifies this`runs
      ensures runs == old(runs) + [Run(layer, env, ok, map[])]
    {
      ok := *;
      runs := runs + [Run(layer, env, ok, map[])];
    }

    /** At most one variable for each declared name. */
    method Join(names: set<string>, inputs: Outputs, locals: Outputs) returns (rendered: Option<Rendering>)
      modifies this`joints
      ensures rendered.Some? ==> rendered.value.env.Keys <= names
      ensures joints == old(joints) + [Joint(inputs, locals, rendered)]
    {
      var ok: bool, env: Env, bound: Outputs := *, *, *;
      rendered := if ok && env.Keys <= names then Some(Rendering(env, bound)) else None;
      joints := joints + [Joint(inputs, locals, rendered)];
    }
  }

  // ---- setup ------------------------------------------------------------------------------

  ghost predicate RecordOf(step: Step, record: Record, innermost: bool) {
    && record.effectID == step.layer.effectID
    && match record.status
       case Produced =>
         if innermost then record.locals == map[] && record.env == map[] && Accepts(step.outputsSchema, record.outputs)
         else record.outputs == map[] && record.env.Keys <= step.innerEnv && Accepts(step.localsSchema, record.locals)
       case Failed => record.outputs == map[] && record.locals == map[] && record.env == map[]
       case Cleaned => false
  }

  /** The records are those of a prefix of the layers; only the last may have failed. */
  ghost predicate Recorded(steps: seq<Step>, nodeInputs: Outputs, states: seq<Record>) {
    && |states| <= |steps|
    && (forall i :: 0 <= i < |states| ==> RecordOf(steps[i], states[i], i == |steps| - 1))
    && (forall i :: 0 <= i < |states| - 1 ==> states[i].status == Produced)
    && (forall i :: 0 < i < |states| ==> Accepts(steps[i].inputsSchema, states[i].inputs))
    && (|states| > 0 ==> states[0].inputs == nodeInputs)
  }

  /** What a setup is run for: the innermost layer's outputs, another's locals. */
  ghost function Kept(record: Record, innermost: bool): Outputs {
    if innermost then record.outputs else record.locals
  }

  ghost function OwnSchema(step: Step, innermost: bool): Option<Outputs -> bool> {
    if innermost then step.outputsSchema else step.localsSchema
  }

  ghost predicate RanFor(i: nat, runs: seq<Run>) {
    exists k :: 0 <= k < |runs| && runs[k].layer == i
  }

  ghost predicate Succeeded(i: nat, runs: seq<Run>) {
    exists k :: 0 <= k < |runs| && runs[k].layer == i && runs[k].ok
  }

  /** A successful run of the layer's setup emitted the values; without a setup they are empty. */
  ghost predicate Emits(step: Step, i: nat, runs: seq<Run>, values: Outputs) {
    if step.setup then exists k :: 0 <= k < |runs| && runs[k].layer == i && runs[k].ok && runs[k].emitted == values
    else values == map[]
  }

  /** The layer is produced, with what was emitted, exactly when that was emitted and its schema accepts it. */
  ghost predicate MadeOf(step: Step, i: nat, innermost: bool, record: Record, runs: seq<Run>) {
    forall values ::
      Emits(step, i, runs, values) && Accepts(OwnSchema(step, innermost), values) <==>
      record.status == Produced && Kept(record, innermost) == values
  }

  /** Every layer with a setup that has a record, each once, outermost first; what resolved was run. */
  ghost function SetupAttempts(steps: seq<Step>, states: seq<Record>, runs: seq<Run>, n: nat): seq<Attempt>
    requires n <= |states| <= |steps|
  {
    if n == 0 then []
    else SetupAttempts(steps, states, runs, n - 1) +
         if steps[n - 1].setup then [Attempt(n - 1, map[], states[n - 1].inputs, RanFor(n - 1, runs))] else []
  }

  lemma {:induction false} SetupAttemptsStable(steps: seq<Step>, states: seq<Record>, more: seq<Record>, runs: seq<Run>,
                                               now: seq<Run>, n: nat)
    requires n <= |states| && |states| + |more| <= |steps|
    requires forall k :: 0 <= k < |now| ==> n <= now[k].layer
    ensures SetupAttempts(steps, states + more, runs + now, n) == SetupAttempts(steps, states, runs, n)
  {
    hide RanFor;
    if n > 0 {
      SetupAttemptsStable(steps, states, more, runs, now, n - 1);
      OthersRan(n - 1, runs, now);
    }
  }

  lemma {:induction false} OthersRan(i: nat, runs: seq<Run>, now: seq<Run>)
    requires forall k :: 0 <= k < |now| ==> now[k].layer != i
    ensures (RanFor(i, runs + now) <==> RanFor(i, runs)) && (Succeeded(i, runs + now) <==> Succeeded(i, runs))
    ensures forall step, values :: Emits(step, i, runs + now, values) <==> Emits(step, i, runs, values)
  {
    var all := runs + now;
    assert forall k :: 0 <= k < |all| && all[k].layer == i ==> k < |runs| && all[k] == runs[k];
    assert forall k :: 0 <= k < |runs| ==> all[k] == runs[k];
  }

  lemma {:induction false} OnlyItRan(i: nat, runs: seq<Run>, now: seq<Run>)
    requires forall k :: 0 <= k < |runs| ==> runs[k].layer != i
    ensures (RanFor(i, runs + now) <==> RanFor(i, now)) && (Succeeded(i, runs + now) <==> Succeeded(i, now))
    ensures forall step, values :: Emits(step, i, runs + now, values) <==> Emits(step, i, now, values)
  {
    var all := runs + now;
    assert forall k :: 0 <= k < |all| && all[k].layer == i ==> all[k] == now[k - |runs|];
    assert forall k :: 0 <= k < |now| ==> all[|runs| + k] == now[k];
  }

  /** Setup processes ran outside-in, each in the environment of the layers outside it, and made the records. */
  ghost predicate RanOutsideIn(steps: seq<Step>, states: seq<Record>, runs: seq<Run>) {
    && |states| <= |steps|
    && (forall k :: 0 <= k < |runs| ==>
          runs[k].layer < |states| && steps[runs[k].layer].setup && runs[k].env == EnclosingEnv(states, runs[k].layer))
    && (forall j, k :: 0 <= j < k < |runs| ==> runs[j].layer < runs[k].layer)
    && (forall i :: 0 <= i < |states| ==> MadeOf(steps[i], i, i == |steps| - 1, states[i], runs))
  }

  /** How many layers came to their joint: all but the innermost and one that failed. */
  ghost function JointsDue(steps: seq<Step>, states: seq<Record>): nat {
    if states != [] && (states[|states| - 1].status != Produced || |states| == |steps|) then |states| - 1 else |states|
  }

  /** A record's environment, and the inputs of the next, are what its joint rendered. */
  ghost predicate JoinedAt(states: seq<Record>, joints: seq<Joint>, i: nat)
    requires i < |joints| <= |states|
  {
    && joints[i].inputs == states[i].inputs && joints[i].locals == states[i].locals
    && match joints[i].rendered
       case None => i == |states| - 1 && states[i].env == map[]
       case Some(r) => states[i].env == r.env && (i + 1 < |states| ==> states[i + 1].inputs == r.inputs)
  }

  ghost predicate Joined(steps: seq<Step>, states: seq<Record>, joints: seq<Joint>) {
    && |joints| == JointsDue(steps, states)
    && forall i :: 0 <= i < |joints| ==> JoinedAt(states, joints, i)
  }

  /** The last record failed, its joint did not render, or the next layer's schema refuses the inputs. */
  ghost predicate Stopped(steps: seq<Step>, states: seq<Record>, joints: seq<Joint>) {
    && 0 < |states| <= |steps|
    && (states[|states| - 1].status == Failed
        || (|joints| == |states| < |steps|
            && match joints[|joints| - 1].rendered
               case None => true
               case Some(r) => !Accepts(steps[|states|].inputsSchema, r.inputs)))
  }

  /** The layers so far are all produced, and `next` is what the last joint bound. */
  ghost predicate JoinedUpTo(steps: seq<Step>, states: seq<Record>, joints: seq<Joint>, next: Outputs) {
    && |states| < |steps| && Joined(steps, states, joints) && |joints| == |states|
    && (states != [] ==>
          var last := joints[|joints| - 1].rendered;
          last.Some? && last.value.inputs == next)
  }

  /** What the host saw of one more layer's setup. */
  ghost predicate SeenOf(step: Step, i: nat, innermost: bool, record: Record, env: seq<Assignment>, tried: seq<Attempt>,
                         now: seq<Run>)
  {
    && (now == [] || (step.setup && exists ok, values :: now == [Run(i, env, ok, values)]))
    && tried == (if step.setup then [Attempt(i, map[], record.inputs, now != [])] else [])
    && MadeOf(step, i, innermost, record, now)
  }

  /** The prefix of the chain set up so far, and everything the host has seen of it. */
  ghost predicate SoFar(steps: seq<Step>, nodeInputs: Outputs, states: seq<Record>, env: seq<Assignment>,
                        attempts: seq<Attempt>, runs: seq<Run>) {
    && Recorded(steps, nodeInputs, states)
    && env == EnclosingEnv(states, |states|)
    && attempts == SetupAttempts(steps, states, runs, |states|)
    && RanOutsideIn(steps, states, runs)
  }

  lemma {:induction false} NextRan(steps: seq<Step>, states: seq<Record>, record: Record, runs: seq<Run>,
                                   tried: seq<Attempt>, now: seq<Run>)
    requires |states| < |steps| && RanOutsideIn(steps, states, runs)
    requires SeenOf(steps[|states|], |states|, |states| == |steps| - 1, record, EnclosingEnv(states, |states|), tried,
                    now)
    ensures RanOutsideIn(steps, states + [record], runs + now)
  {
    hide EnclosingEnv, Emits, Assignments, Accepts, OwnSchema, Kept;
    var i, more := |states|, states + [record];
    forall j | 0 <= j <= i ensures EnclosingEnv(more, j) == EnclosingEnv(states, j) {
      EnclosingEnvIsStable(states, more, j);
    }
    forall j | 0 <= j < |more| ensures MadeOf(steps[j], j, j == |steps| - 1, more[j], runs + now) {
      if j == i {
        OnlyItRan(i, runs, now);
      } else {
        OthersRan(j, runs, now);
        assert more[j] == states[j];
      }
    }
  }

  lemma {:induction false} NextTried(steps: seq<Step>, states: seq<Record>, record: Record, runs: seq<Run>,
                                     tried: seq<Attempt>, now: seq<Run>)
    requires |states| < |steps| && RanOutsideIn(steps, states, runs)
    requires SeenOf(steps[|states|], |states|, |states| == |steps| - 1, record, EnclosingEnv(states, |states|), tried,
                    now)
    ensures SetupAttempts(steps, states + [record], runs + now, |states| + 1) ==
            SetupAttempts(steps, states, runs, |states|) + tried
  {
    hide EnclosingEnv, MadeOf;
    SetupAttemptsStable(steps, states, [record], runs, now, |states|);
    OnlyItRan(|states|, runs, now);
    assert now != [] ==> now[0].layer == |states|;
  }

  lemma {:induction false} NextRecord(steps: seq<Step>, nodeInputs: Outputs, states: seq<Record>, record: Record,
                                      env: seq<Assignment>, attempts: seq<Attempt>, runs: seq<Run>,
                                      tried: seq<Attempt>, now: seq<Run>)
    requires |states| < |steps| && SoFar(steps, nodeInputs, states, env, attempts, runs)
    requires forall i :: 0 <= i < |states| ==> states[i].status == Produced
    requires SeenOf(steps[|states|], |states|, |states| == |steps| - 1, record, env, tried, now)
    requires RecordOf(steps[|states|], record, |states| == |steps| - 1)
    requires if states == [] then record.inputs == nodeInputs else Accepts(steps[|states|].inputsSchema, record.inputs)
    ensures SoFar(steps, nodeInputs, states + [record], env + Assignments(record.env), attempts + tried, runs + now)
  {
    hide RecordOf, RanOutsideIn, SeenOf, SetupAttempts, Assignments, Accepts;
    EnclosingEnvIsStable(states, states + [record], |states|);
    NextRan(steps, states, record, runs, tried, now);
    NextTried(steps, states, record, runs, tried, now);
  }

  lemma {:induction false} NothingRan(steps: seq<Step>, nodeInputs: Outputs)
    ensures SoFar(steps, nodeInputs, [], [], [], [])
    ensures Joined(steps, [], []) && (steps != [] ==> JoinedUpTo(steps, [], [], nodeInputs))
  {
  }

  lemma {:induction false} SoFarEnds(steps: seq<Step>, nodeInputs: Outputs, states: seq<Record>, env: seq<Assignment>,
                  attempts: seq<Attempt>, runs: seq<Run>)
    requires SoFar(steps, nodeInputs, states, env, attempts, runs)
    ensures |states| <= |steps| && env == EnclosingEnv(states, |states|)
    ensures Recorded(steps, nodeInputs, states) && RanOutsideIn(steps, states, runs)
    ensures attempts == SetupAttempts(steps, states, runs, |states|)
  {
  }

  /** What becomes of the joint of a produced layer that is not the innermost. */
  lemma {:induction false} NextJoined(steps: seq<Step>, states: seq<Record>, record: Record, joints: seq<Joint>,
                                      rendered: Option<Rendering>)
    requires JoinedUpTo(steps, states, joints, record.inputs)
    requires record.status == Produced && |states| < |steps| - 1
    requires record.env == if rendered.Some? then rendered.value.env else map[]
    ensures var joint := Joint(record.inputs, record.locals, rendered);
            && Joined(steps, states + [record], joints + [joint])
            && (rendered.None? ==> Stopped(steps, states + [record], joints + [joint]))
            && (rendered.Some? ==> JoinedUpTo(steps, states + [record], joints + [joint], rendered.value.inputs))
  {
    var more, all := states + [record], joints + [Joint(record.inputs, record.locals, rendered)];
    forall i | 0 <= i < |all| ensures JoinedAt(more, all, i) {
      if i < |joints| {
        assert JoinedAt(states, joints, i);
        assert all[i] == joints[i] && more[i] == states[i];
      }
    }
  }

  /** The innermost layer, and one that failed, have none. */
  lemma {:induction false} LastJoined(steps: seq<Step>, states: seq<Record>, record: Record, joints: seq<Joint>)
    requires JoinedUpTo(steps, states, joints, record.inputs) && record.env == map[]
    requires record.status == Failed || |states| == |steps| - 1
    ensures Joined(steps, states + [record], joints)
    ensures record.status == Failed ==> Stopped(steps, states + [record], joints)
  {
    var more := states + [record];
    forall i | 0 <= i < |joints| ensures JoinedAt(more, joints, i) {
      assert JoinedAt(states, joints, i);
      assert more[i] == states[i];
    }
  }

  lemma {:induction false} RefusedInputs(steps: seq<Step>, states: seq<Record>, joints: seq<Joint>, inputs: Outputs)
    requires JoinedUpTo(steps, states, joints, inputs) && states != []
    requires !Accepts(steps[|states|].inputsSchema, inputs)
    ensures Stopped(steps, states, joints) && Joined(steps, states, joints)
  {
  }

  /** The layer's own part of a setup: what it emitted, and what the host saw of it. */
  method SetUp(steps: seq<Step>, i: nat, inputs: Outputs, env: seq<Assignment>, host: Host)
    returns (emitted: Option<Outputs>, ghost tried: seq<Attempt>, ghost now: seq<Run>)
    requires i < |steps|
    modifies host
    ensures host.joints == old(host.joints)
    ensures host.attempts == old(host.attempts) + tried && host.runs == old(host.runs) + now
    ensures now == [] || (steps[i].setup && exists ok, values :: now == [Run(i, env, ok, values)])
    ensures tried == if steps[i].setup then [Attempt(i, map[], inputs, now != [])] else []
    ensures forall values ::
              Emits(steps[i], i, now, values) && Accepts(OwnSchema(steps[i], i == |steps| - 1), values) <==>
              emitted == Some(values)
  {
    tried, now := [], [];
    var values: Outputs := map[];
    if steps[i].setup {
      var resolved := host.Resolve(i, map[], inputs);
      tried := [Attempt(i, map[], inputs, resolved)];
      if !resolved {
        return None, tried, now;
      }
      emitted := host.RunSetup(i, env);
      now := [Run(i, env, emitted.Some?, if emitted.Some? then emitted.value else map[])];
      if emitted.None? {
        return None, tried, now;
      }
      values := emitted.value;
      assert now[0].ok && now[0].emitted == values;
    }
    var schema := if i == |steps| - 1 then steps[i].outputsSchema else steps[i].localsSchema;
    if schema.Some? && !schema.value(values) {
      return None, tried, now;
    }
    return Some(values), tried, now;
  }

  /** One layer of the walk: its record, and what its joint rendered for the next layer. */
  method SetUpLayer(steps: seq<Step>, i: nat, inputs: Outputs, env: seq<Assignment>, host: Host)
    returns (record: Record, rendered: Option<Rendering>, ghost tried: seq<Attempt>, ghost now: seq<Run>)
    requires i < |steps|
    modifies host
    ensures RecordOf(steps[i], record, i == |steps| - 1) && record.inputs == inputs
    ensures SeenOf(steps[i], i, i == |steps| - 1, record, env, tried, now)
    ensures host.attempts == old(host.attempts) + tried && host.runs == old(host.runs) + now
    ensures record.env == if rendered.Some? then rendered.value.env else map[]
    ensures if record.status == Produced && i < |steps| - 1
            then host.joints == old(host.joints) + [Joint(inputs, record.locals, rendered)]
            else host.joints == old(host.joints) && rendered.None?
  {
    hide Emits;
    var emitted;
    emitted, tried, now := SetUp(steps, i, inputs, env, host);
    record, rendered := Record(steps[i].layer.effectID, inputs, map[], map[], map[], Failed), None;
    if emitted.None? {
      return;
    }
    record := record.(status := Produced);
    if i == |steps| - 1 {
      record := record.(outputs := emitted.value);
      return;
    }
    // whatever becomes of the joint, the layer's record is Produced from here on
    record := record.(locals := emitted.value);
    rendered := host.Join(steps[i].innerEnv, inputs, emitted.value);
    if rendered.Some? {
      record := record.(env := rendered.value.env);
    }
  }

  /** The records made so far are returned either way, the failed layer's last. */
  method RunLayers(steps: seq<Step>, nodeInputs: Outputs, host: Host) returns (states: seq<Record>, err: bool)
    modifies host
    ensures Recorded(steps, nodeInputs, states)
    ensures !err <==> |states| == |steps| && forall i :: 0 <= i < |states| ==> states[i].status == Produced
    ensures |old(host.attempts)| <= |host.attempts| && |old(host.runs)| <= |host.runs|
    ensures |old(host.joints)| <= |host.joints|
    ensures host.runs[..|old(host.runs)|] == old(host.runs)
    ensures var runs := host.runs[|old(host.runs)|..];
            && RanOutsideIn(steps, states, runs)
            && host.attempts == old(host.attempts) + SetupAttempts(steps, states, runs, |states|)
    ensures host.joints[..|old(host.joints)|] == old(host.joints)
    ensures var joints := host.joints[|old(host.joints)|..];
            Joined(steps, states, joints) && (err ==> Stopped(steps, states, joints))
  {
    hide SoFar, Recorded, RanOutsideIn, SetupAttempts, Joined, JoinedUpTo, Stopped, Assignments, EnclosingEnv, RecordOf;
    hide SeenOf;
    states := [];
    var inputs := nodeInputs;
    var env: seq<Assignment> := [];
    ghost var attempts: seq<Attempt>, runs: seq<Run>, joints: seq<Joint> := [], [], [];
    NothingRan(steps, nodeInputs);
    for i := 0 to |steps|
      invariant |states| == i && SoFar(steps, nodeInputs, states, env, attempts, runs)
      invariant forall j :: 0 <= j < i ==> states[j].status == Produced
      invariant host.attempts == old(host.attempts) + attempts
      invariant host.runs == old(host.runs) + runs
      invariant host.joints == old(host.joints) + joints && Joined(steps, states, joints)
      invariant i == 0 ==> inputs == nodeInputs
      invariant i < |steps| ==> JoinedUpTo(steps, states, joints, inputs)
    {
      SoFarEnds(steps, nodeInputs, states, env, attempts, runs);
      if i > 0 && steps[i].inputsSchema.Some? && !steps[i].inputsSchema.value(inputs) {
        RefusedInputs(steps, states, joints, inputs);
        Since(old(host.runs), runs);
        Since(old(host.joints), joints);
        return states, true;
      }
      var record, rendered, tried, now := SetUpLayer(steps, i, inputs, env, host);
      NextRecord(steps, nodeInputs, states, record, env, attempts, runs, tried, now);
      attempts, runs := attempts + tried, runs + now;
      if record.status == Produced && i < |steps| - 1 {
        NextJoined(steps, states, record, joints, rendered);
        joints := joints + [Joint(inputs, record.locals, rendered)];
      } else {
        FailedHasNoEnv(steps[i], record, i == |steps| - 1);
        LastJoined(steps, states, record, joints);
      }
      assert host.attempts == old(host.attempts) + attempts && host.runs == old(host.runs) + runs;
      assert host.joints == old(host.joints) + joints;
      var assignments := EnvAssignments(record.env);
      env := env + assignments;
      states := states + [record];
      SoFarEnds(steps, nodeInputs, states, env, attempts, runs);
      if record.status == Failed || (i < |steps| - 1 && rendered.None?) {
        Since(old(host.runs), runs);
        Since(old(host.joints), joints);
        return states, true;
      }
      if rendered.Some? {
        inputs := rendered.value.inputs;
      }
    }
    SoFarEnds(steps, nodeInputs, states, env, attempts, runs);
    Since(old(host.runs), runs);
    Since(old(host.joints), joints);
    return states, false;
  }

  lemma {:induction false} FailedHasNoEnv(step: Step, record: Record, innermost: bool)
    requires RecordOf(step, record, innermost) && (innermost || record.status != Produced)
    ensures record.env == map[] && record.status != Cleaned
  {
  }

  lemma {:induction false} Since<T>(before: seq<T>, now: seq<T>)
    ensures (before + now)[..|before|] == before && (before + now)[|before|..] == now
  {
  }

  // ---- cleanup ----------------------------------------------------------------------------

  function LayersOf(steps: seq<Step>): (layers: seq<Layer>)
    ensures |layers| == |steps| && forall i :: 0 <= i < |steps| ==> layers[i] == steps[i].layer
  {
    seq(|steps|, i requires 0 <= i < |steps| => steps[i].layer)
  }

  function Projectable(states: seq<Record>): (r: seq<LayerState>)
    ensures |r| == |states|
    ensures forall i :: 0 <= i < |states| ==>
              r[i] == LayerState(states[i].outputs, Scope(states[i].locals, states[i].inputs))
  {
    seq(|states|,
        i requires 0 <= i < |states| => LayerState(states[i].outputs, Scope(states[i].locals, states[i].inputs)))
  }

  /** layerSelf: a layer's own public contract, or what it recorded when the chain cannot be projected. */
  ghost function Self(steps: seq<Step>, states: seq<Record>, i: nat): Outputs
    requires i < |states|
  {
    if |states| != |steps| then states[i].outputs
    else
      match Views(LayersOf(steps), Projectable(states))
      case Err(_) => states[i].outputs
      case Ok(views) => views[i]
  }

  method LayerSelf(steps: seq<Step>, states: seq<Record>, i: nat) returns (self: Outputs)
    requires i < |states|
    ensures self == Self(steps, states, i)
  {
    if |states| != |steps| {
      return states[i].outputs;
    }
    var views := ProjectLayerOutputs(LayersOf(steps), Projectable(states));
    if views.Err? {
      return states[i].outputs;
    }
    return views.value[i];
  }

  ghost predicate StillDeclared(steps: seq<Step>, states: seq<Record>, i: nat)
    requires i < |states|
  {
    i < |steps| && steps[i].layer.effectID == states[i].effectID
  }

  /** The record still owes a release that a cleanup of the current definition can make. */
  ghost predicate Owed(steps: seq<Step>, states: seq<Record>, i: nat)
    requires i < |states|
  {
    states[i].status != Cleaned && StillDeclared(steps, states, i)
  }

  /** Only the status of a record may differ. */
  ghost predicate SameButStatus(a: seq<Record>, b: seq<Record>) {
    |a| == |b| && forall i :: 0 <= i < |a| ==> a[i].(status := b[i].status) == b[i]
  }

  lemma {:induction false} SelfIsStable(steps: seq<Step>, a: seq<Record>, b: seq<Record>, i: nat)
    requires SameButStatus(a, b) && i < |a|
    ensures Self(steps, a, i) == Self(steps, b, i) && EnclosingEnv(a, i) == EnclosingEnv(b, i)
  {
    assert Projectable(a) == Projectable(b);
    EnclosingEnvIsStable(a, b, i);
  }

  /** What layerSelf answers: the layer's view in the projection, if the records line up and there is one. */
  lemma {:induction false} SelfIs(steps: seq<Step>, states: seq<Record>, i: nat)
    requires i < |states| && Classified(LayersOf(steps))
    ensures |states| != |steps| || Breaking(LayersOf(steps), Projectable(states)) ==>
              Self(steps, states, i) == states[i].outputs
    ensures forall views :: Projection(LayersOf(steps), Projectable(states), views) ==>
              Self(steps, states, i) == views[i]
  {
    hide Breaking, Classified, Views;
    if |states| == |steps| {
      ViewsFailIffBreaking(LayersOf(steps), Projectable(states));
      forall views | Projection(LayersOf(steps), Projectable(states), views) ensures Self(steps, states,
                                                                                          i) == views[i] {
        ViewsAreTheProjection(LayersOf(steps), Projectable(states), views);
      }
    } else {
      NothingProjects(LayersOf(steps), Projectable(states));
    }
  }

  lemma {:induction false} NothingProjects(layers: seq<Layer>, states: seq<LayerState>)
    requires |layers| != |states|
    ensures forall views :: !Projection(layers, states, views)
  {
  }

  /** The owed layers with a cleanup from the innermost down to i; what resolved was run. */
  ghost function CleanupAttempts(steps: seq<Step>, states: seq<Record>, runs: seq<Run>, i: nat): seq<Attempt>
    requires i <= |states|
    decreases |states| - i
  {
    if i == |states| then []
    else CleanupAttempts(steps, states, runs, i + 1) +
         if Owed(steps, states, i) && steps[i].cleanup
         then [Attempt(i, Self(steps, states, i), states[i].inputs, RanFor(i, runs))] else []
  }

  lemma {:induction false} CleanupAttemptsStable(steps: seq<Step>, states: seq<Record>, runs: seq<Run>, now: seq<Run>,
                                                 i: nat)
    requires i <= |states| && forall k :: 0 <= k < |now| ==> now[k].layer < i
    ensures CleanupAttempts(steps, states, runs + now, i) == CleanupAttempts(steps, states, runs, i)
    decreases |states| - i
  {
    hide RanFor, Self;
    if i < |states| {
      CleanupAttemptsStable(steps, states, runs, now, i + 1);
      OthersRan(i, runs, now);
    }
  }

  /** Cleanup processes of owed layers ran inside-out from i up, each in its layer's enclosing environment. */
  ghost predicate RanInsideOut(steps: seq<Step>, before: seq<Record>, i: nat, runs: seq<Run>) {
    && (forall k :: 0 <= k < |runs| ==>
          var l := runs[k].layer;
          i <= l < |before| && Owed(steps, before, l) && steps[l].cleanup && runs[k].env == EnclosingEnv(before, l))
    && (forall j, k :: 0 <= j < k < |runs| ==> runs[j].layer > runs[k].layer)
  }

  /** What one unwinding makes of the record of layer l. */
  ghost predicate Unwound(steps: seq<Step>, before: seq<Record>, after: seq<Record>, runs: seq<Run>, l: nat)
    requires l < |before| == |after|
  {
    if !Owed(steps, before, l) then after[l] == before[l]
    else after[l].status == if !steps[l].cleanup || Succeeded(l, runs) then Cleaned else Failed
  }

  ghost predicate UnwoundFrom(steps: seq<Step>, before: seq<Record>, after: seq<Record>, runs: seq<Run>, i: nat) {
    && |before| == |after|
    && RanInsideOut(steps, before, i, runs)
    && forall l :: i <= l < |before| ==> Unwound(steps, before, after, runs, l)
  }

  /** One owed layer with a cleanup; its process is run if its action resolves. */
  method CleanUp(steps: seq<Step>, states: array<Record>, i: nat, host: Host)
    returns (ok: bool, ghost tried: seq<Attempt>, ghost now: seq<Run>)
    requires i < states.Length
    modifies host
    ensures host.attempts == old(host.attempts) + tried && host.runs == old(host.runs) + now
    ensures tried == [Attempt(i, Self(steps, states[..], i), states[i].inputs, now != [])]
    ensures now == [] || now == [Run(i, EnclosingEnv(states[..], i), ok, map[])]
    ensures ok ==> now != []
  {
    var self := LayerSelf(steps, states[..], i);
    var resolved := host.Resolve(i, self, states[i].inputs);
    tried, now := [Attempt(i, self, states[i].inputs, resolved)], [];
    if !resolved {
      return false, tried, now;
    }
    var env := EnclosingEnvOf(states[..], i);
    ok := host.RunCleanup(i, env);
    now := [Run(i, env, ok, map[])];
  }

  /** Every owed layer gets its attempt; the answer is an error exactly when a record stays owed. */
  method RunLayerCleanup(steps: seq<Step>, states: array<Record>, host: Host) returns (err: bool)
    modifies states, host
    ensures SameButStatus(old(states[..]), states[..])
    ensures !err <==> forall l :: 0 <= l < states.Length ==> states[l].status == Cleaned
    ensures |old(host.runs)| <= |host.runs| && host.runs[..|old(host.runs)|] == old(host.runs)
    ensures var runs := host.runs[|old(host.runs)|..];
            && UnwoundFrom(steps, old(states[..]), states[..], runs, 0)
            && host.attempts == old(host.attempts) + CleanupAttempts(steps, old(states[..]), runs, 0)
  {
    hide CleanupAttempts, Self, EnclosingEnv, UnwoundFrom, RanFor, Succeeded;
    var firstErr := false;
    ghost var before := states[..];
    ghost var runs: seq<Run> := [];
    var i := states.Length;
    NothingUnwound(steps, before);
    while i > 0
      invariant 0 <= i <= states.Length && SameButStatus(before, states[..])
      invariant forall l :: 0 <= l < i ==> states[l] == before[l]
      invariant host.attempts == old(host.attempts) + CleanupAttempts(steps, before, runs, i)
      invariant host.runs == old(host.runs) + runs && UnwoundFrom(steps, before, states[..], runs, i)
      invariant firstErr ==> exists l :: i <= l < states.Length && states[l].status != Cleaned
    {
      i := i - 1;
      ghost var was, attempts := states[..], host.attempts;
      ghost var tried: seq<Attempt>, now: seq<Run> := [], [];
      if states[i].status != Cleaned && i < |steps| && steps[i].layer.effectID == states[i].effectID {
        if !steps[i].cleanup {
          states[i] := states[i].(status := Cleaned);
        } else {
          SelfIsStable(steps, before, states[..], i);
          var ok;
          ok, tried, now := CleanUp(steps, states, i, host);
          if ok {
            states[i] := states[i].(status := Cleaned);
          } else {
            states[i] := states[i].(status := Failed);
            firstErr := true;
          }
        }
      }
      RanAtAll(i, now);
      assert host.attempts == attempts + tried;
      NextUnwound(steps, before, was, states[..], i, runs, tried, now);
      runs := runs + now;
    }
    for l := 0 to states.Length
      modifies {}
      invariant firstErr ==> exists k :: 0 <= k < states.Length && states[k].status != Cleaned
      invariant !firstErr ==> forall k :: 0 <= k < l ==> states[k].status == Cleaned
    {
      if states[l].status != Cleaned && !firstErr {
        firstErr := true;
      }
    }
    Since(old(host.runs), runs);
    return firstErr;
  }

  lemma {:induction false} NothingUnwound(steps: seq<Step>, before: seq<Record>)
    ensures CleanupAttempts(steps, before, [], |before|) == [] && UnwoundFrom(steps, before, before, [], |before|)
  {
  }

  lemma {:induction false} NextUnwound(steps: seq<Step>, before: seq<Record>, was: seq<Record>, after: seq<Record>,
                                       i: nat, runs: seq<Run>, tried: seq<Attempt>, now: seq<Run>)
    requires i < |before| == |was| == |after|
    requires UnwoundFrom(steps, before, was, runs, i + 1) && was[i] == before[i] && after == was[i := after[i]]
    requires if Owed(steps, before, i) && steps[i].cleanup
             then
               && tried == [Attempt(i, Self(steps, before, i), before[i].inputs, now != [])]
               && (now == [] || exists ok :: now == [Run(i, EnclosingEnv(before, i), ok, map[])])
             else tried == [] && now == []
    requires Unwound(steps, before, after, now, i)
    ensures UnwoundFrom(steps, before, after, runs + now, i)
    ensures CleanupAttempts(steps, before, runs + now, i) == CleanupAttempts(steps, before, runs, i + 1) + tried
  {
    hide Self, EnclosingEnv, RanFor, Succeeded;
    OnlyItRan(i, runs, now);
    RanAtAll(i, now);
    CleanupAttemptsStable(steps, before, runs, now, i + 1);
    forall l | i < l < |before| ensures Unwound(steps, before, after, runs + now, l) {
      assert Unwound(steps, before, was, runs, l);
      OthersRan(l, runs, now);
    }
  }

  lemma {:induction false} RanAtAll(i: nat, now: seq<Run>)
    requires |now| <= 1 && (now != [] ==> now[0].layer == i)
    ensures RanFor(i, now) <==> now != []
    ensures Succeeded(i, now) <==> now != [] && now[0].ok
  {
  }

  // ---- over a whole lifetime ----------------------------------------------------------------

  /** The records of a complete setup are ones whose public keys read back what is written to them. */
  lemma {:induction false} SetupPublishesInnermost(steps: seq<Step>, nodeInputs: Outputs, states: seq<Record>)
    requires Recorded(steps, nodeInputs, states) && |states| == |steps|
    ensures OnlyInnermostPublishes(Projectable(states))
  {
    forall i | 0 <= i < |states| - 1 ensures Projectable(states)[i].outputs == map[] {
      assert RecordOf(steps[i], states[i], false);
    }
  }

  /** The names an accepted chain injects are each assigned once at most, at any depth. */
  lemma {:induction false} AcceptedChainsAssignOnce(chain: seq<NestingChecks.Definition>, steps: seq<Step>,
                                                    nodeInputs: Outputs, states: seq<Record>, i: nat)
    requires NestingChecks.EnvAccepted(chain) && |chain| == |steps|
    requires forall j :: 0 <= j < |steps| ==> steps[j].innerEnv == chain[j].innerEnv
    requires Recorded(steps, nodeInputs, states) && i <= |states|
    ensures EachOnce(EnclosingEnv(states, i))
  {
    hide EachOnce, EnclosingEnv;
    forall j, k | 0 <= j < |states| && k in states[j].env ensures k in chain[j].innerEnv {
      assert RecordOf(steps[j], states[j], j == |steps| - 1);
    }
    NoNameIsAssignedTwice(states, i);
  }

  /**
   * All runs so far, each in its layer's enclosing environment; none follows a release of its
   * layer, and a layer with a cleanup is released by a successful run and by nothing else.
   */
  ghost predicate Sound(steps: seq<Step>, first: seq<Record>, now: seq<Record>, runs: seq<Run>) {
    && SameButStatus(first, now)
    && (forall k :: 0 <= k < |runs| ==>
          && runs[k].layer < |first| && Owed(steps, first, runs[k].layer) && steps[runs[k].layer].cleanup
          && runs[k].env == EnclosingEnv(first, runs[k].layer))
    && (forall j, k :: 0 <= j < k < |runs| && runs[j].layer == runs[k].layer ==> !runs[j].ok)
    && (forall l :: 0 <= l < |first| ==>
          if !Owed(steps, first, l) then now[l] == first[l]
          else steps[l].cleanup ==> (now[l].status == Cleaned <==> Succeeded(l, runs)))
  }

  lemma {:induction false} StillSound(steps: seq<Step>, first: seq<Record>, before: seq<Record>, after: seq<Record>,
                                      runs: seq<Run>, now: seq<Run>)
    requires Sound(steps, first, before, runs) && SameButStatus(before, after)
    requires UnwoundFrom(steps, before, after, now, 0)
    ensures Sound(steps, first, after, runs + now)
  {
    hide EnclosingEnv, Succeeded;
    var all := runs + now;
    forall k | 0 <= k < |now| ensures now[k].env == EnclosingEnv(first, now[k].layer) {
      EnclosingEnvIsStable(first, before, now[k].layer);
    }
    forall k | 0 <= k < |all|
      ensures all[k].layer < |first| && Owed(steps, first, all[k].layer) && steps[all[k].layer].cleanup
      ensures all[k].env == EnclosingEnv(first, all[k].layer)
    {
      assert all[k] == if k < |runs| then runs[k] else now[k - |runs|];
    }
    forall j, k | 0 <= j < k < |all| && all[j].layer == all[k].layer ensures !all[j].ok {
      OnlyWhileOwed(steps, first, before, runs, now, j, k);
    }
    forall l | 0 <= l < |first|
      ensures if !Owed(steps, first, l) then after[l] == first[l]
              else steps[l].cleanup ==> (after[l].status == Cleaned <==> Succeeded(l, all))
    {
      assert Unwound(steps, before, after, now, l);
      SucceededIn(l, runs, now);
      if Owed(steps, first, l) && !Owed(steps, before, l) {
        NotRunAgain(steps, before, l, now);
      }
    }
  }

  lemma {:induction false} SucceededIn(l: nat, runs: seq<Run>, now: seq<Run>)
    ensures Succeeded(l, runs + now) <==> Succeeded(l, runs) || Succeeded(l, now)
  {
    var all := runs + now;
    assert forall k :: 0 <= k < |all| ==> all[k] == if k < |runs| then runs[k] else now[k - |runs|];
    assert forall k :: 0 <= k < |runs| ==> all[k] == runs[k];
    assert forall k :: 0 <= k < |now| ==> all[|runs| + k] == now[k];
  }

  lemma {:induction false} NotRunAgain(steps: seq<Step>, before: seq<Record>, l: nat, now: seq<Run>)
    requires l < |before| && !Owed(steps, before, l) && RanInsideOut(steps, before, 0, now)
    ensures !Succeeded(l, now)
  {
  }

  /** A second run of a layer finds it still owed, so the first did not succeed. */
  lemma {:induction false} OnlyWhileOwed(steps: seq<Step>, first: seq<Record>, before: seq<Record>, runs: seq<Run>,
                                         now: seq<Run>, j: nat, k: nat)
    requires Sound(steps, first, before, runs) && RanInsideOut(steps, before, 0, now)
    requires j < k < |runs| + |now| && (runs + now)[j].layer == (runs + now)[k].layer
    ensures !(runs + now)[j].ok
  {
    hide EnclosingEnv;
    if |runs| <= k {
      assert (runs + now)[k] == now[k - |runs|];
      if j < |runs| {
        assert (runs + now)[j] == runs[j];
        assert runs[j].ok ==> Succeeded(runs[j].layer, runs);
      } else {
        assert (runs + now)[j] == now[j - |runs|];
      }
    } else {
      assert (runs + now)[j] == runs[j] && (runs + now)[k] == runs[k];
    }
  }

  /**
   * However often the unwinding is attempted, a layer that was released is never released again,
   * and one with a cleanup is released by one successful run of it.
   */
  method UnwindRepeatedly(steps: seq<Step>, states: array<Record>, host: Host, rounds: nat) returns (err: bool)
    requires rounds > 0
    modifies states, host
    ensures !err <==> forall l :: 0 <= l < states.Length ==> states[l].status == Cleaned
    ensures forall l :: 0 <= l < states.Length && Owed(steps, old(states[..]), l) && !steps[l].cleanup ==>
              states[l].status == Cleaned
    ensures |old(host.runs)| <= |host.runs| && host.runs[..|old(host.runs)|] == old(host.runs)
    ensures Sound(steps, old(states[..]), states[..], host.runs[|old(host.runs)|..])
  {
    hide Sound, UnwoundFrom, CleanupAttempts, EnclosingEnv;
    ghost var first := states[..];
    ghost var runs: seq<Run> := [];
    NothingRun(steps, first);
    err := true;
    for round := 0 to rounds
      invariant host.runs == old(host.runs) + runs && Sound(steps, first, states[..], runs)
      invariant round > 0 ==> (!err <==> forall l :: 0 <= l < states.Length ==> states[l].status == Cleaned)
      invariant round > 0 ==>
                  forall l :: 0 <= l < states.Length && Owed(steps, first, l) && !steps[l].cleanup ==>
                    states[l].status == Cleaned
    {
      ghost var before, seen := states[..], |host.runs|;
      err := RunLayerCleanup(steps, states, host);
      ghost var now := host.runs[seen..];
      StillSound(steps, first, before, states[..], runs, now);
      WithoutCleanup(steps, first, before, states[..], runs, now);
      assert host.runs == old(host.runs) + (runs + now);
      runs := runs + now;
    }
    Since(old(host.runs), runs);
  }

  lemma {:induction false} WithoutCleanup(steps: seq<Step>, first: seq<Record>, before: seq<Record>, after: seq<Record>,
                                          runs: seq<Run>, now: seq<Run>)
    requires Sound(steps, first, before, runs) && UnwoundFrom(steps, before, after, now, 0)
    ensures forall l :: 0 <= l < |first| && Owed(steps, first, l) && !steps[l].cleanup ==> after[l].status == Cleaned
  {
    forall l | 0 <= l < |first| && Owed(steps, first, l) && !steps[l].cleanup ensures after[l].status == Cleaned {
      assert Unwound(steps, before, after, now, l);
    }
  }

  lemma {:induction false} NothingRun(steps: seq<Step>, first: seq<Record>)
    ensures Sound(steps, first, first, [])
  {
  }

  /** A layer is set up and released in one and the same environment. */
  method SetUpAndRelease(steps: seq<Step>, nodeInputs: Outputs, host: Host, rounds: nat)
    returns (states: seq<Record>, failed: bool, owed: bool)
    requires rounds > 0 && host.runs == []
    modifies host
    ensures exists made: seq<Record> :: Recorded(steps, nodeInputs, made) && SameButStatus(made, states) &&
                           (!failed <==>
                              |made| == |steps| && forall i :: 0 <= i < |made| ==> made[i].status == Produced)
    ensures !owed <==> forall i :: 0 <= i < |states| ==> states[i].status == Cleaned
    ensures forall j, k :: 0 <= j < |host.runs| && 0 <= k < |host.runs| && host.runs[j].layer == host.runs[k].layer ==>
              host.runs[j].env == host.runs[k].env
  {
    hide RanOutsideIn, Sound, SetupAttempts, Joined, EnclosingEnv;
    var made;
    made, failed := RunLayers(steps, nodeInputs, host);
    ghost var setups := host.runs;
    assert setups == host.runs[0..];
    var records := new Record[|made|](i requires 0 <= i < |made| => made[i]);
    assert records[..] == made;
    owed := UnwindRepeatedly(steps, records, host, rounds);
    states := records[..];
    OneEnvironmentEach(steps, made, states, setups, host.runs[|setups|..]);
    assert host.runs == setups + host.runs[|setups|..];
    assert SameButStatus(made, states) by { SoundIsSame(steps, made, states, host.runs[|setups|..]); }
  }

  lemma {:induction false} SoundIsSame(steps: seq<Step>, first: seq<Record>, now: seq<Record>, runs: seq<Run>)
    requires Sound(steps, first, now, runs)
    ensures SameButStatus(first, now)
  {
  }

  lemma {:induction false} OneEnvironmentEach(steps: seq<Step>, made: seq<Record>, states: seq<Record>,
                                              setups: seq<Run>, cleanups: seq<Run>)
    requires RanOutsideIn(steps, made, setups) && Sound(steps, made, states, cleanups)
    ensures var runs := setups + cleanups;
            forall j, k :: 0 <= j < |runs| && 0 <= k < |runs| && runs[j].layer == runs[k].layer ==>
              runs[j].env == runs[k].env
  {
    hide EnclosingEnv;
    var runs := setups + cleanups;
    forall k | 0 <= k < |runs| ensures runs[k].layer < |made| && runs[k].env == EnclosingEnv(made, runs[k].layer) {
      assert runs[k] == if k < |setups| then setups[k] else cleanups[k - |setups|];
    }
  }
}
