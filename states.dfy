/** The state graph of a workflow and its serialisation into an Amazon
    States Language document: blocks and their field whitelists, states,
    chains, the two visitors that walk the graph, and `Graph.to_dict`.
    States and chains are objects; they live in a workspace and are named by
    their index, so a `World` is a snapshot of every object at one moment. */
module States {
  import opened Wrappers
  import opened Dicts
  import opened PyValues
  import F = Fields
  import opened Placeholders
  import opened ChoiceRules

  /** The Python class of a state object; `StateBase` is `State` itself,
      built with any `state_type`. */
  datatype StateClass =
    | StateBase | PassState | SucceedState | FailState | WaitState
    | ChoiceState | ParallelState | MapState | TaskState

  /** A `Catch` block: its fields and the state or chain it transitions to. */
  datatype CatchBlock = CatchBlock(fields: Dict<string, Value>, next: Ref)

  /** A state object.
      - `fields`: the keyword arguments, followed by `type`;
      - `stepOutput`: the `StepInput` placeholder collection of its output;
      - `next`: `next_step`;
      - `choices`, `default`: the Choice class's rule list and default;
      - `branches`: the Parallel class's branch list;
      - `attached`: the Map's `iterator` attribute set by `attach_iterator`, absent until then. */
  datatype StateNode = StateNode(
    cls: StateClass,
    id: string,
    stateType: string,
    fields: Dict<string, Value>,
    stepOutput: nat,
    retries: seq<Dict<string, Value>>,
    catches: seq<CatchBlock>,
    next: Option<Ref>,
    choices: seq<(Rule, Ref)>,
    default: Option<Ref>,
    branches: seq<Value>,
    attached: Option<Value>)

  /** Every state and chain object, and the placeholder arena, at one moment.
      A chain is the list of its steps. */
  datatype World = World(states: seq<StateNode>, chains: seq<seq<nat>>, ph: seq<PNode>)

  // ------------------------------------------------------------ whitelists

  /** `allowed_fields()` of each state class. */
  function AllowedFields(cls: StateClass): seq<F.Field>
  {
    match cls
    case StateBase => [F.Comment, F.InputPath, F.OutputPath, F.Parameters, F.ResultPath]
    case PassState => [F.Comment, F.InputPath, F.OutputPath, F.Parameters, F.ResultPath, F.Result]
    case SucceedState => [F.Comment, F.InputPath, F.OutputPath]
    case FailState => [F.Comment, F.Error, F.Cause]
    case WaitState => [F.Comment, F.InputPath, F.OutputPath, F.Seconds, F.Timestamp, F.SecondsPath, F.TimestampPath]
    case ChoiceState => [F.Comment, F.InputPath, F.OutputPath]
    case ParallelState => [F.Comment, F.InputPath, F.OutputPath, F.Parameters, F.ResultPath, F.Retry, F.Catch]
    case MapState => [F.Comment, F.InputPath, F.OutputPath, F.Parameters, F.ResultPath, F.Retry, F.Catch, F.ItemsPath, F.Iterator, F.MaxConcurrency]
    case TaskState => [F.Comment, F.InputPath, F.OutputPath, F.Parameters, F.ResultPath, F.TimeoutSeconds, F.TimeoutSecondsPath,
                       F.HeartbeatSeconds, F.HeartbeatSecondsPath, F.Resource, F.Retry, F.Catch]
  }

  function RetryFields(): seq<F.Field> { [F.ErrorEquals, F.IntervalSeconds, F.MaxAttempts, F.BackoffRate] }
  function CatchFields(): seq<F.Field> { [F.ErrorEquals, F.ResultPath] }
  function GraphFields(): seq<F.Field> { [F.TimeoutSeconds, F.Comment, F.Version] }

  /** `is_field_allowed(name)`. */
  predicate IsAllowed(allowed: seq<F.Field>, name: string)
  {
    exists j :: 0 <= j < |allowed| && F.FieldValue(allowed[j]) == name
  }

  /** `Block.__init__`: the first keyword argument not in the whitelist raises TypeError. */
  function CheckFields(allowed: seq<F.Field>, kwargs: Dict<string, Value>): Outcome<Error>
  {
    if kwargs == [] then Pass
    else if !IsAllowed(allowed, kwargs[0].0) then Fail(UnsupportedField(kwargs[0].0))
    else CheckFields(allowed, kwargs[1..])
  }

  /** The whitelist check passes exactly when every keyword is allowed, and
      otherwise names a keyword that is not. */
  lemma {:induction false} CheckFieldsSpec(allowed: seq<F.Field>, kwargs: Dict<string, Value>)
    ensures CheckFields(allowed, kwargs).Pass? <==> forall j :: 0 <= j < |kwargs| ==> IsAllowed(allowed, kwargs[j].0)
    ensures CheckFields(allowed, kwargs).Fail? ==>
      exists j :: 0 <= j < |kwargs| && CheckFields(allowed, kwargs).error == UnsupportedField(kwargs[j].0) && !IsAllowed(allowed, kwargs[j].0)
  {
    if kwargs != [] {
      CheckFieldsSpec(allowed, kwargs[1..]);
      if CheckFields(allowed, kwargs[1..]).Fail? && IsAllowed(allowed, kwargs[0].0) {
        var j :| 0 <= j < |kwargs[1..]| && CheckFields(allowed, kwargs[1..]).error == UnsupportedField(kwargs[1..][j].0) && !IsAllowed(allowed, kwargs[1..][j].0);
        assert kwargs[1..][j] == kwargs[j + 1];
      }
      if CheckFields(allowed, kwargs).Pass? {
        forall j | 0 <= j < |kwargs| ensures IsAllowed(allowed, kwargs[j].0) {
          if j > 0 { assert kwargs[1..][j - 1] == kwargs[j]; }
        }
      }
    }
  }

  // ------------------------------------------------- parameter rewriting

  /** An `ExecutionInput` or `StepInput` placeholder (the base class is not rewritten). */
  predicate IsInputPlaceholder(ph: seq<PNode>, v: Value)
  {
    v.VPlaceholder? && v.p < |ph| && ph[v.p].kind != BaseKind
  }

  /** `_replace_placeholders(params)`: in a dict, a placeholder value under
      `k` becomes `k.$` mapped to its JSONPath, nested dicts and the dicts in
      lists are rewritten, and everything else is kept; a non-dict is returned as is. */
  function ReplacePlaceholders(ph: seq<PNode>, v: Value): Value
    requires Valid(ph)
    decreases v, 2
  {
    if v.VDict? then VDict(ReplaceEntries(ph, v, 0, [])) else v
  }

  function ReplaceEntries(ph: seq<PNode>, d: Value, i: nat, acc: Dict<Key, Value>): Dict<Key, Value>
    requires Valid(ph) && d.VDict?
    decreases d, 1, |d.entries| - i
  {
    if i >= |d.entries| then acc
    else
      var (k, x) := d.entries[i];
      var acc' :=
        if IsInputPlaceholder(ph, x) then Put(acc, KStr(KeyText(k) + ".$"), VStr(JsonPath(ph, x.p)))
        else if x.VDict? then Put(acc, k, ReplacePlaceholders(ph, x))
        else if x.VList? then Put(acc, k, VList(ReplaceItems(ph, x, 0)))
        else Put(acc, k, x);
      ReplaceEntries(ph, d, i + 1, acc')
  }

  function ReplaceItems(ph: seq<PNode>, l: Value, i: nat): (r: seq<Value>)
    requires Valid(ph) && l.VList?
    ensures |r| == if i <= |l.items| then |l.items| - i else 0
    ensures forall j :: 0 <= j < |r| ==> r[j] == ReplacePlaceholders(ph, l.items[i + j])
    decreases l, 0, |l.items| - i
  {
    if i >= |l.items| then [] else [ReplacePlaceholders(ph, l.items[i])] + ReplaceItems(ph, l, i + 1)
  }

  /** No `ExecutionInput`/`StepInput` placeholder is the value of a dict
      entry, in `v` or in any dict reached through dict values and list items
      (a list inside a list is not looked into). */
  predicate NoInputPlaceholderValues(ph: seq<PNode>, v: Value)
  {
    match v
    case VDict(es) => forall j :: 0 <= j < |es| ==> !IsInputPlaceholder(ph, es[j].1) && NoInputPlaceholderValues(ph, es[j].1)
    case VList(xs) => forall j :: 0 <= j < |xs| && xs[j].VDict? ==> NoInputPlaceholderValues(ph, xs[j])
    case _ => true
  }

  /** The rewritten parameters refer to no `ExecutionInput`/`StepInput`
      placeholder through a dict entry: each became a `.$` path. */
  lemma {:induction false} ReplaceLeavesNoPlaceholderValues(ph: seq<PNode>, v: Value)
    requires Valid(ph)
    ensures v.VDict? ==> NoInputPlaceholderValues(ph, ReplacePlaceholders(ph, v))
    decreases v, 2
  {
    if v.VDict? {
      ReplaceEntriesClean(ph, v, 0, []);
    }
  }

  lemma {:induction false} ReplaceEntriesClean(ph: seq<PNode>, d: Value, i: nat, acc: Dict<Key, Value>)
    requires Valid(ph) && d.VDict?
    requires NoInputPlaceholderValues(ph, VDict(acc))
    ensures NoInputPlaceholderValues(ph, VDict(ReplaceEntries(ph, d, i, acc)))
    decreases d, 1, |d.entries| - i
  {
    if i < |d.entries| {
      var (k, x) := d.entries[i];
      var nv :=
        if IsInputPlaceholder(ph, x) then VStr(JsonPath(ph, x.p))
        else if x.VDict? then ReplacePlaceholders(ph, x)
        else if x.VList? then VList(ReplaceItems(ph, x, 0))
        else x;
      var nk := if IsInputPlaceholder(ph, x) then KStr(KeyText(k) + ".$") else k;
      if x.VDict? && !IsInputPlaceholder(ph, x) {
        ReplaceLeavesNoPlaceholderValues(ph, x);
      } else if x.VList? {
        var r := ReplaceItems(ph, x, 0);
        forall j | 0 <= j < |r| && r[j].VDict? ensures NoInputPlaceholderValues(ph, r[j]) {
          ReplaceItemClean(ph, x, j);
        }
      }
      assert !IsInputPlaceholder(ph, nv) && NoInputPlaceholderValues(ph, nv);
      PutClean(ph, acc, nk, nv);
      ReplaceEntriesClean(ph, d, i + 1, Put(acc, nk, nv));
    }
  }

  lemma {:induction false} ReplaceItemClean(ph: seq<PNode>, l: Value, j: nat)
    requires Valid(ph) && l.VList? && j < |l.items|
    ensures ReplacePlaceholders(ph, l.items[j]).VDict? ==> NoInputPlaceholderValues(ph, ReplacePlaceholders(ph, l.items[j]))
    decreases l, 0
  {
    ReplaceLeavesNoPlaceholderValues(ph, l.items[j]);
  }

  lemma PutClean(ph: seq<PNode>, acc: Dict<Key, Value>, k: Key, v: Value)
    requires NoInputPlaceholderValues(ph, VDict(acc)) && !IsInputPlaceholder(ph, v) && NoInputPlaceholderValues(ph, v)
    ensures NoInputPlaceholderValues(ph, VDict(Put(acc, k, v)))
  {
    PutKeys(acc, k, v);
    var p := Put(acc, k, v);
    if HasKey(acc, k) {
      forall j | 0 <= j < |p| ensures !IsInputPlaceholder(ph, p[j].1) && NoInputPlaceholderValues(ph, p[j].1) {
        PutEntry(acc, k, v, j);
      }
    }
  }

  lemma {:induction false} PutEntry<K, V>(d: Dict<K, V>, k: K, v: V, j: nat)
    requires HasKey(d, k) && j < |d|
    ensures |Put(d, k, v)| == |d|
    ensures Put(d, k, v)[j] == (k, v) || Put(d, k, v)[j] == d[j]
  {
    PutKeys(d, k, v);
    if d != [] && d[0].0 != k {
      KeysTail(d);
      if j > 0 {
        PutEntry(d[1..], k, v, j - 1);
      }
    }
  }

  /** The key and value one entry `(k, x)` of a dict contributes to the
      rewritten dict. */
  function RewriteEntry(ph: seq<PNode>, e: (Key, Value)): (Key, Value)
    requires Valid(ph)
  {
    var (k, x) := e;
    if IsInputPlaceholder(ph, x) then (KStr(KeyText(k) + ".$"), VStr(JsonPath(ph, x.p)))
    else if x.VDict? then (k, ReplacePlaceholders(ph, x))
    else if x.VList? then (k, VList(ReplaceItems(ph, x, 0)))
    else (k, x)
  }

  /** The rewritten entries, one per entry, in the dict's order. */
  function RewrittenPairs(ph: seq<PNode>, es: Dict<Key, Value>): (r: seq<(Key, Value)>)
    requires Valid(ph)
  {
    seq(|es|, j requires 0 <= j < |es| => RewriteEntry(ph, es[j]))
  }

  lemma {:induction false} ReplaceEntriesAsPairs(ph: seq<PNode>, d: Value, i: nat, acc: Dict<Key, Value>)
    requires Valid(ph) && d.VDict? && i <= |d.entries|
    ensures ReplaceEntries(ph, d, i, acc) == FromPairsInto(acc, RewrittenPairs(ph, d.entries[i..]))
    decreases |d.entries| - i
  {
    var ps := RewrittenPairs(ph, d.entries[i..]);
    if i < |d.entries| {
      var e := RewriteEntry(ph, d.entries[i]);
      assert ps[0] == e;
      assert ps[1..] == RewrittenPairs(ph, d.entries[i + 1..]);
      ReplaceEntriesAsPairs(ph, d, i + 1, Put(acc, e.0, e.1));
    } else {
      assert ps == [];
    }
  }

  /** `_replace_placeholders` entry by entry. A non-dict comes back as it is
      (so does a placeholder sitting directly in a list). A dict becomes the
      dict of its rewritten entries, a later entry overwriting an earlier one
      whose rewritten key it shares. When no two rewritten keys clash, entry
      `j` of the result comes from entry `j` of the argument: a placeholder
      under `k` becomes `k.$` mapped to its JSONPath, a nested dict is
      rewritten, a list has each of its items rewritten, and any other value
      is kept under the same key. */
  lemma {:induction false} ReplacePlaceholdersSpec(ph: seq<PNode>, v: Value)
    requires Valid(ph)
    ensures !v.VDict? ==> ReplacePlaceholders(ph, v) == v
    ensures v.VDict? ==> ReplacePlaceholders(ph, v) == VDict(FromPairs(RewrittenPairs(ph, v.entries)))
    ensures v.VDict? && KeysUnique(RewrittenPairs(ph, v.entries)) ==>
      var r := ReplacePlaceholders(ph, v).entries;
      && |r| == |v.entries|
      && forall j :: 0 <= j < |v.entries| ==>
        && (IsInputPlaceholder(ph, v.entries[j].1) ==>
              r[j] == (KStr(KeyText(v.entries[j].0) + ".$"), VStr(JsonPath(ph, v.entries[j].1.p))))
        && (v.entries[j].1.VDict? ==> r[j] == (v.entries[j].0, ReplacePlaceholders(ph, v.entries[j].1)))
        && (v.entries[j].1.VList? ==>
              && r[j].0 == v.entries[j].0 && r[j].1.VList?
              && |r[j].1.items| == |v.entries[j].1.items|
              && forall m :: 0 <= m < |r[j].1.items| ==>
                   r[j].1.items[m] == ReplacePlaceholders(ph, v.entries[j].1.items[m]))
        && (!IsInputPlaceholder(ph, v.entries[j].1) && !v.entries[j].1.VDict? && !v.entries[j].1.VList? ==>
              r[j] == v.entries[j])
  {
    if v.VDict? {
      ReplaceEntriesAsPairs(ph, v, 0, []);
      assert v.entries[0..] == v.entries;
      var ps := RewrittenPairs(ph, v.entries);
      if KeysUnique(ps) {
        FromPairsOfDict(ps);
        forall j | 0 <= j < |v.entries| && v.entries[j].1.VList?
          ensures |ReplaceItems(ph, v.entries[j].1, 0)| == |v.entries[j].1.items|
        {
        }
      }
    }
  }

  // ------------------------------------------------------------ to_dict

  /** The fields `Block.to_dict` keeps even when they are None. */
  predicate AcceptedAsNone(k: string)
  {
    k == "result_path" || k == "input_path" || k == "output_path"
  }

  predicate Kept(field: (string, Value))
  {
    field.1 != VNone || AcceptedAsNone(field.0)
  }

  /** The value a kept field is emitted with: the Parameters value is rewritten. */
  function Emitted(ph: seq<PNode>, field: (string, Value)): Value
    requires Valid(ph)
  {
    if F.ToPascalCase(field.0) == F.ToPascalCase(F.FieldValue(F.Parameters)) then ReplacePlaceholders(ph, field.1)
    else field.1
  }

  /** The assignments `Block.to_dict` makes, in the order of the fields. */
  function EmittedFields(ph: seq<PNode>, fields: Dict<string, Value>): seq<(Key, Value)>
    requires Valid(ph)
  {
    if fields == [] then []
    else if Kept(fields[0]) then [(KStr(F.ToPascalCase(fields[0].0)), Emitted(ph, fields[0]))] + EmittedFields(ph, fields[1..])
    else EmittedFields(ph, fields[1..])
  }

  /** `Block.to_dict()`. */
  function BlockToDict(ph: seq<PNode>, fields: Dict<string, Value>): Dict<Key, Value>
    requires Valid(ph)
  {
    FromPairs(EmittedFields(ph, fields))
  }

  predicate RefOk(w: World, r: Ref)
  {
    match r
    case StateRef(s) => s < |w.states|
    case ChainRef(c) => c < |w.chains|
  }

  /** A value that is a `State` or a `Chain` object. */
  predicate IsObject(w: World, v: Value)
  {
    v.VRef? && RefOk(w, v.ref)
  }

  predicate StateOk(w: World, st: StateNode)
  {
    && st.stepOutput < |w.ph|
    && (st.next.Some? ==> RefOk(w, st.next.value))
    && (forall j :: 0 <= j < |st.catches| ==> RefOk(w, st.catches[j].next))
    && (forall j :: 0 <= j < |st.choices| ==> RefOk(w, st.choices[j].1))
    && (st.default.Some? ==> RefOk(w, st.default.value))
  }

  /** Every reference held by a state or a chain names an existing object. */
  predicate WorldOk(w: World)
  {
    && Valid(w.ph)
    && (forall i :: 0 <= i < |w.states| ==> StateOk(w, w.states[i]))
    && (forall c, j :: 0 <= c < |w.chains| && 0 <= j < |w.chains[c]| ==> w.chains[c][j] < |w.states|)
  }

  /** `next_step.state_id`: a chain answers with its first step's id and raises when empty. */
  function RefId(w: World, r: Ref): Result<string, Error>
    requires WorldOk(w) && RefOk(w, r)
  {
    match r
    case StateRef(s) => Ok(w.states[s].id)
    case ChainRef(c) => if w.chains[c] == [] then Err(EmptyChain) else Ok(w.states[w.chains[c][0]].id)
  }

  /** `Catch.to_dict()`. */
  function CatchToDict(w: World, c: CatchBlock): Result<Value, Error>
    requires WorldOk(w) && RefOk(w, c.next)
  {
    var target :- RefId(w, c.next);
    Ok(VDict(Put(BlockToDict(w.ph, c.fields), KStr("Next"), VStr(target))))
  }

  function CatchDicts(w: World, cs: seq<CatchBlock>): (r: Result<seq<Value>, Error>)
    requires WorldOk(w) && forall j :: 0 <= j < |cs| ==> RefOk(w, cs[j].next)
    ensures r.Ok? ==> |r.value| == |cs| && forall j :: 0 <= j < |cs| ==> CatchToDict(w, cs[j]) == Ok(r.value[j])
  {
    if cs == [] then Ok([])
    else
      var first :- CatchToDict(w, cs[0]);
      var rest :- CatchDicts(w, cs[1..]);
      assert forall j :: 1 <= j < |cs| ==> cs[j] == cs[1..][j - 1];
      Ok([first] + rest)
  }

  function RetryDicts(ph: seq<PNode>, rs: seq<Dict<string, Value>>): (r: seq<Value>)
    requires Valid(ph)
    ensures |r| == |rs| && forall j :: 0 <= j < |rs| ==> r[j] == VDict(BlockToDict(ph, rs[j]))
  {
    if rs == [] then [] else [VDict(BlockToDict(ph, rs[0]))] + RetryDicts(ph, rs[1..])
  }

  /** One entry of `Choices`: the rule's dict with `Next` added. */
  function ChoiceDict(w: World, choice: (Rule, Ref)): Result<Value, Error>
    requires WorldOk(w) && RefOk(w, choice.1)
  {
    var target :- RefId(w, choice.1);
    var rule := RuleToDict(w.ph, choice.0);
    Ok(VDict(Put(if rule.VDict? then rule.entries else [], KStr("Next"), VStr(target))))
  }

  function ChoiceDicts(w: World, cs: seq<(Rule, Ref)>): (r: Result<seq<Value>, Error>)
    requires WorldOk(w) && forall j :: 0 <= j < |cs| ==> RefOk(w, cs[j].1)
    ensures r.Ok? ==> |r.value| == |cs| && forall j :: 0 <= j < |cs| ==> ChoiceDict(w, cs[j]) == Ok(r.value[j])
  {
    if cs == [] then Ok([])
    else
      var first :- ChoiceDict(w, cs[0]);
      var rest :- ChoiceDicts(w, cs[1..]);
      Ok([first] + rest)
  }

  /** The `Next`/`End` part of `State.to_dict`. */
  function WithNext(w: World, st: StateNode, d: Dict<Key, Value>): Result<Dict<Key, Value>, Error>
    requires WorldOk(w) && StateOk(w, st)
  {
    if st.next.Some? then
      var target :- RefId(w, st.next.value);
      Ok(Put(d, KStr("Next"), VStr(target)))
    else if st.stateType != "Succeed" && st.stateType != "Fail" && st.stateType != "Choice" then
      Ok(Put(d, KStr("End"), VBool(true)))
    else Ok(d)
  }

  /** The `Retry` and `Catch` part of `State.to_dict`. */
  function WithRetryAndCatch(w: World, st: StateNode, d: Dict<Key, Value>): Result<Dict<Key, Value>, Error>
    requires WorldOk(w) && StateOk(w, st)
  {
    var allowed := AllowedFields(st.cls);
    var d1 := if |st.retries| > 0 && IsAllowed(allowed, F.FieldValue(F.Retry))
      then Put(d, KStr("Retry"), VList(RetryDicts(w.ph, st.retries))) else d;
    if |st.catches| > 0 && IsAllowed(allowed, F.FieldValue(F.Catch)) then
      var cs :- CatchDicts(w, st.catches);
      Ok(Put(d1, KStr("Catch"), VList(cs)))
    else Ok(d1)
  }

  /** The iterator a Map state serialises: the attached one, else the
      `iterator` keyword argument, else None. */
  function MapIterator(st: StateNode): Value
  {
    if st.attached.Some? then st.attached.value
    else Get(st.fields, F.FieldValue(F.Iterator)).UnwrapOr(VNone)
  }

  /** The two walks over the graph: `ValidationVisitor` and `GraphVisitor`. */
  datatype VisitorKind = Validating | Emitting

  /** The states and chains a state's `accept` goes on to, in order. */
  function Successors(w: World, s: nat): (r: seq<Ref>)
    requires WorldOk(w) && s < |w.states|
    ensures forall j :: 0 <= j < |r| ==> RefOk(w, r[j])
  {
    var st := w.states[s];
    assert StateOk(w, st);
    if st.cls == ChoiceState then
      (if st.default.Some? then [st.default.value] else [])
      + seq(|st.choices|, j requires 0 <= j < |st.choices| => st.choices[j].1)
    else
      (if st.next.Some? then [st.next.value] else [])
      + seq(|st.catches|, j requires 0 <= j < |st.catches| => st.catches[j].next)
  }

  function StepRefs(steps: seq<nat>): (r: seq<Ref>)
    ensures |r| == |steps| && forall j :: 0 <= j < |steps| ==> r[j] == StateRef(steps[j])
  {
    seq(|steps|, j requires 0 <= j < |steps| => StateRef(steps[j]))
  }

  /** Every id a walk could record. */
  function AllIds(w: World): set<Key>
  {
    set i | 0 <= i < |w.states| :: KStr(w.states[i].id)
  }

  /** A bound on the steps left before the stack empties when nothing new is recorded. */
  function Weight(w: World, stack: seq<Ref>): nat
    requires forall j :: 0 <= j < |stack| ==> RefOk(w, stack[j])
  {
    if stack == [] then 0
    else
      var head := stack[0];
      assert RefOk(w, head);
      (match head case StateRef(_) => 1 case ChainRef(c) => |w.chains[c]| + 1)
      + Weight(w, stack[1..])
  }

  lemma {:induction false} WeightOfSteps(w: World, steps: seq<nat>, rest: seq<Ref>)
    requires forall j :: 0 <= j < |steps| ==> steps[j] < |w.states|
    requires forall j :: 0 <= j < |rest| ==> RefOk(w, rest[j])
    ensures forall j :: 0 <= j < |StepRefs(steps) + rest| ==> RefOk(w, (StepRefs(steps) + rest)[j])
    ensures Weight(w, StepRefs(steps) + rest) == |steps| + Weight(w, rest)
  {
    if steps != [] {
      WeightOfSteps(w, steps[1..], rest);
      var all := StepRefs(steps) + rest;
      assert all[0] == StateRef(steps[0]);
      assert all[1..] == StepRefs(steps[1..]) + rest;
      assert Weight(w, all) == 1 + Weight(w, all[1..]);
    } else {
      assert StepRefs(steps) + rest == rest;
    }
  }

  lemma RefsOkConcat(w: World, a: seq<Ref>, b: seq<Ref>)
    requires forall j :: 0 <= j < |a| ==> RefOk(w, a[j])
    requires forall j :: 0 <= j < |b| ==> RefOk(w, b[j])
    ensures forall j :: 0 <= j < |a + b| ==> RefOk(w, (a + b)[j])
  {
  }

  lemma RecordShrinks(w: World, visited: Dict<Key, Value>, s: nat, v: Value)
    requires s < |w.states| && !HasKey(visited, KStr(w.states[s].id))
    ensures |AllIds(w) - SeqSet(Keys(Put(visited, KStr(w.states[s].id), v)))| < |AllIds(w) - SeqSet(Keys(visited))|
  {
    var k := KStr(w.states[s].id);
    PutKeys(visited, k, v);
    KeysConcat(visited, [(k, v)]);
    SeqSetConcat(Keys(visited), [k]);
    var before := AllIds(w) - SeqSet(Keys(visited));
    assert k in before;
    assert AllIds(w) - SeqSet(Keys(Put(visited, k, v))) == before - {k};
  }

  /** `Get(visited, id) == to_dict()` in `ValidationVisitor.is_visited`. */
  predicate SameAsRecorded(visited: Dict<Key, Value>, key: Key, d: Dict<Key, Value>)
  {
    match Get(visited, key)
    case Some(prev) => PyEq(prev, VDict(d))
    case None => false
  }

  /** `_validate_next_step_params`: the first key (searching nested dicts)
      whose value is a `StepInput` that is neither `out` nor inside it. */
  function FirstIllegal(ph: seq<PNode>, d: Value, i: nat, out: nat): Option<Key>
    requires Valid(ph) && d.VDict? && out < |ph|
    decreases d, |d.entries| - i
  {
    if i >= |d.entries| then None
    else
      var (k, v) := d.entries[i];
      if IsStepInput(ph, v) then
        if v.p != out && !ContainsOf(ph, out, v.p) then Some(k) else FirstIllegal(ph, d, i + 1, out)
      else if v.VDict? then
        match FirstIllegal(ph, v, 0, out)
        case Some(bad) => Some(bad)
        case None => FirstIllegal(ph, d, i + 1, out)
      else FirstIllegal(ph, d, i + 1, out)
  }

  /** The check `ValidationVisitor.visit` makes on the next state's parameters. */
  function CheckNextParameters(w: World, s: nat): Outcome<Error>
    requires WorldOk(w) && s < |w.states|
  {
    var st := w.states[s];
    assert StateOk(w, st);
    if st.next.None? || !st.next.value.StateRef? then Pass
    else
      var nxt := w.states[st.next.value.s];
      match Get(nxt.fields, F.FieldValue(F.Parameters))
      case None => Pass
      case Some(params) =>
        if !params.VDict? then Fail(MissingAttribute("items"))
        else match FirstIllegal(w.ph, params, 0, st.stepOutput)
          case Some(bad) => Fail(IllegalPlaceholder(nxt.id, bad))
          case None => Pass
  }

  /** `State.to_dict()` with each subclass's additions. `fuel` bounds the
      nesting of Parallel branches and Map iterators. */
  function StateToDict(w: World, s: nat, fuel: nat): Result<Dict<Key, Value>, Error>
    requires WorldOk(w) && s < |w.states|
    decreases fuel, 1, 0, 0, 0
  {
    var st := w.states[s];
    assert StateOk(w, st);
    var d0 := BlockToDict(w.ph, st.fields);
    var d1 :- WithNext(w, st, d0);
    var d2 :- WithRetryAndCatch(w, st, d1);
    match st.cls
    case ChoiceState =>
      var cs :- ChoiceDicts(w, st.choices);
      var d3 := Put(d2, KStr("Choices"), VList(cs));
      if st.default.Some? then
        var target :- RefId(w, st.default.value);
        Ok(Put(d3, KStr("Default"), VStr(target)))
      else Ok(d3)
    case ParallelState =>
      var bs :- BranchDicts(w, st.branches, fuel);
      Ok(Put(d2, KStr("Branches"), VList(bs)))
    case MapState =>
      var g :- SubGraph(w, MapIterator(st), fuel);
      Ok(Put(d2, KStr("Iterator"), g))
    case _ => Ok(d2)
  }

  /** `[Graph(branch).to_dict() for branch in self.branches]`. */
  function BranchDicts(w: World, branches: seq<Value>, fuel: nat): (r: Result<seq<Value>, Error>)
    requires WorldOk(w)
    ensures r.Ok? ==> |r.value| == |branches|
    decreases fuel, 0, |branches|, 1, 0
  {
    if branches == [] then Ok([])
    else
      var first :- SubGraph(w, branches[0], fuel);
      var rest :- BranchDicts(w, branches[1..], fuel);
      Ok([first] + rest)
  }

  /** `Graph(branch).to_dict()` for a nested graph. */
  function SubGraph(w: World, branch: Value, fuel: nat): Result<Value, Error>
    requires WorldOk(w)
    decreases fuel, 0, 0, 0, 0
  {
    if fuel == 0 then Err(RecursionLimit)
    else
      var g :- GraphToDict(w, branch, [], fuel - 1);
      Ok(VDict(g))
  }

  /** `root.accept(visitor)` for either visitor, written as a walk over an
      explicit stack of the objects still to accept, in the order the
      recursive `accept` calls reach them. `visited` is the visitor's
      `states` dict. */
  function Walk(w: World, kind: VisitorKind, stack: seq<Ref>, visited: Dict<Key, Value>, fuel: nat): Result<Dict<Key, Value>, Error>
    requires WorldOk(w) && forall j :: 0 <= j < |stack| ==> RefOk(w, stack[j])
    decreases fuel, 2, |AllIds(w) - SeqSet(Keys(visited))|, Weight(w, stack), 1
  {
    if stack == [] then Ok(visited)
    else
      var head := stack[0];
      assert RefOk(w, head);
      match head
      case ChainRef(c) =>
        WeightOfSteps(w, w.chains[c], stack[1..]);
        Walk(w, kind, StepRefs(w.chains[c]) + stack[1..], visited, fuel)
      case StateRef(s) =>
        WalkState(w, kind, s, stack[1..], visited, fuel)
  }

  /** One state taken off the stack: `state.accept(visitor)` up to the
      recursive calls, which go on the front of the stack. */
  function WalkState(w: World, kind: VisitorKind, s: nat, rest: seq<Ref>, visited: Dict<Key, Value>, fuel: nat): Result<Dict<Key, Value>, Error>
    requires WorldOk(w) && s < |w.states| && forall j :: 0 <= j < |rest| ==> RefOk(w, rest[j])
    decreases fuel, 2, |AllIds(w) - SeqSet(Keys(visited))|, Weight(w, rest) + 1, 0
  {
    var key := KStr(w.states[s].id);
    if kind == Emitting && HasKey(visited, key) then Walk(w, kind, rest, visited, fuel)
    else
      var d :- StateToDict(w, s, fuel);
      if kind == Validating && SameAsRecorded(visited, key, d) then Walk(w, kind, rest, visited, fuel)
      else if HasKey(visited, key) then Err(DuplicateStateId(w.states[s].id))
      else if kind == Validating && CheckNextParameters(w, s).Fail? then Err(CheckNextParameters(w, s).error)
      else
        RecordShrinks(w, visited, s, VDict(d));
        RefsOkConcat(w, Successors(w, s), rest);
        Walk(w, kind, Successors(w, s) + rest, Put(visited, key, VDict(d)), fuel)
  }

  /** `Graph(branch, **graphFields).to_dict()`: the constructor's checks,
      the validation walk, the emitting walk, then `StartAt` and `States`. */
  function GraphToDict(w: World, branch: Value, graphFields: Dict<string, Value>, fuel: nat): Result<Dict<Key, Value>, Error>
    requires WorldOk(w)
    decreases fuel, 3, 0, 0, 0
  {
    if !IsObject(w, branch) then Err(NotAStateOrChain)
    else if CheckFields(GraphFields(), graphFields).Fail? then Err(CheckFields(GraphFields(), graphFields).error)
    else
      var checked :- Walk(w, Validating, [branch.ref], [], fuel);
      var states :- Walk(w, Emitting, [branch.ref], [], fuel);
      var start :- RefId(w, branch.ref);
      Ok(Put(Put(BlockToDict(w.ph, graphFields), KStr("StartAt"), VStr(start)), KStr("States"), VDict(states)))
  }

  // ------------------------------------------------ properties of to_dict

  /** No two fields share a PascalCase spelling (true of the field whitelists). */
  predicate PascalDistinct(fields: Dict<string, Value>)
  {
    forall i, j :: 0 <= i < j < |fields| ==> F.ToPascalCase(fields[i].0) != F.ToPascalCase(fields[j].0)
  }

  lemma {:induction false} EmittedKeysFromFields(ph: seq<PNode>, fields: Dict<string, Value>, k: Key)
    requires Valid(ph)
    ensures HasKey(EmittedFields(ph, fields), k) ==> exists j :: 0 <= j < |fields| && Kept(fields[j]) && k == KStr(F.ToPascalCase(fields[j].0))
  {
    if fields != [] {
      EmittedKeysFromFields(ph, fields[1..], k);
      var e := EmittedFields(ph, fields);
      if HasKey(e, k) && Kept(fields[0]) && k != KStr(F.ToPascalCase(fields[0].0)) {
        KeysTail(e);
        assert e[1..] == EmittedFields(ph, fields[1..]);
      }
      if HasKey(EmittedFields(ph, fields[1..]), k) {
        var j :| 0 <= j < |fields[1..]| && Kept(fields[1..][j]) && k == KStr(F.ToPascalCase(fields[1..][j].0));
        assert fields[1..][j] == fields[j + 1];
      }
    }
  }

  lemma PascalDistinctTail(fields: Dict<string, Value>)
    requires fields != [] && PascalDistinct(fields)
    ensures PascalDistinct(fields[1..])
  {
    forall a, b | 0 <= a < b < |fields[1..]| ensures F.ToPascalCase(fields[1..][a].0) != F.ToPascalCase(fields[1..][b].0) {
      assert fields[1..][a] == fields[a + 1] && fields[1..][b] == fields[b + 1];
    }
  }

  /** The first field's key is not emitted by any later field. */
  lemma HeadKeyFresh(ph: seq<PNode>, fields: Dict<string, Value>)
    requires Valid(ph) && fields != [] && PascalDistinct(fields)
    ensures !HasKey(EmittedFields(ph, fields[1..]), KStr(F.ToPascalCase(fields[0].0)))
  {
    var k0 := KStr(F.ToPascalCase(fields[0].0));
    EmittedKeysFromFields(ph, fields[1..], k0);
    forall i | 0 <= i < |fields[1..]| ensures k0 != KStr(F.ToPascalCase(fields[1..][i].0)) {
      assert fields[1..][i] == fields[i + 1];
    }
  }

  lemma {:induction false} EmittedUnique(ph: seq<PNode>, fields: Dict<string, Value>)
    requires Valid(ph) && PascalDistinct(fields)
    ensures KeysUnique(EmittedFields(ph, fields))
  {
    if fields != [] {
      PascalDistinctTail(fields);
      EmittedUnique(ph, fields[1..]);
      var tail := EmittedFields(ph, fields[1..]);
      if Kept(fields[0]) {
        HeadKeyFresh(ph, fields);
        var e := EmittedFields(ph, fields);
        assert e == [(KStr(F.ToPascalCase(fields[0].0)), Emitted(ph, fields[0]))] + tail;
        forall a, b | 0 <= a < b < |e| ensures e[a].0 != e[b].0 {
          assert e[b] == tail[b - 1];
          if a > 0 {
            assert e[a] == tail[a - 1];
          } else {
            assert tail[b - 1].0 in Keys(tail);
          }
        }
      }
    }
  }

  lemma {:induction false} EmittedFieldsGet(ph: seq<PNode>, fields: Dict<string, Value>, j: nat)
    requires Valid(ph) && PascalDistinct(fields) && j < |fields|
    ensures Get(EmittedFields(ph, fields), KStr(F.ToPascalCase(fields[j].0)))
      == if Kept(fields[j]) then Some(Emitted(ph, fields[j])) else None
  {
    var tail := EmittedFields(ph, fields[1..]);
    PascalDistinctTail(fields);
    HeadKeyFresh(ph, fields);
    if j == 0 {
      GetSpec(tail, KStr(F.ToPascalCase(fields[0].0)));
    } else {
      EmittedFieldsGet(ph, fields[1..], j - 1);
      assert fields[1..][j - 1] == fields[j];
    }
  }

  /** `Block.to_dict`: when no two fields share a PascalCase key, the
      result lists the kept fields in their order, and the entry for a
      field is its value (rewritten for Parameters) exactly when the field
      is kept, that is not None or one of the three path fields. */
  lemma BlockToDictSpec(ph: seq<PNode>, fields: Dict<string, Value>)
    requires Valid(ph) && PascalDistinct(fields)
    ensures BlockToDict(ph, fields) == EmittedFields(ph, fields)
    ensures forall j :: 0 <= j < |fields| ==>
      Get(BlockToDict(ph, fields), KStr(F.ToPascalCase(fields[j].0))) == if Kept(fields[j]) then Some(Emitted(ph, fields[j])) else None
  {
    if fields == [] {
    } else {
      EmittedUnique(ph, fields);
      FromPairsOfDict(EmittedFields(ph, fields));
      forall j | 0 <= j < |fields|
        ensures Get(BlockToDict(ph, fields), KStr(F.ToPascalCase(fields[j].0))) == if Kept(fields[j]) then Some(Emitted(ph, fields[j])) else None
      {
        EmittedFieldsGet(ph, fields, j);
      }
    }
  }

  /** A key emitted by one of the steps of `State.to_dict` after `Next`/`End`. */
  predicate LaterKey(k: Key)
  {
    k == KStr("Retry") || k == KStr("Catch") || k == KStr("Choices") || k == KStr("Default")
    || k == KStr("Branches") || k == KStr("Iterator")
  }

  /** The steps after `Next`/`End` leave every other key as they found it. */
  lemma StateToDictLaterParts(w: World, s: nat, fuel: nat)
    requires WorldOk(w) && s < |w.states| && StateToDict(w, s, fuel).Ok?
    ensures WithNext(w, w.states[s], BlockToDict(w.ph, w.states[s].fields)).Ok?
    ensures forall k :: !LaterKey(k) ==>
      Get(StateToDict(w, s, fuel).value, k) == Get(WithNext(w, w.states[s], BlockToDict(w.ph, w.states[s].fields)).value, k)
  {
    var st := w.states[s];
    assert StateOk(w, st);
    var d1 := WithNext(w, st, BlockToDict(w.ph, st.fields)).value;
    var d2 := WithRetryAndCatch(w, st, d1).value;
    var d := StateToDict(w, s, fuel).value;
    forall k | !LaterKey(k) ensures Get(d, k) == Get(d1, k) {
      var d1r := if |st.retries| > 0 && IsAllowed(AllowedFields(st.cls), F.FieldValue(F.Retry))
        then Put(d1, KStr("Retry"), VList(RetryDicts(w.ph, st.retries))) else d1;
      PutGet(d1, KStr("Retry"), VList(RetryDicts(w.ph, st.retries)), k);
      if |st.catches| > 0 && IsAllowed(AllowedFields(st.cls), F.FieldValue(F.Catch)) {
        PutGet(d1r, KStr("Catch"), VList(CatchDicts(w, st.catches).value), k);
      }
      assert Get(d2, k) == Get(d1, k);
      match st.cls
      case ChoiceState =>
        var d3 := Put(d2, KStr("Choices"), VList(ChoiceDicts(w, st.choices).value));
        PutGet(d2, KStr("Choices"), VList(ChoiceDicts(w, st.choices).value), k);
        if st.default.Some? {
          PutGet(d3, KStr("Default"), VStr(RefId(w, st.default.value).value), k);
        }
      case ParallelState =>
        PutGet(d2, KStr("Branches"), VList(BranchDicts(w, st.branches, fuel).value), k);
      case MapState =>
        PutGet(d2, KStr("Iterator"), SubGraph(w, MapIterator(st), fuel).value, k);
      case _ =>
    }
  }

  /** No field of a state is spelled `Next` or `End` once PascalCased
      (none of the whitelisted fields is). */
  predicate NoNextOrEndField(fields: Dict<string, Value>)
  {
    forall j :: 0 <= j < |fields| ==> F.ToPascalCase(fields[j].0) != "Next" && F.ToPascalCase(fields[j].0) != "End"
  }

  lemma BlockLacksKey(ph: seq<PNode>, fields: Dict<string, Value>, name: string)
    requires Valid(ph) && forall j :: 0 <= j < |fields| ==> F.ToPascalCase(fields[j].0) != name
    ensures Get(BlockToDict(ph, fields), KStr(name)) == None
  {
    FromPairsGet(EmittedFields(ph, fields), KStr(name));
    LastValueMeansKey(EmittedFields(ph, fields), KStr(name));
    EmittedKeysFromFields(ph, fields, KStr(name));
  }

  /** `Next`/`End` exclusivity: a state has `Next` (its successor's id)
      exactly when `next_step` is set, and `End: true` exactly when it has
      no successor and is not a Succeed, Fail or Choice state; never both. */
  lemma NextOrEnd(w: World, s: nat, fuel: nat)
    requires WorldOk(w) && s < |w.states| && StateToDict(w, s, fuel).Ok?
    requires NoNextOrEndField(w.states[s].fields)
    ensures w.states[s].next.Some? ==> RefId(w, w.states[s].next.value).Ok?
    ensures Get(StateToDict(w, s, fuel).value, KStr("Next"))
      == if w.states[s].next.Some? then Some(VStr(RefId(w, w.states[s].next.value).value)) else None
    ensures Get(StateToDict(w, s, fuel).value, KStr("End"))
      == if w.states[s].next.None? && w.states[s].stateType !in ["Succeed", "Fail", "Choice"] then Some(VBool(true)) else None
  {
    var st := w.states[s];
    assert StateOk(w, st);
    StateToDictLaterParts(w, s, fuel);
    var d0 := BlockToDict(w.ph, st.fields);
    BlockLacksKey(w.ph, st.fields, "Next");
    BlockLacksKey(w.ph, st.fields, "End");
    if st.next.Some? {
      PutGet(d0, KStr("Next"), VStr(RefId(w, st.next.value).value), KStr("Next"));
      PutGet(d0, KStr("Next"), VStr(RefId(w, st.next.value).value), KStr("End"));
    } else {
      PutGet(d0, KStr("End"), VBool(true), KStr("Next"));
      PutGet(d0, KStr("End"), VBool(true), KStr("End"));
    }
  }

  /** The classes whose whitelist has `retry` (and, the same, `catch`). */
  lemma RetryAndCatchAllowed(cls: StateClass)
    ensures IsAllowed(AllowedFields(cls), F.FieldValue(F.Retry)) <==> cls in {ParallelState, MapState, TaskState}
    ensures IsAllowed(AllowedFields(cls), F.FieldValue(F.Catch)) <==> cls in {ParallelState, MapState, TaskState}
  {
    var allowed := AllowedFields(cls);
    if cls in {ParallelState, MapState, TaskState} {
      var r := if cls == TaskState then 10 else 5;
      assert allowed[r] == F.Retry && allowed[r + 1] == F.Catch;
    } else {
      forall j | 0 <= j < |allowed| ensures F.FieldValue(allowed[j]) != F.FieldValue(F.Retry) && F.FieldValue(allowed[j]) != F.FieldValue(F.Catch) {
      }
    }
  }

  /** `Retry` and `Catch` hold the blocks' dicts in insertion order when the
      lists are non-empty and the class allows them; otherwise the keys keep
      whatever the fields gave them. */
  lemma RetryAndCatchEmitted(w: World, s: nat, fuel: nat)
    requires WorldOk(w) && s < |w.states| && StateToDict(w, s, fuel).Ok?
    requires NoNextOrEndField(w.states[s].fields)
    ensures var st := w.states[s];
      Get(StateToDict(w, s, fuel).value, KStr("Retry"))
        == if |st.retries| > 0 && st.cls in {ParallelState, MapState, TaskState}
           then Some(VList(RetryDicts(w.ph, st.retries))) else Get(BlockToDict(w.ph, st.fields), KStr("Retry"))
    ensures var st := w.states[s];
      |st.catches| > 0 && st.cls in {ParallelState, MapState, TaskState} ==>
        CatchDicts(w, st.catches).Ok? && Get(StateToDict(w, s, fuel).value, KStr("Catch")) == Some(VList(CatchDicts(w, st.catches).value))
    ensures var st := w.states[s];
      !(|st.catches| > 0 && st.cls in {ParallelState, MapState, TaskState}) ==>
        Get(StateToDict(w, s, fuel).value, KStr("Catch")) == Get(BlockToDict(w.ph, st.fields), KStr("Catch"))
  {
    var st := w.states[s];
    assert StateOk(w, st);
    RetryAndCatchAllowed(st.cls);
    var d0 := BlockToDict(w.ph, st.fields);
    var d1 := WithNext(w, st, d0).value;
    var d2 := WithRetryAndCatch(w, st, d1).value;
    NextPartKeepsRetryAndCatch(w, st, d0, KStr("Retry"));
    NextPartKeepsRetryAndCatch(w, st, d0, KStr("Catch"));
    RetryAndCatchPart(w, st, d1);
    ClassPartKeepsRetryAndCatch(w, s, fuel, KStr("Retry"));
    ClassPartKeepsRetryAndCatch(w, s, fuel, KStr("Catch"));
  }

  /** Adding `Next` or `End` leaves `Retry` and `Catch` alone. */
  lemma {:induction false} NextPartKeepsRetryAndCatch(w: World, st: StateNode, d0: Dict<Key, Value>, k: Key)
    requires WorldOk(w) && StateOk(w, st) && WithNext(w, st, d0).Ok?
    requires k == KStr("Retry") || k == KStr("Catch")
    ensures Get(WithNext(w, st, d0).value, k) == Get(d0, k)
  {
    if st.next.Some? {
      PutGet(d0, KStr("Next"), VStr(RefId(w, st.next.value).value), k);
    } else if st.stateType !in ["Succeed", "Fail", "Choice"] {
      PutGet(d0, KStr("End"), VBool(true), k);
    }
  }

  /** What `Retry` and `Catch` hold after the retry and catch part. */
  lemma {:induction false} RetryAndCatchPart(w: World, st: StateNode, d1: Dict<Key, Value>)
    requires WorldOk(w) && StateOk(w, st) && WithRetryAndCatch(w, st, d1).Ok?
    ensures var allowed := st.cls in {ParallelState, MapState, TaskState};
      Get(WithRetryAndCatch(w, st, d1).value, KStr("Retry"))
        == if |st.retries| > 0 && allowed then Some(VList(RetryDicts(w.ph, st.retries))) else Get(d1, KStr("Retry"))
    ensures var allowed := st.cls in {ParallelState, MapState, TaskState};
      |st.catches| > 0 && allowed ==>
        CatchDicts(w, st.catches).Ok?
        && Get(WithRetryAndCatch(w, st, d1).value, KStr("Catch")) == Some(VList(CatchDicts(w, st.catches).value))
    ensures var allowed := st.cls in {ParallelState, MapState, TaskState};
      !(|st.catches| > 0 && allowed) ==> Get(WithRetryAndCatch(w, st, d1).value, KStr("Catch")) == Get(d1, KStr("Catch"))
  {
    RetryAndCatchAllowed(st.cls);
    var allowed := st.cls in {ParallelState, MapState, TaskState};
    var d1r := if |st.retries| > 0 && allowed then Put(d1, KStr("Retry"), VList(RetryDicts(w.ph, st.retries))) else d1;
    PutGet(d1, KStr("Retry"), VList(RetryDicts(w.ph, st.retries)), KStr("Retry"));
    PutGet(d1, KStr("Retry"), VList(RetryDicts(w.ph, st.retries)), KStr("Catch"));
    if |st.catches| > 0 && allowed {
      PutGet(d1r, KStr("Catch"), VList(CatchDicts(w, st.catches).value), KStr("Retry"));
      PutGet(d1r, KStr("Catch"), VList(CatchDicts(w, st.catches).value), KStr("Catch"));
    }
  }

  /** The Choice, Parallel and Map parts leave `Retry` and `Catch` alone. */
  lemma {:induction false} ClassPartKeepsRetryAndCatch(w: World, s: nat, fuel: nat, k: Key)
    requires WorldOk(w) && s < |w.states| && StateToDict(w, s, fuel).Ok?
    requires k == KStr("Retry") || k == KStr("Catch")
    ensures var st := w.states[s];
      StateOk(w, st)
      && WithNext(w, st, BlockToDict(w.ph, st.fields)).Ok?
      && WithRetryAndCatch(w, st, WithNext(w, st, BlockToDict(w.ph, st.fields)).value).Ok?
      && Get(StateToDict(w, s, fuel).value, k)
         == Get(WithRetryAndCatch(w, st, WithNext(w, st, BlockToDict(w.ph, st.fields)).value).value, k)
  {
    var st := w.states[s];
    assert StateOk(w, st);
    var d1 := WithNext(w, st, BlockToDict(w.ph, st.fields)).value;
    var d2 := WithRetryAndCatch(w, st, d1).value;
    match st.cls
    case ChoiceState =>
      var d3 := Put(d2, KStr("Choices"), VList(ChoiceDicts(w, st.choices).value));
      PutGet(d2, KStr("Choices"), VList(ChoiceDicts(w, st.choices).value), k);
      if st.default.Some? {
        PutGet(d3, KStr("Default"), VStr(RefId(w, st.default.value).value), k);
      }
    case ParallelState =>
      PutGet(d2, KStr("Branches"), VList(BranchDicts(w, st.branches, fuel).value), k);
    case MapState =>
      PutGet(d2, KStr("Iterator"), SubGraph(w, MapIterator(st), fuel).value, k);
    case _ =>
  }


  /** A Choice state emits `Choices`, one dict per `add_choice` in order,
      and `Default` exactly when a default is set. */
  lemma ChoicesEmitted(w: World, s: nat, fuel: nat)
    requires WorldOk(w) && s < |w.states| && StateToDict(w, s, fuel).Ok?
    requires w.states[s].cls == ChoiceState
    ensures ChoiceDicts(w, w.states[s].choices).Ok?
    ensures Get(StateToDict(w, s, fuel).value, KStr("Choices")) == Some(VList(ChoiceDicts(w, w.states[s].choices).value))
    ensures w.states[s].default.Some? ==> RefId(w, w.states[s].default.value).Ok?
    ensures w.states[s].default.Some? ==>
      Get(StateToDict(w, s, fuel).value, KStr("Default")) == Some(VStr(RefId(w, w.states[s].default.value).value))
  {
    var st := w.states[s];
    assert StateOk(w, st);
    var d1 := WithNext(w, st, BlockToDict(w.ph, st.fields)).value;
    var d2 := WithRetryAndCatch(w, st, d1).value;
    var d3 := Put(d2, KStr("Choices"), VList(ChoiceDicts(w, st.choices).value));
    PutGet(d2, KStr("Choices"), VList(ChoiceDicts(w, st.choices).value), KStr("Choices"));
    if st.default.Some? {
      PutGet(d3, KStr("Default"), VStr(RefId(w, st.default.value).value), KStr("Choices"));
      PutGet(d3, KStr("Default"), VStr(RefId(w, st.default.value).value), KStr("Default"));
    }
  }

  /** A Parallel state emits one nested graph per branch, in order, and a
      Map state its iterator's graph. */
  lemma BranchesAndIteratorEmitted(w: World, s: nat, fuel: nat)
    requires WorldOk(w) && s < |w.states| && StateToDict(w, s, fuel).Ok?
    ensures w.states[s].cls == ParallelState ==>
      BranchDicts(w, w.states[s].branches, fuel).Ok?
      && Get(StateToDict(w, s, fuel).value, KStr("Branches")) == Some(VList(BranchDicts(w, w.states[s].branches, fuel).value))
    ensures w.states[s].cls == MapState ==>
      SubGraph(w, MapIterator(w.states[s]), fuel).Ok?
      && Get(StateToDict(w, s, fuel).value, KStr("Iterator")) == Some(SubGraph(w, MapIterator(w.states[s]), fuel).value)
  {
    var st := w.states[s];
    assert StateOk(w, st);
    var d1 := WithNext(w, st, BlockToDict(w.ph, st.fields)).value;
    var d2 := WithRetryAndCatch(w, st, d1).value;
    if st.cls == ParallelState {
      PutGet(d2, KStr("Branches"), VList(BranchDicts(w, st.branches, fuel).value), KStr("Branches"));
    } else if st.cls == MapState {
      PutGet(d2, KStr("Iterator"), SubGraph(w, MapIterator(st), fuel).value, KStr("Iterator"));
    }
  }

  /** Each nested graph of a Parallel state is its branch's graph. */
  lemma {:induction false} BranchDictsSpec(w: World, branches: seq<Value>, fuel: nat)
    requires WorldOk(w) && BranchDicts(w, branches, fuel).Ok?
    ensures forall j :: 0 <= j < |branches| ==> SubGraph(w, branches[j], fuel) == Ok(BranchDicts(w, branches, fuel).value[j])
  {
    if branches != [] {
      BranchDictsSpec(w, branches[1..], fuel);
      forall j | 0 < j < |branches| ensures SubGraph(w, branches[j], fuel) == Ok(BranchDicts(w, branches, fuel).value[j]) {
        assert branches[1..][j - 1] == branches[j];
      }
    }
  }

  // ------------------------------------------------------ graph traversal

  /** The states a reference stands for: the state, or the chain's steps. */
  function RefStates(w: World, r: Ref): (r': seq<nat>)
    requires WorldOk(w) && RefOk(w, r)
    ensures forall j :: 0 <= j < |r'| ==> r'[j] < |w.states|
  {
    match r
    case StateRef(s) => [s]
    case ChainRef(c) => w.chains[c]
  }

  ghost function StackStates(w: World, stack: seq<Ref>): (r: set<nat>)
    requires WorldOk(w) && forall j :: 0 <= j < |stack| ==> RefOk(w, stack[j])
    ensures forall x :: x in r ==> x < |w.states|
  {
    if stack == [] then {} else SeqSet(RefStates(w, stack[0])) + StackStates(w, stack[1..])
  }

  /** The states `accept` goes on to from state `s`. */
  ghost function SuccStates(w: World, s: nat): (r: set<nat>)
    requires WorldOk(w) && s < |w.states|
    ensures forall x :: x in r ==> x < |w.states|
  {
    StackStates(w, Successors(w, s))
  }

  ghost predicate IsPath(w: World, p: seq<nat>)
    requires WorldOk(w)
  {
    && |p| > 0
    && (forall k :: 0 <= k < |p| ==> p[k] < |w.states|)
    && (forall k :: 0 <= k < |p| - 1 ==> p[k + 1] in SuccStates(w, p[k]))
  }

  /** `t` can be reached from one of `roots` through `next_step`, catch
      targets, and for Choice states the default and the choice targets. */
  ghost predicate Reachable(w: World, roots: set<nat>, t: nat)
    requires WorldOk(w)
  {
    exists p :: IsPath(w, p) && p[0] in roots && p[|p| - 1] == t
  }

  /** Distinct states carry distinct ids. */
  predicate UniqueIds(w: World)
  {
    forall i, j :: 0 <= i < |w.states| && 0 <= j < |w.states| && w.states[i].id == w.states[j].id ==> i == j
  }

  ghost predicate Recorded(w: World, visited: Dict<Key, Value>, t: nat)
    requires t < |w.states|
  {
    HasKey(visited, KStr(w.states[t].id))
  }

  /** Every successor of a recorded state is recorded or still to be walked. */
  ghost predicate ClosedUnder(w: World, visited: Dict<Key, Value>, pending: set<nat>)
    requires WorldOk(w)
  {
    forall v, u :: 0 <= v < |w.states| && Recorded(w, visited, v) && u in SuccStates(w, v) ==> Recorded(w, visited, u) || u in pending
  }

  /** The visitor's `states` dict maps ids of states to those states' dicts, once each. */
  ghost predicate RecordsStates(w: World, visited: Dict<Key, Value>, fuel: nat)
    requires WorldOk(w)
  {
    && KeysUnique(visited)
    && (forall k :: HasKey(visited, k) ==> exists t :: 0 <= t < |w.states| && k == KStr(w.states[t].id))
    && (forall t :: 0 <= t < |w.states| && Recorded(w, visited, t) ==>
          StateToDict(w, t, fuel).Ok? && Get(visited, KStr(w.states[t].id)) == Some(VDict(StateToDict(w, t, fuel).value)))
  }

  lemma StackStatesConcat(w: World, a: seq<Ref>, b: seq<Ref>)
    requires WorldOk(w)
    requires forall j :: 0 <= j < |a| ==> RefOk(w, a[j])
    requires forall j :: 0 <= j < |b| ==> RefOk(w, b[j])
    ensures forall j :: 0 <= j < |a + b| ==> RefOk(w, (a + b)[j])
    ensures StackStates(w, a + b) == StackStates(w, a) + StackStates(w, b)
  {
    if a != [] {
      StackStatesConcat(w, a[1..], b);
      assert (a + b)[1..] == a[1..] + b;
    } else {
      assert a + b == b;
    }
  }

  lemma StackStatesOfSteps(w: World, steps: seq<nat>)
    requires WorldOk(w) && forall j :: 0 <= j < |steps| ==> steps[j] < |w.states|
    ensures StackStates(w, StepRefs(steps)) == SeqSet(steps)
  {
    if steps != [] {
      StackStatesOfSteps(w, steps[1..]);
      assert StepRefs(steps)[1..] == StepRefs(steps[1..]);
      assert SeqSet(steps) == {steps[0]} + SeqSet(steps[1..]) by {
        assert steps == [steps[0]] + steps[1..];
        SeqSetConcat([steps[0]], steps[1..]);
      }
    }
  }

  lemma PathTail(w: World, p: seq<nat>)
    requires WorldOk(w) && IsPath(w, p) && |p| > 1
    ensures IsPath(w, p[1..]) && p[1] in SuccStates(w, p[0])
  {
    forall k | 0 <= k < |p[1..]| - 1 ensures p[1..][k + 1] in SuccStates(w, p[1..][k]) {
      assert p[1..][k] == p[k + 1] && p[1..][k + 1] == p[k + 2];
    }
  }

  /** Reaching from `s` and `rest` is `s` itself or reaching from its
      successors and `rest`. */
  lemma ReachStep(w: World, s: nat, rest: set<nat>, t: nat)
    requires WorldOk(w) && s < |w.states|
    ensures Reachable(w, {s} + rest, t) <==> t == s || Reachable(w, SuccStates(w, s) + rest, t)
  {
    if Reachable(w, {s} + rest, t) {
      ReachFirstStep(w, s, rest, t);
    }
    if t == s || Reachable(w, SuccStates(w, s) + rest, t) {
      ReachPrepend(w, s, rest, t);
    }
  }

  lemma ReachFirstStep(w: World, s: nat, rest: set<nat>, t: nat)
    requires WorldOk(w) && s < |w.states| && Reachable(w, {s} + rest, t)
    ensures t == s || Reachable(w, SuccStates(w, s) + rest, t)
  {
    var p :| IsPath(w, p) && p[0] in {s} + rest && p[|p| - 1] == t;
    if p[0] !in rest && |p| > 1 {
      PathTail(w, p);
      assert p[1..][0] in SuccStates(w, s) + rest;
      assert p[1..][|p[1..]| - 1] == t;
    } else if p[0] in rest {
      assert p[0] in SuccStates(w, s) + rest;
    }
  }

  lemma ReachPrepend(w: World, s: nat, rest: set<nat>, t: nat)
    requires WorldOk(w) && s < |w.states|
    requires t == s || Reachable(w, SuccStates(w, s) + rest, t)
    ensures Reachable(w, {s} + rest, t)
  {
    if t == s {
      assert IsPath(w, [s]);
      assert [s][0] in {s} + rest;
    } else {
      var p :| IsPath(w, p) && p[0] in SuccStates(w, s) + rest && p[|p| - 1] == t;
      if p[0] in rest {
        assert p[0] in {s} + rest;
      } else {
        PathCons(w, s, p);
        var q := [s] + p;
        assert q[0] in {s} + rest && q[|q| - 1] == t;
      }
    }
  }

  lemma PathCons(w: World, s: nat, p: seq<nat>)
    requires WorldOk(w) && s < |w.states| && IsPath(w, p) && p[0] in SuccStates(w, s)
    ensures IsPath(w, [s] + p)
  {
    var q := [s] + p;
    forall k | 0 <= k < |q| - 1 ensures q[k + 1] in SuccStates(w, q[k]) {
      if k > 0 { assert q[k] == p[k - 1] && q[k + 1] == p[k]; }
    }
  }

  /** From a recorded state, a closed walk reaches only recorded states or
      states reachable from what is still to be walked. */
  lemma {:induction false} ReachFromRecorded(w: World, visited: Dict<Key, Value>, pending: set<nat>, p: seq<nat>)
    requires WorldOk(w) && IsPath(w, p) && Recorded(w, visited, p[0]) && ClosedUnder(w, visited, pending)
    ensures Recorded(w, visited, p[|p| - 1]) || Reachable(w, pending, p[|p| - 1])
    decreases |p|
  {
    if |p| > 1 {
      PathTail(w, p);
      if Recorded(w, visited, p[1]) {
        ReachFromRecorded(w, visited, pending, p[1..]);
      } else {
        assert p[1..][0] in pending && p[1..][|p[1..]| - 1] == p[|p| - 1];
      }
    }
  }

  /** Recording state `s` keeps `RecordsStates`. */
  lemma RecordOne(w: World, visited: Dict<Key, Value>, s: nat, fuel: nat)
    requires WorldOk(w) && UniqueIds(w) && s < |w.states| && RecordsStates(w, visited, fuel)
    requires !Recorded(w, visited, s) && StateToDict(w, s, fuel).Ok?
    ensures var v' := Put(visited, KStr(w.states[s].id), VDict(StateToDict(w, s, fuel).value));
      RecordsStates(w, v', fuel)
      && forall t :: 0 <= t < |w.states| ==> (Recorded(w, v', t) <==> Recorded(w, visited, t) || t == s)
  {
    var key := KStr(w.states[s].id);
    var d := VDict(StateToDict(w, s, fuel).value);
    var v' := Put(visited, key, d);
    PutKeys(visited, key, d);
    KeysConcat(visited, [(key, d)]);
    PutUnique(visited, key, d);
    forall k ensures HasKey(v', k) <==> HasKey(visited, k) || k == key {
    }
    forall t | 0 <= t < |w.states| && Recorded(w, v', t)
      ensures StateToDict(w, t, fuel).Ok? && Get(v', KStr(w.states[t].id)) == Some(VDict(StateToDict(w, t, fuel).value))
    {
      PutGet(visited, key, d, KStr(w.states[t].id));
    }
  }

  /** The walk records exactly the states reachable from the stack that
      were not recorded yet, each under its id with its dict; the
      validating walk also checks the parameters after each of them. */
  lemma {:induction false} WalkSpec(w: World, kind: VisitorKind, stack: seq<Ref>, visited: Dict<Key, Value>, fuel: nat)
    requires WorldOk(w) && UniqueIds(w) && forall j :: 0 <= j < |stack| ==> RefOk(w, stack[j])
    requires Walk(w, kind, stack, visited, fuel).Ok?
    requires RecordsStates(w, visited, fuel) && ClosedUnder(w, visited, StackStates(w, stack))
    ensures RecordsStates(w, Walk(w, kind, stack, visited, fuel).value, fuel)
    ensures forall t :: 0 <= t < |w.states| ==>
      (Recorded(w, Walk(w, kind, stack, visited, fuel).value, t) <==> Recorded(w, visited, t) || Reachable(w, StackStates(w, stack), t))
    ensures kind == Validating ==> forall t :: 0 <= t < |w.states| && Reachable(w, StackStates(w, stack), t) && !Recorded(w, visited, t) ==>
      CheckNextParameters(w, t).Pass?
    decreases |AllIds(w) - SeqSet(Keys(visited))|, Weight(w, stack), 3
  {
    if stack == [] {
      forall t | 0 <= t < |w.states| ensures !Reachable(w, {}, t) {
      }
    } else {
      var head := stack[0];
      assert RefOk(w, head);
      assert stack == [head] + stack[1..];
      StackStatesConcat(w, [head], stack[1..]);
      match head
      case ChainRef(c) =>
        WeightOfSteps(w, w.chains[c], stack[1..]);
        StackStatesConcat(w, StepRefs(w.chains[c]), stack[1..]);
        StackStatesOfSteps(w, w.chains[c]);
        assert StackStates(w, [head]) == SeqSet(w.chains[c]);
        WalkSpec(w, kind, StepRefs(w.chains[c]) + stack[1..], visited, fuel);
      case StateRef(s) =>
        assert StackStates(w, [head]) == {s};
        WalkStateSpec(w, kind, s, stack[1..], visited, fuel);
    }
  }

  /** A state taken off the stack: skipped when recorded, else visited. */
  lemma {:induction false} WalkStateSpec(w: World, kind: VisitorKind, s: nat, rest: seq<Ref>, visited: Dict<Key, Value>, fuel: nat)
    requires WorldOk(w) && UniqueIds(w) && s < |w.states| && forall j :: 0 <= j < |rest| ==> RefOk(w, rest[j])
    requires WalkState(w, kind, s, rest, visited, fuel).Ok?
    requires RecordsStates(w, visited, fuel) && ClosedUnder(w, visited, {s} + StackStates(w, rest))
    ensures RecordsStates(w, WalkState(w, kind, s, rest, visited, fuel).value, fuel)
    ensures forall t :: 0 <= t < |w.states| ==>
      (Recorded(w, WalkState(w, kind, s, rest, visited, fuel).value, t) <==> Recorded(w, visited, t) || Reachable(w, {s} + StackStates(w, rest), t))
    ensures kind == Validating ==> forall t :: 0 <= t < |w.states| && Reachable(w, {s} + StackStates(w, rest), t) && !Recorded(w, visited, t) ==>
      CheckNextParameters(w, t).Pass?
    decreases |AllIds(w) - SeqSet(Keys(visited))|, Weight(w, rest) + 1, 2
  {
    if Recorded(w, visited, s) {
      WalkSkipSpec(w, kind, s, rest, visited, fuel);
    } else {
      WalkVisitSpec(w, kind, s, rest, visited, fuel);
    }
  }

  lemma SkipUnfold(w: World, kind: VisitorKind, s: nat, rest: seq<Ref>, visited: Dict<Key, Value>, fuel: nat)
    requires WorldOk(w) && UniqueIds(w) && s < |w.states| && forall j :: 0 <= j < |rest| ==> RefOk(w, rest[j])
    requires WalkState(w, kind, s, rest, visited, fuel).Ok?
    requires RecordsStates(w, visited, fuel) && Recorded(w, visited, s)
    ensures WalkState(w, kind, s, rest, visited, fuel) == Walk(w, kind, rest, visited, fuel)
  {
    if kind == Validating {
      var d := StateToDict(w, s, fuel).value;
      PyEqReflexive(VDict(d));
      assert SameAsRecorded(visited, KStr(w.states[s].id), d);
    }
  }

  lemma SkipReach(w: World, visited: Dict<Key, Value>, s: nat, pending: set<nat>)
    requires WorldOk(w) && s < |w.states| && Recorded(w, visited, s) && ClosedUnder(w, visited, {s} + pending)
    ensures ClosedUnder(w, visited, pending)
    ensures forall t :: 0 <= t < |w.states| ==>
      (Recorded(w, visited, t) || Reachable(w, pending, t) <==> Recorded(w, visited, t) || Reachable(w, {s} + pending, t))
  {
    forall v, u | 0 <= v < |w.states| && Recorded(w, visited, v) && u in SuccStates(w, v)
      ensures Recorded(w, visited, u) || u in pending
    {
      assert Recorded(w, visited, u) || u in {s} + pending;
    }
    forall t | 0 <= t < |w.states| && Reachable(w, {s} + pending, t)
      ensures Recorded(w, visited, t) || Reachable(w, pending, t)
    {
      var p :| IsPath(w, p) && p[0] in {s} + pending && p[|p| - 1] == t;
      if p[0] == s {
        ReachFromRecorded(w, visited, pending, p);
      }
    }
    forall t | 0 <= t < |w.states| && Reachable(w, pending, t) ensures Reachable(w, {s} + pending, t) {
      var p :| IsPath(w, p) && p[0] in pending && p[|p| - 1] == t;
      assert p[0] in {s} + pending;
    }
  }

  /** An already recorded state is skipped by both visitors. */
  lemma {:induction false} WalkSkipSpec(w: World, kind: VisitorKind, s: nat, rest: seq<Ref>, visited: Dict<Key, Value>, fuel: nat)
    requires WorldOk(w) && UniqueIds(w) && s < |w.states| && forall j :: 0 <= j < |rest| ==> RefOk(w, rest[j])
    requires WalkState(w, kind, s, rest, visited, fuel).Ok?
    requires RecordsStates(w, visited, fuel) && ClosedUnder(w, visited, {s} + StackStates(w, rest))
    requires Recorded(w, visited, s)
    ensures RecordsStates(w, WalkState(w, kind, s, rest, visited, fuel).value, fuel)
    ensures forall t :: 0 <= t < |w.states| ==>
      (Recorded(w, WalkState(w, kind, s, rest, visited, fuel).value, t) <==> Recorded(w, visited, t) || Reachable(w, {s} + StackStates(w, rest), t))
    ensures kind == Validating ==> forall t :: 0 <= t < |w.states| && Reachable(w, {s} + StackStates(w, rest), t) && !Recorded(w, visited, t) ==>
      CheckNextParameters(w, t).Pass?
    decreases |AllIds(w) - SeqSet(Keys(visited))|, Weight(w, rest) + 1, 1
  {
    SkipUnfold(w, kind, s, rest, visited, fuel);
    SkipReach(w, visited, s, StackStates(w, rest));
    WalkSpec(w, kind, rest, visited, fuel);
  }

  lemma VisitUnfold(w: World, kind: VisitorKind, s: nat, rest: seq<Ref>, visited: Dict<Key, Value>, fuel: nat)
    requires WorldOk(w) && s < |w.states| && forall j :: 0 <= j < |rest| ==> RefOk(w, rest[j])
    requires WalkState(w, kind, s, rest, visited, fuel).Ok? && !Recorded(w, visited, s)
    ensures StateToDict(w, s, fuel).Ok?
    ensures kind == Validating ==> CheckNextParameters(w, s).Pass?
    ensures forall j :: 0 <= j < |Successors(w, s) + rest| ==> RefOk(w, (Successors(w, s) + rest)[j])
    ensures WalkState(w, kind, s, rest, visited, fuel)
      == Walk(w, kind, Successors(w, s) + rest, Put(visited, KStr(w.states[s].id), VDict(StateToDict(w, s, fuel).value)), fuel)
  {
    var key := KStr(w.states[s].id);
    GetSpec(visited, key);
    RefsOkConcat(w, Successors(w, s), rest);
  }

  lemma VisitClosed(w: World, visited: Dict<Key, Value>, v': Dict<Key, Value>, s: nat, pending: set<nat>)
    requires WorldOk(w) && s < |w.states| && ClosedUnder(w, visited, {s} + pending)
    requires forall t :: 0 <= t < |w.states| ==> (Recorded(w, v', t) <==> Recorded(w, visited, t) || t == s)
    ensures ClosedUnder(w, v', SuccStates(w, s) + pending)
  {
    forall v, u | 0 <= v < |w.states| && Recorded(w, v', v) && u in SuccStates(w, v)
      ensures Recorded(w, v', u) || u in SuccStates(w, s) + pending
    {
      if v != s {
        assert Recorded(w, visited, v);
        assert Recorded(w, visited, u) || u in {s} + pending;
      }
    }
  }

  /** A state not yet recorded is recorded and its successors go on the stack. */
  lemma {:induction false} WalkVisitSpec(w: World, kind: VisitorKind, s: nat, rest: seq<Ref>, visited: Dict<Key, Value>, fuel: nat)
    requires WorldOk(w) && UniqueIds(w) && s < |w.states| && forall j :: 0 <= j < |rest| ==> RefOk(w, rest[j])
    requires WalkState(w, kind, s, rest, visited, fuel).Ok?
    requires RecordsStates(w, visited, fuel) && ClosedUnder(w, visited, {s} + StackStates(w, rest))
    requires !Recorded(w, visited, s)
    ensures RecordsStates(w, WalkState(w, kind, s, rest, visited, fuel).value, fuel)
    ensures forall t :: 0 <= t < |w.states| ==>
      (Recorded(w, WalkState(w, kind, s, rest, visited, fuel).value, t) <==> Recorded(w, visited, t) || Reachable(w, {s} + StackStates(w, rest), t))
    ensures kind == Validating ==> forall t :: 0 <= t < |w.states| && Reachable(w, {s} + StackStates(w, rest), t) && !Recorded(w, visited, t) ==>
      CheckNextParameters(w, t).Pass?
    decreases |AllIds(w) - SeqSet(Keys(visited))|, Weight(w, rest) + 1, 1
  {
    var pending := StackStates(w, rest);
    VisitUnfold(w, kind, s, rest, visited, fuel);
    var d := StateToDict(w, s, fuel).value;
    var v' := Put(visited, KStr(w.states[s].id), VDict(d));
    var succ := Successors(w, s);
    RecordShrinks(w, visited, s, VDict(d));
    StackStatesConcat(w, succ, rest);
    RecordOne(w, visited, s, fuel);
    VisitClosed(w, visited, v', s, pending);
    WalkSpec(w, kind, succ + rest, v', fuel);
    VisitCovers(w, kind, s, pending, visited, v', WalkState(w, kind, s, rest, visited, fuel).value);
  }

  /** Visiting `s` and then walking its successors and the pending states
      covers exactly what walking from `s` and the pending states covers. */
  lemma VisitCovers(w: World, kind: VisitorKind, s: nat, pending: set<nat>, visited: Dict<Key, Value>, v': Dict<Key, Value>, res: Dict<Key, Value>)
    requires WorldOk(w) && s < |w.states|
    requires forall t :: 0 <= t < |w.states| ==> (Recorded(w, v', t) <==> Recorded(w, visited, t) || t == s)
    requires forall t :: 0 <= t < |w.states| ==>
      (Recorded(w, res, t) <==> Recorded(w, v', t) || Reachable(w, SuccStates(w, s) + pending, t))
    requires kind == Validating ==> CheckNextParameters(w, s).Pass?
    requires kind == Validating ==> forall t :: 0 <= t < |w.states| && Reachable(w, SuccStates(w, s) + pending, t) && !Recorded(w, v', t) ==>
      CheckNextParameters(w, t).Pass?
    ensures forall t :: 0 <= t < |w.states| ==>
      (Recorded(w, res, t) <==> Recorded(w, visited, t) || Reachable(w, {s} + pending, t))
    ensures kind == Validating ==> forall t :: 0 <= t < |w.states| && Reachable(w, {s} + pending, t) && !Recorded(w, visited, t) ==>
      CheckNextParameters(w, t).Pass?
  {
    forall t | 0 <= t < |w.states|
      ensures Reachable(w, {s} + pending, t) <==> t == s || Reachable(w, SuccStates(w, s) + pending, t)
    {
      ReachStep(w, s, pending, t);
    }
  }

  // ------------------------------------------------------- Graph.to_dict

  /** A `States` dict: the states reachable from `roots`, each once, under
      its id and mapped to its own `to_dict()`. */
  ghost predicate DocumentsReachable(w: World, roots: set<nat>, states: Dict<Key, Value>, fuel: nat)
    requires WorldOk(w)
  {
    && RecordsStates(w, states, fuel)
    && forall t :: 0 <= t < |w.states| ==> (Recorded(w, states, t) <==> Reachable(w, roots, t))
  }

  lemma WalkFromRoot(w: World, kind: VisitorKind, r: Ref, fuel: nat)
    requires WorldOk(w) && UniqueIds(w) && RefOk(w, r) && Walk(w, kind, [r], [], fuel).Ok?
    ensures DocumentsReachable(w, SeqSet(RefStates(w, r)), Walk(w, kind, [r], [], fuel).value, fuel)
    ensures kind == Validating ==> forall t :: 0 <= t < |w.states| && Reachable(w, SeqSet(RefStates(w, r)), t) ==>
      CheckNextParameters(w, t).Pass?
  {
    assert StackStates(w, [r]) == SeqSet(RefStates(w, r)) by {
      assert [r][1..] == [];
    }
    WalkSpec(w, kind, [r], [], fuel);
  }

  /** `Graph(branch).to_dict()`: `StartAt` is the id of the root (a chain's
      first step), and `States` holds exactly the states reachable from the
      root, each once with its own dict. The validating walk has checked the
      parameters after every reachable state. Ids are taken to be distinct;
      the source only rejects clashing ids it happens to compare. */
  lemma GraphSpec(w: World, branch: Value, graphFields: Dict<string, Value>, fuel: nat)
    requires WorldOk(w) && UniqueIds(w) && GraphToDict(w, branch, graphFields, fuel).Ok?
    ensures IsObject(w, branch)
    ensures RefStates(w, branch.ref) != [] && RefId(w, branch.ref) == Ok(w.states[RefStates(w, branch.ref)[0]].id)
    ensures Get(GraphToDict(w, branch, graphFields, fuel).value, KStr("StartAt")) == Some(VStr(RefId(w, branch.ref).value))
    ensures Walk(w, Emitting, [branch.ref], [], fuel).Ok?
    ensures Get(GraphToDict(w, branch, graphFields, fuel).value, KStr("States")) == Some(VDict(Walk(w, Emitting, [branch.ref], [], fuel).value))
    ensures DocumentsReachable(w, SeqSet(RefStates(w, branch.ref)), Walk(w, Emitting, [branch.ref], [], fuel).value, fuel)
    ensures forall t :: 0 <= t < |w.states| && Reachable(w, SeqSet(RefStates(w, branch.ref)), t) ==> CheckNextParameters(w, t).Pass?
  {
    var r := branch.ref;
    WalkFromRoot(w, Validating, r, fuel);
    WalkFromRoot(w, Emitting, r, fuel);
    var states := Walk(w, Emitting, [r], [], fuel).value;
    var start := RefId(w, r).value;
    var d0 := Put(BlockToDict(w.ph, graphFields), KStr("StartAt"), VStr(start));
    PutGet(BlockToDict(w.ph, graphFields), KStr("StartAt"), VStr(start), KStr("StartAt"));
    PutGet(d0, KStr("States"), VDict(states), KStr("StartAt"));
    PutGet(d0, KStr("States"), VDict(states), KStr("States"));
  }

  /** The errors `Graph(branch)` raises before and after walking: a branch
      that is neither a state nor a chain, a graph field outside the
      whitelist, and an empty chain (whose `state_id` raises). */
  lemma GraphErrors(w: World, branch: Value, graphFields: Dict<string, Value>, fuel: nat)
    requires WorldOk(w)
    ensures !IsObject(w, branch) ==> GraphToDict(w, branch, graphFields, fuel) == Err(NotAStateOrChain)
    ensures IsObject(w, branch) && CheckFields(GraphFields(), graphFields).Fail? ==>
      GraphToDict(w, branch, graphFields, fuel) == Err(CheckFields(GraphFields(), graphFields).error)
    ensures IsObject(w, branch) && CheckFields(GraphFields(), graphFields).Pass? && branch.ref.ChainRef? && w.chains[branch.ref.c] == [] ==>
      GraphToDict(w, branch, graphFields, fuel) == Err(EmptyChain)
  {
    if IsObject(w, branch) && branch.ref.ChainRef? && w.chains[branch.ref.c] == [] {
      var c := branch.ref.c;
      assert StepRefs(w.chains[c]) + [branch.ref][1..] == [];
      assert Walk(w, Validating, [branch.ref], [], fuel) == Ok([]);
      assert Walk(w, Emitting, [branch.ref], [], fuel) == Ok([]);
    }
  }

  /** A `StepInput` used in a parameter is legal when it is the previous
      state's output collection or one of its descendants; dicts are
      searched, lists are not. */
  predicate LegalParameter(ph: seq<PNode>, v: Value, out: nat)
    requires Valid(ph) && out < |ph|
    decreases v
  {
    if IsStepInput(ph, v) then v.p == out || IsAncestor(ph, out, v.p)
    else if v.VDict? then forall j :: 0 <= j < |v.entries| ==> LegalParameter(ph, v.entries[j].1, out)
    else true
  }

  lemma {:induction false} FirstIllegalSpec(ph: seq<PNode>, d: Value, i: nat, out: nat)
    requires Valid(ph) && d.VDict? && out < |ph| && i <= |d.entries|
    ensures FirstIllegal(ph, d, i, out).None? <==> forall j :: i <= j < |d.entries| ==> LegalParameter(ph, d.entries[j].1, out)
    decreases d, |d.entries| - i
  {
    if i < |d.entries| {
      var v := d.entries[i].1;
      FirstIllegalSpec(ph, d, i + 1, out);
      if IsStepInput(ph, v) {
        ContainsIffDescendant(ph, out, v.p);
      } else if v.VDict? {
        FirstIllegalSpec(ph, v, 0, out);
      }
    }
  }

  /** `ValidationVisitor.visit`'s check on the next state passes exactly
      when the next step is not a state, has no `parameters`, or has dict
      parameters whose `StepInput`s all come from this state's output. */
  lemma NextParametersSpec(w: World, s: nat)
    requires WorldOk(w) && s < |w.states|
    ensures var st := w.states[s];
      CheckNextParameters(w, s).Pass? <==>
        || st.next.None? || st.next.value.ChainRef?
        || Get(w.states[st.next.value.s].fields, "parameters").None?
        || (var params := Get(w.states[st.next.value.s].fields, "parameters").value;
            params.VDict? && LegalParameter(w.ph, params, st.stepOutput))
    ensures var st := w.states[s];
      CheckNextParameters(w, s).Fail? ==>
        CheckNextParameters(w, s).error == MissingAttribute("items")
        || CheckNextParameters(w, s).error.IllegalPlaceholder?
  {
    var st := w.states[s];
    assert StateOk(w, st);
    if st.next.Some? && st.next.value.StateRef? {
      var nxt := w.states[st.next.value.s];
      match Get(nxt.fields, "parameters")
      case Some(params) =>
        if params.VDict? {
          FirstIllegalSpec(w.ph, params, 0, st.stepOutput);
        }
      case None =>
    }
  }

  /** A reachable state whose successor uses a foreign `StepInput` makes
      `Graph` raise. */
  lemma IllegalPlaceholderRejected(w: World, branch: Value, graphFields: Dict<string, Value>, fuel: nat, t: nat)
    requires WorldOk(w) && UniqueIds(w) && IsObject(w, branch) && t < |w.states|
    requires Reachable(w, SeqSet(RefStates(w, branch.ref)), t) && CheckNextParameters(w, t).Fail?
    ensures GraphToDict(w, branch, graphFields, fuel).Err?
  {
    if GraphToDict(w, branch, graphFields, fuel).Ok? {
      GraphSpec(w, branch, graphFields, fuel);
    }
  }
}
