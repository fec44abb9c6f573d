/** Building the state graph: the state constructors and the methods that
    wire states together (`next`, `add_retry`, `add_catch`, `add_choice`,
    `default_choice`, `add_branch`, `attach_iterator`,
    `update_parameters`), and chains (`Chain(steps)`, `Chain.append`).
    The objects are kept in a `Workspace`; each method changes one object
    in place and leaves every other one as it was. */
module Builder {
  import opened Wrappers
  import opened Dicts
  import opened PyValues
  import F = Fields
  import opened Placeholders
  import opened States

  // ------------------------------------------------------ state constructors

  /** The `state_type` each class passes to `State.__init__`; `State`
      itself takes the one it is given. */
  function ClassType(cls: StateClass, given: string): string
  {
    match cls
    case StateBase => given
    case PassState => "Pass"
    case SucceedState => "Succeed"
    case FailState => "Fail"
    case WaitState => "Wait"
    case ChoiceState => "Choice"
    case ParallelState => "Parallel"
    case MapState => "Map"
    case TaskState => "Task"
  }

  /** A state whose type is the one its class gives it. */
  predicate TypedByClass(st: StateNode)
  {
    st.stateType == ClassType(st.cls, st.stateType)
  }

  /** A keyword argument that was given and is not None (`self.x is not None`). */
  predicate IsGiven(fields: Dict<string, Value>, name: string)
  {
    Get(fields, name).UnwrapOr(VNone) != VNone
  }

  /** How many of `names` are given. */
  function GivenCount(fields: Dict<string, Value>, names: seq<string>): nat
  {
    if names == [] then 0
    else (if IsGiven(fields, names[0]) then 1 else 0) + GivenCount(fields, names[1..])
  }

  function WaitFields(): seq<string>
  {
    [F.FieldValue(F.Seconds), F.FieldValue(F.Timestamp), F.FieldValue(F.TimestampPath), F.FieldValue(F.SecondsPath)]
  }

  /** The checks the Wait and Task constructors make once `State.__init__` is done. */
  function ClassChecks(cls: StateClass, fields: Dict<string, Value>): Outcome<Error>
  {
    if cls == WaitState && GivenCount(fields, WaitFields()) != 1 then Fail(WaitNeedsExactlyOne)
    else if cls == TaskState && IsGiven(fields, F.FieldValue(F.TimeoutSeconds))
      && IsGiven(fields, F.FieldValue(F.TimeoutSecondsPath)) then Fail(TimeoutBothGiven)
    else if cls == TaskState && IsGiven(fields, F.FieldValue(F.HeartbeatSeconds))
      && IsGiven(fields, F.FieldValue(F.HeartbeatSecondsPath)) then Fail(HeartbeatBothGiven)
    else Pass
  }

  /** Exactly one of `names` is given. */
  predicate ExactlyOneGiven(fields: Dict<string, Value>, names: seq<string>)
  {
    exists i :: 0 <= i < |names| && IsGiven(fields, names[i])
      && forall j :: 0 <= j < |names| && j != i ==> !IsGiven(fields, names[j])
  }

  lemma {:induction false} GivenCountZero(fields: Dict<string, Value>, names: seq<string>)
    ensures GivenCount(fields, names) == 0 <==> forall j :: 0 <= j < |names| ==> !IsGiven(fields, names[j])
  {
    if names != [] {
      var tail := names[1..];
      GivenCountZero(fields, tail);
      assert forall j :: 0 < j < |names| ==> names[j] == tail[j - 1];
    }
  }

  lemma {:induction false} CountOneIsOneGiven(fields: Dict<string, Value>, names: seq<string>)
    requires GivenCount(fields, names) == 1
    ensures ExactlyOneGiven(fields, names)
  {
    var tail := names[1..];
    if IsGiven(fields, names[0]) {
      GivenCountZero(fields, tail);
      forall j | 0 < j < |names| ensures !IsGiven(fields, names[j]) {
        assert names[j] == tail[j - 1];
      }
    } else {
      CountOneIsOneGiven(fields, tail);
      var i :| 0 <= i < |tail| && IsGiven(fields, tail[i])
        && forall j :: 0 <= j < |tail| && j != i ==> !IsGiven(fields, tail[j]);
      assert names[i + 1] == tail[i];
      forall j | 0 <= j < |names| && j != i + 1 ensures !IsGiven(fields, names[j]) {
        if j > 0 { assert names[j] == tail[j - 1]; }
      }
    }
  }

  lemma {:induction false} OneGivenIsCountOne(fields: Dict<string, Value>, names: seq<string>)
    requires ExactlyOneGiven(fields, names)
    ensures GivenCount(fields, names) == 1
  {
    var tail := names[1..];
    var i :| 0 <= i < |names| && IsGiven(fields, names[i])
      && forall j :: 0 <= j < |names| && j != i ==> !IsGiven(fields, names[j]);
    if i == 0 {
      forall j | 0 <= j < |tail| ensures !IsGiven(fields, tail[j]) {
        assert tail[j] == names[j + 1];
      }
      GivenCountZero(fields, tail);
    } else {
      assert tail[i - 1] == names[i];
      forall j | 0 <= j < |tail| && j != i - 1 ensures !IsGiven(fields, tail[j]) {
        assert tail[j] == names[j + 1];
      }
      OneGivenIsCountOne(fields, tail);
    }
  }

  lemma {:induction false} GivenCountOne(fields: Dict<string, Value>, names: seq<string>)
    ensures GivenCount(fields, names) == 1 <==> ExactlyOneGiven(fields, names)
  {
    if GivenCount(fields, names) == 1 {
      CountOneIsOneGiven(fields, names);
    }
    if ExactlyOneGiven(fields, names) {
      OneGivenIsCountOne(fields, names);
    }
  }

  /** `Wait(...)` demands exactly one of `seconds`, `timestamp`,
      `timestamp_path` and `seconds_path`. */
  lemma WaitCheckSpec(fields: Dict<string, Value>)
    ensures ClassChecks(WaitState, fields).Pass? <==> ExactlyOneGiven(fields, WaitFields())
    ensures ClassChecks(WaitState, fields).Fail? ==> ClassChecks(WaitState, fields).error == WaitNeedsExactlyOne
  {
    GivenCountOne(fields, WaitFields());
  }

  // ------------------------------------------------------------ State.next

  /** `r` names a chain object of `chains` that holds no step, the one
      case in which reading `r.state_id` raises. */
  predicate EmptyChainRef(chains: seq<seq<nat>>, r: Ref)
  {
    r.ChainRef? && r.c < |chains| && chains[r.c] == []
  }

  /** `state.next(target)` on one state, given the chain objects `chains`:
      Succeed and Fail refuse it; a Choice state takes the target as its
      default (a `State` built with type Choice has no `default_choice` to
      call), but when it already has one, the warning it logs first reads
      the `state_id` of the old default and of the target, which raises for
      an empty chain; any other state takes the target as its `next_step`. */
  function NextOn(chains: seq<seq<nat>>, st: StateNode, target: Ref): Result<StateNode, Error>
  {
    if st.stateType == "Succeed" || st.stateType == "Fail" then Err(NextNotSupported)
    else if st.stateType == "Choice" then
      if st.cls != ChoiceState then Err(NotCallable)
      else if st.default.Some? && (EmptyChainRef(chains, st.default.value) || EmptyChainRef(chains, target)) then Err(EmptyChain)
      else Ok(st.(default := Some(target)))
    else Ok(st.(next := Some(target)))
  }

  /** The transition a state takes when nothing more specific applies:
      its default for a Choice state, its `next_step` otherwise. */
  function Onward(st: StateNode): Option<Ref>
  {
    if st.cls == ChoiceState then st.default else st.next
  }

  /** `next` succeeds exactly on states that can have a successor, and
      then makes the target the state's onward transition and changes
      nothing else the state holds. */
  lemma NextOnSpec(chains: seq<seq<nat>>, st: StateNode, target: Ref)
    requires TypedByClass(st)
    ensures NextOn(chains, st, target).Ok? <==>
      && st.cls !in {SucceedState, FailState}
      && (st.cls == StateBase ==> st.stateType !in ["Succeed", "Fail", "Choice"])
      && (st.cls == ChoiceState && st.default.Some? ==>
            !EmptyChainRef(chains, st.default.value) && !EmptyChainRef(chains, target))
    ensures (st.cls == ChoiceState && st.default.Some? &&
             (EmptyChainRef(chains, st.default.value) || EmptyChainRef(chains, target))) ==>
      NextOn(chains, st, target) == Err(EmptyChain)
    ensures NextOn(chains, st, target).Ok? ==> var st' := NextOn(chains, st, target).value;
      && Onward(st') == Some(target)
      && st'.(next := st.next, default := st.default) == st
      && (st.cls != ChoiceState ==> st'.default == st.default)
      && (st.cls == ChoiceState ==> st'.next == st.next)
  {
  }

  /** `EmptyChainRef` is exactly the case in which `state_id` raises. */
  lemma StateIdFails(w: World, r: Ref)
    requires WorldOk(w) && RefOk(w, r)
    ensures RefId(w, r).Err? <==> EmptyChainRef(w.chains, r)
    ensures RefId(w, r).Err? ==> RefId(w, r).error == EmptyChain
  {
  }

  /** After a successful `next`, the target is the first object the
      state's `accept` goes on to. */
  lemma NextMakesSuccessor(w: World, s: nat, target: Ref)
    requires WorldOk(w) && s < |w.states| && RefOk(w, target)
    requires TypedByClass(w.states[s]) && NextOn(w.chains, w.states[s], target).Ok?
    ensures var w' := w.(states := w.states[s := NextOn(w.chains, w.states[s], target).value]);
      WorldOk(w') && Successors(w', s) != [] && Successors(w', s)[0] == target
  {
    var w' := w.(states := w.states[s := NextOn(w.chains, w.states[s], target).value]);
    assert StateOk(w, w.states[s]);
    forall i | 0 <= i < |w'.states| ensures StateOk(w', w'.states[i]) {
      assert StateOk(w, w.states[i]);
    }
  }

  // ----------------------------------------------------------- blocks

  /** `Retry(**kwargs)`: only the retry fields are accepted. */
  function NewRetry(kwargs: Dict<string, Value>): (r: Result<Dict<string, Value>, Error>)
    ensures r.Ok? <==> forall j :: 0 <= j < |kwargs| ==> IsAllowed(RetryFields(), kwargs[j].0)
    ensures r.Ok? ==> r.value == kwargs
    ensures r.Err? ==> r.error.UnsupportedField? && exists j :: 0 <= j < |kwargs| && r.error.field == kwargs[j].0
  {
    CheckFieldsSpec(RetryFields(), kwargs);
    match CheckFields(RetryFields(), kwargs)
    case Fail(e) => Err(e)
    case Pass => Ok(kwargs)
  }

  /** `Catch(next_step, **kwargs)`: only the catch fields are accepted. */
  function NewCatch(next: Ref, kwargs: Dict<string, Value>): (r: Result<CatchBlock, Error>)
    ensures r.Ok? <==> forall j :: 0 <= j < |kwargs| ==> IsAllowed(CatchFields(), kwargs[j].0)
    ensures r.Ok? ==> r.value == CatchBlock(kwargs, next)
    ensures r.Err? ==> r.error.UnsupportedField? && exists j :: 0 <= j < |kwargs| && r.error.field == kwargs[j].0
  {
    CheckFieldsSpec(CatchFields(), kwargs);
    match CheckFields(CatchFields(), kwargs)
    case Fail(e) => Err(e)
    case Pass => Ok(CatchBlock(kwargs, next))
  }

  /** `update_parameters` writes `parameters` (passed as `key`) where the
      class allows it; `to_dict` then emits the parameters, placeholders
      rewritten, under `Parameters`, unless they are None. */
  lemma UpdateParametersEmitted(ph: seq<PNode>, fields: Dict<string, Value>, params: Value, key: string)
    requires Valid(ph) && key == F.FieldValue(F.Parameters) && PascalDistinct(Put(fields, key, params))
    ensures Get(BlockToDict(ph, Put(fields, key, params)), KStr(F.ToPascalCase(key)))
      == if params != VNone then Some(ReplacePlaceholders(ph, params)) else None
  {
    var fs := Put(fields, key, params);
    var j := PutPosition(fields, key, params);
    ParametersNotAcceptedAsNone(key);
    assert Kept(fs[j]) <==> params != VNone;
    assert Emitted(ph, fs[j]) == ReplacePlaceholders(ph, params);
    BlockToDictSpec(ph, fs);
  }

  lemma {:induction false} ParametersNotAcceptedAsNone(key: string)
    requires key == F.FieldValue(F.Parameters)
    ensures !AcceptedAsNone(key)
  {
    assert key[0] == 'p';
  }

  /** Where `d[k] = v` leaves the new entry. */
  lemma {:induction false} PutPosition<K, V>(d: Dict<K, V>, k: K, v: V) returns (j: nat)
    ensures j < |Put(d, k, v)| && Put(d, k, v)[j] == (k, v)
  {
    if d == [] || d[0].0 == k {
      j := 0;
    } else {
      var i := PutPosition(d[1..], k, v);
      j := i + 1;
    }
  }

  // ------------------------------------------------------------ chains

  /** No step occurs twice. */
  predicate Distinct(xs: seq<nat>)
  {
    forall i, j :: 0 <= i < j < |xs| ==> xs[i] != xs[j]
  }

  /** `xs.count(x)`. */
  function Count(xs: seq<nat>, x: nat): nat
  {
    if xs == [] then 0 else (if xs[0] == x then 1 else 0) + Count(xs[1..], x)
  }

  lemma {:induction false} CountZero(xs: seq<nat>, x: nat)
    ensures Count(xs, x) == 0 <==> x !in xs
  {
    if xs != [] {
      CountZero(xs[1..], x);
      assert x in xs <==> xs[0] == x || x in xs[1..];
    }
  }

  /** The duplicate check of `Chain.__init__`: no step's count exceeds one
      exactly when the steps are distinct. */
  lemma {:induction false} CountDistinct(xs: seq<nat>)
    ensures Distinct(xs) <==> forall k :: 0 <= k < |xs| ==> Count(xs, xs[k]) <= 1
  {
    if xs != [] {
      var tail := xs[1..];
      CountDistinct(tail);
      CountZero(tail, xs[0]);
      assert forall k :: 0 < k < |xs| ==> xs[k] == tail[k - 1];
      if Distinct(xs) {
        assert xs[0] !in tail;
        assert Distinct(tail);
        forall k | 0 < k < |xs| ensures Count(xs, xs[k]) <= 1 {
          assert xs[0] != xs[k];
        }
      }
      if forall k :: 0 <= k < |xs| ==> Count(xs, xs[k]) <= 1 {
        assert xs[0] !in tail;
        forall k | 0 <= k < |tail| ensures Count(tail, tail[k]) <= 1 {
          assert Count(xs, xs[k + 1]) <= 1;
        }
        forall i, j | 0 <= i < j < |xs| ensures xs[i] != xs[j] {
          if i > 0 {
            assert tail[i - 1] != tail[j - 1];
          } else {
            assert xs[j] in tail;
          }
        }
      }
    }
  }

  /** `steps_expanded`: each chain in the list replaced by its steps. */
  function Expand(w: World, items: seq<Value>): (r: seq<nat>)
    requires WorldOk(w) && forall j :: 0 <= j < |items| ==> IsObject(w, items[j])
    ensures forall j :: 0 <= j < |r| ==> r[j] < |w.states|
  {
    if items == [] then []
    else
      var first := items[0];
      assert IsObject(w, first);
      RefStates(w, first.ref) + Expand(w, items[1..])
  }

  /** `Chain.append(step)` on a chain holding `chain`: the first step is
      taken as it is; a step already in the chain is refused; otherwise the
      last step goes `next` to it, and the step is added if that succeeded. */
  function AppendStep(chains: seq<seq<nat>>, states: seq<StateNode>, chain: seq<nat>, step: nat): Result<(seq<StateNode>, seq<nat>), Error>
    requires step < |states| && forall j :: 0 <= j < |chain| ==> chain[j] < |states|
  {
    if chain == [] then Ok((states, [step]))
    else if step in chain then Err(DuplicateStatesInChain)
    else
      var last := chain[|chain| - 1];
      var st :- NextOn(chains, states[last], StateRef(step));
      Ok((states[last := st], chain + [step]))
  }

  /** The states and the chain after appending steps one by one, and the
      error that stopped it, if any. */
  datatype Linking = Linking(states: seq<StateNode>, chain: seq<nat>, failure: Option<Error>)

  function AppendAll(chains: seq<seq<nat>>, states: seq<StateNode>, chain: seq<nat>, steps: seq<nat>): (r: Linking)
    requires forall j :: 0 <= j < |chain| ==> chain[j] < |states|
    requires forall j :: 0 <= j < |steps| ==> steps[j] < |states|
    ensures |r.states| == |states|
    decreases |steps|
  {
    if steps == [] then Linking(states, chain, None)
    else
      match AppendStep(chains, states, chain, steps[0])
      case Err(e) => Linking(states, chain, Some(e))
      case Ok(next) => AppendAll(chains, next.0, next.1, steps[1..])
  }

  /** Appending to chain `c` does not depend on what `c` holds when no
      state has `c` as its default, and it gives no state that default. */
  lemma AppendStepSameChains(ch1: seq<seq<nat>>, ch2: seq<seq<nat>>, c: nat, states: seq<StateNode>, chain: seq<nat>, step: nat)
    requires step < |states| && forall j :: 0 <= j < |chain| ==> chain[j] < |states|
    requires |ch1| == |ch2| && c < |ch1| && forall k :: 0 <= k < |ch1| && k != c ==> ch1[k] == ch2[k]
    requires forall i :: 0 <= i < |states| ==> states[i].default != Some(ChainRef(c))
    ensures AppendStep(ch1, states, chain, step) == AppendStep(ch2, states, chain, step)
    ensures AppendStep(ch1, states, chain, step).Ok? ==>
      forall i :: 0 <= i < |states| ==> AppendStep(ch1, states, chain, step).value.0[i].default != Some(ChainRef(c))
  {
    if chain != [] && step !in chain {
      var st := states[chain[|chain| - 1]];
      assert st.default.Some? ==> EmptyChainRef(ch1, st.default.value) == EmptyChainRef(ch2, st.default.value);
    }
  }

  /** The duplicate check of `Chain(steps)`: is some step counted more than once? */
  method HasRepeatedStep(xs: seq<nat>) returns (dup: bool)
    ensures dup <==> !Distinct(xs)
  {
    CountDistinct(xs);
    for i := 0 to |xs|
      invariant forall k :: 0 <= k < i ==> Count(xs, xs[k]) <= 1
    {
      if Count(xs, xs[i]) > 1 {
        return true;
      }
    }
    return false;
  }

  predicate InRange(states: seq<StateNode>, xs: seq<nat>)
  {
    forall j :: 0 <= j < |xs| ==> xs[j] < |states|
  }

  /** Every step of `all` from position `from` on, bar the last, accepts
      `next` to the step after it. */
  predicate LinksAllowed(chains: seq<seq<nat>>, states: seq<StateNode>, all: seq<nat>, from: nat)
    requires InRange(states, all)
  {
    forall m :: from <= m < |all| - 1 ==> NextOn(chains, states[all[m]], StateRef(all[m + 1])).Ok?
  }

  /** `after` is `states` with every step of `all` from position `from`
      on, bar the last, sent `next` to the step after it, and nothing else
      changed. */
  predicate LinksMade(chains: seq<seq<nat>>, states: seq<StateNode>, all: seq<nat>, from: nat, after: seq<StateNode>)
    requires InRange(states, all) && LinksAllowed(chains, states, all, from) && |after| == |states|
  {
    && (forall m :: from <= m < |all| - 1 ==> after[all[m]] == NextOn(chains, states[all[m]], StateRef(all[m + 1])).value)
    && (forall t :: 0 <= t < |states| && !Linked(all, from, t) ==> after[t] == states[t])
  }

  /** `t` is one of the steps of `all` from `from` on that has a step after it. */
  predicate Linked(all: seq<nat>, from: nat, t: nat)
  {
    exists m :: from <= m < |all| - 1 && all[m] == t
  }

  /** Sending the step at `from` on first: the remaining links are the
      same whether asked of the states before or after. */
  lemma ShiftLinks(chains: seq<seq<nat>>, states: seq<StateNode>, all: seq<nat>, from: nat, after: seq<StateNode>)
    requires InRange(states, all) && Distinct(all) && from < |all| - 1
    requires NextOn(chains, states[all[from]], StateRef(all[from + 1])).Ok?
    ensures var states' := states[all[from] := NextOn(chains, states[all[from]], StateRef(all[from + 1])).value];
      && InRange(states', all)
      && (LinksAllowed(chains, states', all, from + 1) <==> LinksAllowed(chains, states, all, from))
      && (LinksAllowed(chains, states, all, from) && |after| == |states| && LinksMade(chains, states', all, from + 1, after) ==>
            LinksMade(chains, states, all, from, after))
  {
    var last := all[from];
    var states' := states[last := NextOn(chains, states[last], StateRef(all[from + 1])).value];
    forall m | from < m < |all| ensures all[m] != last && states'[all[m]] == states[all[m]] {
      assert all[from] != all[m];
    }
    if LinksAllowed(chains, states, all, from) && |after| == |states| && LinksMade(chains, states', all, from + 1, after) {
      assert !Linked(all, from + 1, last);
      forall t | 0 <= t < |states| && !Linked(all, from, t) ensures after[t] == states[t] {
        assert t != last;
        assert !Linked(all, from + 1, t);
      }
    }
  }

  /** What appending `steps` to `chain` does when the steps are new: from
      the chain's last step on, each step goes `next` to the one after it
      and every other state is left alone, and appending stops with an
      error exactly when one of those `next` calls refuses. */
  lemma {:induction false} AppendAllSpec(chains: seq<seq<nat>>, states: seq<StateNode>, chain: seq<nat>, steps: seq<nat>)
    requires InRange(states, chain) && InRange(states, steps) && Distinct(chain + steps)
    ensures InRange(states, chain + steps)
    ensures var all := chain + steps; var from := if chain == [] then 0 else |chain| - 1;
      var r := AppendAll(chains, states, chain, steps);
      && (r.failure.None? <==> LinksAllowed(chains, states, all, from))
      && (r.failure.None? ==> r.chain == all && LinksMade(chains, states, all, from, r.states))
    decreases |steps|
  {
    var all := chain + steps;
    assert InRange(states, all);
    if steps == [] {
      assert all == chain;
    } else if chain == [] {
      assert AppendStep(chains, states, chain, steps[0]) == Ok((states, [steps[0]]));
      assert [steps[0]] + steps[1..] == all;
      AppendAllSpec(chains, states, [steps[0]], steps[1..]);
    } else {
      var last := chain[|chain| - 1];
      var from := |chain| - 1;
      assert all[from] == last && all[from + 1] == steps[0];
      assert steps[0] !in chain by {
        forall j | 0 <= j < |chain| ensures chain[j] != steps[0] {
          assert all[j] == chain[j] && all[|chain|] == steps[0];
        }
      }
      match NextOn(chains, states[last], StateRef(steps[0]))
      case Err(e) =>
      case Ok(st) =>
        var states' := states[last := st];
        var chain' := chain + [steps[0]];
        assert chain' + steps[1..] == all;
        ShiftLinks(chains, states, all, from, AppendAll(chains, states, chain, steps).states);
        AppendAllSpec(chains, states', chain', steps[1..]);
    }
  }

  /** What linking left in state `t`: the state as it was, or the state
      sent `next` to some step. */
  lemma {:induction false} LinkedState(chains: seq<seq<nat>>, states: seq<StateNode>, steps: seq<nat>, t: nat) returns (x: Option<nat>)
    requires InRange(states, steps) && Distinct(steps) && t < |states|
    requires AppendAll(chains, states, [], steps).failure.None?
    ensures x.None? ==> AppendAll(chains, states, [], steps).states[t] == states[t]
    ensures x.Some? ==>
      && x.value < |states| && NextOn(chains, states[t], StateRef(x.value)).Ok?
      && AppendAll(chains, states, [], steps).states[t] == NextOn(chains, states[t], StateRef(x.value)).value
  {
    assert [] + steps == steps;
    AppendAllSpec(chains, states, [], steps);
    if Linked(steps, 0, t) {
      var m :| 0 <= m < |steps| - 1 && steps[m] == t;
      x := Some(steps[m + 1]);
    } else {
      x := None;
    }
  }

  lemma NextKeepsStateOk(w: World, st: StateNode, target: Ref)
    requires StateOk(w, st) && RefOk(w, target) && NextOn(w.chains, st, target).Ok?
    ensures StateOk(w, NextOn(w.chains, st, target).value)
  {
  }

  /** Linking keeps every reference in range. */
  lemma LinkedWorldOk(w: World, steps: seq<nat>)
    requires WorldOk(w) && InRange(w.states, steps) && Distinct(steps)
    requires AppendAll(w.chains, w.states, [], steps).failure.None?
    ensures WorldOk(w.(states := AppendAll(w.chains, w.states, [], steps).states))
  {
    var after := AppendAll(w.chains, w.states, [], steps).states;
    var w' := w.(states := after);
    forall t | 0 <= t < |after| ensures StateOk(w', after[t]) {
      assert StateOk(w, w.states[t]);
      var x := LinkedState(w.chains, w.states, steps, t);
      if x.Some? {
        NextKeepsStateOk(w, w.states[t], StateRef(x.value));
      }
    }
  }

  /** A state whose onward transition is a state has that state among
      the ones `accept` goes on to. */
  lemma OnwardIsSuccessor(w: World, s: nat)
    requires WorldOk(w) && s < |w.states|
    requires Onward(w.states[s]).Some? && Onward(w.states[s]).value.StateRef?
    ensures Onward(w.states[s]).value.s in SuccStates(w, s)
  {
    var succ := Successors(w, s);
    assert succ[0] == Onward(w.states[s]).value;
    assert StackStates(w, succ) == SeqSet(RefStates(w, succ[0])) + StackStates(w, succ[1..]);
  }

  /** The step at `k` of a linked chain was sent `next` to the step after it. */
  lemma LinkAt(chains: seq<seq<nat>>, states: seq<StateNode>, steps: seq<nat>, k: nat)
    requires InRange(states, steps) && Distinct(steps) && k < |steps| - 1
    requires AppendAll(chains, states, [], steps).failure.None?
    ensures NextOn(chains, states[steps[k]], StateRef(steps[k + 1])).Ok?
    ensures AppendAll(chains, states, [], steps).states[steps[k]] == NextOn(chains, states[steps[k]], StateRef(steps[k + 1])).value
  {
    assert [] + steps == steps;
    AppendAllSpec(chains, states, [], steps);
  }

  /** In a linked chain, each step leads on to the step after it. */
  lemma ChainLinkIsSuccessor(w: World, steps: seq<nat>, k: nat)
    requires WorldOk(w) && InRange(w.states, steps) && Distinct(steps) && k < |steps| - 1
    requires TypedByClass(w.states[steps[k]])
    requires AppendAll(w.chains, w.states, [], steps).failure.None?
    ensures var w' := w.(states := AppendAll(w.chains, w.states, [], steps).states);
      WorldOk(w') && steps[k + 1] in SuccStates(w', steps[k])
  {
    var after := AppendAll(w.chains, w.states, [], steps).states;
    var w' := w.(states := after);
    LinkedWorldOk(w, steps);
    LinkAt(w.chains, w.states, steps, k);
    var s := steps[k];
    NextOnSpec(w.chains, w.states[s], StateRef(steps[k + 1]));
    OnwardIsSuccessor(w', s);
  }

  /** A chain built from distinct steps with no refusal leads from its
      first step to every one of its steps, in the graph `accept` walks. */
  lemma ChainReachesSteps(w: World, steps: seq<nat>)
    requires WorldOk(w) && InRange(w.states, steps) && Distinct(steps) && steps != []
    requires forall j :: 0 <= j < |steps| ==> TypedByClass(w.states[steps[j]])
    requires AppendAll(w.chains, w.states, [], steps).failure.None?
    ensures var w' := w.(states := AppendAll(w.chains, w.states, [], steps).states);
      && WorldOk(w')
      && forall j :: 0 <= j < |steps| ==> Reachable(w', {steps[0]}, steps[j])
  {
    var w' := w.(states := AppendAll(w.chains, w.states, [], steps).states);
    LinkedWorldOk(w, steps);
    forall k | 0 <= k < |steps| - 1 ensures steps[k + 1] in SuccStates(w', steps[k]) {
      ChainLinkIsSuccessor(w, steps, k);
    }
    assert IsPath(w', steps);
    forall j | 0 <= j < |steps| ensures Reachable(w', {steps[0]}, steps[j]) {
      PrefixIsPath(w', steps, j + 1);
      assert steps[..j + 1][0] in {steps[0]};
    }
  }

  lemma PrefixIsPath(w: World, p: seq<nat>, n: nat)
    requires WorldOk(w) && IsPath(w, p) && 0 < n <= |p|
    ensures IsPath(w, p[..n]) && p[..n][n - 1] == p[n - 1]
  {
    forall k | 0 <= k < n - 1 ensures p[..n][k + 1] in SuccStates(w, p[..n][k]) {
      assert p[..n][k] == p[k] && p[..n][k + 1] == p[k + 1];
    }
  }

  /** Replacing one state by a well-formed one keeps the world well formed. */
  lemma ReplaceState(w: World, s: nat, st: StateNode)
    requires WorldOk(w) && s < |w.states| && StateOk(w, st)
    ensures WorldOk(w.(states := w.states[s := st]))
  {
    var w' := w.(states := w.states[s := st]);
    forall i | 0 <= i < |w'.states| ensures StateOk(w', w'.states[i]) {
      var x := w'.states[i];
      assert StateOk(w, x);
      assert forall r :: RefOk(w', r) == RefOk(w, r);
    }
  }

  /** Which classes have `parameters` in their whitelist. */
  lemma ParametersAllowed(cls: StateClass)
    ensures IsAllowed(AllowedFields(cls), F.FieldValue(F.Parameters)) <==>
      cls in {StateBase, PassState, ParallelState, MapState, TaskState}
  {
    var allowed := AllowedFields(cls);
    if cls in {StateBase, PassState, ParallelState, MapState, TaskState} {
      assert allowed[3] == F.Parameters;
    } else {
      forall j | 0 <= j < |allowed| ensures F.FieldValue(allowed[j]) != F.FieldValue(F.Parameters) {
      }
    }
  }

  // -------------------------------------------------------- the objects

  /** Every state and chain object of a program that builds a workflow,
      and the placeholder arena their output collections live in. */
  class Workspace {
    var states: seq<StateNode>
    var chains: seq<seq<nat>>
    const arena: PlaceholderArena

    function Snapshot(): World
      reads this, arena
    {
      World(states, chains, arena.nodes)
    }

    /** References name existing objects and each state has its class's type. */
    ghost predicate Valid()
      reads this, arena
    {
      && WorldOk(Snapshot())
      && forall i :: 0 <= i < |states| ==> TypedByClass(states[i])
    }

    constructor (arena: PlaceholderArena)
      requires Placeholders.Valid(arena.nodes)
      ensures this.arena == arena && states == [] && chains == [] && Valid()
    {
      this.arena := arena;
      states := [];
      chains := [];
    }

    /** `Pass(...)`, `Succeed(...)`, ..., or `State(state_id, state_type, ...)`:
        the keyword arguments are checked against the class's whitelist,
        `type` is added, a `StepInput` collection is made for the output
        (from `output_schema`), then Wait and Task check their arguments.
        A new state is created only when every check passes. */
    method NewState(cls: StateClass, id: string, givenType: string, kwargs: Dict<string, Value>, outputSchema: Value)
      returns (r: Result<nat, Error>)
      requires Valid()
      modifies this, arena
      ensures Valid() && chains == old(chains)
      ensures CheckFields(AllowedFields(cls), kwargs).Fail? ==>
        r == Err(CheckFields(AllowedFields(cls), kwargs).error) && states == old(states) && arena.nodes == old(arena.nodes)
      ensures r.Err? ==> states == old(states)
      ensures var ty := ClassType(cls, givenType); var fields := Put(kwargs, "type", VStr(ty));
        r.Ok? ==>
          && CheckFields(AllowedFields(cls), kwargs).Pass? && ClassChecks(cls, fields).Pass?
          && r.value == |old(states)| && |states| == r.value + 1 && |old(arena.nodes)| <= states[r.value].stepOutput
          && states == old(states) + [StateNode(cls, id, ty, fields, states[r.value].stepOutput, [], [], None, [], None, [], None)]
      ensures var ty := ClassType(cls, givenType); var fields := Put(kwargs, "type", VStr(ty));
        CheckFields(AllowedFields(cls), kwargs).Pass? && Falsy(outputSchema) ==> (r.Ok? <==> ClassChecks(cls, fields).Pass?)
    {
      var check := CheckFields(AllowedFields(cls), kwargs);
      if check.Fail? {
        return Err(check.error);
      }
      var ty := ClassType(cls, givenType);
      var fields := Put(kwargs, "type", VStr(ty));
      var out := arena.NewCollection(StepInputKind, outputSchema);
      if out.Err? {
        return Err(out.error);
      }
      var extra := ClassChecks(cls, fields);
      if extra.Fail? {
        return Err(extra.error);
      }
      var st := StateNode(cls, id, ty, fields, out.value, [], [], None, [], None, [], None);
      assert StateOk(Snapshot(), st);
      forall i | 0 <= i < |states| ensures StateOk(World(states + [st], chains, arena.nodes), states[i]) {
        assert StateOk(old(Snapshot()), states[i]);
      }
      states := states + [st];
      r := Ok(|states| - 1);
    }

    /** `state.next(target)`; returns the target. */
    method Next(s: nat, target: Ref) returns (r: Result<Ref, Error>)
      requires Valid() && s < |states| && RefOk(Snapshot(), target)
      modifies this
      ensures Valid() && chains == old(chains)
      ensures NextOn(chains, old(states[s]), target).Ok? ==>
        r == Ok(target) && states == old(states)[s := NextOn(chains, old(states[s]), target).value]
      ensures NextOn(chains, old(states[s]), target).Err? ==>
        r == Err(NextOn(chains, old(states[s]), target).error) && states == old(states)
    {
      match NextOn(chains, states[s], target)
      case Err(e) =>
        r := Err(e);
      case Ok(st) =>
        NextMakesSuccessor(Snapshot(), s, target);
        states := states[s := st];
        r := Ok(target);
    }

    /** `state.add_retry(retry)`: only Parallel, Map and Task states take retriers. */
    method AddRetry(s: nat, retry: Dict<string, Value>) returns (r: Outcome<Error>)
      requires Valid() && s < |states|
      modifies this
      ensures Valid() && chains == old(chains)
      ensures old(states[s]).cls in {ParallelState, MapState, TaskState} ==>
        r.Pass? && states == old(states)[s := old(states[s]).(retries := old(states[s]).retries + [retry])]
      ensures old(states[s]).cls !in {ParallelState, MapState, TaskState} ==>
        r == Fail(RetryNotSupported) && states == old(states)
    {
      RetryAndCatchAllowed(states[s].cls);
      if IsAllowed(AllowedFields(states[s].cls), F.FieldValue(F.Retry)) {
        var st := states[s];
        assert StateOk(Snapshot(), st);
        ReplaceState(Snapshot(), s, st.(retries := st.retries + [retry]));
        states := states[s := st.(retries := st.retries + [retry])];
        assert forall i :: 0 <= i < |states| && i != s ==> states[i] == old(states[i]);
        r := Pass;
      } else {
        r := Fail(RetryNotSupported);
      }
    }

    /** `state.add_catch(catch)`: only Parallel, Map and Task states take catchers. */
    method AddCatch(s: nat, catch: CatchBlock) returns (r: Outcome<Error>)
      requires Valid() && s < |states| && RefOk(Snapshot(), catch.next)
      modifies this
      ensures Valid() && chains == old(chains)
      ensures old(states[s]).cls in {ParallelState, MapState, TaskState} ==>
        r.Pass? && states == old(states)[s := old(states[s]).(catches := old(states[s]).catches + [catch])]
      ensures old(states[s]).cls !in {ParallelState, MapState, TaskState} ==>
        r == Fail(CatchNotSupported) && states == old(states)
    {
      RetryAndCatchAllowed(states[s].cls);
      if IsAllowed(AllowedFields(states[s].cls), F.FieldValue(F.Catch)) {
        var st := states[s];
        assert StateOk(Snapshot(), st);
        ReplaceState(Snapshot(), s, st.(catches := st.catches + [catch]));
        states := states[s := st.(catches := st.catches + [catch])];
        assert forall i :: 0 <= i < |states| && i != s ==> states[i] == old(states[i]);
        r := Pass;
      } else {
        r := Fail(CatchNotSupported);
      }
    }

    /** `choice.add_choice(rule, target)`; other classes have no such method. */
    method AddChoice(s: nat, rule: ChoiceRules.Rule, target: Ref) returns (r: Outcome<Error>)
      requires Valid() && s < |states| && RefOk(Snapshot(), target)
      modifies this
      ensures Valid() && chains == old(chains)
      ensures old(states[s]).cls == ChoiceState ==>
        r.Pass? && states == old(states)[s := old(states[s]).(choices := old(states[s]).choices + [(rule, target)])]
      ensures old(states[s]).cls != ChoiceState ==> r == Fail(NotCallable) && states == old(states)
    {
      if states[s].cls == ChoiceState {
        var st := states[s];
        assert StateOk(Snapshot(), st);
        ReplaceState(Snapshot(), s, st.(choices := st.choices + [(rule, target)]));
        states := states[s := st.(choices := st.choices + [(rule, target)])];
        assert forall i :: 0 <= i < |states| && i != s ==> states[i] == old(states[i]);
        r := Pass;
      } else {
        r := Fail(NotCallable);
      }
    }

    /** `choice.default_choice(target)`; other classes have no such method. */
    method DefaultChoice(s: nat, target: Ref) returns (r: Outcome<Error>)
      requires Valid() && s < |states| && RefOk(Snapshot(), target)
      modifies this
      ensures Valid() && chains == old(chains)
      ensures old(states[s]).cls == ChoiceState ==>
        r.Pass? && states == old(states)[s := old(states[s]).(default := Some(target))]
      ensures old(states[s]).cls != ChoiceState ==> r == Fail(NotCallable) && states == old(states)
    {
      if states[s].cls == ChoiceState {
        var st := states[s];
        assert StateOk(Snapshot(), st);
        ReplaceState(Snapshot(), s, st.(default := Some(target)));
        states := states[s := st.(default := Some(target))];
        assert forall i :: 0 <= i < |states| && i != s ==> states[i] == old(states[i]);
        r := Pass;
      } else {
        r := Fail(NotCallable);
      }
    }

    /** `parallel.add_branch(branch)`; other classes have no such method.
        The branch is checked only when the graph is built. */
    method AddBranch(s: nat, branch: Value) returns (r: Outcome<Error>)
      requires Valid() && s < |states|
      modifies this
      ensures Valid() && chains == old(chains)
      ensures old(states[s]).cls == ParallelState ==>
        r.Pass? && states == old(states)[s := old(states[s]).(branches := old(states[s]).branches + [branch])]
      ensures old(states[s]).cls != ParallelState ==> r == Fail(NotCallable) && states == old(states)
    {
      if states[s].cls == ParallelState {
        var st := states[s];
        assert StateOk(Snapshot(), st);
        ReplaceState(Snapshot(), s, st.(branches := st.branches + [branch]));
        states := states[s := st.(branches := st.branches + [branch])];
        assert forall i :: 0 <= i < |states| && i != s ==> states[i] == old(states[i]);
        r := Pass;
      } else {
        r := Fail(NotCallable);
      }
    }

    /** `map.attach_iterator(iterator)`, replacing any earlier one; other
        classes have no such method. */
    method AttachIterator(s: nat, it: Value) returns (r: Outcome<Error>)
      requires Valid() && s < |states|
      modifies this
      ensures Valid() && chains == old(chains)
      ensures old(states[s]).cls == MapState ==>
        r.Pass? && states == old(states)[s := old(states[s]).(attached := Some(it))]
        && MapIterator(states[s]) == it
      ensures old(states[s]).cls != MapState ==> r == Fail(NotCallable) && states == old(states)
    {
      if states[s].cls == MapState {
        var st := states[s];
        assert StateOk(Snapshot(), st);
        ReplaceState(Snapshot(), s, st.(attached := Some(it)));
        states := states[s := st.(attached := Some(it))];
        assert forall i :: 0 <= i < |states| && i != s ==> states[i] == old(states[i]);
        r := Pass;
      } else {
        r := Fail(NotCallable);
      }
    }

    /** `state.update_parameters(params)`: sets `parameters` where the class
        allows it and silently does nothing elsewhere. */
    method UpdateParameters(s: nat, params: Value)
      requires Valid() && s < |states|
      modifies this
      ensures Valid() && chains == old(chains)
      ensures old(states[s]).cls in {StateBase, PassState, ParallelState, MapState, TaskState} ==>
        states == old(states)[s := old(states[s]).(fields := Put(old(states[s]).fields, "parameters", params))]
      ensures old(states[s]).cls !in {StateBase, PassState, ParallelState, MapState, TaskState} ==> states == old(states)
    {
      ParametersAllowed(states[s].cls);
      if IsAllowed(AllowedFields(states[s].cls), F.FieldValue(F.Parameters)) {
        var st := states[s];
        assert StateOk(Snapshot(), st);
        ReplaceState(Snapshot(), s, st.(fields := Put(st.fields, F.FieldValue(F.Parameters), params)));
        states := states[s := st.(fields := Put(st.fields, F.FieldValue(F.Parameters), params))];
        assert forall i :: 0 <= i < |states| && i != s ==> states[i] == old(states[i]);
      }
    }

    /** `chain.append(step)`. */
    method ChainAppend(c: nat, step: nat) returns (r: Outcome<Error>)
      requires Valid() && c < |chains| && step < |states|
      modifies this
      ensures Valid()
      ensures match AppendStep(old(chains), old(states), old(chains[c]), step)
        case Ok(next) => r.Pass? && states == next.0 && chains == old(chains)[c := next.1]
        case Err(e) => r == Fail(e) && states == old(states) && chains == old(chains)
    {
      var chain := chains[c];
      assert InRange(states, chain) by {
        assert forall j :: 0 <= j < |chain| ==> chain[j] < |states|;
      }
      if chain == [] {
        chains := chains[c := [step]];
        return Pass;
      }
      if step in chain {
        return Fail(DuplicateStatesInChain);
      }
      var last := chain[|chain| - 1];
      ghost var link := NextOn(chains, states[last], StateRef(step));
      assert link.Err? ==> AppendStep(chains, states, chain, step) == Err(link.error);
      assert link.Ok? ==> AppendStep(chains, states, chain, step) == Ok((states[last := link.value], chain + [step]));
      var res := Next(last, StateRef(step));
      if res.Err? {
        return Fail(res.error);
      }
      chains := chains[c := chain + [step]];
      r := Pass;
    }

    /** `list(map(self.append, steps_expanded))` on the new, empty chain `c`:
        the steps are appended one by one until one is refused. */
    method LinkSteps(c: nat, expanded: seq<nat>) returns (r: Outcome<Error>)
      requires Valid() && c < |chains| && chains[c] == [] && InRange(states, expanded)
      requires forall i :: 0 <= i < |states| ==> states[i].default != Some(ChainRef(c))
      modifies this
      ensures Valid() && |states| == |old(states)|
      ensures var l := AppendAll(old(chains), old(states), [], expanded);
        && states == l.states && chains == old(chains)[c := l.chain]
        && r == if l.failure.None? then Pass else Fail(l.failure.value)
    {
      var j := 0;
      while j < |expanded|
        invariant 0 <= j <= |expanded|
        invariant Valid() && |chains| == |old(chains)| && |states| == |old(states)|
        invariant forall k :: 0 <= k < |chains| && k != c ==> chains[k] == old(chains)[k]
        invariant forall i :: 0 <= i < |states| ==> states[i].default != Some(ChainRef(c))
        invariant AppendAll(old(chains), states, chains[c], expanded[j..]) == AppendAll(old(chains), old(states), [], expanded)
      {
        assert expanded[j..][0] == expanded[j] && expanded[j..][1..] == expanded[j + 1..];
        assert InRange(states, chains[c]) by {
          assert forall k :: 0 <= k < |chains[c]| ==> chains[c][k] < |states|;
        }
        AppendStepSameChains(old(chains), chains, c, states, chains[c], expanded[j]);
        var res := ChainAppend(c, expanded[j]);
        if res.Fail? {
          return res;
        }
        j := j + 1;
      }
      assert expanded[j..] == [];
      return Pass;
    }

    /** `Chain(steps)`: the argument must be a list; chains in it are
        replaced by their steps; a step that occurs twice is refused before
        anything is linked; then the steps are appended one by one. The
        chain object exists as soon as the list is accepted, and the links
        made before a refusal stay made. */
    method NewChain(steps: Value) returns (r: Result<nat, Error>)
      requires Valid()
      requires steps.VList? ==> forall j :: 0 <= j < |steps.items| ==> IsObject(Snapshot(), steps.items[j])
      modifies this
      ensures Valid()
      ensures !steps.VList? ==> r == Err(ChainNotAList) && states == old(states) && chains == old(chains)
      ensures steps.VList? ==> |chains| == |old(chains)| + 1 && chains[..|old(chains)|] == old(chains)
      ensures steps.VList? ==> var expanded := Expand(old(Snapshot()), steps.items);
        && (!Distinct(expanded) ==> r == Err(DuplicateStatesInChain) && states == old(states) && chains[|old(chains)|] == [])
        && (Distinct(expanded) ==> var l := AppendAll(old(chains) + [[]], old(states), [], expanded);
              && states == l.states && chains[|old(chains)|] == l.chain
              && r == if l.failure.None? then Ok(|old(chains)|) else Err(l.failure.value))
    {
      if !steps.VList? {
        return Err(ChainNotAList);
      }
      var w0 := Snapshot();
      var expanded := Expand(w0, steps.items);
      var c := |chains|;
      chains := chains + [[]];
      assert forall i :: 0 <= i < |states| ==> StateOk(w0, states[i]);
      assert Valid();
      assert forall i :: 0 <= i < |states| ==> states[i].default != Some(ChainRef(c));
      var dup := HasRepeatedStep(expanded);
      if dup {
        return Err(DuplicateStatesInChain);
      }
      var res := LinkSteps(c, expanded);
      if res.Fail? {
        return Err(res.error);
      }
      r := Ok(c);
    }
  }
}
