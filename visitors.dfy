/** The two visitors and the graph builder as the source runs them: each
    visitor fills its `states` dict while `accept` walks the graph, and
    `Graph` runs the validating visitor, then the emitting one, and puts
    `StartAt` and `States` into its dict. Each is proved to compute what
    `States.Walk` and `States.GraphToDict` define. */
module Visitors {
  import opened Wrappers
  import opened Dicts
  import opened PyValues
  import opened States

  /** `GraphVisitor` (kind `Emitting`) or `ValidationVisitor` (kind
      `Validating`), with the `states` dict it fills. */
  class Visitor {
    const kind: VisitorKind
    var states: Dict<Key, Value>

    constructor (kind: VisitorKind)
      ensures this.kind == kind && states == []
    {
      this.kind := kind;
      states := [];
    }

    /** `root.accept(self)`. A chain hands each of its steps on in order;
        a state that `is_visited` answers for is skipped; any other state is
        `visit`ed (its dict recorded under its id, after the validating
        visitor's duplicate-id check, and before its parameter check on the
        next state), then its successors are accepted in turn. The pending
        `accept` calls are kept on an explicit stack. */
    method Accept(w: World, root: Ref, fuel: nat) returns (r: Outcome<Error>)
      requires WorldOk(w) && RefOk(w, root)
      modifies this
      ensures r.Pass? <==> Walk(w, kind, [root], old(states), fuel).Ok?
      ensures r.Pass? ==> states == Walk(w, kind, [root], old(states), fuel).value
      ensures r.Fail? ==> r.error == Walk(w, kind, [root], old(states), fuel).error
    {
      var stack := [root];
      ghost var goal := Walk(w, kind, [root], states, fuel);
      while stack != []
        invariant forall j :: 0 <= j < |stack| ==> RefOk(w, stack[j])
        invariant Walk(w, kind, stack, states, fuel) == goal
        decreases |AllIds(w) - SeqSet(Keys(states))|, Weight(w, stack)
      {
        var head := stack[0];
        assert RefOk(w, head);
        WalkHead(w, kind, stack, states, fuel);
        match head
        case ChainRef(c) =>
          stack := StepRefs(w.chains[c]) + stack[1..];
        case StateRef(s) =>
          var failed;
          failed, stack := AcceptState(w, s, stack[1..], fuel);
          if failed.Fail? {
            return failed;
          }
      }
      r := Pass;
    }

    /** `state.accept(self)` up to its recursive calls: the state is
        skipped when `is_visited`, otherwise `visit`ed; the successors to
        accept next go on the front of the stack. */
    method AcceptState(w: World, s: nat, rest: seq<Ref>, fuel: nat) returns (r: Outcome<Error>, stack: seq<Ref>)
      requires WorldOk(w) && s < |w.states| && forall j :: 0 <= j < |rest| ==> RefOk(w, rest[j])
      modifies this
      ensures forall j :: 0 <= j < |stack| ==> RefOk(w, stack[j])
      ensures r.Fail? ==> WalkState(w, kind, s, rest, old(states), fuel) == Err(r.error)
      ensures r.Pass? ==> WalkState(w, kind, s, rest, old(states), fuel) == Walk(w, kind, stack, states, fuel)
      ensures r.Pass? ==>
        || |AllIds(w) - SeqSet(Keys(states))| < |AllIds(w) - SeqSet(Keys(old(states)))|
        || (states == old(states) && Weight(w, stack) <= Weight(w, rest))
    {
      var key := KStr(w.states[s].id);
      if kind == Emitting && HasKey(states, key) {
        return Pass, rest;
      }
      var d := StateToDict(w, s, fuel);
      if d.Err? {
        return Fail(d.error), rest;
      }
      if kind == Validating && SameAsRecorded(states, key, d.value) {
        return Pass, rest;
      }
      if HasKey(states, key) {
        return Fail(DuplicateStateId(w.states[s].id)), rest;
      }
      var check := if kind == Validating then CheckNextParameters(w, s) else Pass;
      RecordShrinks(w, states, s, VDict(d.value));
      states := Put(states, key, VDict(d.value));
      if check.Fail? {
        return Fail(check.error), rest;
      }
      RefsOkConcat(w, Successors(w, s), rest);
      r, stack := Pass, Successors(w, s) + rest;
    }
  }

  /** One step of the walk: a chain on top of the stack is replaced by its
      steps, a state is handed to `WalkState`; either way the stack's
      weight drops. */
  lemma WalkHead(w: World, kind: VisitorKind, stack: seq<Ref>, visited: Dict<Key, Value>, fuel: nat)
    requires WorldOk(w) && stack != [] && forall j :: 0 <= j < |stack| ==> RefOk(w, stack[j])
    ensures stack[0].ChainRef? ==>
      && stack[0].c < |w.chains|
      && (forall j :: 0 <= j < |StepRefs(w.chains[stack[0].c]) + stack[1..]| ==> RefOk(w, (StepRefs(w.chains[stack[0].c]) + stack[1..])[j]))
      && Weight(w, StepRefs(w.chains[stack[0].c]) + stack[1..]) < Weight(w, stack)
      && Walk(w, kind, stack, visited, fuel) == Walk(w, kind, StepRefs(w.chains[stack[0].c]) + stack[1..], visited, fuel)
    ensures stack[0].StateRef? ==>
      && stack[0].s < |w.states|
      && Weight(w, stack[1..]) < Weight(w, stack)
      && Walk(w, kind, stack, visited, fuel) == WalkState(w, kind, stack[0].s, stack[1..], visited, fuel)
  {
    assert RefOk(w, stack[0]);
    if stack[0].ChainRef? {
      WeightOfSteps(w, w.chains[stack[0].c], stack[1..]);
    }
  }

  /** `Graph(branch, **graph_fields).to_dict()`: the branch must be a state
      or a chain and the fields must be whitelisted; the validating visitor
      walks the graph, then the emitting one, whose dict becomes `States`;
      `StartAt` is the branch's id. */
  method BuildGraph(w: World, branch: Value, graphFields: Dict<string, Value>, fuel: nat)
    returns (r: Result<Dict<Key, Value>, Error>)
    requires WorldOk(w)
    ensures r == GraphToDict(w, branch, graphFields, fuel)
  {
    if !IsObject(w, branch) {
      return Err(NotAStateOrChain);
    }
    var check := CheckFields(GraphFields(), graphFields);
    if check.Fail? {
      return Err(check.error);
    }
    var validation := new Visitor(Validating);
    var emitting := new Visitor(Emitting);
    var checked := validation.Accept(w, branch.ref, fuel);
    if checked.Fail? {
      return Err(checked.error);
    }
    var walked := emitting.Accept(w, branch.ref, fuel);
    if walked.Fail? {
      return Err(walked.error);
    }
    var start := RefId(w, branch.ref);
    if start.Err? {
      return Err(start.error);
    }
    r := Ok(Put(Put(BlockToDict(w.ph, graphFields), KStr("StartAt"), VStr(start.value)), KStr("States"), VDict(emitting.states)));
  }
}
