/** Choice rules: comparison leaves checked when they are built, `And`/`Or`
    compounds and `Not`, and their serialisation into the `Choices` of a
    Choice state. */
module ChoiceRules {
  import opened Wrappers
  import opened Dicts
  import opened PyValues
  import opened Placeholders

  /** A rule object. `BaseRule` is the bare base class, which serialises to `{}`. */
  datatype Rule =
    | BaseRule
    | Comparison(variable: Value, operator: string, value: Value)
    | Compound(operator: string, rules: seq<Rule>)
    | Negation(rule: Rule)

  /** An argument where a rule is expected: a rule object or anything else. */
  datatype RuleArg = RuleObject(r: Rule) | OtherObject(v: Value)

  predicate StartsWith(s: string, prefix: string)
  {
    |prefix| <= |s| && s[..|prefix|] == prefix
  }

  /** One entry of `VALIDATORS`: an operator prefix and the classes its value may have. */
  datatype Validator = Validator(family: string, types: seq<PyType>)

  /** `VALIDATORS`, in its declaration order. */
  function Validators(): seq<Validator>
  {
    [ Validator("String", [TStr]),
      Validator("Numeric", [TInt, TFloat]),
      Validator("Boolean", [TBool]),
      Validator("Timestamp", [TStr]) ]
  }

  /** `isinstance(value, types)` for a tuple of classes. */
  predicate InstanceOfAny(v: Value, types: seq<PyType>)
  {
    exists j :: 0 <= j < |types| && IsInstance(v, types[j])
  }

  /** The value check of `Rule.__init__`: the first validator whose prefix
      starts the operator and whose classes the value is not an instance of raises. */
  function CheckValue(vs: seq<Validator>, operator: string, value: Value): Outcome<Error>
  {
    if vs == [] then Pass
    else if StartsWith(operator, vs[0].family) && !InstanceOfAny(value, vs[0].types) then
      Fail(ValueTypeMismatch(vs[0].family))
    else CheckValue(vs[1..], operator, value)
  }

  /** The variable a rule may compare: a `StepInput` placeholder or a path starting with `$`. */
  predicate IsStepInput(nodes: seq<PNode>, v: Value)
  {
    v.VPlaceholder? && v.p < |nodes| && nodes[v.p].kind == StepInputKind
  }

  /** `Rule(variable, operator, value)`. */
  function NewRule(nodes: seq<PNode>, variable: Value, operator: string, value: Value): Result<Rule, Error>
  {
    if !IsStepInput(nodes, variable) && !variable.VStr? then Err(MissingAttribute("startswith"))
    else if !IsStepInput(nodes, variable) && !StartsWith(variable.s, "$") then Err(InvalidVariable)
    else
      var check := CheckValue(Validators(), operator, value);
      if check.Fail? then Err(check.error) else Ok(Comparison(variable, operator, value))
  }

  /** `CompoundRule(operator, rules)`: every member must be a rule. */
  function NewCompound(operator: string, args: seq<RuleArg>): Result<Rule, Error>
  {
    if forall j :: 0 <= j < |args| ==> args[j].RuleObject? then
      Ok(Compound(operator, seq(|args|, j requires 0 <= j < |args| => args[j].r)))
    else Err(InvalidRule)
  }

  /** `NotRule(rule)`. */
  function NewNot(arg: RuleArg): Result<Rule, Error>
  {
    if arg.RuleObject? then Ok(Negation(arg.r)) else Err(InvalidRule)
  }

  /** `to_dict()` of a rule. */
  function RuleToDict(nodes: seq<PNode>, r: Rule): Value
    requires Valid(nodes)
    decreases r, 1
  {
    match r
    case BaseRule => VDict([])
    case Comparison(variable, operator, value) =>
      var shown := if IsStepInput(nodes, variable) then VStr(JsonPath(nodes, variable.p)) else variable;
      VDict(Put([(KStr("Variable"), shown)], KStr(operator), value))
    case Compound(operator, rules) => VDict([(KStr(operator), VList(RuleDicts(nodes, r, 0)))])
    case Negation(inner) => VDict([(KStr("Not"), RuleToDict(nodes, inner))])
  }

  /** The dicts of the members of a compound rule from the `i`-th on. */
  function RuleDicts(nodes: seq<PNode>, r: Rule, i: nat): (ds: seq<Value>)
    requires Valid(nodes) && r.Compound?
    ensures |ds| == if i <= |r.rules| then |r.rules| - i else 0
    ensures forall j :: 0 <= j < |ds| ==> ds[j] == RuleToDict(nodes, r.rules[i + j])
    decreases r, 0, |r.rules| - i
  {
    if i >= |r.rules| then [] else [RuleToDict(nodes, r.rules[i])] + RuleDicts(nodes, r, i + 1)
  }

  // ---------------------------------------------------------------- checks

  /** The family whose prefix starts `operator`, if any (the four prefixes
      exclude one another). */
  function FamilyOf(operator: string): Option<Validator>
  {
    if StartsWith(operator, "String") then Some(Validators()[0])
    else if StartsWith(operator, "Numeric") then Some(Validators()[1])
    else if StartsWith(operator, "Boolean") then Some(Validators()[2])
    else if StartsWith(operator, "Timestamp") then Some(Validators()[3])
    else None
  }

  lemma PrefixesExclusive(operator: string)
    ensures StartsWith(operator, "String") ==> !StartsWith(operator, "Numeric") && !StartsWith(operator, "Boolean") && !StartsWith(operator, "Timestamp")
    ensures StartsWith(operator, "Numeric") ==> !StartsWith(operator, "Boolean") && !StartsWith(operator, "Timestamp")
    ensures StartsWith(operator, "Boolean") ==> !StartsWith(operator, "Timestamp")
  {
    if StartsWith(operator, "String") { assert operator[0] == 'S'; }
    if StartsWith(operator, "Numeric") { assert operator[0] == 'N'; }
    if StartsWith(operator, "Boolean") { assert operator[0] == 'B'; }
  }

  /** The value check raises exactly when the operator's family does not
      admit the value, and names that family. */
  lemma CheckValueSpec(operator: string, value: Value)
    ensures CheckValue(Validators(), operator, value) ==
      if FamilyOf(operator).Some? && !InstanceOfAny(value, FamilyOf(operator).value.types)
      then Fail(ValueTypeMismatch(FamilyOf(operator).value.family)) else Pass
  {
    PrefixesExclusive(operator);
    var vs := Validators();
    var v3 := [Validator("Timestamp", [TStr])];
    var v2 := [Validator("Boolean", [TBool])] + v3;
    var v1 := [Validator("Numeric", [TInt, TFloat])] + v2;
    assert vs[1..] == v1 && v1[1..] == v2 && v2[1..] == v3 && v3[1..] == [];
    assert CheckValue(v3, operator, value) ==
      if StartsWith(operator, "Timestamp") && !InstanceOfAny(value, [TStr]) then Fail(ValueTypeMismatch("Timestamp")) else Pass;
    assert CheckValue(v2, operator, value) ==
      if StartsWith(operator, "Boolean") && !InstanceOfAny(value, [TBool]) then Fail(ValueTypeMismatch("Boolean")) else CheckValue(v3, operator, value);
    assert CheckValue(v1, operator, value) ==
      if StartsWith(operator, "Numeric") && !InstanceOfAny(value, [TInt, TFloat]) then Fail(ValueTypeMismatch("Numeric")) else CheckValue(v2, operator, value);
  }

  /** A rule is built exactly when its variable is a `StepInput` or a `$`
      path and its value belongs to the operator's family; it then keeps
      all three arguments. */
  lemma NewRuleSpec(nodes: seq<PNode>, variable: Value, operator: string, value: Value)
    ensures NewRule(nodes, variable, operator, value).Ok? <==>
      (IsStepInput(nodes, variable) || (variable.VStr? && StartsWith(variable.s, "$"))) &&
      (FamilyOf(operator).None? || InstanceOfAny(value, FamilyOf(operator).value.types))
    ensures NewRule(nodes, variable, operator, value).Ok? ==>
      NewRule(nodes, variable, operator, value).value == Comparison(variable, operator, value)
    ensures variable.VStr? && !StartsWith(variable.s, "$") ==>
      NewRule(nodes, variable, operator, value) == Err(InvalidVariable)
  {
    CheckValueSpec(operator, value);
  }

  /** Numeric operators accept booleans, because `bool` is a subclass of `int`. */
  lemma NumericAcceptsBool(nodes: seq<PNode>, path: string, b: bool)
    requires StartsWith(path, "$")
    ensures NewRule(nodes, VStr(path), "NumericEquals", VBool(b)).Ok?
  {
    NewRuleSpec(nodes, VStr(path), "NumericEquals", VBool(b));
    FactoryFamily(NumericEquals);
    assert IsInstance(VBool(b), DocumentedTypes(NumericEquals)[0]);
  }

  /** A comparison serialises to `Variable` (the path, or the placeholder's
      JSONPath) followed by the operator mapped to the value; an operator
      named `Variable` overwrites the first key. */
  lemma ComparisonDict(nodes: seq<PNode>, variable: Value, operator: string, value: Value)
    requires Valid(nodes)
    ensures var d := RuleToDict(nodes, Comparison(variable, operator, value)).entries;
      var shown := if IsStepInput(nodes, variable) then VStr(JsonPath(nodes, variable.p)) else variable;
      (operator != "Variable" ==> d == [(KStr("Variable"), shown), (KStr(operator), value)]) &&
      (operator == "Variable" ==> d == [(KStr("Variable"), value)])
  {
    var shown := if IsStepInput(nodes, variable) then VStr(JsonPath(nodes, variable.p)) else variable;
    var base := [(KStr("Variable"), shown)];
    PutKeys(base, KStr(operator), value);
    assert HasKey(base, KStr(operator)) <==> operator == "Variable" by {
      assert Keys(base) == [KStr("Variable")];
    }
  }

  /** A compound rule serialises to a one-key dict whose list holds the
      members' dicts in the given order. */
  lemma CompoundDict(nodes: seq<PNode>, operator: string, args: seq<RuleArg>)
    requires Valid(nodes) && NewCompound(operator, args).Ok?
    ensures var d := RuleToDict(nodes, NewCompound(operator, args).value);
      d.VDict? && |d.entries| == 1 && d.entries[0].0 == KStr(operator) &&
      d.entries[0].1.VList? && |d.entries[0].1.items| == |args| &&
      forall j :: 0 <= j < |args| ==> d.entries[0].1.items[j] == RuleToDict(nodes, args[j].r)
  {
  }

  /** A compound rule is rejected exactly when some member is not a rule. */
  lemma NewCompoundSpec(operator: string, args: seq<RuleArg>)
    ensures NewCompound(operator, args).Err? <==> exists j :: 0 <= j < |args| && args[j].OtherObject?
    ensures NewCompound(operator, args).Ok? ==>
      var r := NewCompound(operator, args).value;
      r.operator == operator && |r.rules| == |args| && forall j :: 0 <= j < |args| ==> args[j] == RuleObject(r.rules[j])
  {
  }

  /** `Not` wraps the inner rule's dict under the single key `Not`. */
  lemma NotDict(nodes: seq<PNode>, arg: RuleArg)
    requires Valid(nodes)
    ensures NewNot(arg).Err? <==> arg.OtherObject?
    ensures NewNot(arg).Ok? ==> RuleToDict(nodes, NewNot(arg).value) == VDict([(KStr("Not"), RuleToDict(nodes, arg.r))])
  {
  }

  // ------------------------------------------------------------ factories

  /** The comparison factories of `ChoiceRule`. */
  datatype ComparisonOp =
    | StringEquals | StringLessThan | StringGreaterThan | StringLessThanEquals | StringGreaterThanEquals
    | NumericEquals | NumericLessThan | NumericGreaterThan | NumericLessThanEquals | NumericGreaterThanEquals
    | BooleanEquals
    | TimestampEquals | TimestampLessThan | TimestampGreaterThan | TimestampLessThanEquals | TimestampGreaterThanEquals

  /** The operator string each factory passes to `Rule`: its own name. */
  function OpName(op: ComparisonOp): string
  {
    match op
    case StringEquals => "StringEquals"
    case StringLessThan => "StringLessThan"
    case StringGreaterThan => "StringGreaterThan"
    case StringLessThanEquals => "StringLessThanEquals"
    case StringGreaterThanEquals => "StringGreaterThanEquals"
    case NumericEquals => "NumericEquals"
    case NumericLessThan => "NumericLessThan"
    case NumericGreaterThan => "NumericGreaterThan"
    case NumericLessThanEquals => "NumericLessThanEquals"
    case NumericGreaterThanEquals => "NumericGreaterThanEquals"
    case BooleanEquals => "BooleanEquals"
    case TimestampEquals => "TimestampEquals"
    case TimestampLessThan => "TimestampLessThan"
    case TimestampGreaterThan => "TimestampGreaterThan"
    case TimestampLessThanEquals => "TimestampLessThanEquals"
    case TimestampGreaterThanEquals => "TimestampGreaterThanEquals"
  }

  /** The classes the value of each factory's rule may have, as the
      documentation of each factory states them. */
  function DocumentedTypes(op: ComparisonOp): seq<PyType>
  {
    if op.StringEquals? || op.StringLessThan? || op.StringGreaterThan? || op.StringLessThanEquals? || op.StringGreaterThanEquals? then [TStr]
    else if op.NumericEquals? || op.NumericLessThan? || op.NumericGreaterThan? || op.NumericLessThanEquals? || op.NumericGreaterThanEquals? then [TInt, TFloat]
    else if op.BooleanEquals? then [TBool]
    else [TStr]
  }

  /** `ChoiceRule.<op>(variable, value)`. */
  function MakeComparison(nodes: seq<PNode>, op: ComparisonOp, variable: Value, value: Value): Result<Rule, Error>
  {
    NewRule(nodes, variable, OpName(op), value)
  }

  lemma {:induction false} StringFactories(op: ComparisonOp)
    requires op.StringEquals? || op.StringLessThan? || op.StringGreaterThan? || op.StringLessThanEquals? || op.StringGreaterThanEquals?
    ensures FamilyOf(OpName(op)) == Some(Validators()[0])
  {
    assert OpName(op)[..6] == "String";
  }

  lemma {:induction false} NumericFactories(op: ComparisonOp)
    requires op.NumericEquals? || op.NumericLessThan? || op.NumericGreaterThan? || op.NumericLessThanEquals? || op.NumericGreaterThanEquals?
    ensures FamilyOf(OpName(op)) == Some(Validators()[1])
  {
    assert OpName(op)[0] == 'N' && OpName(op)[..7] == "Numeric";
  }

  lemma {:induction false} TimestampFactories(op: ComparisonOp)
    requires op.TimestampEquals? || op.TimestampLessThan? || op.TimestampGreaterThan? || op.TimestampLessThanEquals? || op.TimestampGreaterThanEquals?
    ensures FamilyOf(OpName(op)) == Some(Validators()[3])
  {
    var s := OpName(op);
    assert s[0] == 'T';
    assert !StartsWith(s, "String") && !StartsWith(s, "Numeric") && !StartsWith(s, "Boolean");
    assert s[..9] == "Timestamp";
  }

  /** Each factory's operator name selects, through its prefix, exactly the
      documented classes for its value. */
  lemma {:induction false} FactoryFamily(op: ComparisonOp)
    ensures FamilyOf(OpName(op)).Some? && FamilyOf(OpName(op)).value.types == DocumentedTypes(op)
  {
    if op.StringEquals? || op.StringLessThan? || op.StringGreaterThan? || op.StringLessThanEquals? || op.StringGreaterThanEquals? {
      StringFactories(op);
    } else if op.NumericEquals? || op.NumericLessThan? || op.NumericGreaterThan? || op.NumericLessThanEquals? || op.NumericGreaterThanEquals? {
      NumericFactories(op);
    } else if op.BooleanEquals? {
      assert OpName(op)[0] == 'B' && OpName(op)[..7] == "Boolean";
    } else {
      TimestampFactories(op);
    }
  }

  /** A factory builds a rule carrying its own name as the operator exactly
      when the variable is acceptable and the value has a documented class. */
  lemma MakeComparisonSpec(nodes: seq<PNode>, op: ComparisonOp, variable: Value, value: Value)
    ensures MakeComparison(nodes, op, variable, value).Ok? <==>
      (IsStepInput(nodes, variable) || (variable.VStr? && StartsWith(variable.s, "$"))) &&
      InstanceOfAny(value, DocumentedTypes(op))
    ensures MakeComparison(nodes, op, variable, value).Ok? ==>
      MakeComparison(nodes, op, variable, value).value == Comparison(variable, OpName(op), value)
  {
    FactoryFamily(op);
    NewRuleSpec(nodes, variable, OpName(op), value);
  }

  /** Distinct factories write distinct operators. */
  lemma OpNameInjective(a: ComparisonOp, b: ComparisonOp)
    requires OpName(a) == OpName(b)
    ensures a == b
  {
  }

  /** `ChoiceRule.And(rules)`. */
  function And(args: seq<RuleArg>): Result<Rule, Error>
  {
    NewCompound("And", args)
  }

  /** `ChoiceRule.Or(rules)`. */
  function Or(args: seq<RuleArg>): Result<Rule, Error>
  {
    NewCompound("Or", args)
  }

  /** `ChoiceRule.Not(rule)`. */
  function Not(arg: RuleArg): Result<Rule, Error>
  {
    NewNot(arg)
  }

  /** `And`/`Or`/`Not` of rules serialise compositionally: the outer dict
      holds exactly the members' own dicts. */
  lemma CombinatorsCompose(nodes: seq<PNode>, a: Rule, b: Rule)
    requires Valid(nodes)
    ensures RuleToDict(nodes, And([RuleObject(a), RuleObject(b)]).value) ==
      VDict([(KStr("And"), VList([RuleToDict(nodes, a), RuleToDict(nodes, b)]))])
    ensures RuleToDict(nodes, Or([RuleObject(a), RuleObject(b)]).value) ==
      VDict([(KStr("Or"), VList([RuleToDict(nodes, a), RuleToDict(nodes, b)]))])
    ensures RuleToDict(nodes, Not(RuleObject(a)).value) == VDict([(KStr("Not"), RuleToDict(nodes, a))])
  {
    var args := [RuleObject(a), RuleObject(b)];
    assert And(args).value == Compound("And", [a, b]);
    assert Or(args).value == Compound("Or", [a, b]);
    assert RuleDicts(nodes, Compound("And", [a, b]), 0) == [RuleToDict(nodes, a), RuleToDict(nodes, b)];
    assert RuleDicts(nodes, Compound("Or", [a, b]), 0) == [RuleToDict(nodes, a), RuleToDict(nodes, b)];
  }
}
