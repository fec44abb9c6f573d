# Amazon States Language document builder, modelled in Dafny

This project models the core of the AWS Step Functions Data Science SDK for
Python. That core builds Amazon States Language (ASL) documents. Users
create step objects: Pass, Succeed, Fail, Wait, Choice, Parallel, Map,
Task, and the service and compute Task steps. They link the steps with
`next`, chains, retriers, catchers, choice rules, branches and iterators.
They then ask a `Graph` for its dictionary. That dictionary is the state
machine definition: `StartAt`, plus `States` keyed by state id. Placeholders
(`ExecutionInput`, `StepInput`) stand for values known only at run time.
They are emitted as JSONPath strings (`$$.Execution.Input['a']['b']`,
`$['x']`). The graph walk refuses a step whose `Parameters` use a step
input that is neither the previous step's output nor part of it.

The Python heap is modelled as arenas. Object identity is an index.

- `Builder.Workspace` is a class holding the states and chains. Its
  methods are the builder calls (`next`, `add_retry`, `add_catch`,
  `add_choice`, `default_choice`, `add_branch`, `attach_iterator`,
  `update_parameters`, `Chain(...)`, `Chain.append`). Each method changes
  the arena in place and states the new arena.
- `Placeholders.PlaceholderArena` is a class holding the placeholder
  trees.
- Emission (`to_dict`), validation and the graph walk are pure functions.
  They work on a `States.World` snapshot of both arenas.
- `Visitors.Visitor` is the visitor object: its `states` dictionary grows
  in place as `accept` walks the states.

Python values are `PyValues.Value`. Python dictionaries are ordered
association lists (`Dicts.Dict`), where `Dicts.Put` keeps an existing key's
position. Every exception the code raises is an `Error` value whose
`ExceptionClass` names the Python class.

Modules, one per source area:

| module | models |
|---|---|
| `Wrappers`, `Dicts`, `PyValues` | Option/Result, Python dictionaries, Python values, `==` and `isinstance` |
| `Fields` | the `Field` names and `to_pascalcase` |
| `InputUtils` | `flatten` and `replace_type_with_str` |
| `Placeholders` | placeholder trees, schemas, validation and JSONPath |
| `ChoiceRules` | `Rule`, `CompoundRule`, `NotRule` and the rule factories |
| `States` | field checks, `to_dict` of every state kind, the visitors' walk, `Graph` |
| `Builder` | the state constructors and every builder operation |
| `Visitors` | the `accept` traversal as a loop over an explicit stack |
| `IntegrationResources` | integration patterns and service ARNs |
| `StepUtils` | tag lists and the AWS partition lookup |
| `ServiceSteps`, `ComputeSteps` | the service and compute Task steps |
| `TemplateUtils` | the two parameter-rewriting helpers of the pipeline templates |

## Model

| member | source | states |
|---|---|---|
| `Fields.PascalCaseIsTitleWithoutUnderscores` | src/stepfunctions/steps/states.py:26-27 | PascalCase is the text title-cased word by word, with the underscores dropped |
| `Fields.PascalCaseHasNoUnderscore` | src/stepfunctions/steps/states.py:26-27 | a PascalCase key never contains `_` |
| `Fields.PascalCaseOfLowerWord` | src/stepfunctions/steps/states.py:26-27 | a single lower-case word only gets its first letter capitalised |
| `Fields.PascalOfResource` | src/stepfunctions/steps/states.py:26-27 | one instance of the general rule: the `resource` field is emitted as `Resource` |
| `Fields.PascalOfType` | src/stepfunctions/steps/states.py:26-27 | one instance of the general rule: the `type` field is emitted as `Type` |
| `Fields.PascalOfParameters` | src/stepfunctions/steps/states.py:26-27 | one instance of the general rule: the `parameters` field is emitted as `Parameters` |
| `InputUtils.FlattenIsDictOfLeaves` | src/stepfunctions/inputs/utils.py:15-26 | flattening gives the dictionary of the leaf paths, each key joined to its parent by `.` |
| `InputUtils.FlattenLaterWins` | src/stepfunctions/inputs/utils.py:15-26 | when two paths flatten to the same key, the later leaf's value wins, at the first key's position |
| `InputUtils.FlattenHasNoDicts` | src/stepfunctions/inputs/utils.py:15-26 | a flattened dictionary has unique keys and no dictionary values |
| `InputUtils.FlattenIdempotent` | src/stepfunctions/inputs/utils.py:15-26 | flattening a flattened dictionary changes nothing |
| `InputUtils.ReplaceTypeWithStrSpec` | src/stepfunctions/inputs/utils.py:28-35 | it succeeds exactly when every leaf is a type; then it keeps keys and shape and renders each type as its name |
| `Placeholders.ChildJsonPath` | src/stepfunctions/inputs/placeholders.py:225-241 | a child's JSONPath is its parent's path followed by `['name']` (or `[n]` for an integer key) |
| `Placeholders.RootJsonPath` | src/stepfunctions/inputs/placeholders.py:254-288 | a root's JSONPath is the kind's template: `$$.Execution.Input` or `$` |
| `Placeholders.ContainsIffDescendant` | src/stepfunctions/inputs/placeholders.py:118-133 | `contains` holds exactly when the second placeholder is a proper descendant of the first |
| `Placeholders.ContainsOnlyOwnVariables` | src/stepfunctions/inputs/placeholders.py:118-133 | a placeholder contains only others from its own root, never itself |
| `Placeholders.SchemaKeysAreChildren` | src/stepfunctions/inputs/placeholders.py:86-99 | the schema dictionary has exactly the placeholder's children as keys, in creation order |
| `Placeholders.MissingKeys` | src/stepfunctions/inputs/placeholders.py:152 | the keys reported missing are exactly the schema keys absent from the input |
| `Placeholders.MismatchesSpec` | src/stepfunctions/inputs/placeholders.py:153-156 | type comparison fails exactly when some schema value is not a type; otherwise nothing is reported exactly when every input value is an instance of its schema type, and each report names a real mismatch |
| `Placeholders.ValidateFlatSpec` | src/stepfunctions/inputs/placeholders.py:135-161 | validation is valid exactly when the input conforms: no key is missing and no type mismatches |
| `Placeholders.Lookup` | src/stepfunctions/inputs/placeholders.py:60-84 | a child is found exactly when the store has the key; the child is a later node whose parent and name match |
| `Placeholders.AddChildValid` | src/stepfunctions/inputs/placeholders.py:60-84 | adding a child keeps the arena well formed and leaves every other parent link alone |
| `Placeholders.PlaceholderArena.NewCollection` | src/stepfunctions/inputs/placeholders.py:29-57 | a new root of the given kind; it is immutable exactly when a schema was given; with no schema the root is the only change; after a schema every placeholder in the new subtree is immutable and refuses new children; for a plain schema and a concrete kind, reading the schema back gives exactly the schema passed in |
| `Placeholders.PlaceholderArena.Get` | src/stepfunctions/inputs/placeholders.py:60-84 | an invalid name is rejected; an existing child is returned if its type equals the requested one, otherwise a type conflict; a new child is created unless the collection is immutable |
| `Placeholders.PlaceholderArena.Subscript` | src/stepfunctions/inputs/placeholders.py:213-223 | as `get` with no type: an existing child is returned unchanged, and afterwards the name resolves to the result |
| `Placeholders.PlaceholderArena.SetSchema` | src/stepfunctions/inputs/placeholders.py:184-195 | only the placeholder's own subtree changes, and parent links and kinds are kept; when the path can be walked and none of the schema's keys exist at its end, it succeeds, changes only the nodes on the path, creates the missing path nodes as dict-typed children, and adds at the end of the path one child per schema key, in order, each shaped like its schema value |
| `Placeholders.PlaceholderArena.SetEntry` | src/stepfunctions/inputs/placeholders.py:188-195 | one schema entry: a nested dictionary recurses one level down the path, a type creates a leaf; either way exactly one child for the key is added at the end of the path, shaped like the entry's value |
| `Placeholders.PlaceholderArena.SetLeaf` | src/stepfunctions/inputs/placeholders.py:192-195 | walks the path, then creates the leaf with `get(k, v)`: one new child of type `v` at the end of the path and nothing else outside the path changed |
| `Placeholders.PlaceholderArena.Walk` | src/stepfunctions/inputs/placeholders.py:192-194 | `current.get(node, dict)` along the path: existing nodes are followed, missing ones are created with type `dict`; the result is the node the path resolves to and only path nodes change |
| `Placeholders.MatchesSchemaOf` | src/stepfunctions/inputs/placeholders.py:86-99 | a placeholder whose children are shaped like a plain schema gives back that schema from `get_schema_as_dict` |
| `Placeholders.PlaceholderArena.MakeImmutable` | src/stepfunctions/inputs/placeholders.py:197-204 | exactly the placeholder and its descendants become immutable; nothing else changes |
| `Placeholders.PlaceholderArena.Contains` | src/stepfunctions/inputs/placeholders.py:118-133 | the answer is true exactly when the second placeholder is a proper descendant |
| `Placeholders.PlaceholderArena.GetSchemaAsDict` | src/stepfunctions/inputs/placeholders.py:86-99 | the schema dictionary, whose keys are the placeholder's children |
| `Placeholders.PlaceholderArena.Validate` | src/stepfunctions/inputs/placeholders.py:135-161 | `None` is never valid; otherwise the input is valid exactly when the flattened input conforms to the flattened schema |
| `Placeholders.PlaceholderArena.GetPath` | src/stepfunctions/inputs/placeholders.py:166-176 | the keys from the root down to the placeholder |
| `Placeholders.PlaceholderArena.ToJsonPath` | src/stepfunctions/inputs/placeholders.py:234-241 | the JSONPath whose parent/child structure `ChildJsonPath` and `RootJsonPath` state |
| `ChoiceRules.PrefixesExclusive` | src/stepfunctions/steps/choice_rule.py:17-22 | the four operator prefixes select at most one validator family |
| `ChoiceRules.CheckValueSpec` | src/stepfunctions/steps/choice_rule.py:63-65 | a value is rejected exactly when the operator's family exists and the value has none of its types |
| `ChoiceRules.NewRuleSpec` | src/stepfunctions/steps/choice_rule.py:47-69 | a rule is built exactly when the variable is a step input or a string starting with `$`, and the value type fits; a string variable without `$` is rejected |
| `ChoiceRules.NumericAcceptsBool` | src/stepfunctions/steps/choice_rule.py:17-22 | an instance of `CheckValueSpec` kept to record the decision: because bool is an int in Python, a numeric comparison accepts a boolean value |
| `ChoiceRules.ComparisonDict` | src/stepfunctions/steps/choice_rule.py:71-77 | a comparison emits `Variable` (a placeholder as its JSONPath) and then the operator with its value; for the operator `Variable` only the value is emitted |
| `ChoiceRules.NewCompoundSpec` | src/stepfunctions/steps/choice_rule.py:92-106 | a compound rule is refused exactly when some argument is not a rule; otherwise it keeps all of them in order |
| `ChoiceRules.CompoundDict` | src/stepfunctions/steps/choice_rule.py:108-109 | a compound rule emits one key, the operator, over the list of its rules' dictionaries |
| `ChoiceRules.NotDict` | src/stepfunctions/steps/choice_rule.py:124-140 | `Not` is refused exactly for a non-rule, and emits `{"Not": rule}` |
| `ChoiceRules.FactoryFamily` | src/stepfunctions/steps/choice_rule.py:155-377 | every factory's operator falls in a validator family whose types are the ones the factory documents |
| `ChoiceRules.MakeComparisonSpec` | src/stepfunctions/steps/choice_rule.py:155-377 | a factory succeeds exactly when the variable is valid and the value has a documented type |
| `ChoiceRules.OpNameInjective` | src/stepfunctions/steps/choice_rule.py:155-377 | distinct factories emit distinct operator names |
| `ChoiceRules.CombinatorsCompose` | src/stepfunctions/steps/choice_rule.py:380-416 | `And`, `Or` and `Not` of rules emit the nested dictionaries of those rules |
| `States.CheckFieldsSpec` | src/stepfunctions/steps/states.py:36-48 | construction passes exactly when every keyword is an allowed field; a failure names an offending keyword |
| `States.ReplacePlaceholdersSpec` | src/stepfunctions/steps/states.py:51-65 | a non-dict (a placeholder directly in a list included) is returned as is; a dict becomes the dict of its rewritten entries, a later clashing key winning; with no clash, entry `j` of the result comes from entry `j`: a placeholder under `k` becomes `k.$` mapped to its JSONPath, a nested dict is rewritten, each item of a list is rewritten, and every other value is kept under its key |
| `States.ReplaceLeavesNoPlaceholderValues` | src/stepfunctions/steps/states.py:51-65 | after replacement no value of a dictionary, at any depth reached through dicts and lists of dicts, is an `ExecutionInput` or `StepInput` placeholder |
| `States.BlockToDictSpec` | src/stepfunctions/steps/states.py:67-79 | each field is emitted under its PascalCase key, with its converted value, exactly when it is not `None`, except that an explicit `None` is kept for `result_path`, `input_path` and `output_path` |
| `States.StateToDictLaterParts` | src/stepfunctions/steps/states.py:279-294 | the retry, catch and class-specific parts touch only their own keys |
| `States.NextOrEnd` | src/stepfunctions/steps/states.py:283-286 | a state with a successor emits `Next` with the successor's id; otherwise `End: true`, except for Succeed, Fail and Choice |
| `States.RetryAndCatchAllowed` | src/stepfunctions/steps/states.py:192-199 | `retry` and `catch` are allowed exactly for Parallel, Map and Task |
| `States.RetryAndCatchEmitted` | src/stepfunctions/steps/states.py:288-292 | for those classes, non-empty retriers and catchers are emitted as lists, in order |
| `States.ChoicesEmitted` | src/stepfunctions/steps/states.py:455-468 | a Choice emits its rules as `Choices` and its default target's id as `Default` |
| `States.BranchesAndIteratorEmitted` | src/stepfunctions/steps/states.py:523-580 | Parallel emits the graph of each branch as `Branches`; Map emits its iterator's graph as `Iterator` |
| `States.BranchDictsSpec` | src/stepfunctions/steps/states.py:523-528 | the j-th branch dictionary is the graph of the j-th branch |
| `States.WalkSpec` | src/stepfunctions/steps/states.py:684-718 | after a walk, a state is recorded exactly when it was already recorded or is reachable from the stack; the validating walk checks parameters of every newly reached state |
| `States.WalkStateSpec` | src/stepfunctions/steps/states.py:245-253 | the same for one state taken off the stack, covering both the skip and the visit cases |
| `States.WalkSkipSpec` | src/stepfunctions/steps/states.py:245-253 | the same when the state was already visited |
| `States.WalkVisitSpec` | src/stepfunctions/steps/states.py:245-253 | the same when the state is visited now |
| `States.WalkFromRoot` | src/stepfunctions/steps/states.py:753-758 | walking from a root records exactly the reachable states, each with its own dictionary |
| `States.GraphSpec` | src/stepfunctions/steps/states.py:760-764 | a graph emits `StartAt` (the first state's id) and `States` (every reachable state with its dictionary); every reachable state passed the parameter check |
| `States.GraphErrors` | src/stepfunctions/steps/states.py:733-748 | a branch that is neither a state nor a chain, an unknown field or an empty chain each give their error |
| `States.FirstIllegalSpec` | src/stepfunctions/steps/states.py:720-729 | no illegal parameter is found exactly when every parameter, at any depth, is legal |
| `States.NextParametersSpec` | src/stepfunctions/steps/states.py:696-718 | the next step's parameters pass exactly when there are none, or they are a dictionary whose step inputs all come from this step's output |
| `States.IllegalPlaceholderRejected` | src/stepfunctions/steps/states.py:696-718 | a graph with any reachable illegal placeholder is refused |
| `Builder.WaitCheckSpec` | src/stepfunctions/steps/states.py:396-397 | a Wait is built exactly when exactly one of its four timing fields is given |
| `Builder.NextOnSpec` | src/stepfunctions/steps/states.py:211-234 | `next` is refused exactly for Succeed and Fail, for a plain state typed Choice, and for a Choice that already has a default when that default or the target is an empty chain (the `state_id` read by the warning raises); otherwise the target becomes the successor and nothing else changes; a Choice sets its default |
| `Builder.NextMakesSuccessor` | src/stepfunctions/steps/states.py:211-234 | after `next` the target is the state's first successor in the graph walk |
| `Builder.StateIdFails` | src/stepfunctions/steps/states.py:653-656 | reading `state_id` fails exactly for a chain object holding no step, with the empty-chain error |
| `Builder.NewRetry` | src/stepfunctions/steps/states.py:111-128 | a retrier is built exactly when every keyword is a retrier field, and keeps them |
| `Builder.NewCatch` | src/stepfunctions/steps/states.py:137-156 | a catcher is built exactly when every keyword is a catcher field, and keeps them with its next step |
| `Builder.UpdateParametersEmitted` | src/stepfunctions/steps/states.py:201-209 | after `update_parameters` the state emits the new parameters, placeholders replaced, unless they are `None` |
| `Builder.CountDistinct` | src/stepfunctions/steps/states.py:633-647 | the duplicate-state check: steps are distinct exactly when each occurs at most once |
| `Builder.AppendAllSpec` | src/stepfunctions/steps/states.py:658-671 | appending steps succeeds exactly when every link is allowed (including the empty-chain check on a Choice that already has a default), and then each step is linked to the next |
| `Builder.ChainLinkIsSuccessor` | src/stepfunctions/steps/states.py:633-647 | in a built chain each step's successor is the next step |
| `Builder.ChainReachesSteps` | src/stepfunctions/steps/states.py:633-675 | every step of a built chain is reachable from its first step |
| `Builder.ParametersAllowed` | src/stepfunctions/steps/states.py:192-199 | `parameters` is allowed for plain states, Pass, Parallel, Map and Task, and for nothing else |
| `Builder.Workspace.NewState` | src/stepfunctions/steps/states.py:165-187 | an unknown field or a failed class check is reported and nothing changes; on success exactly one new state is appended, holding the fields and the type |
| `Builder.Workspace.Next` | src/stepfunctions/steps/states.py:211-234 | the state is updated as `NextOn` over the current chain objects says, or the error is returned and nothing changes; re-pointing a Choice whose old default or new target is an empty chain raises and leaves the default as it was |
| `Builder.Workspace.AddRetry` | src/stepfunctions/steps/states.py:255-265 | for Parallel, Map and Task the retrier is appended; otherwise the call is refused and nothing changes |
| `Builder.Workspace.AddCatch` | src/stepfunctions/steps/states.py:267-277 | for Parallel, Map and Task the catcher is appended; otherwise the call is refused and nothing changes |
| `Builder.Workspace.AddChoice` | src/stepfunctions/steps/states.py:436-443 | a Choice appends the rule and target; any other state has no such method |
| `Builder.Workspace.DefaultChoice` | src/stepfunctions/steps/states.py:445-453 | a Choice sets its default; any other state has no such method |
| `Builder.Workspace.AddBranch` | src/stepfunctions/steps/states.py:514-521 | a Parallel appends the branch; any other state has no such method |
| `Builder.Workspace.AttachIterator` | src/stepfunctions/steps/states.py:554-561 | a Map sets its iterator, which it then emits; any other state has no such method |
| `Builder.Workspace.UpdateParameters` | src/stepfunctions/steps/states.py:201-209 | `parameters` is set where allowed; elsewhere nothing changes |
| `Builder.Workspace.ChainAppend` | src/stepfunctions/steps/states.py:658-671 | the step is linked after the chain's last step and appended, or the error is returned with nothing changed |
| `Builder.Workspace.NewChain` | src/stepfunctions/steps/states.py:633-647 | a non-list is refused; duplicate steps give an empty chain and an error; otherwise the steps are linked in order |
| `Visitors.Visitor.Accept` | src/stepfunctions/steps/states.py:245-253 | the visitor's dictionary becomes the walk's result, or the walk's error is returned |
| `Visitors.Visitor.AcceptState` | src/stepfunctions/steps/states.py:470-479 | one state: skipped if already visited; otherwise visited, with its successors pushed (a Choice's default, then its rules' targets) |
| `Visitors.WalkHead` | src/stepfunctions/steps/states.py:673-675 | a chain on the stack is replaced by its steps; a state is handled by `WalkState` |
| `Visitors.BuildGraph` | src/stepfunctions/steps/states.py:733-764 | the loop-based build yields the graph dictionary whose contents `GraphSpec` states |
| `IntegrationResources.ServiceIntegrationArn` | src/stepfunctions/steps/integration_resources.py:30-49 | every ARN starts with `arn:<partition>:states:::<service>:<api>` |
| `IntegrationResources.PatternSuffix` | src/stepfunctions/steps/integration_resources.py:41-44 | the default pattern adds nothing; every other pattern adds `.` and its value |
| `IntegrationResources.VersionSuffix` | src/stepfunctions/steps/integration_resources.py:46-47 | a truthy version adds `:<version>`; `None` and `0` add nothing |
| `IntegrationResources.PatternsDistinguished` | src/stepfunctions/steps/integration_resources.py:20-49 | without a version, different patterns give different ARNs |
| `IntegrationResources.SyncVersionTwo` | src/stepfunctions/steps/integration_resources.py:41-47 | `.sync` with version 2 equals the `sync:2` pattern without a version |
| `IntegrationResources.IsIntegrationPatternValid` | src/stepfunctions/steps/integration_resources.py:52-58 | passes exactly for a supported pattern; a non-pattern is a TypeError and an unsupported pattern a ValueError |
| `IntegrationResources.FlagPattern` | src/stepfunctions/steps/service.py:257-271 | the default pattern is chosen exactly when the flag is off or the step has none |
| `IntegrationResources.FlagSuffix` | src/stepfunctions/steps/service.py:128-142 | a set completion flag adds `.sync`, a set callback flag `.waitForTaskToken`, otherwise the plain ARN |
| `IntegrationResources.ResourceOverwritten` | src/stepfunctions/steps/service.py:102-104 | `resource` gets the ARN; every other keyword keeps its value and order |
| `StepUtils.TagsToKvList` | src/stepfunctions/steps/utils.py:21-23 | one `{Key, Value}` entry per tag, in order |
| `StepUtils.TagsRoundTrip` | src/stepfunctions/steps/utils.py:21-23 | reading the list back gives the original tags |
| `StepUtils.FirstPartitionSpec` | src/stepfunctions/steps/utils.py:26-47 | a partition is found exactly when one lists the region, and it is the first such |
| `StepUtils.GetAwsPartition` | src/stepfunctions/steps/utils.py:26-47 | `aws` with no region, otherwise the first partition listing the region, falling back to `aws` |
| `ServiceSteps.ServiceResourceSpec` | src/stepfunctions/steps/service.py:237-273 | each service step's ARN has `.sync` or `.waitForTaskToken` exactly when its flag is set; flagless steps use the plain ARN |
| `ServiceSteps.DefaultResource` | src/stepfunctions/steps/service.py:242-271 | with default flags, waiting steps use `.sync` and callback steps the plain ARN |
| `ServiceSteps.FlagMatters` | src/stepfunctions/steps/service.py:601-615 | for a step with a flag, the two settings give different ARNs |
| `ServiceSteps.StartExecutionResource` | src/stepfunctions/steps/service.py:924-932 | a resource is picked exactly when one flag is set; none or several are ValueErrors |
| `ServiceSteps.StartExecutionSpec` | src/stepfunctions/steps/service.py:934-955 | callback gives `.waitForTaskToken`, completion `.sync:2`, and `async_call` the plain ARN |
| `ServiceSteps.StartExecutionDefaults` | src/stepfunctions/steps/service.py:906-932 | the defaults alone are accepted; setting callback or async without clearing completion raises |
| `ServiceSteps.StartExecutionResourceAsWritten` | src/stepfunctions/steps/service.py:942-949 | against the enumeration as written, the completion branch raises AttributeError; every other case agrees with `StartExecutionResource` |
| `ServiceSteps.DefaultStartExecutionRaises` | src/stepfunctions/steps/service.py:906-949 | as written the default step raises AttributeError, while the corrected model yields a resource |
| `ComputeSteps.ComputeResourceSpec` | src/stepfunctions/steps/compute.py:64-80 | Lambda adds `.waitForTaskToken` when its callback flag is set; Glue, Batch and ECS add `.sync` when their completion flag is set, which it is by default |
| `ComputeSteps.BareTaskDict` | src/stepfunctions/steps/compute.py:104-118 | a compute or service step given only its id emits exactly `Resource`, `Type: Task` and `End: true` |
| `TemplateUtils.ReplaceParametersWithContextObject` | src/stepfunctions/template/utils.py:16-21 | fails for a non-dictionary (no `keys`); otherwise it gives the context object over the parameter keys |
| `TemplateUtils.ContextObjectSpec` | src/stepfunctions/template/utils.py:16-21 | every key `k` maps `k.$` to `$$.Execution.Input['<id>'].k`; nothing else is present; keys are unique |
| `TemplateUtils.ContextObjectOnePerKey` | src/stepfunctions/template/utils.py:16-21 | with distinct keys, one entry per key, in the parameters' order |
| `TemplateUtils.ReplaceValues` | src/stepfunctions/template/utils.py:31-37 | the recursive loop computes the rewriting that the `TemplateUtils` lemmas characterise |
| `TemplateUtils.OverrideStep` | src/stepfunctions/template/utils.py:25-29 | a `$`-key override needs the original key, else KeyError; it removes the original and sets the new key; other keys are unchanged |
| `TemplateUtils.NestedStep` | src/stepfunctions/template/utils.py:36-37 | a plain key must exist, else KeyError; its value is rewritten recursively; other keys and the key order are unchanged |
| `TemplateUtils.EntryErrors` | src/stepfunctions/template/utils.py:31-37 | an integer key has no `endswith`; recursing into a non-dictionary is a TypeError |
| `TemplateUtils.ReplacedKeepsKind` | src/stepfunctions/template/utils.py:31-37 | the rewriting keeps a dictionary a dictionary and returns a non-dictionary unchanged |
| `TemplateUtils.UnnamedKept` | src/stepfunctions/template/utils.py:31-37 | a key the overrides never name keeps its value |
| `TemplateUtils.ShallowCopyShared` | src/stepfunctions/template/utils.py:39-42 | the copy shares nested dictionaries: each unrewritten key of the result holds what the step's own parameters hold afterwards |
| `TemplateUtils.StepAfterSpec` | src/stepfunctions/template/utils.py:39-42 | the step's parameters keep top-level keys the overrides do not name; a nested key they name is rewritten in place |
| `TemplateUtils.ReplaceParametersWithJsonPath` | src/stepfunctions/template/utils.py:23-42 | a non-copyable parameters value has no `copy`; otherwise it returns the rewritten copy and the step's parameters as the shared mutation leaves them |

## Left out

- Serialisation to JSON text is not modelled. That covers `to_json`, `get_schema_as_json`, `FrozenGraph` and `__repr__`/`__str__`. The model stops at the dictionary value.
- Logger warnings and the `logging` module are not modelled.
- Nesting a graph inside a Parallel or Map state recurses through `Graph.to_dict`. The model bounds that recursion by a `fuel` parameter. Running out of fuel gives `RecursionLimit`, which stands in for Python's RecursionError.
- The graph lemmas assume these hypotheses:
  - `UniqueIds`: every state id is distinct.
  - `PascalDistinct`: no two fields share a PascalCase key.
  - `NoNextOrEndField`: no field is named `next` or `end`.
- The graph lemmas do not describe documents that break those hypotheses. The walk itself still models the duplicate-id ValueError and `ValidationVisitor`'s skip of a state whose dictionary equals the recorded one.
- Python's `is` comparisons are modelled as equality: of placeholders (as equality of arena indices) and of the state type with `'Choice'`.
- `Builder.Workspace.ChainAppend`: `Chain.append` accepts only a state, not a nested chain. `Chain(...)` does flatten nested chains.
- `Builder.Workspace.Next` and `Builder.Workspace.NewChain`: the target of `next` must be a state or chain object, and every item of the list given to `Chain(...)` must be one too. These are the documented argument types. Python accepts any object, for example `s.next(None)`, which unlinks the state; such calls are not modelled.
- The boto3 session is passed in as parameters. `StepUtils.GetAwsPartition` takes the partition list and the current region. `IntegrationResources.ServiceIntegrationArn` takes the partition.
- The SageMaker steps are not part of this model. Neither are the workflow, pipeline and template classes beyond `template/utils.py`.
- `PlaceholderArena.NewCollection`: reading the schema back is promised only for a plain schema: a dictionary with distinct keys, no empty nested dictionary and no falsy leaf type. The source drops an empty nested dictionary, and it reads a falsy leaf type back as `str`. For the base class the first leaf raises `NotImplementedError`, which the model returns as an error.
- `PlaceholderArena.Get` and `PlaceholderArena.Subscript`: a boolean placeholder name is rejected. Python accepts it, because bool is a subclass of int.
- `TemplateUtils.ReplaceParametersWithJsonPath`: the model has no heap for the dictionaries being rewritten. So it does not model these:
  - sharing between two entries of one parameters dictionary;
  - the partial mutation left behind when a rewrite fails midway.
- `TemplateUtils.ReplaceParametersWithJsonPath` also does not model the ValueError raised by subscripting an immutable placeholder collection during rewriting. Recursing into a placeholder (`src_params[key]` on a placeholder) returns the placeholder unchanged.
- `IntegrationResources.ServiceIntegrationArn`: the version is an optional integer. A non-integer version is not modelled.
- `ServiceSteps.StartExecutionResource` and `ComputeSteps.ComputeResourceSpec`: the flags are booleans, not arbitrary truthy values.
- `Fields.PascalCaseIsTitleWithoutUnderscores`: `str.title` is modelled for ASCII letters only. Other characters are word separators and are not case-mapped.
- The enumeration at src/stepfunctions/steps/integration_resources.py:20-27 lacks the member `WaitForCompletionWithJsonResponse` that service.py:949 uses. The corrected model adds it with value `sync:2`, as the example ARN at service.py:944 shows (see Findings).

## Findings

| source | as written | input that shows it | evidently intended | confidence | as-written member | corrected member |
|---|---|---|---|---|---|---|
| src/stepfunctions/steps/service.py:942-949 and src/stepfunctions/steps/integration_resources.py:20-27 | the completion branch looks up `IntegrationPattern.WaitForCompletionWithJsonResponse`, which the enumeration does not define, so it raises AttributeError | `StepFunctionsStartExecutionStep("x")` with the default flags (`wait_for_completion=True`) | the resource `arn:aws:states:::states:startExecution.sync:2`, as the example ARN in the comment at service.py:944 says | medium, not executed (the member may exist in a version of the enumeration that is not part of this model) | `ServiceSteps.StartExecutionResourceAsWritten`, `ServiceSteps.DefaultStartExecutionRaises` | `ServiceSteps.StartExecutionResource`, `ServiceSteps.StartExecutionSpec` |
