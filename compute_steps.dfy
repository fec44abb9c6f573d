/** The Task steps that run compute jobs (Lambda, Glue, Batch, ECS): the
    same resource selection as the service steps, and what such a step
    serialises to when it is given nothing else. */
module ComputeSteps {
  import opened Wrappers
  import opened Dicts
  import opened PyValues
  import F = Fields
  import opened Placeholders
  import opened States
  import opened IntegrationResources

  datatype ComputeStep = LambdaInvoke | GlueStartJobRun | BatchSubmitJob | EcsRunTask

  function ServiceName(s: ComputeStep): string
  {
    match s
    case LambdaInvoke => "lambda"
    case GlueStartJobRun => "glue"
    case BatchSubmitJob => "batch"
    case EcsRunTask => "ecs"
  }

  function ApiName(s: ComputeStep): string
  {
    match s
    case LambdaInvoke => "invoke"
    case GlueStartJobRun => "startJobRun"
    case BatchSubmitJob => "submitJob"
    case EcsRunTask => "runTask"
  }

  /** `LambdaStep` takes `wait_for_callback` (default false), the others
      `wait_for_completion` (default true). */
  function FlagOf(s: ComputeStep): Flag
  {
    if s == LambdaInvoke then WaitForCallbackFlag else WaitForCompletionFlag
  }

  function DefaultFlag(s: ComputeStep): bool
  {
    s != LambdaInvoke
  }

  /** The ARN the constructor of `s` writes into `resource` when its flag is `on`. */
  function ComputeResource(partition: string, s: ComputeStep, on: bool): string
  {
    ServiceIntegrationArn(partition, ServiceName(s), ApiName(s), FlagPattern(FlagOf(s), on), None)
  }

  /** The keyword arguments the constructor hands to `Task`: `resource` is
      overwritten, `parameters` and the rest pass through. */
  function ComputeStepKwargs(partition: string, s: ComputeStep, on: bool, kwargs: Dict<string, Value>): Dict<string, Value>
  {
    WithResource(kwargs, ComputeResource(partition, s, on))
  }

  /** Lambda is `lambda:invoke`, plus `.waitForTaskToken` when
      `wait_for_callback` is set; Glue, Batch and ECS add `.sync` when
      `wait_for_completion` is set (the default) and nothing otherwise. */
  lemma {:induction false} ComputeResourceSpec(partition: string, s: ComputeStep, on: bool)
    ensures var plain := PlainArn(partition, ServiceName(s), ApiName(s));
      && (s == LambdaInvoke ==>
            ComputeResource(partition, s, on) == if on then plain + ".waitForTaskToken" else plain)
      && (s != LambdaInvoke ==>
            ComputeResource(partition, s, on) == if on then plain + ".sync" else plain)
    ensures var plain := PlainArn(partition, ServiceName(s), ApiName(s));
      ComputeResource(partition, s, DefaultFlag(s)) == if s == LambdaInvoke then plain else plain + ".sync"
  {
    FlagSuffix(partition, ServiceName(s), ApiName(s), FlagOf(s), on);
    FlagSuffix(partition, ServiceName(s), ApiName(s), FlagOf(s), DefaultFlag(s));
  }

  lemma {:induction false} EmittedHead(ph: seq<PNode>, fs: seq<(string, Value)>)
    requires Valid(ph) && fs != [] && Kept(fs[0])
    ensures EmittedFields(ph, fs) == [(KStr(F.ToPascalCase(fs[0].0)), Emitted(ph, fs[0]))] + EmittedFields(ph, fs[1..])
  {
  }

  lemma {:induction false} EmittedNone(ph: seq<PNode>)
    requires Valid(ph)
    ensures EmittedFields(ph, []) == []
  {
  }

  /** Neither `resource` nor `type` is the `parameters` field, so both are
      emitted as given, under `Resource` and `Type`. */
  lemma {:induction false} BareFieldsEmitted(ph: seq<PNode>, arn: string, fs: seq<(string, Value)>, res: string, ty: string, par: string)
    requires Valid(ph) && res == F.FieldValue(F.Resource) && ty == "type" && par == F.FieldValue(F.Parameters)
    requires fs == [(res, VStr(arn)), (ty, VStr("Task"))]
    ensures EmittedFields(ph, fs) == [(KStr("Resource"), VStr(arn)), (KStr("Type"), VStr("Task"))]
  {
    F.PascalOfResource(res);
    F.PascalOfType(ty);
    F.PascalOfParameters(par);
    assert Emitted(ph, fs[0]) == VStr(arn);
    assert Emitted(ph, fs[1]) == VStr("Task");
    EmittedHead(ph, fs);
    EmittedHead(ph, fs[1..]);
    assert fs[1..][1..] == [];
    EmittedNone(ph);
  }

  lemma {:induction false} TwoPairs<K, V>(k0: K, v0: V, k1: K, v1: V)
    requires k0 != k1
    ensures FromPairs([(k0, v0), (k1, v1)]) == [(k0, v0), (k1, v1)]
  {
    var ps := [(k0, v0), (k1, v1)];
    assert Put([], k0, v0) == [(k0, v0)];
    assert FromPairsInto([], ps) == FromPairsInto([(k0, v0)], ps[1..]);
    var one: seq<(K, V)> := [(k0, v0)];
    assert one[1..] == [];
    assert Put(one, k1, v1) == [(k0, v0)] + Put(one[1..], k1, v1);
    assert FromPairsInto(one, ps[1..]) == FromPairsInto([(k0, v0), (k1, v1)], ps[1..][1..]);
    assert ps[1..][1..] == [];
  }

  /** The `Next`/`End`, `Retry` and `Catch` part for a Task state with no
      successor, retriers or catchers: `End: true` goes last. */
  lemma {:induction false} BareTaskEnds(w: World, st: StateNode, d: Dict<Key, Value>)
    requires WorldOk(w) && StateOk(w, st)
    requires st.cls == TaskState && st.stateType == "Task" && st.next.None? && st.retries == [] && st.catches == []
    requires !HasKey(d, KStr("End"))
    ensures WithNext(w, st, d) == Ok(d + [(KStr("End"), VBool(true))])
    ensures WithRetryAndCatch(w, st, d + [(KStr("End"), VBool(true))]) == Ok(d + [(KStr("End"), VBool(true))])
  {
    PutKeys(d, KStr("End"), VBool(true));
  }

  lemma {:induction false} TaskStateDict(w: World, s: nat, fuel: nat)
    requires WorldOk(w) && s < |w.states| && w.states[s].cls == TaskState
    ensures var st := w.states[s];
      StateOk(w, st) &&
      var d1 := WithNext(w, st, BlockToDict(w.ph, st.fields));
      StateToDict(w, s, fuel) == if d1.Err? then Err(d1.error) else WithRetryAndCatch(w, st, d1.value)
  {
    assert StateOk(w, w.states[s]);
  }

  lemma {:induction false} BareFields(arn: string)
    ensures Put(WithResource([], arn), "type", VStr("Task")) == [(F.FieldValue(F.Resource), VStr(arn)), ("type", VStr("Task"))]
  {
    var res := F.FieldValue(F.Resource);
    assert WithResource([], arn) == [(res, VStr(arn))];
    assert res != "type";
  }

  lemma {:induction false} BareBlock(ph: seq<PNode>, arn: string)
    requires Valid(ph)
    ensures BlockToDict(ph, [(F.FieldValue(F.Resource), VStr(arn)), ("type", VStr("Task"))])
      == [(KStr("Resource"), VStr(arn)), (KStr("Type"), VStr("Task"))]
    ensures !HasKey([(KStr("Resource"), VStr(arn)), (KStr("Type"), VStr("Task"))], KStr("End"))
  {
    var fs := [(F.FieldValue(F.Resource), VStr(arn)), ("type", VStr("Task"))];
    BareFieldsEmitted(ph, arn, fs, F.FieldValue(F.Resource), "type", F.FieldValue(F.Parameters));
    TwoPairs(KStr("Resource"), VStr(arn), KStr("Type"), VStr("Task"));
    assert Keys([(KStr("Resource"), VStr(arn)), (KStr("Type"), VStr("Task"))]) == [KStr("Resource"), KStr("Type")];
  }

  /** A Task state built from a compute or service step given only its id:
      its fields are `resource` and `type`, and its dict is exactly
      `Resource`, `Type` and `End: true`. */
  lemma {:induction false} BareTaskDict(w: World, s: nat, arn: string, fuel: nat)
    requires WorldOk(w) && s < |w.states|
    requires var st := w.states[s];
      && st.cls == TaskState && st.stateType == "Task"
      && st.fields == Put(WithResource([], arn), "type", VStr("Task"))
      && st.next.None? && st.retries == [] && st.catches == []
    ensures StateToDict(w, s, fuel)
      == Ok([(KStr("Resource"), VStr(arn)), (KStr("Type"), VStr("Task")), (KStr("End"), VBool(true))])
  {
    var st := w.states[s];
    BareFields(arn);
    BareBlock(w.ph, arn);
    var d0 := [(KStr("Resource"), VStr(arn)), (KStr("Type"), VStr("Task"))];
    TaskStateDict(w, s, fuel);
    BareTaskEnds(w, st, d0);
    var d1 := d0 + [(KStr("End"), VBool(true))];
    assert d1 == [(KStr("Resource"), VStr(arn)), (KStr("Type"), VStr("Task")), (KStr("End"), VBool(true))];
  }
}
