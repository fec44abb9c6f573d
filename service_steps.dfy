/** The Task steps that call AWS services through the Step Functions service
    integrations. Each constructor picks a resource ARN from its service, its
    API and its one flag, writes it into the keyword arguments as `resource`
    and hands them to `Task`; the nested-execution step checks its three flags
    first. */
module ServiceSteps {
  import opened Wrappers
  import opened Dicts
  import opened PyValues
  import opened IntegrationResources

  /** The service step classes with a single flag (or none). */
  datatype ServiceStep =
    | DynamoDBGetItem | DynamoDBPutItem | DynamoDBDeleteItem | DynamoDBUpdateItem
    | EventBridgePutEvents
    | EksCreateCluster | EksCreateFargateProfile | EksDeleteFargateProfile
    | EksCreateNodeGroup | EksDeleteNodegroup | EksDeleteCluster | EksRunJob | EksCall
    | GlueDataBrewStartJobRun
    | SnsPublish
    | SqsSendMessage
    | EmrCreateCluster | EmrTerminateCluster | EmrAddStep | EmrCancelStep
    | EmrSetClusterTerminationProtection | EmrModifyInstanceFleetByName | EmrModifyInstanceGroupByName

  /** The service name in the ARN. */
  function ServiceName(s: ServiceStep): string
  {
    match s
    case DynamoDBGetItem | DynamoDBPutItem | DynamoDBDeleteItem | DynamoDBUpdateItem => "dynamodb"
    case EventBridgePutEvents => "events"
    case EksCreateCluster | EksCreateFargateProfile | EksDeleteFargateProfile
       | EksCreateNodeGroup | EksDeleteNodegroup | EksDeleteCluster | EksRunJob | EksCall => "eks"
    case GlueDataBrewStartJobRun => "databrew"
    case SnsPublish => "sns"
    case SqsSendMessage => "sqs"
    case EmrCreateCluster | EmrTerminateCluster | EmrAddStep | EmrCancelStep
       | EmrSetClusterTerminationProtection | EmrModifyInstanceFleetByName | EmrModifyInstanceGroupByName => "elasticmapreduce"
  }

  /** The API name in the ARN (the value of the service's API enumeration member). */
  function ApiName(s: ServiceStep): string
  {
    match s
    case DynamoDBGetItem => "getItem"
    case DynamoDBPutItem => "putItem"
    case DynamoDBDeleteItem => "deleteItem"
    case DynamoDBUpdateItem => "updateItem"
    case EventBridgePutEvents => "putEvents"
    case EksCreateCluster => "createCluster"
    case EksCreateFargateProfile => "createFargateProfile"
    case EksDeleteFargateProfile => "deleteFargateProfile"
    case EksCreateNodeGroup => "createNodegroup"
    case EksDeleteNodegroup => "deleteNodegroup"
    case EksDeleteCluster => "deleteCluster"
    case EksRunJob => "runJob"
    case EksCall => "call"
    case GlueDataBrewStartJobRun => "startJobRun"
    case SnsPublish => "publish"
    case SqsSendMessage => "sendMessage"
    case EmrCreateCluster => "createCluster"
    case EmrTerminateCluster => "terminateCluster"
    case EmrAddStep => "addStep"
    case EmrCancelStep => "cancelStep"
    case EmrSetClusterTerminationProtection => "setClusterTerminationProtection"
    case EmrModifyInstanceFleetByName => "modifyInstanceFleetByName"
    case EmrModifyInstanceGroupByName => "modifyInstanceGroupByName"
  }

  /** Which flag the constructor takes. */
  function FlagOf(s: ServiceStep): Flag
  {
    match s
    case EventBridgePutEvents | SnsPublish | SqsSendMessage => WaitForCallbackFlag
    case EksCreateCluster | EksCreateFargateProfile | EksDeleteFargateProfile
       | EksCreateNodeGroup | EksDeleteNodegroup | EksDeleteCluster | EksRunJob
       | GlueDataBrewStartJobRun | EmrCreateCluster | EmrTerminateCluster | EmrAddStep => WaitForCompletionFlag
    case _ => NoFlag
  }

  /** The flag's default: `wait_for_completion=True`, `wait_for_callback=False`. */
  function DefaultFlag(s: ServiceStep): bool
  {
    FlagOf(s) == WaitForCompletionFlag
  }

  /** The ARN the constructor of `s` writes into `resource` when its flag is `on`. */
  function ServiceResource(partition: string, s: ServiceStep, on: bool): string
  {
    ServiceIntegrationArn(partition, ServiceName(s), ApiName(s), FlagPattern(FlagOf(s), on), None)
  }

  /** The keyword arguments the constructor hands to `Task`. */
  function ServiceStepKwargs(partition: string, s: ServiceStep, on: bool, kwargs: Dict<string, Value>): Dict<string, Value>
  {
    WithResource(kwargs, ServiceResource(partition, s, on))
  }

  /** The waiting EKS, EMR and DataBrew steps add `.sync` exactly when
      `wait_for_completion` is true; SNS, SQS and EventBridge add
      `.waitForTaskToken` exactly when `wait_for_callback` is true; the
      DynamoDB, EKS `call` and the other EMR steps always use the plain ARN. */
  lemma {:induction false} ServiceResourceSpec(partition: string, s: ServiceStep, on: bool)
    ensures var plain := PlainArn(partition, ServiceName(s), ApiName(s));
      && (FlagOf(s) == WaitForCompletionFlag ==>
            ServiceResource(partition, s, on) == if on then plain + ".sync" else plain)
      && (FlagOf(s) == WaitForCallbackFlag ==>
            ServiceResource(partition, s, on) == if on then plain + ".waitForTaskToken" else plain)
      && (FlagOf(s) == NoFlag ==> ServiceResource(partition, s, on) == plain)
  {
    FlagSuffix(partition, ServiceName(s), ApiName(s), FlagOf(s), on);
  }

  /** With its flag left at the default a waiting step uses `.sync` and a
      callback step the plain ARN. */
  lemma {:induction false} DefaultResource(partition: string, s: ServiceStep)
    ensures var plain := PlainArn(partition, ServiceName(s), ApiName(s));
      ServiceResource(partition, s, DefaultFlag(s)) == if FlagOf(s) == WaitForCompletionFlag then plain + ".sync" else plain
  {
    ServiceResourceSpec(partition, s, DefaultFlag(s));
  }

  /** For a step that takes a flag, the flag decides the ARN: the two
      settings give different resources. */
  lemma {:induction false} FlagMatters(partition: string, s: ServiceStep)
    requires FlagOf(s) != NoFlag
    ensures ServiceResource(partition, s, true) != ServiceResource(partition, s, false)
  {
    PatternsDistinguished(partition, ServiceName(s), ApiName(s), FlagPattern(FlagOf(s), true), FlagPattern(FlagOf(s), false));
  }

  /** How many of the nested-execution step's three flags are set. */
  function FlagCount(callback: bool, completion: bool, async: bool): nat
  {
    (if callback then 1 else 0) + (if completion then 1 else 0) + (if async then 1 else 0)
  }

  /** The resource `StepFunctionsStartExecutionStep` picks from
      `wait_for_callback`, `wait_for_completion` and `async_call`, or the
      ValueError it raises unless exactly one of them is set. */
  function StartExecutionResource(partition: string, callback: bool, completion: bool, async: bool): (r: Result<string, Error>)
    ensures r.Ok? <==> FlagCount(callback, completion, async) == 1
    ensures FlagCount(callback, completion, async) == 0 ==> r == Err(NoResourceFlag)
    ensures FlagCount(callback, completion, async) > 1 ==> r == Err(MultipleResourceFlags)
    ensures r.Err? ==> ExceptionClass(r.error) == "ValueError"
  {
    var enabled := FlagCount(callback, completion, async);
    if enabled == 0 then Err(NoResourceFlag)
    else if enabled > 1 then Err(MultipleResourceFlags)
    else
      var pattern :=
        if callback then WaitForTaskToken
        else if completion then WaitForCompletionWithJsonResponse
        else CallAndContinue;
      Ok(ServiceIntegrationArn(partition, "states", "startExecution", pattern, None))
  }

  /** With exactly one flag set: the callback flag gives `.waitForTaskToken`,
      the completion flag `.sync:2` and `async_call` the plain ARN. */
  lemma {:induction false} StartExecutionSpec(partition: string)
    ensures var plain := PlainArn(partition, "states", "startExecution");
      && StartExecutionResource(partition, true, false, false) == Ok(plain + ".waitForTaskToken")
      && StartExecutionResource(partition, false, true, false) == Ok(plain + ".sync:2")
      && StartExecutionResource(partition, false, false, true) == Ok(plain)
  {
    var plain := PlainArn(partition, "states", "startExecution");
    assert plain + "." + PatternValue(WaitForTaskToken) == plain + ".waitForTaskToken";
    assert plain + "." + PatternValue(WaitForCompletionWithJsonResponse) == plain + ".sync:2";
  }

  /** Because `wait_for_completion` defaults to true, the defaults alone pick
      `.sync:2`, while setting only `wait_for_callback` or only `async_call`
      (and leaving the default) raises. */
  lemma {:induction false} StartExecutionDefaults(partition: string)
    ensures StartExecutionResource(partition, false, true, false).Ok?
    ensures StartExecutionResource(partition, true, true, false) == Err(MultipleResourceFlags)
    ensures StartExecutionResource(partition, false, true, true) == Err(MultipleResourceFlags)
  {
  }

  /** The same selection against the enumeration as it stands in
      `integration_resources.py`, which has no `WaitForCompletionWithJsonResponse`
      member: looking it up raises AttributeError. */
  function StartExecutionResourceAsWritten(partition: string, callback: bool, completion: bool, async: bool): (r: Result<string, Error>)
    ensures FlagCount(callback, completion, async) != 1 ==> r == StartExecutionResource(partition, callback, completion, async)
    ensures FlagCount(callback, completion, async) == 1 && !completion ==> r == StartExecutionResource(partition, callback, completion, async)
    ensures FlagCount(callback, completion, async) == 1 && completion ==> r == Err(MissingAttribute("WaitForCompletionWithJsonResponse"))
  {
    var enabled := FlagCount(callback, completion, async);
    if enabled == 0 then Err(NoResourceFlag)
    else if enabled > 1 then Err(MultipleResourceFlags)
    else if callback then Ok(ServiceIntegrationArn(partition, "states", "startExecution", WaitForTaskToken, None))
    else if completion then Err(MissingAttribute("WaitForCompletionWithJsonResponse"))
    else Ok(ServiceIntegrationArn(partition, "states", "startExecution", CallAndContinue, None))
  }

  /** As written, the nested-execution step built with its default flags
      cannot be constructed: it raises AttributeError where the `.sync:2`
      resource was meant. */
  lemma {:induction false} DefaultStartExecutionRaises(partition: string)
    ensures StartExecutionResourceAsWritten(partition, false, true, false).Err?
    ensures ExceptionClass(StartExecutionResourceAsWritten(partition, false, true, false).error) == "AttributeError"
    ensures StartExecutionResource(partition, false, true, false).Ok?
  {
  }

  /** The keyword arguments the nested-execution step hands to `Task`. */
  function StartExecutionKwargs(partition: string, callback: bool, completion: bool, async: bool,
                                kwargs: Dict<string, Value>): Result<Dict<string, Value>, Error>
  {
    var arn :- StartExecutionResource(partition, callback, completion, async);
    Ok(WithResource(kwargs, arn))
  }
}
