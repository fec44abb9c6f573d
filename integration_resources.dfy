/** Resource ARNs of the service integrations a Task state calls: the
    integration pattern picks the suffix after the API name, and a version
    may follow. The partition is the one `StepUtils.GetAwsPartition` finds. */
module IntegrationResources {
  import opened Wrappers
  import opened Dicts
  import opened PyValues
  import F = Fields

  /** How a Task waits on the service it calls. `WaitForCompletionWithJsonResponse`
      is the pattern of the nested-execution step (`.sync:2`). */
  datatype IntegrationPattern =
    | WaitForTaskToken
    | WaitForCompletion
    | CallAndContinue
    | WaitForCompletionWithJsonResponse

  /** `pattern.value`. */
  function PatternValue(p: IntegrationPattern): string
  {
    match p
    case WaitForTaskToken => "waitForTaskToken"
    case WaitForCompletion => "sync"
    case CallAndContinue => ""
    case WaitForCompletionWithJsonResponse => "sync:2"
  }

  /** The ARN shared by every pattern: `arn:<partition>:states:::<service>:<api>`. */
  function PlainArn(partition: string, service: string, api: string): string
  {
    "arn:" + partition + ":states:::" + service + ":" + api
  }

  /** `get_service_integration_arn(service, api, pattern, version)` in the
      given partition; `version` is an optional integer and is appended only
      when it is truthy (not None and not 0). */
  function ServiceIntegrationArn(partition: string, service: string, api: string,
                                 pattern: IntegrationPattern, version: Option<int>): (arn: string)
    ensures PlainArn(partition, service, api) <= arn
  {
    var arn := if pattern == CallAndContinue then PlainArn(partition, service, api)
               else PlainArn(partition, service, api) + "." + PatternValue(pattern);
    if version.Some? && version.value != 0 then arn + ":" + IntToString(version.value) else arn
  }

  /** With the default pattern and no version the ARN is the plain one; any
      other pattern adds `.` and its value after the API name. */
  lemma PatternSuffix(partition: string, service: string, api: string, pattern: IntegrationPattern)
    ensures pattern == CallAndContinue ==>
      ServiceIntegrationArn(partition, service, api, pattern, None) == PlainArn(partition, service, api)
    ensures pattern != CallAndContinue ==>
      ServiceIntegrationArn(partition, service, api, pattern, None) == PlainArn(partition, service, api) + "." + PatternValue(pattern)
  {
  }

  /** A truthy version adds `:<version>` to the ARN of the same call without
      one; `None` and `0` add nothing. */
  lemma VersionSuffix(partition: string, service: string, api: string, pattern: IntegrationPattern, version: Option<int>)
    ensures version.Some? && version.value != 0 ==>
      ServiceIntegrationArn(partition, service, api, pattern, version)
        == ServiceIntegrationArn(partition, service, api, pattern, None) + ":" + IntToString(version.value)
    ensures version.None? || version.value == 0 ==>
      ServiceIntegrationArn(partition, service, api, pattern, version)
        == ServiceIntegrationArn(partition, service, api, pattern, None)
  {
  }

  /** Without a version, the four patterns give four different ARNs for the
      same service and API: the pattern can be read back from the ARN. */
  lemma {:induction false} PatternsDistinguished(partition: string, service: string, api: string,
                                                 p: IntegrationPattern, q: IntegrationPattern)
    requires p != q
    ensures ServiceIntegrationArn(partition, service, api, p, None) != ServiceIntegrationArn(partition, service, api, q, None)
  {
    var n := |PlainArn(partition, service, api)|;
    assert |ServiceIntegrationArn(partition, service, api, p, None)| == n + SuffixLength(p);
    assert |ServiceIntegrationArn(partition, service, api, q, None)| == n + SuffixLength(q);
  }

  function SuffixLength(p: IntegrationPattern): nat
  {
    match p
    case WaitForTaskToken => 17
    case WaitForCompletion => 5
    case CallAndContinue => 0
    case WaitForCompletionWithJsonResponse => 7
  }

  /** A version does not always keep patterns apart: `.sync` with version 2
      is the very ARN of the JSON-response pattern without a version. */
  lemma {:induction false} SyncVersionTwo(partition: string, service: string, api: string)
    ensures ServiceIntegrationArn(partition, service, api, WaitForCompletion, Some(2))
         == ServiceIntegrationArn(partition, service, api, WaitForCompletionWithJsonResponse, None)
  {
    assert IntToString(2) == "2";
    assert PlainArn(partition, service, api) + "." + "sync" + ":" + "2"
        == PlainArn(partition, service, api) + "." + "sync:2";
  }

  /** The argument `is_integration_pattern_valid` checks: an integration
      pattern, or some other Python value. */
  datatype PatternArgument = APattern(pattern: IntegrationPattern) | NotAPattern(v: Value)

  /** `is_integration_pattern_valid(pattern, supported)`. */
  function IsIntegrationPatternValid(arg: PatternArgument, supported: seq<IntegrationPattern>): (r: Outcome<Error>)
    ensures r.Pass? <==> arg.APattern? && arg.pattern in supported
    ensures arg.NotAPattern? ==> r.Fail? && ExceptionClass(r.error) == "TypeError"
    ensures arg.APattern? && arg.pattern !in supported ==> r.Fail? && ExceptionClass(r.error) == "ValueError"
  {
    match arg
    case NotAPattern(_) => Fail(NotAnIntegrationPattern)
    case APattern(p) => if p in supported then Pass else Fail(PatternNotSupported)
  }

  /** The one boolean a step constructor takes to choose its pattern:
      none, `wait_for_completion` or `wait_for_callback`. */
  datatype Flag = NoFlag | WaitForCompletionFlag | WaitForCallbackFlag

  /** The pattern a constructor with flag kind `flag` passes when the flag is `on`. */
  function FlagPattern(flag: Flag, on: bool): (p: IntegrationPattern)
    ensures p == CallAndContinue <==> !on || flag == NoFlag
  {
    if !on || flag == NoFlag then CallAndContinue
    else if flag == WaitForCompletionFlag then WaitForCompletion
    else WaitForTaskToken
  }

  /** The ARN a constructor with flag kind `flag` builds: the plain ARN, with
      `.sync` or `.waitForTaskToken` added exactly when its flag is set. */
  lemma FlagSuffix(partition: string, service: string, api: string, flag: Flag, on: bool)
    ensures var arn := ServiceIntegrationArn(partition, service, api, FlagPattern(flag, on), None);
      && (flag == NoFlag || !on ==> arn == PlainArn(partition, service, api))
      && (flag == WaitForCompletionFlag && on ==> arn == PlainArn(partition, service, api) + ".sync")
      && (flag == WaitForCallbackFlag && on ==> arn == PlainArn(partition, service, api) + ".waitForTaskToken")
  {
  }

  /** `kwargs[Field.Resource.value] = arn`: what every integration step
      hands on to `Task`. */
  function WithResource(kwargs: Dict<string, Value>, arn: string): Dict<string, Value>
  {
    Put(kwargs, F.FieldValue(F.Resource), VStr(arn))
  }

  /** The caller's `resource`, if any, is replaced in its place; every other
      keyword argument reaches `Task` unchanged and in its order. */
  lemma {:induction false} ResourceOverwritten(kwargs: Dict<string, Value>, arn: string, k: string)
    ensures var res := F.FieldValue(F.Resource);
      && Get(WithResource(kwargs, arn), res) == Some(VStr(arn))
      && (k != res ==> Get(WithResource(kwargs, arn), k) == Get(kwargs, k))
      && (HasKey(kwargs, res) ==> Keys(WithResource(kwargs, arn)) == Keys(kwargs))
      && (!HasKey(kwargs, res) ==> WithResource(kwargs, arn) == kwargs + [(res, VStr(arn))])
  {
    var res := F.FieldValue(F.Resource);
    PutGet(kwargs, res, VStr(arn), res);
    PutGet(kwargs, res, VStr(arn), k);
    PutKeys(kwargs, res, VStr(arn));
  }
}
