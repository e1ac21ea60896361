/** One processing attempt of a Zabbix request, and the retry loop around it. */
module RequestWorker {
  import opened Text
  import opened JsonModel
  import opened ZabbixRequest
  import opened ZabbixApi
  import RequestValidator
  import HostUpdate
  import TemplateMerge
  import HostGroupResolver

  datatype ProtectedTag = ProtectedTag(tag: string, value: string)

  datatype Config = Config(
    zabbix: RequestValidator.Options, maxRetryAttempts: int,
    protectManagedAggregateHosts: bool, protectedHostNames: seq<string>, protectedHostTags: seq<ProtectedTag>)

  /** The outcome that is published for a request. */
  datatype Result = Result(
    request: Request, success: bool, zabbixHostId: Option<string>, errorCode: Option<string>, zabbixRequestSent: bool)

  function FromValidationError(request: Request, errorCode: string): Result {
    Result(request, false, None, Some(errorCode), false)
  }

  function FromException(request: Request): Result {
    Result(request, false, None, Some("zabbix_api_error"), false)
  }

  /** Reading the host id out of an unreadable body raises. */
  function FromApiResult(log: seq<Event>, request: Request, api: ApiResult): Run<Result> {
    var own := if request.params.Obj? then ReadId(Get(request.params, "hostid")) else None;
    match api.body
    case BadJson => Thrown(log)
    case NoBody => Done(log, Result(request, api.success, own, api.errorCode, true))
    case Parsed(json) =>
      if !json.Obj? then Thrown(log)
      else
        var ids := Items(Get(ObjectOrNothing(Get(json, "result")), "hostids"));
        var answered := if ids == [] then None else ReadId(ids[0]);
        Done(log, Result(request, api.success, OrElse(answered, own), api.errorCode, true))
  }

  function ReadId(value: Json): Option<string> {
    match value
    case Str(text) => Some(text)
    case Num(raw) => Some(raw)
    case _ => None
  }

  // ---------------------------------------------------------------- reading host.get answers

  function ReadTemplateIds(host: Json): seq<string> {
    if Get(host, "parentTemplates").Arr? then TemplateMerge.TemplateIds(Get(host, "parentTemplates").items)
    else if Get(host, "templates").Arr? then TemplateMerge.TemplateIds(Get(host, "templates").items)
    else []
  }

  function ReadInterfaces(items: seq<Json>): seq<HostUpdate.Interface> {
    var objects := Objects(items);
    seq(|objects|, i requires 0 <= i < |objects| => HostUpdate.ReadInterface(objects[i]))
  }

  function ReadHostInfo(host: Json): HostUpdate.HostInfo {
    HostUpdate.HostInfo(
      hostId := TextOf(ReadString(host, "hostid")), host := ReadString(host, "host"), name := ReadString(host, "name"),
      interfaces := ReadInterfaces(Items(Get(host, "interfaces"))),
      templateIds := ReadTemplateIds(host),
      groups := ObjectArray(host, "groups"), tags := ObjectArray(host, "tags"), macros := ObjectArray(host, "macros"),
      inventory := ObjectOrNothing(Get(host, "inventory")))
  }

  function ReadHostInfos(hosts: seq<Json>): seq<HostUpdate.HostInfo> {
    if hosts == [] then []
    else
      (if Missing(ReadString(hosts[0], "hostid")) then [] else [ReadHostInfo(hosts[0])]) + ReadHostInfos(hosts[1..])
  }

  /** The host records of an answer; Raises when the body cannot be read. */
  function ReadHostLookupInfos(body: Body): Answer<seq<HostUpdate.HostInfo>> {
    match body
    case NoBody => Returns([])
    case BadJson => Raises
    case Parsed(json) => if json.Obj? then Returns(ReadHostInfos(Items(Get(json, "result")))) else Raises
  }

  // ---------------------------------------------------------------- protected hosts

  predicate ProtectedName(config: Config, host: Option<string>, name: Option<string>) {
    exists p :: p in config.protectedHostNames && !Blank(p) && (SameScalar(host, Some(p)) || SameScalar(name, Some(p)))
  }

  predicate ProtectedTagged(config: Config, tags: seq<Json>) {
    exists t, p :: t in tags && p in config.protectedHostTags
      && !Missing(ReadString(t, "tag")) && !Blank(p.tag) && SameScalar(ReadString(t, "tag"), Some(p.tag))
      && (Blank(p.value) || SameScalar(ReadString(t, "value"), Some(p.value)))
  }

  predicate Violation(config: Config, host: Option<string>, name: Option<string>, tags: seq<Json>) {
    config.protectManagedAggregateHosts && (ProtectedName(config, host, name) || ProtectedTagged(config, tags))
  }

  predicate ProtectedHost(config: Config, info: HostUpdate.HostInfo) {
    Violation(config, info.host, info.name, info.tags)
  }

  predicate MarkedPayload(config: Config, request: Request) {
    && IsHostWrite(request) && request.params.Obj?
    && Violation(config, ReadString(request.params, "host"), ReadString(request.params, "name"),
                 ObjectArray(request.params, "tags"))
  }

  function ScalarsOf(items: seq<Json>): seq<Option<string>> {
    seq(|items|, i requires 0 <= i < |items| => ReadScalar(items[i]))
  }

  /** The ids a host.update or host.delete acts on. */
  function MutationHostIds(request: Request): seq<string> {
    if IsMethod(request, "host.update") && request.params.Obj? then NonBlank([ReadString(request.params, "hostid")])
    else if IsMethod(request, "host.delete") && request.params.Arr? then NonBlank(ScalarsOf(request.params.items))
    else []
  }

  function StringArray(values: seq<string>): Json {
    Arr(seq(|values|, i requires 0 <= i < |values| => Str(values[i])))
  }

  const SELECTED_HOST_PARTS := [
    Prop("selectInterfaces", StringArray(["interfaceid", "type", "main", "useip", "ip", "dns", "port"])),
    Prop("selectGroups", StringArray(["groupid", "name"])),
    Prop("selectParentTemplates", StringArray(["templateid"])),
    Prop("selectTags", StringArray(["tag", "value"])),
    Prop("selectMacros", StringArray(["hostmacroid", "macro", "value", "description", "type"])),
    Prop("selectInventory", Str("extend"))]

  function HostGetParams(hostIds: seq<string>): Json {
    Obj([Prop("output", StringArray(["hostid", "host", "name"])), Prop("hostids", StringArray(hostIds))]
        + SELECTED_HOST_PARTS)
  }

  function HostGetByIds(request: Request, hostIds: seq<string>): Request {
    Derived(request, None, "host.get", HostGetParams(hostIds))
  }

  // ---------------------------------------------------------------- one attempt

  predicate IsFallbackFor(request: Request, rpcMethod: string) {
    IsMethod(request, "host.get") && Fold(TextOf(request.fallbackForMethod)) == rpcMethod
  }

  predicate IsMergeableUpdate(request: Request) {
    && IsMethod(request, "host.update") && request.params.Obj?
    && (Get(request.params, "groups").Arr? || Get(request.params, "templates").Arr?
        || Get(request.params, "templates_clear").Arr?
        || Get(request.params, "tags").Arr? || Get(request.params, "macros").Arr?
           || Get(request.params, "inventory").Obj?)
  }

  /** Resolves groups, validates, refuses a marked payload and sends a derived host.create or host.update. */
  function SendHostWrite(config: Config, oracle: Oracle, log: seq<Event>, derived: Request): Run<Result> {
    var (log, request) :- HostGroupResolver.Resolve(config.zabbix.allowDynamicHostGroupCreate, oracle, log, derived);
    var (log, errors) :- RequestValidator.Validate(config.zabbix, oracle, log, request);
    if errors != [] then Done(log, FromValidationError(request, errors[0]))
    else if MarkedPayload(config, request) then Done(log, FromValidationError(request, "protected_aggregate_host"))
    else
      var (log, api) :- Execute(oracle, log, request);
      FromApiResult(log, request, api)
  }

  function ProcessDeleteFallback(
    config: Config, oracle: Oracle, log: seq<Event>, lookup: Request, found: ApiResult): Run<Result> {
    if !found.success then FromApiResult(log, lookup, found)
    else
      match ReadHostLookupInfos(found.body)
      case Raises => Thrown(log)
      case Returns(infos) =>
        if infos == [] then Done(log, FromValidationError(lookup, "host_not_found"))
        else
          var delete := Derived(lookup, None, "host.delete", Arr([Str(infos[0].hostId)]));
          var (log, errors) :- RequestValidator.Validate(config.zabbix, oracle, log, delete);
          if errors != [] then Done(log, FromValidationError(delete, errors[0]))
          else if ProtectedHost(config, infos[0]) then
            Done(log, FromValidationError(delete, "protected_aggregate_host"))
          else
            var (log, api) :- Execute(oracle, log, delete);
            FromApiResult(log, delete, api)
  }

  function ProcessUpdateFallback(
    config: Config, oracle: Oracle, log: seq<Event>, lookup: Request, found: ApiResult): Run<Result> {
    if !found.success then FromApiResult(log, lookup, found)
    else
      match ReadHostLookupInfos(found.body)
      case Raises => Thrown(log)
      case Returns(infos) =>
        if infos == [] then
          if !lookup.createOnUpdateWhenMissing then Done(log, FromValidationError(lookup, "host_not_found"))
          else if !lookup.fallbackCreateParams.Obj? then
            Done(log, FromValidationError(lookup, "missing_create_payload"))
          else SendHostWrite(config, oracle, log,
                             Derived(lookup, Some("createOnUpdateWhenMissing"), "host.create",
                                     lookup.fallbackCreateParams))
        else if !lookup.fallbackUpdateParams.Obj? then Done(log, FromValidationError(lookup, "missing_update_payload"))
        else if ProtectedHost(config, infos[0]) then Done(log, FromValidationError(lookup, "protected_aggregate_host"))
        else SendHostWrite(config, oracle, log,
                           Derived(lookup, None, "host.update",
                                   HostUpdate.UpdateParams(lookup.fallbackUpdateParams, infos[0])))
  }

  function ProcessDirectUpdate(config: Config, oracle: Oracle, log: seq<Event>, update: Request): Run<Result>
    requires update.params.Obj?
  {
    var hostId := ReadString(update.params, "hostid");
    if Missing(hostId) then Done(log, FromValidationError(update, "missing_hostid"))
    else
      var lookup := HostGetByIds(update, [hostId.value]);
      var (log, errors) :- RequestValidator.Validate(config.zabbix, oracle, log, lookup);
      if errors != [] then Done(log, FromValidationError(lookup, errors[0]))
      else
        var (log, found) :- Execute(oracle, log, lookup);
        if !found.success then FromApiResult(log, lookup, found)
        else
          match ReadHostLookupInfos(found.body)
          case Raises => Thrown(log)
          case Returns(infos) =>
            if infos == [] then Done(log, FromValidationError(update, "host_not_found"))
            else if ProtectedHost(config, infos[0]) then
              Done(log, FromValidationError(update, "protected_aggregate_host"))
            else SendHostWrite(config, oracle, log,
                               Derived(update, None, "host.update", HostUpdate.UpdateParams(update.params, infos[0])))
  }

  /** Looks up the targets of a host.update or host.delete; a result means the request is refused. */
  function CheckMutationTargets(
    config: Config, oracle: Oracle, log: seq<Event>, request: Request): Run<Option<Result>> {
    var hostIds := Distinct(MutationHostIds(request));
    if !config.protectManagedAggregateHosts || hostIds == [] then Done(log, None)
    else
      var lookup := HostGetByIds(request, hostIds);
      var (log, errors) :- RequestValidator.Validate(config.zabbix, oracle, log, lookup);
      if errors != [] then Done(log, Some(FromValidationError(lookup, errors[0])))
      else
        var (log, found) :- Execute(oracle, log, lookup);
        if !found.success then
          var (log, result) :- FromApiResult(log, lookup, found);
          Done(log, Some(result))
        else
          match ReadHostLookupInfos(found.body)
          case Raises => Thrown(log)
          case Returns(infos) =>
            Done(log, if exists info :: info in infos && ProtectedHost(config, info)
                      then Some(FromValidationError(request, "protected_aggregate_host")) else None)
  }

  function ProcessRequest(config: Config, oracle: Oracle, received: Request): Run<Result> {
    var (log, request) :- HostGroupResolver.Resolve(config.zabbix.allowDynamicHostGroupCreate, oracle, [], received);
    var (log, errors) :- RequestValidator.Validate(config.zabbix, oracle, log, request);
    if errors != [] then Done(log, FromValidationError(request, errors[0]))
    else if MarkedPayload(config, request) then Done(log, FromValidationError(request, "protected_aggregate_host"))
    else if IsMergeableUpdate(request) then ProcessDirectUpdate(config, oracle, log, request)
    else
      var (log, refused) :- CheckMutationTargets(config, oracle, log, request);
      if refused.Some? then Done(log, refused.value)
      else
        var (log, api) :- Execute(oracle, log, request);
        if IsFallbackFor(request, "host.delete") then ProcessDeleteFallback(config, oracle, log, request, api)
        else if IsFallbackFor(request, "host.update") then ProcessUpdateFallback(config, oracle, log, request, api)
        else FromApiResult(log, request, api)
  }

  // ---------------------------------------------------------------- retries

  function MaxAttempts(config: Config): nat {
    if config.maxRetryAttempts < 1 then 1 else config.maxRetryAttempts
  }

  /** The world decides anew in every attempt. */
  type World = nat -> Oracle

  /** The logs of the attempts from the given one on, and the result of the last. */
  function Attempts(config: Config, world: World, request: Request, attempt: nat): (seq<seq<Event>>, Result)
    requires attempt < MaxAttempts(config)
    decreases MaxAttempts(config) - attempt
  {
    var run := ProcessRequest(config, world(attempt), request);
    if run.Done? then ([run.log], run.value)
    else if attempt + 1 == MaxAttempts(config) then ([run.log], FromException(request))
    else
      var (logs, result) := Attempts(config, world, request, attempt + 1);
      ([run.log] + logs, result)
  }

  method ProcessRequestWithRetry(config: Config, world: World, request: Request)
      returns (logs: seq<seq<Event>>, result: Result)
    ensures (logs, result) == Attempts(config, world, request, 0)
  {
    hide ProcessRequest;
    logs := [];
    var attempt := 0;
    ghost var whole := Attempts(config, world, request, 0);
    assert [] + whole.0 == whole.0;
    while attempt < MaxAttempts(config)
      invariant attempt < MaxAttempts(config)
      invariant whole == (logs + Attempts(config, world, request, attempt).0,
                          Attempts(config, world, request, attempt).1)
      decreases MaxAttempts(config) - attempt
    {
      var run := ProcessRequest(config, world(attempt), request);
      if run.Done? {
        return logs + [run.log], run.value;
      }
      if attempt + 1 == MaxAttempts(config) {
        return logs + [run.log], FromException(request);
      }
      ghost var rest := Attempts(config, world, request, attempt + 1).0;
      assert logs + ([run.log] + rest) == logs + [run.log] + rest;
      logs := logs + [run.log];
      attempt := attempt + 1;
    }
  }
}
