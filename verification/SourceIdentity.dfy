/** The source identity of a request survives every request derived from it, but for a blank card id. */
module SourceIdentity {
  import opened Text
  import JsonModel
  import opened ZabbixRequest
  import opened ZabbixApi
  import RequestValidator
  import HostUpdate
  import HostGroupResolver
  import opened RequestWorker

  /** The result is about what the request names, possibly with the entity id in place of a blank card id. */
  ghost predicate SameSource(run: Run<Result>, request: Request) {
    run.Done? ==> IsSource(IdentityOf(run.value.request), request)
  }

  predicate IsSource(identity: Identity, request: Request) {
    identity == IdentityOf(request) || identity == CarriedIdentity(request)
  }

  lemma FromApiResultSource(log: seq<Event>, request: Request, api: ApiResult)
    ensures SameSource(FromApiResult(log, request, api), request)
  {
  }

  lemma DerivedSource(request: Request, fallbackSource: Option<string>, rpcMethod: string, params: JsonModel.Json)
    ensures var derived := Derived(request, fallbackSource, rpcMethod, params);
            && IdentityOf(derived) == CarriedIdentity(request) && CarriedIdentity(derived) == CarriedIdentity(request)
            && HostGroupResolver.Consistent(derived)
  {
    DerivedIdentity(request, fallbackSource, rpcMethod, params);
    DerivedShape(request, fallbackSource, rpcMethod, params);
  }

  lemma SameCarried(before: Request, after: Request)
    requires IdentityOf(after) == IdentityOf(before)
    requires after.sourceCardId == before.sourceCardId && after.entityId == before.entityId
    ensures CarriedIdentity(after) == CarriedIdentity(before)
  {
    hide Visible, IdentityOf;
  }

  lemma SendHostWriteSource(config: Config, oracle: Oracle, log: seq<Event>, derived: Request)
    requires HostGroupResolver.Consistent(derived)
    ensures SameSource(SendHostWrite(config, oracle, log, derived), derived)
  {
    hide HostGroupResolver.Resolve, RequestValidator.Validate, MarkedPayload, FromApiResult, IdentityOf;
    hide CarriedIdentity, HostGroupResolver.Consistent;
    var resolved := HostGroupResolver.Resolve(config.zabbix.allowDynamicHostGroupCreate, oracle, log, derived);
    HostGroupResolver.ResolveKeeps(config.zabbix.allowDynamicHostGroupCreate, oracle, log, derived);
    if resolved.Done? {
      SameCarried(derived, resolved.value);
      var validated := RequestValidator.Validate(config.zabbix, oracle, resolved.log, resolved.value);
      if validated.Done? && validated.value == [] {
        var answer := oracle(|validated.log|).exec;
        if answer.Returns? {
          FromApiResultSource(validated.log + [Exec(resolved.value, answer)], resolved.value, answer.value);
        }
      }
    }
  }

  lemma ProcessDeleteFallbackSource(config: Config, oracle: Oracle, log: seq<Event>, lookup: Request, found: ApiResult)
    ensures SameSource(ProcessDeleteFallback(config, oracle, log, lookup, found), lookup)
  {
    hide RequestValidator.Validate, FromApiResult, IdentityOf, CarriedIdentity, Derived, ReadHostLookupInfos;
    hide ProtectedHost;
    hide HostGroupResolver.Consistent;
    FromApiResultSource(log, lookup, found);
    var infos := ReadHostLookupInfos(found.body);
    if found.success && infos.Returns? && infos.value != [] {
      var delete := Derived(lookup, None, "host.delete", JsonModel.Arr([JsonModel.Str(infos.value[0].hostId)]));
      DerivedSource(lookup, None, "host.delete", JsonModel.Arr([JsonModel.Str(infos.value[0].hostId)]));
      var validated := RequestValidator.Validate(config.zabbix, oracle, log, delete);
      var answer := oracle(|validated.log|).exec;
      if answer.Returns? {
        FromApiResultSource(validated.log + [Exec(delete, answer)], delete, answer.value);
      }
    }
  }

  lemma ProcessUpdateFallbackSource(config: Config, oracle: Oracle, log: seq<Event>, lookup: Request, found: ApiResult)
    ensures SameSource(ProcessUpdateFallback(config, oracle, log, lookup, found), lookup)
  {
    hide SendHostWrite, FromApiResult, IdentityOf, CarriedIdentity, Derived, ReadHostLookupInfos, ProtectedHost;
    hide HostUpdate.UpdateParams, HostGroupResolver.Consistent;
    FromApiResultSource(log, lookup, found);
    var infos := ReadHostLookupInfos(found.body);
    if found.success && infos.Returns? {
      if infos.value == [] {
        DerivedSource(lookup, Some("createOnUpdateWhenMissing"), "host.create", lookup.fallbackCreateParams);
        SendHostWriteSource(config, oracle, log,
                            Derived(lookup, Some("createOnUpdateWhenMissing"), "host.create",
                                    lookup.fallbackCreateParams));
      } else if lookup.fallbackUpdateParams.Obj? {
        var params := HostUpdate.UpdateParams(lookup.fallbackUpdateParams, infos.value[0]);
        DerivedSource(lookup, None, "host.update", params);
        SendHostWriteSource(config, oracle, log, Derived(lookup, None, "host.update", params));
      }
    }
  }

  lemma ProcessDirectUpdateSource(config: Config, oracle: Oracle, log: seq<Event>, update: Request)
    requires update.params.Obj?
    ensures SameSource(ProcessDirectUpdate(config, oracle, log, update), update)
  {
    hide SendHostWrite, FromApiResult, IdentityOf, CarriedIdentity, Derived, ReadHostLookupInfos, ProtectedHost;
    hide HostUpdate.UpdateParams, RequestValidator.Validate, HostGetParams;
    hide HostGroupResolver.Consistent;
    var hostId := JsonModel.ReadString(update.params, "hostid");
    if !Missing(hostId) {
      var lookup := HostGetByIds(update, [hostId.value]);
      DerivedSource(update, None, "host.get", HostGetParams([hostId.value]));
      var validated := RequestValidator.Validate(config.zabbix, oracle, log, lookup);
      var answer := oracle(|validated.log|).exec;
      var after := validated.log + [Exec(lookup, answer)];
      if validated.Done? && validated.value == [] && answer.Returns? {
        FromApiResultSource(after, lookup, answer.value);
        var infos := ReadHostLookupInfos(answer.value.body);
        if infos.Returns? && infos.value != [] {
          var params := HostUpdate.UpdateParams(update.params, infos.value[0]);
          DerivedSource(update, None, "host.update", params);
          SendHostWriteSource(config, oracle, after, Derived(update, None, "host.update", params));
        }
      }
    }
  }

  lemma CheckMutationTargetsSource(config: Config, oracle: Oracle, log: seq<Event>, request: Request)
    ensures var run := CheckMutationTargets(config, oracle, log, request);
            run.Done? && run.value.Some? ==> IsSource(IdentityOf(run.value.value.request), request)
  {
    hide FromApiResult, IdentityOf, CarriedIdentity, Derived, ReadHostLookupInfos, ProtectedHost;
    hide RequestValidator.Validate;
    hide HostGetParams, MutationHostIds, Distinct;
    hide HostGroupResolver.Consistent;
    var hostIds := Distinct(MutationHostIds(request));
    var lookup := HostGetByIds(request, hostIds);
    DerivedSource(request, None, "host.get", HostGetParams(hostIds));
    var validated := RequestValidator.Validate(config.zabbix, oracle, log, lookup);
    var answer := oracle(|validated.log|).exec;
    if answer.Returns? {
      FromApiResultSource(validated.log + [Exec(lookup, answer)], lookup, answer.value);
    }
  }

  /** The result of an attempt carries the source identity of the request that was received; only a blank card id can
      have given way to the entity id. */
  lemma ResultSource(config: Config, oracle: Oracle, received: Request)
    requires HostGroupResolver.Consistent(received)
    ensures SameSource(ProcessRequest(config, oracle, received), received)
  {
    hide HostGroupResolver.Resolve, RequestValidator.Validate, CheckMutationTargets, ProcessDirectUpdate;
    hide ProcessDeleteFallback, ProcessUpdateFallback;
    hide FromApiResult, MarkedPayload, IdentityOf, CarriedIdentity, HostGroupResolver.Consistent, IsMergeableUpdate;
    hide IsFallbackFor;
    var resolved := HostGroupResolver.Resolve(config.zabbix.allowDynamicHostGroupCreate, oracle, [], received);
    HostGroupResolver.ResolveKeeps(config.zabbix.allowDynamicHostGroupCreate, oracle, [], received);
    if resolved.Done? {
      var request := resolved.value;
      SameCarried(received, request);
      var validated := RequestValidator.Validate(config.zabbix, oracle, resolved.log, request);
      if validated.Done? && validated.value == [] && !MarkedPayload(config, request) {
        if IsMergeableUpdate(request) {
          assert request.params.Obj? by { MergeableIsObject(request); }
          ProcessDirectUpdateSource(config, oracle, validated.log, request);
        } else {
          CheckMutationTargetsSource(config, oracle, validated.log, request);
          var checked := CheckMutationTargets(config, oracle, validated.log, request);
          var answer := oracle(|checked.log|).exec;
          var after := checked.log + [Exec(request, answer)];
          if answer.Returns? {
            FromApiResultSource(after, request, answer.value);
            ProcessDeleteFallbackSource(config, oracle, after, request, answer.value);
            ProcessUpdateFallbackSource(config, oracle, after, request, answer.value);
          }
        }
      }
    }
  }

  lemma MergeableIsObject(request: Request)
    ensures IsMergeableUpdate(request) ==> request.params.Obj?
  {
  }

  /** So does the result that is published after the retries. */
  lemma PublishedSource(config: Config, world: World, request: Request, attempt: nat)
    requires HostGroupResolver.Consistent(request) && attempt < MaxAttempts(config)
    ensures IsSource(IdentityOf(Attempts(config, world, request, attempt).1.request), request)
    decreases MaxAttempts(config) - attempt
  {
    hide ProcessRequest, IdentityOf, CarriedIdentity, HostGroupResolver.Consistent;
    ResultSource(config, world(attempt), request);
    if ProcessRequest(config, world(attempt), request).Thrown? && attempt + 1 < MaxAttempts(config) {
      PublishedSource(config, world, request, attempt + 1);
    }
  }
}
