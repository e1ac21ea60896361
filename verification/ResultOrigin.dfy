/** What a published result says about what was sent. */
module ResultOrigin {
  import opened Text
  import JsonModel
  import opened ZabbixRequest
  import opened ZabbixApi
  import RequestValidator
  import HostUpdate
  import HostGroupResolver
  import opened RequestWorker
  import opened ProtectedHostGuard
  import BindingPublisher
  import SourceIdentity

  /** A result that says the request was sent is what Zabbix answered to that very request in the last call; one that
      says it was not reports no success, and no host was written. */
  ghost predicate Origin(log: seq<Event>, result: Result) {
    if result.zabbixRequestSent then
      && log != [] && log[|log| - 1].Exec? && log[|log| - 1].request == result.request
      && log[|log| - 1].answer.Returns? && log[|log| - 1].answer.value.success == result.success
      && FromApiResult(log, result.request, log[|log| - 1].answer.value) == Done(log, result)
    else
      !result.success && result.zabbixHostId == None && NoMutation(log)
  }

  ghost predicate HasOrigin(run: Run<Result>) {
    run.Done? ==> Origin(run.log, run.value)
  }

  lemma SentOrigin(log: seq<Event>, request: Request, api: ApiResult)
    requires log != [] && log[|log| - 1] == Exec(request, Returns(api))
    ensures HasOrigin(FromApiResult(log, request, api))
  {
    hide ReadId, JsonModel.Items, ObjectOrNothing, JsonModel.Get;
  }

  lemma RefusedOrigin(log: seq<Event>, request: Request, errorCode: string)
    requires NoMutation(log)
    ensures HasOrigin(Done(log, FromValidationError(request, errorCode)))
  {
    hide NoMutation;
  }

  lemma SendHostWriteOrigin(config: Config, oracle: Oracle, log: seq<Event>, derived: Request)
    requires NoMutation(log) && HostGroupResolver.Consistent(derived)
    ensures HasOrigin(SendHostWrite(config, oracle, log, derived))
  {
    hide HostGroupResolver.Resolve, RequestValidator.Validate, MarkedPayload, FromApiResult;
    hide HostGroupResolver.Consistent, HasOrigin, NoMutation, Quiet;
    var resolved := HostGroupResolver.Resolve(config.zabbix.allowDynamicHostGroupCreate, oracle, log, derived);
    HostGroupResolver.ResolveKeeps(config.zabbix.allowDynamicHostGroupCreate, oracle, log, derived);
    QuietKeepsNoMutation(log, resolved.log);
    if resolved.Done? {
      var request := resolved.value;
      var validated := RequestValidator.Validate(config.zabbix, oracle, resolved.log, request);
      ValidateLog(config.zabbix, oracle, resolved.log, request);
      QuietKeepsNoMutation(resolved.log, validated.log);
      if validated.Done? {
        if validated.value != [] {
          RefusedOrigin(validated.log, request, validated.value[0]);
        } else {
          RefusedOrigin(validated.log, request, "protected_aggregate_host");
          var answer := oracle(|validated.log|).exec;
          if answer.Returns? {
            SentOrigin(validated.log + [Exec(request, answer)], request, answer.value);
          }
        }
      }
    }
    ThrownOrigin(SendHostWrite(config, oracle, log, derived));
  }

  lemma ThrownOrigin(run: Run<Result>)
    ensures run.Thrown? ==> HasOrigin(run)
  {
  }

  lemma ProcessDeleteFallbackOrigin(config: Config, oracle: Oracle, log: seq<Event>, lookup: Request, found: ApiResult)
    requires NoMutation(log) && log != [] && log[|log| - 1] == Exec(lookup, Returns(found))
    ensures HasOrigin(ProcessDeleteFallback(config, oracle, log, lookup, found))
  {
    hide RequestValidator.Validate, FromApiResult, Derived, ReadHostLookupInfos, ProtectedHost, HasOrigin, NoMutation;
    hide Quiet;
    SentOrigin(log, lookup, found);
    RefusedOrigin(log, lookup, "host_not_found");
    var infos := ReadHostLookupInfos(found.body);
    if found.success && infos.Returns? && infos.value != [] {
      var delete := Derived(lookup, None, "host.delete", JsonModel.Arr([JsonModel.Str(infos.value[0].hostId)]));
      var validated := RequestValidator.Validate(config.zabbix, oracle, log, delete);
      ValidateLog(config.zabbix, oracle, log, delete);
      QuietKeepsNoMutation(log, validated.log);
      if validated.Done? {
        RefusedOrigin(validated.log, delete, "protected_aggregate_host");
        if validated.value != [] {
          RefusedOrigin(validated.log, delete, validated.value[0]);
        }
        var answer := oracle(|validated.log|).exec;
        if answer.Returns? {
          SentOrigin(validated.log + [Exec(delete, answer)], delete, answer.value);
        }
      }
    }
    ThrownOrigin(ProcessDeleteFallback(config, oracle, log, lookup, found));
  }

  lemma ProcessUpdateFallbackOrigin(config: Config, oracle: Oracle, log: seq<Event>, lookup: Request, found: ApiResult)
    requires NoMutation(log) && log != [] && log[|log| - 1] == Exec(lookup, Returns(found))
    ensures HasOrigin(ProcessUpdateFallback(config, oracle, log, lookup, found))
  {
    hide SendHostWrite, FromApiResult, Derived, ReadHostLookupInfos, ProtectedHost, HostUpdate.UpdateParams, HasOrigin;
    hide NoMutation;
    hide HostGroupResolver.Consistent;
    SentOrigin(log, lookup, found);
    RefusedOrigin(log, lookup, "host_not_found");
    RefusedOrigin(log, lookup, "missing_create_payload");
    RefusedOrigin(log, lookup, "missing_update_payload");
    RefusedOrigin(log, lookup, "protected_aggregate_host");
    var infos := ReadHostLookupInfos(found.body);
    if found.success && infos.Returns? {
      if infos.value == [] {
        DerivedIsConsistent(lookup, Some("createOnUpdateWhenMissing"), "host.create", lookup.fallbackCreateParams);
        SendHostWriteOrigin(config, oracle, log,
                            Derived(lookup, Some("createOnUpdateWhenMissing"), "host.create",
                                    lookup.fallbackCreateParams));
      } else {
        if lookup.fallbackUpdateParams.Obj? {
          var params := HostUpdate.UpdateParams(lookup.fallbackUpdateParams, infos.value[0]);
          DerivedIsConsistent(lookup, None, "host.update", params);
          SendHostWriteOrigin(config, oracle, log, Derived(lookup, None, "host.update", params));
        }
      }
    }
    ThrownOrigin(ProcessUpdateFallback(config, oracle, log, lookup, found));
  }

  lemma ProcessDirectUpdateOrigin(config: Config, oracle: Oracle, log: seq<Event>, update: Request)
    requires NoMutation(log) && update.params.Obj?
    ensures HasOrigin(ProcessDirectUpdate(config, oracle, log, update))
  {
    hide SendHostWrite, FromApiResult, Derived, ReadHostLookupInfos, ProtectedHost, HostUpdate.UpdateParams;
    hide RequestValidator.Validate;
    hide HostGetByIds, HasOrigin, Quiet;
    hide HostGroupResolver.Consistent, IsHostMutation;
    var hostId := JsonModel.ReadString(update.params, "hostid");
    RefusedOrigin(log, update, "missing_hostid");
    if !Missing(hostId) {
      var lookup := HostGetByIds(update, [hostId.value]);
      HostGetShape(update, [hostId.value]);
      var validated := RequestValidator.Validate(config.zabbix, oracle, log, lookup);
      ValidateLog(config.zabbix, oracle, log, lookup);
      QuietKeepsNoMutation(log, validated.log);
      if validated.Done? {
        if validated.value != [] {
          RefusedOrigin(validated.log, lookup, validated.value[0]);
        } else {
          var answer := oracle(|validated.log|).exec;
          var after := validated.log + [Exec(lookup, answer)];
          assert NoMutation(after);
          RefusedOrigin(after, update, "host_not_found");
          RefusedOrigin(after, update, "protected_aggregate_host");
          if answer.Returns? {
            SentOrigin(after, lookup, answer.value);
            var infos := ReadHostLookupInfos(answer.value.body);
            if infos.Returns? && infos.value != [] {
              var params := HostUpdate.UpdateParams(update.params, infos.value[0]);
              DerivedIsConsistent(update, None, "host.update", params);
              SendHostWriteOrigin(config, oracle, after, Derived(update, None, "host.update", params));
            }
          }
        }
      }
    }
    ThrownOrigin(ProcessDirectUpdate(config, oracle, log, update));
  }

  lemma CheckMutationTargetsOrigin(config: Config, oracle: Oracle, log: seq<Event>, request: Request)
    requires NoMutation(log)
    ensures var run := CheckMutationTargets(config, oracle, log, request);
            run.Done? && run.value.Some? ==> HasOrigin(Done(run.log, run.value.value))
  {
    hide FromApiResult, Derived, ReadHostLookupInfos, ProtectedHost, RequestValidator.Validate, HostGetByIds;
    hide MutationHostIds, Distinct;
    hide HasOrigin, Quiet;
    hide IsHostMutation;
    var hostIds := Distinct(MutationHostIds(request));
    var lookup := HostGetByIds(request, hostIds);
    HostGetShape(request, hostIds);
    var validated := RequestValidator.Validate(config.zabbix, oracle, log, lookup);
    ValidateLog(config.zabbix, oracle, log, lookup);
    QuietKeepsNoMutation(log, validated.log);
    if validated.Done? {
      if validated.value != [] {
        RefusedOrigin(validated.log, lookup, validated.value[0]);
      } else {
        var answer := oracle(|validated.log|).exec;
        var after := validated.log + [Exec(lookup, answer)];
        assert NoMutation(after);
        RefusedOrigin(after, request, "protected_aggregate_host");
        if answer.Returns? {
          SentOrigin(after, lookup, answer.value);
          FromApiResultLog(after, lookup, answer.value);
        }
      }
    }
  }

  /** Every result of an attempt is Zabbix's answer to the last call, or a refusal without any host written. */
  lemma ResultHasOrigin(config: Config, oracle: Oracle, received: Request)
    requires HostGroupResolver.Consistent(received)
    ensures HasOrigin(ProcessRequest(config, oracle, received))
  {
    hide HostGroupResolver.Resolve, RequestValidator.Validate, CheckMutationTargets, ProcessDirectUpdate;
    hide ProcessDeleteFallback, ProcessUpdateFallback;
    hide FromApiResult, MarkedPayload, HostGroupResolver.Consistent, IsMergeableUpdate, HasOrigin, Quiet, NoMutation;
    var resolved := HostGroupResolver.Resolve(config.zabbix.allowDynamicHostGroupCreate, oracle, [], received);
    HostGroupResolver.ResolveKeeps(config.zabbix.allowDynamicHostGroupCreate, oracle, [], received);
    assert NoMutation([]) by { NothingSent(); }
    QuietKeepsNoMutation([], resolved.log);
    if resolved.Done? {
      var request := resolved.value;
      var validated := RequestValidator.Validate(config.zabbix, oracle, resolved.log, request);
      ValidateLog(config.zabbix, oracle, resolved.log, request);
      QuietKeepsNoMutation(resolved.log, validated.log);
      if validated.Done? {
        RefusedOrigin(validated.log, request, "protected_aggregate_host");
        if validated.value != [] {
          RefusedOrigin(validated.log, request, validated.value[0]);
        } else if IsMergeableUpdate(request) {
          SourceIdentity.MergeableIsObject(request);
          ProcessDirectUpdateOrigin(config, oracle, validated.log, request);
        } else {
          SentRequestOrigin(config, oracle, validated.log, request);
        }
      }
    }
    ThrownOrigin(ProcessRequest(config, oracle, received));
  }

  lemma NothingSent()
    ensures NoMutation([])
  {
  }

  lemma SentRequestOrigin(config: Config, oracle: Oracle, log: seq<Event>, request: Request)
    requires NoMutation(log)
    ensures var checked := CheckMutationTargets(config, oracle, log, request);
            var answer := oracle(|checked.log|).exec;
            var after := checked.log + [Exec(request, answer)];
            && (checked.Done? && checked.value.Some? ==> HasOrigin(Done(checked.log, checked.value.value)))
            && (checked.Done? && checked.value.None? && answer.Returns? ==>
                  && HasOrigin(FromApiResult(after, request, answer.value))
                  && (IsFallbackFor(request, "host.delete") ==>
                        HasOrigin(ProcessDeleteFallback(config, oracle, after, request, answer.value)))
                  && (IsFallbackFor(request, "host.update") ==>
                        HasOrigin(ProcessUpdateFallback(config, oracle, after, request, answer.value))))
  {
    hide CheckMutationTargets, ProcessDeleteFallback, ProcessUpdateFallback, FromApiResult, HasOrigin;
    CheckMutationTargetsOrigin(config, oracle, log, request);
    CheckMutationTargetsSafe(config, oracle, log, request);
    var checked := CheckMutationTargets(config, oracle, log, request);
    var answer := oracle(|checked.log|).exec;
    var after := checked.log + [Exec(request, answer)];
    if checked.Done? && checked.value.None? && answer.Returns? {
      SentOrigin(after, request, answer.value);
      if IsMethod(request, "host.get") {
        assert NoMutation(after);
        ProcessDeleteFallbackOrigin(config, oracle, after, request, answer.value);
        ProcessUpdateFallbackOrigin(config, oracle, after, request, answer.value);
      }
    }
  }

  /** A binding event is published only when the last call of the last attempt was a host write that Zabbix
      acknowledged, and the event is about that request with the host id of that answer. */
  lemma PublishedMeansAcknowledged(config: Config, world: World, request: Request, attempt: nat)
    requires HostGroupResolver.Consistent(request) && attempt < MaxAttempts(config)
    ensures var (logs, result) := Attempts(config, world, request, attempt);
            BindingPublisher.PublishedEvent(result).Some? ==> logs != [] && Acknowledged(logs[|logs| - 1], result)
    decreases MaxAttempts(config) - attempt
  {
    hide ProcessRequest, HostGroupResolver.Consistent, FromApiResult, IsHostWrite, IsMethod;
    ResultHasOrigin(config, world(attempt), request);
    if ProcessRequest(config, world(attempt), request).Thrown? && attempt + 1 < MaxAttempts(config) {
      PublishedMeansAcknowledged(config, world, request, attempt + 1);
      var rest := Attempts(config, world, request, attempt + 1).0;
      RetriesFollowExceptions(config, world, request, attempt + 1);
      assert ([ProcessRequest(config, world(attempt), request).log] + rest)[|rest|] == rest[|rest| - 1];
    }
  }

  /** The last call of the log is the result's own host write, answered with success. */
  ghost predicate Acknowledged(log: seq<Event>, result: Result) {
    && log != [] && MutationSent(log[|log| - 1]) && log[|log| - 1].request == result.request
    && log[|log| - 1].answer.Returns? && log[|log| - 1].answer.value.success
    && FromApiResult(log, result.request, log[|log| - 1].answer.value) == Done(log, result)
  }
}
