/** What the worker never sends, whatever Zabbix answers. */
module ProtectedHostGuard {
  import opened Text
  import opened JsonModel
  import opened ZabbixRequest
  import opened ZabbixApi
  import opened RequestValidator
  import opened HostUpdate
  import HostUpdateProofs
  import HostGroupResolver
  import opened RequestWorker

  predicate IsHostMutation(request: Request) {
    IsHostWrite(request) || IsMethod(request, "host.delete")
  }

  predicate MutationSent(event: Event) {
    event.Exec? && IsHostMutation(event.request)
  }

  ghost predicate NoMutation(log: seq<Event>) {
    forall i :: 0 <= i < |log| ==> !MutationSent(log[i])
  }

  predicate AskedFor(lookup: Request, hostId: string) {
    exists item :: item in Items(Get(lookup.params, "hostids")) && item.Str? && Same(item.text, hostId)
  }

  /** A successful host.get with an answer that can be read. */
  predicate FoundHosts(event: Event) {
    && event.Exec? && IsMethod(event.request, "host.get")
    && event.answer.Returns? && event.answer.value.success
    && ReadHostLookupInfos(event.answer.value.body).Returns?
  }

  function Records(event: Event): seq<HostInfo>
    requires FoundHosts(event)
  {
    ReadHostLookupInfos(event.answer.value.body).value
  }

  /** The lookup shows no protected record for the host, and was asked for the host where it shows none at all. */
  predicate ClearsHost(config: Config, event: Event, hostId: string) {
    && FoundHosts(event)
    && (forall info :: info in Records(event) && Same(info.hostId, hostId) ==> !ProtectedHost(config, info))
    && ((exists info :: info in Records(event) && Same(info.hostId, hostId)) || AskedFor(event.request, hostId))
  }

  /** The event clears every target of the mutation. */
  predicate ClearsTargets(config: Config, event: Event, request: Request) {
    forall id :: id in MutationHostIds(request) ==> ClearsHost(config, event, id)
  }

  predicate NoneProtected(config: Config, event: Event) {
    FoundHosts(event) && forall info :: info in Records(event) ==> !ProtectedHost(config, info)
  }

  /** The mutation has one target, the first record of the lookup, and this record is not protected. */
  predicate FirstIsTarget(config: Config, event: Event, request: Request) {
    && FoundHosts(event) && Records(event) != []
    && MutationHostIds(request) == [Records(event)[0].hostId] && !ProtectedHost(config, Records(event)[0])
  }

  /** What is checked before a mutation: the first record of its lookup only, or all of them. */
  predicate Guards(config: Config, event: Event, request: Request, firstOnly: bool) {
    if firstOnly then FirstIsTarget(config, event, request)
    else NoneProtected(config, event) && ClearsTargets(config, event, request)
  }

  /** Some later record of the lookup with the id of the first one is protected. */
  predicate LaterProtected(config: Config, event: Event)
    requires FoundHosts(event)
  {
    exists i :: 0 < i < |Records(event)| && Same(Records(event)[i].hostId, Records(event)[0].hostId)
                && ProtectedHost(config, Records(event)[i])
  }

  ghost predicate LastCall(log: seq<Event>, j: int) {
    0 <= j < |log| && log[j].Exec? && forall i :: j < i < |log| ==> !log[i].Exec?
  }

  /** The last call of the log is the lookup that guards the mutation. */
  ghost predicate Guarded(config: Config, log: seq<Event>, request: Request, firstOnly: bool) {
    exists j :: LastCall(log, j) && Guards(config, log[j], request, firstOnly)
  }

  /** Everything promised about the mutation at position k of an attempt. */
  ghost predicate SafeSend(config: Config, log: seq<Event>, k: nat, firstOnly: bool)
    requires k < |log| && log[k].Exec?
  {
    var request := log[k].request;
    && (forall j :: k < j < |log| ==> !log[j].Exec?)
    && (forall j :: 0 <= j < k ==> !MutationSent(log[j]))
    && (config.protectManagedAggregateHosts ==>
          && !MarkedPayload(config, request)
          && (!IsMethod(request, "host.create") ==>
                && MutationHostIds(request) != []
                && Guarded(config, log[..k], request, firstOnly)))
    && (IsHostWrite(request) && config.zabbix.validateTemplates && config.zabbix.validateTemplateCompatibility
        && IdsOf(request.params, "templates", "templateid") != [] ==>
          exists j :: 0 <= j < k && CompatibleTemplates(log[j], request.params))
  }

  ghost predicate SafeAttempt(config: Config, log: seq<Event>, firstOnly: bool) {
    forall k :: 0 <= k < |log| && MutationSent(log[k]) ==> SafeSend(config, log, k, firstOnly)
  }

  lemma QuietKeepsNoMutation(before: seq<Event>, log: seq<Event>)
    requires Quiet(before, log) && NoMutation(before)
    ensures NoMutation(log)
  {
  }

  lemma QuietKeepsGuarded(config: Config, before: seq<Event>, log: seq<Event>, request: Request, firstOnly: bool)
    requires Quiet(before, log) && Guarded(config, before, request, firstOnly)
    ensures Guarded(config, log, request, firstOnly)
  {
    hide Guards;
    var j :| LastCall(before, j) && Guards(config, before[j], request, firstOnly);
    assert log[j] == before[j] && LastCall(log, j);
  }

  lemma NoMutationIsSafe(config: Config, log: seq<Event>)
    requires NoMutation(log)
    ensures SafeAttempt(config, log, true) && SafeAttempt(config, log, false)
  {
  }

  lemma FromApiResultLog(log: seq<Event>, request: Request, api: ApiResult)
    ensures FromApiResult(log, request, api).log == log
  {
  }

  /** Sending one mutation after a log without any is safe under the checks the worker makes. */
  lemma SendIsSafe(config: Config, log: seq<Event>, request: Request, answer: Answer<ApiResult>, firstOnly: bool)
    requires NoMutation(log)
    requires config.protectManagedAggregateHosts ==> !MarkedPayload(config, request)
    requires config.protectManagedAggregateHosts && IsHostMutation(request) && !IsMethod(request, "host.create") ==>
               MutationHostIds(request) != [] && Guarded(config, log, request, firstOnly)
    requires IsHostWrite(request) && config.zabbix.validateTemplates && config.zabbix.validateTemplateCompatibility
             && IdsOf(request.params, "templates", "templateid") != [] ==>
               exists i :: 0 <= i < |log| && CompatibleTemplates(log[i], request.params)
    ensures SafeAttempt(config, log + [Exec(request, answer)], firstOnly)
  {
    hide MutationHostIds, IdsOf, MarkedPayload, Guarded, CompatibleTemplates;
    var after := log + [Exec(request, answer)];
    assert forall j :: 0 <= j < |log| ==> after[j] == log[j];
    forall k | 0 <= k < |after| && MutationSent(after[k])
      ensures SafeSend(config, after, k, firstOnly)
    {
      assert k == |log| && after[..k] == log;
    }
  }

  lemma ValidateLog(options: Options, oracle: Oracle, log: seq<Event>, request: Request)
    ensures Quiet(log, Validate(options, oracle, log, request).log)
  {
    ValidateIsQuiet(options, oracle, log, request);
  }

  lemma ValidHasNoShapeErrors(options: Options, oracle: Oracle, log: seq<Event>, request: Request)
    requires var run := Validate(options, oracle, log, request); run.Done? && run.value == []
    ensures ShapeErrors(options, request) == []
  {
    hide ShapeErrors, GroupShapeErrors, ValidateHostGroups, ValidateTemplates;
  }

  lemma AllPresent(items: seq<Json>)
    requires forall item :: item in items ==> !Missing(ReadScalar(item))
    ensures |NonBlank(ScalarsOf(items))| == |items|
  {
    if items != [] {
      assert ScalarsOf(items)[1..] == ScalarsOf(items[1..]);
      AllPresent(items[1..]);
    }
  }

  /** A valid host.update or host.delete names its targets, and a host.delete nothing else. */
  lemma ValidTargets(options: Options, request: Request)
    requires ShapeErrors(options, request) == []
    requires IsMethod(request, "host.update") || IsMethod(request, "host.delete")
    ensures MutationHostIds(request) != []
    ensures IsMethod(request, "host.update") ==> request.params.Obj?
    ensures IsMethod(request, "host.delete") ==>
              request.params.Arr? && |MutationHostIds(request)| == |request.params.items|
  {
    hide TagErrors, HostCreateErrors, HostGetErrors;
    if IsMethod(request, "host.update") {
      assert HostUpdateErrors(options, request.params) == [];
      var id := ReadString(request.params, "hostid");
      assert !Missing(id);
      assert NonBlank([id]) == [id.value] + NonBlank([id][1..]);
    } else {
      assert HostDeleteErrors(request.params) == [];
      AllPresent(request.params.items);
    }
  }

  // ---------------------------------------------------------------- the paths of an attempt

  /** A resolved and validated host write is sent safely when its target was cleared, or when it creates a host. */
  lemma SendValidatedSafe(config: Config, oracle: Oracle, log: seq<Event>, request: Request, firstOnly: bool)
    requires NoMutation(log) && IsHostWrite(request)
    requires var run := Validate(config.zabbix, oracle, log, request); run.Done? && run.value == []
    requires config.protectManagedAggregateHosts && !IsMethod(request, "host.create") ==>
               Guarded(config, log, request, firstOnly)
    requires !MarkedPayload(config, request)
    ensures var validated := Validate(config.zabbix, oracle, log, request).log;
            SafeAttempt(config, validated + [Exec(request, oracle(|validated|).exec)], firstOnly)
  {
    hide Validate, MarkedPayload, Guarded, CompatibleTemplates, IdsOf, ShapeErrors, SafeAttempt, MutationHostIds;
    var validated := Validate(config.zabbix, oracle, log, request);
    ValidateLog(config.zabbix, oracle, log, request);
    ValidHasNoShapeErrors(config.zabbix, oracle, log, request);
    if config.protectManagedAggregateHosts && !IsMethod(request, "host.create") {
      ValidTargets(config.zabbix, request);
      QuietKeepsGuarded(config, log, validated.log, request, firstOnly);
    }
    if config.zabbix.validateTemplates && config.zabbix.validateTemplateCompatibility
       && IdsOf(request.params, "templates", "templateid") != [] {
      ValidTemplates(config.zabbix, oracle, log, request);
    }
    SendIsSafe(config, validated.log, request, oracle(|validated.log|).exec, firstOnly);
  }

  lemma ResolvedStaysGuarded(
    config: Config, before: seq<Event>, log: seq<Event>, derived: Request, request: Request, firstOnly: bool)
    requires Quiet(before, log) && Guarded(config, before, derived, firstOnly)
    requires request.rpcMethod == derived.rpcMethod && (request.params.Obj? <==> derived.params.Obj?)
    requires !derived.params.Obj? ==> request.params == derived.params
    requires forall name :: Fold(name) != "groups" ==> Get(request.params, name) == Get(derived.params, name)
    ensures Guarded(config, log, request, firstOnly)
  {
    assert Fold("hostid") == "hostid";
    assert MutationHostIds(request) == MutationHostIds(derived);
    hide MutationHostIds, ClearsHost, FoundHosts, ProtectedHost;
    var j :| LastCall(before, j) && Guards(config, before[j], derived, firstOnly);
    assert Guards(config, before[j], request, firstOnly);
    assert Guarded(config, before, request, firstOnly);
    QuietKeepsGuarded(config, before, log, request, firstOnly);
  }

  /** A derived host write that is sent after its guarding lookup, or that creates a host. */
  lemma SendHostWriteSafe(config: Config, oracle: Oracle, log: seq<Event>, derived: Request, firstOnly: bool)
    requires NoMutation(log) && HostGroupResolver.Consistent(derived) && IsHostWrite(derived)
    requires config.protectManagedAggregateHosts && !IsMethod(derived, "host.create") ==>
               Guarded(config, log, derived, firstOnly)
    ensures SafeAttempt(config, SendHostWrite(config, oracle, log, derived).log, firstOnly)
  {
    hide HostGroupResolver.Resolve, Validate, MarkedPayload, Guarded, FromApiResult, SafeAttempt, MutationHostIds;
    hide Quiet;
    var resolved := HostGroupResolver.Resolve(config.zabbix.allowDynamicHostGroupCreate, oracle, log, derived);
    HostGroupResolver.ResolveKeeps(config.zabbix.allowDynamicHostGroupCreate, oracle, log, derived);
    QuietKeepsNoMutation(log, resolved.log);
    NoMutationIsSafe(config, resolved.log);
    if resolved.Done? {
      var request := resolved.value;
      var validated := Validate(config.zabbix, oracle, resolved.log, request);
      ValidateLog(config.zabbix, oracle, resolved.log, request);
      QuietKeepsNoMutation(resolved.log, validated.log);
      NoMutationIsSafe(config, validated.log);
      if validated.Done? && validated.value == [] && !MarkedPayload(config, request) {
        if config.protectManagedAggregateHosts && !IsMethod(request, "host.create") {
          ResolvedStaysGuarded(config, log, resolved.log, derived, request, firstOnly);
        }
        SendValidatedSafe(config, oracle, resolved.log, request, firstOnly);
        var answer := oracle(|validated.log|).exec;
        if answer.Returns? {
          FromApiResultLog(validated.log + [Exec(request, answer)], request, answer.value);
        }
      }
    }
  }

  lemma DerivedIsConsistent(request: Request, fallbackSource: Option<string>, rpcMethod: string, params: Json)
    ensures HostGroupResolver.Consistent(Derived(request, fallbackSource, rpcMethod, params))
  {
    DerivedShape(request, fallbackSource, rpcMethod, params);
  }

  lemma {:induction false} HostRecords(hosts: seq<Json>)
    ensures forall info :: info in ReadHostInfos(hosts) ==> !Blank(info.hostId)
  {
    if hosts != [] {
      HostRecords(hosts[1..]);
    }
  }

  /** The first record of the answer to the last call guards a mutation of its own host. */
  lemma FirstRecordGuards(config: Config, log: seq<Event>, infos: seq<HostInfo>, request: Request)
    requires log != [] && FoundHosts(log[|log| - 1]) && Records(log[|log| - 1]) == infos
    requires infos != [] && !ProtectedHost(config, infos[0]) && MutationHostIds(request) == [infos[0].hostId]
    ensures Guarded(config, log, request, true)
  {
    hide ReadHostLookupInfos, ProtectedHost, MutationHostIds;
    assert LastCall(log, |log| - 1);
  }

  lemma FirstIdNotBlank(body: Body, infos: seq<HostInfo>)
    requires ReadHostLookupInfos(body) == Returns(infos) && infos != []
    ensures !Blank(infos[0].hostId)
  {
    if body.Parsed? {
      HostRecords(Items(Get(body.json, "result")));
    }
  }

  lemma SendDeleteSafe(config: Config, oracle: Oracle, log: seq<Event>, delete: Request, infos: seq<HostInfo>)
    requires NoMutation(log) && log != [] && FoundHosts(log[|log| - 1]) && Records(log[|log| - 1]) == infos
    requires infos != [] && !ProtectedHost(config, infos[0]) && !Blank(infos[0].hostId)
    requires IsMethod(delete, "host.delete") && delete.params == Arr([Str(infos[0].hostId)])
    ensures var validated := Validate(config.zabbix, oracle, log, delete).log;
            SafeAttempt(config, validated + [Exec(delete, oracle(|validated|).exec)], true)
  {
    hide Validate, FoundHosts, ProtectedHost, MarkedPayload, SafeAttempt, MutationHostIds, Guarded;
    var validated := Validate(config.zabbix, oracle, log, delete).log;
    ValidateLog(config.zabbix, oracle, log, delete);
    QuietKeepsNoMutation(log, validated);
    DeleteTargets(delete, infos[0].hostId);
    FirstRecordGuards(config, log, infos, delete);
    QuietKeepsGuarded(config, log, validated, delete, true);
    NotAWrite(config, delete);
    SendIsSafe(config, validated, delete, oracle(|validated|).exec, true);
  }

  lemma ProcessDeleteFallbackSafe(config: Config, oracle: Oracle, log: seq<Event>, lookup: Request, found: ApiResult)
    requires NoMutation(log) && log != [] && log[|log| - 1] == Exec(lookup, Returns(found))
             && IsMethod(lookup, "host.get")
    ensures SafeAttempt(config, ProcessDeleteFallback(config, oracle, log, lookup, found).log, true)
  {
    hide Validate, ReadHostLookupInfos, ProtectedHost, ClearsHost, FromApiResult, SafeAttempt, Derived;
    FromApiResultLog(log, lookup, found);
    NoMutationIsSafe(config, log);
    var infos := ReadHostLookupInfos(found.body);
    if found.success && infos.Returns? && infos.value != [] {
      var params := Arr([Str(infos.value[0].hostId)]);
      var delete := Derived(lookup, None, "host.delete", params);
      DerivedShape(lookup, None, "host.delete", params);
      var validated := Validate(config.zabbix, oracle, log, delete);
      ValidateLog(config.zabbix, oracle, log, delete);
      QuietKeepsNoMutation(log, validated.log);
      NoMutationIsSafe(config, validated.log);
      if !ProtectedHost(config, infos.value[0]) {
        FirstIdNotBlank(found.body, infos.value);
        FoldedMethods();
        SendDeleteSafe(config, oracle, log, delete, infos.value);
        var answer := oracle(|validated.log|).exec;
        if answer.Returns? {
          FromApiResultLog(validated.log + [Exec(delete, answer)], delete, answer.value);
        }
      }
    }
  }

  lemma NotAWrite(config: Config, request: Request)
    requires IsMethod(request, "host.delete")
    ensures !MarkedPayload(config, request) && !IsHostWrite(request)
  {
  }

  lemma NonBlankOfOne(id: string)
    requires !Blank(id)
    ensures NonBlank([Some(id)]) == [id]
  {
    assert [Some(id)][1..] == [];
    assert NonBlank([Some(id)]) == [id] + NonBlank([Some(id)][1..]);
  }

  lemma DeleteTargets(request: Request, hostId: string)
    requires IsMethod(request, "host.delete") && request.params == Arr([Str(hostId)]) && !Blank(hostId)
    ensures MutationHostIds(request) == [hostId]
  {
    NonBlankOfOne(hostId);
    assert ScalarsOf(request.params.items) == [Some(hostId)];
  }

  lemma UpdateTargets(request: Request, hostId: string)
    requires IsMethod(request, "host.update") && request.params.Obj?
             && ReadString(request.params, "hostid") == Some(hostId)
    requires !Blank(hostId)
    ensures MutationHostIds(request) == [hostId]
  {
    NonBlankOfOne(hostId);
  }

  /** The merged update of a looked-up host, sent after the lookup that is the last event of the log. */
  lemma MergedUpdateSafe(
    config: Config, oracle: Oracle, log: seq<Event>, request: Request, params: Json, infos: seq<HostInfo>)
    requires NoMutation(log) && log != [] && params.Obj?
    requires FoundHosts(log[|log| - 1]) && Records(log[|log| - 1]) == infos
    requires infos != [] && !ProtectedHost(config, infos[0])
    ensures SafeAttempt(config, SendHostWrite(config, oracle, log,
                                              Derived(request, None, "host.update",
                                                      UpdateParams(params, infos[0]))).log, true)
  {
    FirstIdNotBlank(log[|log| - 1].answer.value.body, infos);
    hide SendHostWrite, FoundHosts, UpdateParams, ProtectedHost, Derived, Fold, MutationHostIds, Guarded, Blank;
    FoldedMethods();
    var payload := UpdateParams(params, infos[0]);
    assert payload.Obj? by { PayloadIsObject(params, infos[0]); }
    var derived := Derived(request, None, "host.update", payload);
    DerivedShape(request, None, "host.update", payload);
    DerivedIsConsistent(request, None, "host.update", payload);
    HostUpdateProofs.PayloadTarget(params, infos[0]);
    UpdateTargets(derived, infos[0].hostId);
    FirstRecordGuards(config, log, infos, derived);
    SendHostWriteSafe(config, oracle, log, derived, true);
  }

  lemma PayloadIsObject(params: Json, info: HostInfo)
    requires params.Obj?
    ensures UpdateParams(params, info).Obj?
  {
  }

  lemma ProcessUpdateFallbackSafe(config: Config, oracle: Oracle, log: seq<Event>, lookup: Request, found: ApiResult)
    requires NoMutation(log) && log != [] && log[|log| - 1] == Exec(lookup, Returns(found))
             && IsMethod(lookup, "host.get")
    ensures SafeAttempt(config, ProcessUpdateFallback(config, oracle, log, lookup, found).log, true)
  {
    hide SendHostWrite, ReadHostLookupInfos, UpdateParams, ProtectedHost, FromApiResult, Derived, SafeAttempt;
    hide NoMutation, Fold;
    FoldedMethods();
    FromApiResultLog(log, lookup, found);
    NoMutationIsSafe(config, log);
    var infos := ReadHostLookupInfos(found.body);
    if found.success && infos.Returns? {
      if infos.value == [] {
        if lookup.createOnUpdateWhenMissing && lookup.fallbackCreateParams.Obj? {
          var derived := Derived(lookup, Some("createOnUpdateWhenMissing"), "host.create", lookup.fallbackCreateParams);
          DerivedShape(lookup, Some("createOnUpdateWhenMissing"), "host.create", lookup.fallbackCreateParams);
          DerivedIsConsistent(lookup, Some("createOnUpdateWhenMissing"), "host.create", lookup.fallbackCreateParams);
          SendHostWriteSafe(config, oracle, log, derived, true);
        }
      } else if lookup.fallbackUpdateParams.Obj? && !ProtectedHost(config, infos.value[0]) {
        MergedUpdateSafe(config, oracle, log, lookup, lookup.fallbackUpdateParams, infos.value);
      }
    }
  }

  lemma ProcessDirectUpdateSafe(config: Config, oracle: Oracle, log: seq<Event>, update: Request)
    requires NoMutation(log) && update.params.Obj?
    ensures SafeAttempt(config, ProcessDirectUpdate(config, oracle, log, update).log, true)
  {
    hide SendHostWrite, ReadHostLookupInfos, UpdateParams, ProtectedHost, FromApiResult, Derived, Validate;
    hide HostGetByIds, Fold;
    var hostId := ReadString(update.params, "hostid");
    NoMutationIsSafe(config, log);
    if !Missing(hostId) {
      var lookup := HostGetByIds(update, [hostId.value]);
      HostGetShape(update, [hostId.value]);
      var validated := Validate(config.zabbix, oracle, log, lookup);
      ValidateLog(config.zabbix, oracle, log, lookup);
      NoMutationIsSafe(config, validated.log);
      if validated.Done? && validated.value == [] {
        var answer := oracle(|validated.log|).exec;
        var after := validated.log + [Exec(lookup, answer)];
        assert NoMutation(after);
        NoMutationIsSafe(config, after);
        if answer.Returns? {
          FromApiResultLog(after, lookup, answer.value);
          var infos := ReadHostLookupInfos(answer.value.body);
          if answer.value.success && infos.Returns? && infos.value != [] && !ProtectedHost(config, infos.value[0]) {
            MergedUpdateSafe(config, oracle, after, update, update.params, infos.value);
          }
        }
      }
    }
  }

  lemma FoldedMethods()
    ensures Fold("host.get") == "host.get" && Fold("host.create") == "host.create"
    ensures Fold("host.update") == "host.update" && Fold("host.delete") == "host.delete"
  {
  }

  lemma HostGetShape(request: Request, hostIds: seq<string>)
    ensures IsMethod(HostGetByIds(request, hostIds), "host.get") && !IsHostMutation(HostGetByIds(request, hostIds))
    ensures Get(HostGetByIds(request, hostIds).params, "hostids") == StringArray(hostIds)
  {
    hide StringArray, Derived, Fold, HostGetParams;
    FoldedMethods();
    DerivedShape(request, None, "host.get", HostGetParams(hostIds));
    HostGetIds(hostIds);
  }

  lemma HostGetIds(hostIds: seq<string>)
    ensures Get(HostGetParams(hostIds), "hostids") == StringArray(hostIds)
  {
    hide StringArray;
    var head := [Prop("output", StringArray(["hostid", "host", "name"])), Prop("hostids", StringArray(hostIds))];
    LookupNone(SELECTED_HOST_PARTS, "hostids");
    LookupAppend(head, SELECTED_HOST_PARTS, "hostids");
    LookupAt(head, 1);
  }

  lemma DistinctNonEmpty(xs: seq<string>)
    requires xs != []
    ensures Distinct(xs) != []
  {
    DistinctElements(xs);
    assert xs[0] in xs;
    assert Holds(xs, xs[0]);
    assert Holds(Distinct(xs), xs[0]);
  }

  /** A target check that lets the request through has looked all its targets up, as the last call, and has found no
      protected record. */
  lemma CheckMutationTargetsSafe(config: Config, oracle: Oracle, log: seq<Event>, request: Request)
    requires NoMutation(log)
    ensures var run := CheckMutationTargets(config, oracle, log, request);
            && log <= run.log && NoMutation(run.log)
            && (run.Done? && run.value == None && config.protectManagedAggregateHosts
                && MutationHostIds(request) != [] ==>
                  Guarded(config, run.log, request, false))
  {
    hide Validate, ReadHostLookupInfos, ProtectedHost, FromApiResult, HostGetByIds, MutationHostIds, Distinct, Guarded;
    var hostIds := Distinct(MutationHostIds(request));
    DistinctElements(MutationHostIds(request));
    if MutationHostIds(request) != [] {
      DistinctNonEmpty(MutationHostIds(request));
    }
    if config.protectManagedAggregateHosts && hostIds != [] {
      var lookup := HostGetByIds(request, hostIds);
      HostGetShape(request, hostIds);
      var validated := Validate(config.zabbix, oracle, log, lookup);
      ValidateLog(config.zabbix, oracle, log, lookup);
      QuietKeepsNoMutation(log, validated.log);
      if validated.Done? && validated.value == [] {
        var answer := oracle(|validated.log|).exec;
        var after := validated.log + [Exec(lookup, answer)];
        assert NoMutation(after);
        if answer.Returns? {
          FromApiResultLog(after, lookup, answer.value);
          var infos := ReadHostLookupInfos(answer.value.body);
          if answer.value.success && infos.Returns? && forall info :: info in infos.value ==>
              !ProtectedHost(config, info) {
            AllRecordsClear(config, after[|after| - 1], request, hostIds);
            LastEventGuards(config, after, request);
            assert CheckMutationTargets(config, oracle, log, request).log == after;
          }
        }
      }
    }
  }

  lemma LastEventGuards(config: Config, log: seq<Event>, request: Request)
    requires log != [] && NoneProtected(config, log[|log| - 1]) && ClearsTargets(config, log[|log| - 1], request)
    ensures Guarded(config, log, request, false)
  {
    hide ClearsTargets, ProtectedHost;
    assert LastCall(log, |log| - 1);
  }

  /** An answer without a protected record clears all hosts that were asked for. */
  lemma AllRecordsClear(config: Config, event: Event, request: Request, hostIds: seq<string>)
    requires NoneProtected(config, event) && Get(event.request.params, "hostids") == StringArray(hostIds)
    requires forall id :: Holds(hostIds, id) <==> Holds(MutationHostIds(request), id)
    ensures ClearsTargets(config, event, request)
  {
    hide FoundHosts, ProtectedHost, MutationHostIds, Fold;
    forall id | id in MutationHostIds(request)
      ensures ClearsHost(config, event, id)
    {
      assert Holds(MutationHostIds(request), id);
      var y :| y in hostIds && Same(y, id);
      var i :| 0 <= i < |hostIds| && hostIds[i] == y;
      assert StringArray(hostIds).items[i] == Str(y);
    }
  }

  // ---------------------------------------------------------------- which records are checked

  /** The paths on which only the first record of the lookup is checked. */
  predicate ChecksFirstOnly(request: Request) {
    IsMergeableUpdate(request) || IsFallbackFor(request, "host.delete") || IsFallbackFor(request, "host.update")
  }

  /** Where only the first record is checked, the mutation is cleared by all records of its lookup exactly when no later
      one with the id of the first is protected; where all are, it always is. */
  lemma GuardsExactly(config: Config, event: Event, request: Request, firstOnly: bool)
    requires Guards(config, event, request, firstOnly)
    ensures FoundHosts(event) && (ClearsTargets(config, event, request) <==> !LaterProtected(config, event))
    ensures !firstOnly ==> ClearsTargets(config, event, request)
  {
    hide FoundHosts, ProtectedHost, MutationHostIds, Fold;
    if firstOnly {
      var infos := Records(event);
      assert infos[0] in infos && Same(infos[0].hostId, infos[0].hostId);
      if LaterProtected(config, event) {
        var i :| 0 < i < |infos| && Same(infos[i].hostId, infos[0].hostId) && ProtectedHost(config, infos[i]);
        assert infos[i] in infos && infos[0].hostId in MutationHostIds(request);
        assert !ClearsHost(config, event, infos[0].hostId);
      } else {
        forall info | info in infos && Same(info.hostId, infos[0].hostId)
          ensures !ProtectedHost(config, info)
        {
          var i :| 0 <= i < |infos| && infos[i] == info;
        }
      }
    }
  }

  /** The mutation at position k follows a lookup that clears its targets exactly when no later record of it with the
      id of the first one is protected. */
  ghost predicate ClearedExactly(config: Config, log: seq<Event>, k: nat, firstOnly: bool)
    requires k < |log| && log[k].Exec?
  {
    exists j :: LastCall(log[..k], j) && FoundHosts(log[j])
      && (ClearsTargets(config, log[j], log[k].request) <==> !LaterProtected(config, log[j]))
      && (!firstOnly ==> ClearsTargets(config, log[j], log[k].request))
  }

  /** Every update and delete of the attempt follows such a lookup. */
  ghost predicate AllClearedExactly(config: Config, log: seq<Event>, firstOnly: bool) {
    config.protectManagedAggregateHosts ==>
      forall k :: 0 <= k < |log| && MutationSent(log[k]) && !IsMethod(log[k].request, "host.create") ==>
        ClearedExactly(config, log, k, firstOnly)
  }

  lemma SafeIsCleared(config: Config, log: seq<Event>, firstOnly: bool)
    requires SafeAttempt(config, log, firstOnly)
    ensures AllClearedExactly(config, log, firstOnly)
  {
    hide MarkedPayload, CompatibleTemplates, IdsOf, MutationHostIds, ClearsTargets, Guards, FoundHosts, LaterProtected;
    hide IsMethod;
    if config.protectManagedAggregateHosts {
      forall k | 0 <= k < |log| && MutationSent(log[k]) && !IsMethod(log[k].request, "host.create")
        ensures ClearedExactly(config, log, k, firstOnly)
      {
        assert SafeSend(config, log, k, firstOnly);
        var before := log[..k];
        var j :| LastCall(before, j) && Guards(config, before[j], log[k].request, firstOnly);
        assert before[j] == log[j];
        GuardsExactly(config, log[j], log[k].request, firstOnly);
      }
    }
  }

  lemma GetIsNoWrite(config: Config, request: Request)
    requires IsMethod(request, "host.get")
    ensures !IsHostWrite(request) && MutationHostIds(request) == [] && !IsMergeableUpdate(request)
    ensures !MarkedPayload(config, request) && !IsMethod(request, "host.update")
  {
    assert "host.get"[5] == 'g' && "host.update"[5] == 'u' && "host.create"[5] == 'c' && "host.delete"[5] == 'd';
    hide Fold;
  }

  lemma PathStays(allowCreate: bool, oracle: Oracle, log: seq<Event>, received: Request)
    requires HostGroupResolver.Consistent(received)
    ensures var run := HostGroupResolver.Resolve(allowCreate, oracle, log, received);
            run.Done? ==> (ChecksFirstOnly(run.value) <==> ChecksFirstOnly(received))
                          && (IsMergeableUpdate(run.value) <==> IsMergeableUpdate(received))
  {
    HostGroupResolver.ResolveKeeps(allowCreate, oracle, log, received);
    HostGroupResolver.ResolveKeepsGroupArray(allowCreate, oracle, log, received);
    NotGroupsNames();
    hide HostGroupResolver.Resolve, HostGroupResolver.Consistent, Fold, IdentityOf;
  }

  lemma NotGroupsNames()
    ensures Fold("templates") != "groups" && Fold("templates_clear") != "groups" && Fold("tags") != "groups"
    ensures Fold("macros") != "groups" && Fold("inventory") != "groups"
  {
    assert Fold("templates")[0] == 't' && Fold("templates_clear")[0] == 't' && Fold("tags")[0] == 't';
    assert Fold("macros")[0] == 'm' && Fold("inventory")[0] == 'i' && "groups"[0] == 'g';
  }

  /** Every attempt is safe, whatever is asked and whatever Zabbix answers. Its update or delete is cleared by all
      records of the lookup before it; where the code checks the first record only, it is so exactly when no later
      record with that id is protected. */
  lemma ProcessRequestSafe(config: Config, oracle: Oracle, received: Request)
    requires HostGroupResolver.Consistent(received)
    ensures SafeAttempt(config, ProcessRequest(config, oracle, received).log, ChecksFirstOnly(received))
    ensures AllClearedExactly(config, ProcessRequest(config, oracle, received).log, ChecksFirstOnly(received))
  {
    hide HostGroupResolver.Resolve, Validate, CheckMutationTargets, ProcessDirectUpdate, ProcessDeleteFallback;
    hide ProcessUpdateFallback;
    hide FromApiResult, MarkedPayload, SafeAttempt, AllClearedExactly, HostGroupResolver.Consistent, MutationHostIds;
    hide ChecksFirstOnly, IsMergeableUpdate, IsFallbackFor;
    var firstOnly := ChecksFirstOnly(received);
    var resolved := HostGroupResolver.Resolve(config.zabbix.allowDynamicHostGroupCreate, oracle, [], received);
    HostGroupResolver.ResolveKeeps(config.zabbix.allowDynamicHostGroupCreate, oracle, [], received);
    PathStays(config.zabbix.allowDynamicHostGroupCreate, oracle, [], received);
    QuietKeepsNoMutation([], resolved.log);
    NoMutationIsSafe(config, resolved.log);
    if resolved.Done? {
      var request := resolved.value;
      var validated := Validate(config.zabbix, oracle, resolved.log, request);
      ValidateLog(config.zabbix, oracle, resolved.log, request);
      QuietKeepsNoMutation(resolved.log, validated.log);
      NoMutationIsSafe(config, validated.log);
      if validated.Done? && validated.value == [] && !MarkedPayload(config, request) {
        PathOf(request);
        if IsMergeableUpdate(request) {
          ProcessDirectUpdateSafe(config, oracle, validated.log, request);
        } else {
          PlainSendSafe(config, oracle, resolved.log, request);
        }
      }
    }
    SafeIsCleared(config, ProcessRequest(config, oracle, received).log, firstOnly);
  }

  lemma PathOf(request: Request)
    ensures IsMergeableUpdate(request) ==> ChecksFirstOnly(request) && request.params.Obj?
    ensures IsFallbackFor(request, "host.delete") || IsFallbackFor(request, "host.update") ==>
              ChecksFirstOnly(request) && IsMethod(request, "host.get")
    ensures ChecksFirstOnly(request) ==>
              || IsMergeableUpdate(request)
              || IsFallbackFor(request, "host.delete") || IsFallbackFor(request, "host.update")
  {
  }

  /** The rest of an attempt after a valid request that is not merged. */
  lemma PlainSendSafe(config: Config, oracle: Oracle, before: seq<Event>, request: Request)
    requires NoMutation(before) && !MarkedPayload(config, request)
    requires var run := Validate(config.zabbix, oracle, before, request); run.Done? && run.value == []
    ensures var checked := CheckMutationTargets(config, oracle, Validate(config.zabbix, oracle, before, request).log,
                                                request);
            && SafeAttempt(config, checked.log, true) && SafeAttempt(config, checked.log, false)
            && var answer := oracle(|checked.log|).exec;
               var after := checked.log + [Exec(request, answer)];
               && (checked.Done? && checked.value == None ==>
                     && SafeAttempt(config, after, false)
                     && (IsMethod(request, "host.get") ==> SafeAttempt(config, after, true)))
               && (checked.Done? && checked.value == None && answer.Returns? ==>
                     && (IsFallbackFor(request, "host.delete") ==>
                           SafeAttempt(config,
                                       ProcessDeleteFallback(config, oracle, after, request, answer.value).log, true))
                     && (IsFallbackFor(request, "host.update") ==>
                           SafeAttempt(config,
                                       ProcessUpdateFallback(config, oracle, after, request, answer.value).log, true))
                     && FromApiResult(after, request, answer.value).log == after)
  {
    hide Validate, CheckMutationTargets, ProcessDeleteFallback, ProcessUpdateFallback, FromApiResult, MarkedPayload;
    hide SafeAttempt, Guarded, CompatibleTemplates, IdsOf, ShapeErrors, MutationHostIds;
    var validated := Validate(config.zabbix, oracle, before, request).log;
    ValidateLog(config.zabbix, oracle, before, request);
    QuietKeepsNoMutation(before, validated);
    CheckMutationTargetsSafe(config, oracle, validated, request);
    var checked := CheckMutationTargets(config, oracle, validated, request);
    NoMutationIsSafe(config, checked.log);
    if checked.Done? && checked.value == None {
      var answer := oracle(|checked.log|).exec;
      var after := checked.log + [Exec(request, answer)];
      ValidHasNoShapeErrors(config.zabbix, oracle, before, request);
      if IsHostMutation(request) && !IsMethod(request, "host.create") {
        ValidTargets(config.zabbix, request);
      }
      if IsHostWrite(request) && config.zabbix.validateTemplates && config.zabbix.validateTemplateCompatibility
         && IdsOf(request.params, "templates", "templateid") != [] {
        ValidTemplates(config.zabbix, oracle, before, request);
        var i :| |before| <= i < |validated| && CompatibleTemplates(validated[i], request.params);
        assert checked.log[i] == validated[i];
      }
      SendIsSafe(config, checked.log, request, answer, false);
      if IsMethod(request, "host.get") {
        assert NoMutation(after);
        NoMutationIsSafe(config, after);
      }
      if answer.Returns? {
        FromApiResultLog(after, request, answer.value);
        if IsFallbackFor(request, "host.delete") {
          ProcessDeleteFallbackSafe(config, oracle, after, request, answer.value);
        }
        if IsFallbackFor(request, "host.update") {
          ProcessUpdateFallbackSafe(config, oracle, after, request, answer.value);
        }
      }
    }
  }

  /** Over the whole retry loop: no more attempts than configured, and each of them safe on its own. */
  lemma EveryAttemptSafe(config: Config, world: World, request: Request, attempt: nat)
    requires HostGroupResolver.Consistent(request) && attempt < MaxAttempts(config)
    ensures var logs := Attempts(config, world, request, attempt).0;
            && 1 <= |logs| <= MaxAttempts(config) - attempt
            && forall log :: log in logs ==>
                 SafeAttempt(config, log, ChecksFirstOnly(request))
                 && AllClearedExactly(config, log, ChecksFirstOnly(request))
    decreases MaxAttempts(config) - attempt
  {
    hide SafeAttempt, AllClearedExactly, ChecksFirstOnly, ProcessRequest;
    ProcessRequestSafe(config, world(attempt), request);
    if ProcessRequest(config, world(attempt), request).Thrown? && attempt + 1 < MaxAttempts(config) {
      EveryAttemptSafe(config, world, request, attempt + 1);
    }
  }

  /** A retry happens only after an exception: the attempts before the last one raised, and the published
      result is the last attempt's own, or the API error once the attempts are used up. */
  lemma {:induction false} RetriesFollowExceptions(config: Config, world: World, request: Request, attempt: nat)
    requires attempt < MaxAttempts(config)
    ensures var (logs, result) := Attempts(config, world, request, attempt);
            && logs != []
            && (forall i :: 0 <= i < |logs| ==>
                  var run := ProcessRequest(config, world(attempt + i), request);
                  run.log == logs[i] && (i + 1 < |logs| ==> run.Thrown?))
            && var last := ProcessRequest(config, world(attempt + |logs| - 1), request);
               if last.Done? then result == last.value
               else |logs| == MaxAttempts(config) - attempt && result == FromException(request)
    decreases MaxAttempts(config) - attempt
  {
    hide ProcessRequest;
    if ProcessRequest(config, world(attempt), request).Thrown? && attempt + 1 < MaxAttempts(config) {
      RetriesFollowExceptions(config, world, request, attempt + 1);
      var rest, logs := Attempts(config, world, request, attempt + 1).0, Attempts(config, world, request, attempt).0;
      forall i | 0 <= i < |logs|
        ensures var run := ProcessRequest(config, world(attempt + i), request);
                run.log == logs[i] && (i + 1 < |logs| ==> run.Thrown?)
      {
        if i > 0 {
          var run := ProcessRequest(config, world(attempt + 1 + (i - 1)), request);
          assert run.log == rest[i - 1] && (i < |rest| ==> run.Thrown?);
          assert logs[i] == rest[i - 1] && attempt + 1 + (i - 1) == attempt + i;
        }
      }
    }
  }
}
