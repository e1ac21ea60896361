/** What the host.update requests that an attempt sends carry: the merged payload of the host that was read before, and
    so the templates that the rules selected. */
module SentUpdates {
  import opened Text
  import opened JsonModel
  import opened ZabbixRequest
  import opened ZabbixApi
  import RequestValidator
  import TemplateMerge
  import opened HostUpdate
  import HostUpdateProofs
  import opened HostGroupResolver
  import opened RequestWorker
  import opened ProtectedHostGuard
  import opened TemplateSelection

  predicate UpdateSent(event: Event) {
    event.Exec? && IsMethod(event.request, "host.update")
  }

  ghost predicate NoUpdate(log: seq<Event>) {
    forall i :: 0 <= i < |log| ==> !UpdateSent(log[i])
  }

  /** A successful host.get that found a host. */
  predicate HostFound(event: Event) {
    && event.Exec? && IsMethod(event.request, "host.get")
    && event.answer.Returns? && event.answer.value.success
    && var infos := ReadHostLookupInfos(event.answer.value.body);
       infos.Returns? && infos.value != []
  }

  /** The first host it found. */
  function FoundHost(event: Event): HostInfo
    requires HostFound(event)
  {
    ReadHostLookupInfos(event.answer.value.body).value[0]
  }

  ghost predicate SameButGroups(left: Json, right: Json) {
    forall name :: Fold(name) != "groups" ==> Get(left, name) == Get(right, name)
  }

  /** The request sent at position i carries the desired parameters merged with the host found before. */
  ghost predicate MergedAt(log: seq<Event>, i: nat, desired: Json)
    requires i < |log| && desired.Obj?
  {
    log[i].Exec? &&
    exists j :: 0 <= j < i && HostFound(log[j])
      && SameButGroups(log[i].request.params, UpdateParams(desired, FoundHost(log[j])))
  }

  ghost predicate UpdatesMerge(log: seq<Event>, desired: Json)
    requires desired.Obj?
  {
    forall i :: 0 <= i < |log| && UpdateSent(log[i]) ==> MergedAt(log, i, desired)
  }

  lemma QuietKeepsNoUpdate(before: seq<Event>, log: seq<Event>)
    requires Quiet(before, log) && NoUpdate(before)
    ensures NoUpdate(log)
  {
  }

  lemma NoUpdateMerges(log: seq<Event>, desired: Json)
    requires NoUpdate(log) && desired.Obj?
    ensures UpdatesMerge(log, desired)
  {
    hide UpdateSent;
  }

  // ---------------------------------------------------------------- one send

  lemma SendHostWriteLog(config: Config, oracle: Oracle, log: seq<Event>, derived: Request)
    requires HostGroupResolver.Consistent(derived)
    ensures var after := SendHostWrite(config, oracle, log, derived).log;
            || Quiet(log, after)
            || (after != [] && Quiet(log, after[..|after| - 1]) && after[|after| - 1].Exec?
                && after[|after| - 1].request.rpcMethod == derived.rpcMethod
                && SameButGroups(after[|after| - 1].request.params, derived.params))
  {
    hide Resolve, RequestValidator.Validate, MarkedPayload, FromApiResult, HostGroupResolver.Consistent;
    var resolved := Resolve(config.zabbix.allowDynamicHostGroupCreate, oracle, log, derived);
    ResolveKeeps(config.zabbix.allowDynamicHostGroupCreate, oracle, log, derived);
    if resolved.Done? {
      var request := resolved.value;
      var validated := RequestValidator.Validate(config.zabbix, oracle, resolved.log, request);
      ValidateLog(config.zabbix, oracle, resolved.log, request);
      if validated.Done? && validated.value == [] && !MarkedPayload(config, request) {
        var answer := oracle(|validated.log|).exec;
        var after := validated.log + [Exec(request, answer)];
        assert after[..|after| - 1] == validated.log;
        if answer.Returns? {
          FromApiResultLog(after, request, answer.value);
        }
      }
    }
  }

  lemma NoUpdateBefore(front: seq<Event>, log: seq<Event>)
    requires NoUpdate(front) && front <= log
    ensures forall i :: 0 <= i < |front| ==> !UpdateSent(log[i])
  {
    hide UpdateSent;
    assert forall i :: 0 <= i < |front| ==> front[i] == log[i];
  }

  /** After a send there is at most one update more, as the last call. */
  lemma SendAddsOne(config: Config, oracle: Oracle, log: seq<Event>, derived: Request, i: nat)
    requires HostGroupResolver.Consistent(derived) && NoUpdate(log)
    requires var after := SendHostWrite(config, oracle, log, derived).log; i < |after| && UpdateSent(after[i])
    ensures var after := SendHostWrite(config, oracle, log, derived).log;
            && log <= after && |log| <= i && after[i].Exec? && derived.rpcMethod == after[i].request.rpcMethod
            && SameButGroups(after[i].request.params, derived.params)
  {
    hide SendHostWrite, SameButGroups, UpdateSent, HostGroupResolver.Consistent;
    SendHostWriteLog(config, oracle, log, derived);
    var after := SendHostWrite(config, oracle, log, derived).log;
    if Quiet(log, after) {
      QuietKeepsNoUpdate(log, after);
    } else {
      var front := after[..|after| - 1];
      QuietKeepsNoUpdate(log, front);
      NoUpdateBefore(front, after);
    }
  }

  lemma SendMerges(config: Config, oracle: Oracle, log: seq<Event>, derived: Request, desired: Json)
    requires HostGroupResolver.Consistent(derived) && NoUpdate(log) && desired.Obj?
    requires log != [] && HostFound(log[|log| - 1])
             && derived.params == UpdateParams(desired, FoundHost(log[|log| - 1]))
    ensures UpdatesMerge(SendHostWrite(config, oracle, log, derived).log, desired)
  {
    hide SendHostWrite, HostFound, FoundHost, SameButGroups, UpdateParams, UpdateSent, HostGroupResolver.Consistent;
    var after := SendHostWrite(config, oracle, log, derived).log;
    forall i | 0 <= i < |after| && UpdateSent(after[i])
      ensures MergedAt(after, i, desired)
    {
      SendAddsOne(config, oracle, log, derived, i);
      assert after[|log| - 1] == log[|log| - 1];
    }
  }

  lemma CreateIsNoUpdate(config: Config, oracle: Oracle, log: seq<Event>, derived: Request)
    requires HostGroupResolver.Consistent(derived) && NoUpdate(log) && derived.rpcMethod == "host.create"
    ensures NoUpdate(SendHostWrite(config, oracle, log, derived).log)
  {
    hide SendHostWrite, SameButGroups, HostGroupResolver.Consistent;
    var after := SendHostWrite(config, oracle, log, derived).log;
    forall i | 0 <= i < |after|
      ensures !UpdateSent(after[i])
    {
      if UpdateSent(after[i]) {
        SendAddsOne(config, oracle, log, derived, i);
        CreateMethod(after[i]);
      }
    }
  }

  lemma CreateMethod(event: Event)
    requires event.Exec? && event.request.rpcMethod == "host.create"
    ensures !UpdateSent(event)
  {
    FoldedMethods();
    assert "host.create"[5] == 'c' && "host.update"[5] == 'u';
    hide Fold;
  }

  // ---------------------------------------------------------------- the two merged paths

  lemma FallbackMerges(config: Config, oracle: Oracle, log: seq<Event>, lookup: Request, found: ApiResult)
    requires NoUpdate(log) && log != [] && log[|log| - 1] == Exec(lookup, Returns(found))
             && IsMethod(lookup, "host.get")
    requires lookup.fallbackUpdateParams.Obj?
    ensures UpdatesMerge(ProcessUpdateFallback(config, oracle, log, lookup, found).log, lookup.fallbackUpdateParams)
  {
    hide SendHostWrite, FromApiResult, Derived, ReadHostLookupInfos, ProtectedHost, UpdateParams, NoUpdate;
    hide UpdatesMerge;
    hide HostGroupResolver.Consistent;
    var desired := lookup.fallbackUpdateParams;
    NoUpdateMerges(log, desired);
    FromApiResultLog(log, lookup, found);
    var infos := ReadHostLookupInfos(found.body);
    if found.success && infos.Returns? {
      if infos.value == [] {
        var create := Derived(lookup, Some("createOnUpdateWhenMissing"), "host.create", lookup.fallbackCreateParams);
        DerivedIsConsistent(lookup, Some("createOnUpdateWhenMissing"), "host.create", lookup.fallbackCreateParams);
        DerivedShape(lookup, Some("createOnUpdateWhenMissing"), "host.create", lookup.fallbackCreateParams);
        CreateIsNoUpdate(config, oracle, log, create);
        NoUpdateMerges(SendHostWrite(config, oracle, log, create).log, desired);
      } else {
        var params := UpdateParams(desired, infos.value[0]);
        DerivedIsConsistent(lookup, None, "host.update", params);
        DerivedShape(lookup, None, "host.update", params);
        SendMerges(config, oracle, log, Derived(lookup, None, "host.update", params), desired);
      }
    }
  }

  lemma DirectMerges(config: Config, oracle: Oracle, log: seq<Event>, update: Request)
    requires NoUpdate(log) && update.params.Obj?
    ensures UpdatesMerge(ProcessDirectUpdate(config, oracle, log, update).log, update.params)
  {
    hide SendHostWrite, FromApiResult, Derived, ReadHostLookupInfos, ProtectedHost, UpdateParams;
    hide RequestValidator.Validate;
    hide HostGetByIds;
    hide HostGroupResolver.Consistent, UpdatesMerge;
    NoUpdateMerges(log, update.params);
    var hostId := ReadString(update.params, "hostid");
    if !Missing(hostId) {
      var lookup := HostGetByIds(update, [hostId.value]);
      LookupIsGet(update, [hostId.value]);
      var validated := RequestValidator.Validate(config.zabbix, oracle, log, lookup);
      ValidateLog(config.zabbix, oracle, log, lookup);
      QuietKeepsNoUpdate(log, validated.log);
      NoUpdateMerges(validated.log, update.params);
      if validated.Done? && validated.value == [] {
        var answer := oracle(|validated.log|).exec;
        var after := validated.log + [Exec(lookup, answer)];
        assert NoUpdate(after);
        NoUpdateMerges(after, update.params);
        if answer.Returns? {
          FromApiResultLog(after, lookup, answer.value);
          var infos := ReadHostLookupInfos(answer.value.body);
          if answer.value.success && infos.Returns? && infos.value != [] {
            var params := UpdateParams(update.params, infos.value[0]);
            DerivedIsConsistent(update, None, "host.update", params);
            DerivedShape(update, None, "host.update", params);
            SendMerges(config, oracle, after, Derived(update, None, "host.update", params), update.params);
          }
        }
      }
    }
  }

  lemma LookupIsGet(request: Request, hostIds: seq<string>)
    ensures IsMethod(HostGetByIds(request, hostIds), "host.get")
            && !IsMethod(HostGetByIds(request, hostIds), "host.update")
  {
    HostGetShape(request, hostIds);
    FoldedMethods();
  }

  // ---------------------------------------------------------------- a whole attempt

  /** Group names may have been replaced by ids, nothing else. */
  ghost predicate GroupsRewritten(params: Json, after: Json)
    requires params.Obj?
  {
    after == params || exists resolved: map<string, string> :: after == Obj(RewriteGroups(params.props, resolved))
  }

  lemma ResolvedParams(allowCreate: bool, oracle: Oracle, log: seq<Event>, request: Request)
    requires HostGroupResolver.Consistent(request) && request.params.Obj?
    ensures var run := Resolve(allowCreate, oracle, log, request);
            run.Done? ==> GroupsRewritten(request.params, run.value.params)
  {
    hide RewriteGroups, RewriteParams, CreateMissing, Distinct, NonBlank, NamesToResolve;
    var groups := Get(request.params, "groups");
    if IsHostWrite(request) && groups.Arr? {
      var names := Distinct(NonBlank(NamesToResolve(groups.items)));
      var found := GetHostGroupIdsByName(oracle, log, names);
      if names != [] && found.Done? {
        var created := if allowCreate then CreateMissing(oracle, found.log, groups.items, found.value)
          else Done(found.log, found.value);
        if created.Done? {
          RewrittenRoot(request.root.props, created.value);
        }
      }
    }
  }

  /** An update with mergeable fields is never sent as it is, but merged. */
  lemma DirectAttemptMerges(config: Config, oracle: Oracle, received: Request) returns (desired: Json)
    requires HostGroupResolver.Consistent(received) && IsMergeableUpdate(received)
    ensures received.params.Obj? && desired.Obj? && GroupsRewritten(received.params, desired)
    ensures UpdatesMerge(ProcessRequest(config, oracle, received).log, desired)
  {
    hide Resolve, RequestValidator.Validate, ProcessDirectUpdate, MarkedPayload, HostGroupResolver.Consistent;
    hide UpdatesMerge, NoUpdate;
    hide IsMergeableUpdate, GroupsRewritten, Quiet, CheckMutationTargets, ProcessDeleteFallback, ProcessUpdateFallback;
    hide SameButGroups, FromApiResult, ChecksFirstOnly, IdentityOf, Get, Fold;
    PathOf(received);
    var resolved := Resolve(config.zabbix.allowDynamicHostGroupCreate, oracle, [], received);
    ResolveKeeps(config.zabbix.allowDynamicHostGroupCreate, oracle, [], received);
    ResolvedParams(config.zabbix.allowDynamicHostGroupCreate, oracle, [], received);
    PathStays(config.zabbix.allowDynamicHostGroupCreate, oracle, [], received);
    NothingYet();
    QuietKeepsNoUpdate([], resolved.log);
    desired := received.params;
    assert GroupsRewritten(received.params, desired) by {
      Unchanged(received.params);
    }
    NoUpdateMerges(resolved.log, desired);
    if resolved.Done? {
      var request := resolved.value;
      desired := request.params;
      var validated := RequestValidator.Validate(config.zabbix, oracle, resolved.log, request);
      ValidateLog(config.zabbix, oracle, resolved.log, request);
      QuietKeepsNoUpdate(resolved.log, validated.log);
      NoUpdateMerges(validated.log, desired);
      DirectMerges(config, oracle, validated.log, request);
    }
  }

  lemma Unchanged(params: Json)
    requires params.Obj?
    ensures GroupsRewritten(params, params)
  {
  }

  lemma NothingYet()
    ensures NoUpdate([])
  {
  }

  /** The update parameters of a fallback are merged with the host the lookup found. */
  lemma FallbackAttemptMerges(config: Config, oracle: Oracle, received: Request)
    requires HostGroupResolver.Consistent(received) && IsFallbackFor(received, "host.update")
             && received.fallbackUpdateParams.Obj?
    ensures UpdatesMerge(ProcessRequest(config, oracle, received).log, received.fallbackUpdateParams)
  {
    hide RequestValidator.Validate, MarkedPayload, HostGroupResolver.Consistent, UpdatesMerge, NoUpdate;
    hide IsMergeableUpdate, Quiet, ProcessUpdateFallback, FromApiResult, MutationHostIds, IsHostWrite, IsMethod;
    GetIsNoWrite(config, received);
    var desired := received.fallbackUpdateParams;
    NothingYet();
    NoUpdateMerges([], desired);
    var validated := RequestValidator.Validate(config.zabbix, oracle, [], received);
    ValidateLog(config.zabbix, oracle, [], received);
    QuietKeepsNoUpdate([], validated.log);
    NoUpdateMerges(validated.log, desired);
    if validated.Done? && validated.value == [] {
      var answer := oracle(|validated.log|).exec;
      var after := validated.log + [Exec(received, answer)];
      assert NoUpdate(after) by {
        OneMore(validated.log, received, answer);
      }
      NoUpdateMerges(after, desired);
      assert CheckMutationTargets(config, oracle, validated.log, received) == Done(validated.log, None);
      assert !IsFallbackFor(received, "host.delete") by {
        assert "host.update"[5] == 'u' && "host.delete"[5] == 'd';
      }
      if answer.Returns? {
        FallbackMerges(config, oracle, after, received, answer.value);
      }
    }
  }

  lemma OneMore(log: seq<Event>, request: Request, answer: Answer<ApiResult>)
    requires NoUpdate(log) && !IsMethod(request, "host.update")
    ensures NoUpdate(log + [Exec(request, answer)])
  {
  }

  // ---------------------------------------------------------------- the templates that are sent

  lemma {:induction false} RewriteAppend(left: seq<Prop>, right: seq<Prop>, resolved: map<string, string>)
    ensures RewriteGroups(left + right, resolved) == RewriteGroups(left, resolved) + RewriteGroups(right, resolved)
  {
    hide ResolvedGroups, Fold;
    if left == [] {
      assert left + right == right;
    } else {
      assert (left + right)[1..] == left[1..] + right;
      RewriteAppend(left[1..], right, resolved);
    }
  }

  lemma {:induction false} RewriteNames(props: seq<Prop>, resolved: map<string, string>)
    ensures var after := RewriteGroups(props, resolved);
            |after| == |props| && forall i :: 0 <= i < |props| ==> after[i].name == props[i].name
    ensures (forall p :: p in props ==> Fold(p.name) != "groups") ==> RewriteGroups(props, resolved) == props
  {
    hide ResolvedGroups, Fold;
    if props != [] {
      RewriteNames(props[1..], resolved);
    }
  }

  lemma RewrittenRendered(
    others: seq<Prop>, selection: Selection, resolved: map<string, string>) returns (after: seq<Prop>)
    requires OtherNames(others)
    ensures OtherNames(after)
    ensures Obj(RewriteGroups(RenderedUpdate(others, selection).props, resolved)) == RenderedUpdate(after, selection)
  {
    after := RewriteGroups(others, resolved);
    RewriteNames(others, resolved);
    RewrittenTail(others, selection, resolved);
    hide Fold, RewriteGroups;
    forall i, j | 0 <= i < j < |after|
      ensures Fold(after[i].name) != Fold(after[j].name)
    {
      assert after[i].name == others[i].name && after[j].name == others[j].name;
    }
    forall p | p in after
      ensures Fold(p.name) != "templates" && Fold(p.name) != "templates_clear"
    {
      var i :| 0 <= i < |after| && after[i] == p;
      assert others[i] in others;
    }
  }

  lemma RewrittenTail(others: seq<Prop>, selection: Selection, resolved: map<string, string>)
    ensures Obj(RewriteGroups(RenderedUpdate(others, selection).props, resolved))
            == RenderedUpdate(RewriteGroups(others, resolved), selection)
  {
    var templates := [Prop("templates", Arr(TemplateMerge.IdObjects(TemplateSelection.IdsOf(selection.templates))))];
    var clear := if selection.toClear == [] then []
      else [Prop("templates_clear", Arr(TemplateMerge.IdObjects(selection.toClear)))];
    NotGroups();
    hide Fold, RewriteGroups, TemplateSelection.IdsOf, TemplateMerge.IdObjects;
    RewriteAppend(others + templates, clear, resolved);
    RewriteAppend(others, templates, resolved);
    RewriteNames(templates, resolved);
    RewriteNames(clear, resolved);
  }

  lemma {:induction false} RecordIdsNotBlank(hosts: seq<Json>, info: HostInfo, id: string)
    requires info in ReadHostInfos(hosts) && id in info.templateIds
    ensures !Blank(id)
  {
    hide ReadHostInfo, Blank;
    if info in ReadHostInfos(hosts[1..]) {
      RecordIdsNotBlank(hosts[1..], info, id);
    } else {
      assert info == ReadHostInfo(hosts[0]);
      ReadIdsNotBlank(hosts[0], id);
    }
  }

  lemma ReadIdsNotBlank(host: Json, id: string)
    requires id in ReadHostInfo(host).templateIds
    ensures !Blank(id)
  {
    hide Blank, NonBlank, Distinct, ReadInterfaces, ObjectArray;
    var name := if Get(host, "parentTemplates").Arr? then "parentTemplates" else "templates";
    DistinctElements(NonBlank(Field("templateid", Items(Get(host, name)))));
  }

  /** The update at position i was sent to a host found before, and carries the selection for that host. */
  ghost predicate CarriedAt(log: seq<Event>, i: nat, matched: seq<Template>, conflicts: seq<ConflictRule>)
    requires i < |log|
  {
    log[i].Exec? &&
    exists j :: 0 <= j < i && HostFound(log[j]) &&
                CarriedFor(FoundHost(log[j]), log[i].request.params, matched, conflicts)
  }

  ghost predicate CarriedFor(info: HostInfo, params: Json, matched: seq<Template>, conflicts: seq<ConflictRule>) {
    ReadString(params, "hostid") == Some(info.hostId) && CarriesSelection(matched, conflicts, info, params)
  }

  lemma MergedCarries(
    log: seq<Event>, i: nat, matched: seq<Template>, conflicts: seq<ConflictRule>, selection: Selection,
    others: seq<Prop>)
    requires i < |log| && RenderedUpdate(others, selection).Obj? && MergedAt(log, i, RenderedUpdate(others, selection))
    requires forall t :: t in matched ==> !Blank(t.templateId)
    requires Selects(matched, conflicts, selection) && OtherNames(others)
    ensures CarriedAt(log, i, matched, conflicts)
  {
    hide Selects, OtherNames, Blank, UpdateParams, CarriesSelection, ReadHostLookupInfos, RenderedUpdate, Fold;
    NotGroups();
    var j :| 0 <= j < i && HostFound(log[j])
             && SameButGroups(log[i].request.params,
                              UpdateParams(RenderedUpdate(others, selection), FoundHost(log[j])));
    var info := FoundHost(log[j]);
    var payload, params := UpdateParams(RenderedUpdate(others, selection), info), log[i].request.params;
    FoundIdsNotBlank(log[j]);
    hide HostFound, FoundHost;
    RulesToHost(matched, conflicts, selection, others, info);
    RenderedIsObject(others, selection);
    HostUpdateProofs.PayloadTarget(RenderedUpdate(others, selection), info);
    assert Get(params, "templates") == Get(payload, "templates");
    assert Get(params, "templates_clear") == Get(payload, "templates_clear");
    SameCarries(matched, conflicts, info, payload, params);
    assert CarriedFor(info, params, matched, conflicts);
  }

  lemma SameCarries(matched: seq<Template>, conflicts: seq<ConflictRule>, info: HostInfo, payload: Json, params: Json)
    requires CarriesSelection(matched, conflicts, info, payload)
    requires Get(params, "templates") == Get(payload, "templates")
             && Get(params, "templates_clear") == Get(payload, "templates_clear")
    ensures CarriesSelection(matched, conflicts, info, params)
  {
  }

  lemma RenderedIsObject(others: seq<Prop>, selection: Selection)
    ensures RenderedUpdate(others, selection).Obj?
  {
  }

  lemma NotGroups()
    ensures Fold("templates") != "groups" && Fold("templates_clear") != "groups" && Fold("hostid") != "groups"
  {
    assert Fold("templates")[0] == 't' && Fold("templates_clear")[0] == 't' && Fold("hostid")[0] == 'h'
           && "groups"[0] == 'g';
  }

  lemma FoundIdsNotBlank(event: Event)
    requires HostFound(event)
    ensures forall id :: id in FoundHost(event).templateIds ==> !Blank(id)
  {
    hide Blank, ReadHostInfos;
    var info := FoundHost(event);
    forall id | id in info.templateIds
      ensures !Blank(id)
    {
      RecordIdsNotBlank(Items(Get(event.answer.value.body.json, "result")), info, id);
    }
  }

  /** Every update that an attempt sends for a rendered selection was sent to a host found before in that attempt, and
      lists and clears for it exactly what the rules selected and removed: sent as a host.update of its own, or as the
      fallback of a lookup. */
  lemma RulesToRequest(
    config: Config, oracle: Oracle, received: Request,
    matched: seq<Template>, conflicts: seq<ConflictRule>, selection: Selection, others: seq<Prop>)
    requires HostGroupResolver.Consistent(received)
    requires forall t :: t in matched ==> !Blank(t.templateId)
    requires Selects(matched, conflicts, selection) && OtherNames(others)
    requires || (IsMethod(received, "host.update") && received.params == RenderedUpdate(others, selection))
             || (IsFallbackFor(received, "host.update")
                 && received.fallbackUpdateParams == RenderedUpdate(others, selection))
    ensures var log := ProcessRequest(config, oracle, received).log;
            forall i :: 0 <= i < |log| && UpdateSent(log[i]) ==> CarriedAt(log, i, matched, conflicts)
  {
    hide HostGroupResolver.Consistent, Selects, OtherNames, Blank, RenderedUpdate, UpdateSent, MergedAt, CarriedAt;
    hide ProcessRequest;
    hide IsFallbackFor, IsMethod;
    RenderedIsObject(others, selection);
    var sent := others;
    if IsMethod(received, "host.update") && received.params == RenderedUpdate(others, selection) {
      RenderedTemplates(others, selection);
      TemplatesMerge(received);
      var desired := DirectAttemptMerges(config, oracle, received);
      if desired != received.params {
        var resolved: map<string, string> :| desired == Obj(RewriteGroups(received.params.props, resolved));
        sent := RewrittenRendered(others, selection, resolved);
      }
    } else {
      FallbackAttemptMerges(config, oracle, received);
    }
    RenderedIsObject(sent, selection);
    var log := ProcessRequest(config, oracle, received).log;
    forall i | 0 <= i < |log| && UpdateSent(log[i])
      ensures CarriedAt(log, i, matched, conflicts)
    {
      UpdateIsExec(log[i]);
      MergedCarries(log, i, matched, conflicts, selection, sent);
    }
  }

  lemma TemplatesMerge(request: Request)
    requires IsMethod(request, "host.update") && request.params.Obj? && Get(request.params, "templates").Arr?
    ensures IsMergeableUpdate(request)
  {
  }

  lemma UpdateIsExec(event: Event)
    requires UpdateSent(event)
    ensures event.Exec?
  {
  }

  lemma RenderedTemplates(others: seq<Prop>, selection: Selection)
    ensures Get(RenderedUpdate(others, selection), "templates").Arr?
  {
    var templates := [Prop("templates", Arr(TemplateMerge.IdObjects(TemplateSelection.IdsOf(selection.templates))))];
    var clear := if selection.toClear == [] then []
      else [Prop("templates_clear", Arr(TemplateMerge.IdObjects(selection.toClear)))];
    hide TemplateSelection.IdsOf, TemplateMerge.IdObjects;
    assert |"templates"| == 9 && |"templates_clear"| == 15;
    LookupNone(clear, "templates");
    LookupAppend(others + templates, clear, "templates");
    LookupAppend(others, templates, "templates");
    LookupSingle(templates[0], "templates");
  }
}
