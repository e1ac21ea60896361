/** Answers with several records of one host: the paths that read the first record only send what the others forbid. */
module ProtectedRecords {
  import opened Text
  import opened JsonModel
  import opened ZabbixRequest
  import opened ZabbixApi
  import opened RequestValidator
  import opened HostUpdate
  import HostGroupResolver
  import opened RequestWorker
  import opened ProtectedHostGuard

  /** Protection on, for the host named "agg"; everything else off. */
  const PROTECTING :=
    Config(Options(false, false, false, false, false, params => []), 1, true, ["agg"], [])

  const FIRST := Obj([Prop("hostid", Str("7")), Prop("host", Str("web"))])

  const SECOND := Obj([Prop("hostid", Str("7")), Prop("host", Str("agg"))])

  const TWO_RECORDS := ApiResult(true, Parsed(Obj([Prop("result", Arr([FIRST, SECOND]))])), None)

  /** Zabbix gives this answer to every request. */
  const ANSWERS: Oracle := n => Reply(Returns(TWO_RECORDS), Raises, Raises, Raises, Raises)

  const LOOKUP := Obj([Prop("hostids", Arr([Str("7")]))])

  const UPDATE := Obj([Prop("hostid", Str("7")), Prop("inventory", Obj([]))])

  /** The mutation was sent after a lookup that shows its target as protected. */
  ghost predicate SentDespiteRecord(log: seq<Event>) {
    && |log| == 2 && FoundHosts(log[0]) && MutationSent(log[1])
    && MutationHostIds(log[1].request) == ["7"] && LaterProtected(PROTECTING, log[0])
    && !ClearsTargets(PROTECTING, log[0], log[1].request)
  }

  // ---------------------------------------------------------------- the answer

  lemma RecordRead(host: string)
    ensures var record := ReadHostInfo(Obj([Prop("hostid", Str("7")), Prop("host", Str(host))]));
            && record.hostId == "7" && record.host == Some(host) && record.name == None && record.tags == []
            && record.inventory == Undefined
    ensures ReadString(Obj([Prop("hostid", Str("7")), Prop("host", Str(host))]), "hostid") == Some("7")
  {
    var props := [Prop("hostid", Str("7")), Prop("host", Str(host))];
    assert |"hostid"| == 6 && |"host"| == 4 && |"tags"| == 4 && |"inventory"| == 9 && |"name"| == 4;
    assert "host"[0] == 'h' && "tags"[0] == 't' && "name"[0] == 'n';
    LookupAt(props, 0);
    LookupAt(props, 1);
    LookupNone(props, "name");
    LookupNone(props, "tags");
    LookupNone(props, "inventory");
  }

  lemma RecordsRead()
    ensures ReadHostLookupInfos(TWO_RECORDS.body) == Returns([ReadHostInfo(FIRST), ReadHostInfo(SECOND)])
  {
    hide ReadHostInfo, ReadString, Blank, Lookup;
    RecordRead("web");
    RecordRead("agg");
    FirstIds();
    var body := [Prop("result", Arr([FIRST, SECOND]))];
    LookupSingle(body[0], "result");
    assert Get(Obj(body), "result") == Arr([FIRST, SECOND]);
    TwoInfos(FIRST, SECOND);
  }

  lemma TwoInfos(first: Json, second: Json)
    requires !Missing(ReadString(first, "hostid")) && !Missing(ReadString(second, "hostid"))
    ensures ReadHostInfos([first, second]) == [ReadHostInfo(first), ReadHostInfo(second)]
  {
    hide ReadHostInfo, ReadString;
    assert [first, second][1..] == [second] && [second][1..] == [];
    assert ReadHostInfos([second]) == [ReadHostInfo(second)];
  }

  lemma NamesProtected()
    ensures !ProtectedHost(PROTECTING, ReadHostInfo(FIRST)) && ProtectedHost(PROTECTING, ReadHostInfo(SECOND))
  {
    RecordRead("web");
    RecordRead("agg");
    NotAgg();
    hide ReadHostInfo;
    assert "agg" in PROTECTING.protectedHostNames;
  }

  lemma NotAgg()
    ensures !SameScalar(Some("web"), Some("agg")) && !SameScalar(None, Some("agg")) && !Blank("agg")
  {
    assert Fold("web")[0] == 'w' && Fold("agg")[0] == 'a' && |Fold("")| == 0;
    assert "agg"[0] in "agg" && !IsSpace('a');
  }

  /** A delete or update of the first record, sent after the lookup with this answer. */
  lemma SentAfterLookup(log: seq<Event>, lookup: Request, request: Request, answer: Answer<ApiResult>)
    requires log == [Exec(lookup, Returns(TWO_RECORDS)), Exec(request, answer)] && IsMethod(lookup, "host.get")
    requires IsHostMutation(request) && MutationHostIds(request) == ["7"]
    ensures SentDespiteRecord(log)
  {
    hide MutationHostIds, ReadHostInfo, ProtectedHost, ReadHostLookupInfos;
    RecordsRead();
    NamesProtected();
    FirstIds();
    assert FoundHosts(log[0]);
    var infos := Records(log[0]);
    assert Same(infos[1].hostId, infos[0].hostId);
    assert LaterProtected(PROTECTING, log[0]);
    assert Guards(PROTECTING, log[0], request, true);
    GuardsExactly(PROTECTING, log[0], request, true);
  }

  lemma FirstIds()
    ensures ReadHostInfo(FIRST).hostId == "7" && ReadHostInfo(SECOND).hostId == "7"
    ensures ReadHostInfo(FIRST).inventory == Undefined && !Blank("7")
  {
    RecordRead("web");
    RecordRead("agg");
    assert "7"[0] in "7" && !IsSpace('7');
  }

  // ---------------------------------------------------------------- the messages

  function Message(rpcMethod: string, params: Json, meta: Json): Request {
    ReadObject(None, Obj([Prop("jsonrpc", Str("2.0")), Prop("method", Str(rpcMethod)), Prop("params", params),
                          Prop("id", Num("1")), Prop("cmdb2monitoring", meta)]), None)
  }

  lemma MessageShape(rpcMethod: string, params: Json, meta: Json)
    ensures var request := Message(rpcMethod, params, meta);
            && request.root.Obj? && request.rpcMethod == rpcMethod && request.params == params
            && request.id == Num("1") && ReadString(request.root, "jsonrpc") == Some("2.0")
            && Metadata(request.root) == ObjectOrNothing(meta) && HostGroupResolver.Consistent(request)
            && request.fallbackForMethod == ReadString(ObjectOrNothing(meta), "fallbackForMethod")
            && request.fallbackUpdateParams == ObjectOrNothing(Get(ObjectOrNothing(meta), "fallbackUpdateParams"))
  {
    var root := Message(rpcMethod, params, meta).root;
    LookupAt(root.props, 0);
    LookupAt(root.props, 1);
    LookupAt(root.props, 2);
    LookupAt(root.props, 3);
    LookupAt(root.props, 4);
  }

  lemma NoIds(params: Json, name: string, idName: string)
    requires Get(params, name) == Undefined
    ensures RequestValidator.IdsOf(params, name, idName) == []
  {
    assert Field(idName, []) == [];
  }

  /** What has the right shape and names neither groups nor templates is valid. */
  lemma PlainValid(options: Options, oracle: Oracle, log: seq<Event>, request: Request)
    requires ShapeErrors(options, request) == []
    requires IsHostWrite(request) ==>
               Get(request.params, "groups") == Undefined && Get(request.params, "templates") == Undefined
    ensures Validate(options, oracle, log, request) == Done(log, [])
  {
    hide ShapeErrors, RequestValidator.IdsOf, Get;
    var none: seq<string> := [];
    assert none + none == none;
    if IsHostWrite(request) {
      NoIds(request.params, "groups", "groupid");
      NoIds(request.params, "templates", "templateid");
    }
  }

  /** The lookup, the update and the delete have the right shape. */
  ghost predicate Sendable(request: Request) {
    && request.root.Obj? && request.id != Undefined && ReadString(request.root, "jsonrpc") == Some("2.0")
    && (|| (request.rpcMethod == "host.get" && Items(Get(request.params, "hostids")) != [] && request.params.Obj?)
        || (request.rpcMethod == "host.update" && request.params == UPDATE)
        || (request.rpcMethod == "host.delete" && request.params == Arr([Str("7")])))
  }

  lemma MethodsDiffer()
    ensures Fold("host.get") == "host.get" && Fold("host.update") == "host.update"
    ensures Fold("host.delete") == "host.delete"
    ensures "host.get" != "host.update" && "host.get" != "host.delete" && "host.update" != "host.delete"
    ensures "host.create" != "host.get" && "host.create" != "host.update" && "host.create" != "host.delete"
    ensures !Blank("host.get") && !Blank("host.update") && !Blank("host.delete")
  {
    FoldedMethods();
    assert "host.get"[5] == 'g' && "host.update"[5] == 'u' && "host.delete"[5] == 'd' && "host.create"[5] == 'c';
    assert "host.get"[0] == "host.update"[0] == "host.delete"[0] == 'h' && !IsSpace('h');
    hide Fold;
    assert "host.get"[0] in "host.get" && "host.update"[0] in "host.update" && "host.delete"[0] in "host.delete";
  }

  lemma UpdateRead()
    ensures ReadString(UPDATE, "hostid") == Some("7") && Get(UPDATE, "inventory") == Obj([])
    ensures forall name :: name in ["groups", "templates", "templates_clear", "tags", "macros", "host", "name"] ==>
              Get(UPDATE, name) == Undefined
  {
    assert "hostid"[4] == 'i' && "inventory"[0] == 'i' && "hostid"[0] == 'h' && |"hostid"| == 6;
    LookupAt(UPDATE.props, 0);
    LookupAt(UPDATE.props, 1);
    forall name | name in ["groups", "templates", "templates_clear", "tags", "macros", "host", "name"]
      ensures Get(UPDATE, name) == Undefined
    {
      assert name[0] != 'i' && (name[0] == 'h' ==> |name| == 4);
      LookupNone(UPDATE.props, name);
    }
  }

  lemma NoErrors(options: Options, request: Request)
    requires request.root.Obj? && request.id != Undefined && ReadString(request.root, "jsonrpc") == Some("2.0")
    requires || (request.rpcMethod == "host.get" && HostGetErrors(request.params) == [])
             || (request.rpcMethod == "host.update" && HostUpdateErrors(options, request.params) == [])
             || (request.rpcMethod == "host.delete" && HostDeleteErrors(request.params) == [])
    ensures ShapeErrors(options, request) == []
  {
    MethodsDiffer();
    hide Fold, Blank, Get, HostGetErrors, HostUpdateErrors, HostDeleteErrors, ReadString;
    var none: seq<string> := [];
    assert none + none == none;
  }

  lemma NoUpdateErrors(options: Options, params: Json)
    requires params.Obj? && !Missing(ReadString(params, "hostid")) && Get(params, "tags") == Undefined
    requires options.extendedFieldErrors(params) == []
    ensures HostUpdateErrors(options, params) == []
  {
    hide Get, Missing, ReadString;
    var none: seq<string> := [];
    assert none + none == none;
  }

  lemma NoExtendedErrors(params: Json)
    ensures PROTECTING.zabbix.extendedFieldErrors(params) == []
  {
  }

  lemma UpdateNamesHost(params: Json)
    requires ReadString(params, "hostid") == Some("7")
    ensures !Missing(ReadString(params, "hostid"))
  {
    hide ReadString, Blank;
    FirstIds();
  }

  lemma UpdateHasNoErrors()
    ensures HostUpdateErrors(PROTECTING.zabbix, UPDATE) == []
  {
    hide Get, Missing, ReadString, HostUpdateErrors;
    UpdateRead();
    UpdateNamesHost(UPDATE);
    NoExtendedErrors(UPDATE);
    NoUpdateErrors(PROTECTING.zabbix, UPDATE);
  }

  lemma DeleteHasNoErrors()
    ensures HostDeleteErrors(Arr([Str("7")])) == []
  {
    hide Blank;
    FirstIds();
    assert forall item :: item in [Str("7")] ==> item == Str("7");
  }

  lemma SendableIsValid(oracle: Oracle, log: seq<Event>, request: Request)
    requires Sendable(request)
    ensures Validate(PROTECTING.zabbix, oracle, log, request) == Done(log, [])
  {
    hide Fold, Blank, Get, Validate, ShapeErrors, HostUpdateErrors, HostDeleteErrors;
    MethodsDiffer();
    UpdateRead();
    UpdateHasNoErrors();
    DeleteHasNoErrors();
    NoErrors(PROTECTING.zabbix, request);
    PlainValid(PROTECTING.zabbix, oracle, log, request);
  }

  // ---------------------------------------------------------------- what is sent

  lemma UnmarkedUpdate(request: Request)
    requires request.rpcMethod == "host.update" && request.params == UPDATE
    ensures !MarkedPayload(PROTECTING, request)
  {
    hide Get, Fold, Blank, SameScalar;
    UpdateRead();
    NotAgg();
    assert ObjectArray(UPDATE, "tags") == [];
  }

  /** The delete fallback deletes the first record. */
  lemma DeleteIsSent(lookup: Request, log: seq<Event>)
    requires lookup.id != Undefined
    ensures exists delete: Request ::
              && delete.rpcMethod == "host.delete" && delete.params == Arr([Str("7")])
              && ProcessDeleteFallback(PROTECTING, ANSWERS, log, lookup, TWO_RECORDS).log ==
                 log + [Exec(delete, Returns(TWO_RECORDS))]
  {
    hide Validate, ProtectedHost, ReadHostLookupInfos, ReadHostInfo, FromApiResult, Derived;
    RecordsRead();
    NamesProtected();
    FirstIds();
    var delete := Derived(lookup, None, "host.delete", Arr([Str("7")]));
    DerivedShape(lookup, None, "host.delete", Arr([Str("7")]));
    SendableIsValid(ANSWERS, log, delete);
    FromApiResultLog(log + [Exec(delete, Returns(TWO_RECORDS))], delete, TWO_RECORDS);
  }

  lemma InventoryMerged(info: HostInfo, clear: set<string>)
    requires info.inventory == Undefined
    ensures MergedProp(Prop("inventory", Obj([])), info, clear) == [Prop("inventory", Obj([]))]
  {
    var name := "inventory";
    assert Fold(name) == "inventory";
    assert |name| == 9 && name[0] == 'i' && |"interfaces"| == 10;
    hide Fold;
  }

  lemma HostIdMerged(info: HostInfo, clear: set<string>)
    ensures MergedProp(Prop("hostid", Str("7")), info, clear) == []
  {
    assert Fold("hostid") == "hostid";
    hide Fold;
  }

  lemma FirstMerged()
    ensures UpdateParams(UPDATE, ReadHostInfo(FIRST)) == UPDATE
  {
    hide ReadHostInfo, IdSet, MergedProp;
    FirstIds();
    var info, props := ReadHostInfo(FIRST), UPDATE.props;
    var clear := IdSet(Items(Get(UPDATE, "templates_clear")));
    InventoryMerged(info, clear);
    HostIdMerged(info, clear);
    assert props[1..] == [props[1]] && props[1..][1..] == [];
    assert MergedProps(props[1..], info, clear) == [props[1]] + [];
    assert MergedProps(props, info, clear) == [] + [props[1]];
  }

  /** An update with these parameters is sent as it is built. */
  lemma UpdateIsSent(update: Request, log: seq<Event>)
    requires HostGroupResolver.Consistent(update) && Sendable(update) && update.rpcMethod == "host.update"
    ensures SendHostWrite(PROTECTING, ANSWERS, log, update).log == log + [Exec(update, Returns(TWO_RECORDS))]
  {
    hide Validate, MarkedPayload, FromApiResult, Get, HostGroupResolver.Consistent;
    UpdateRead();
    assert Get(update.params, "groups") == Undefined;
    assert HostGroupResolver.Resolve(false, ANSWERS, log, update) == Done(log, update);
    hide HostGroupResolver.Resolve;
    SendableIsValid(ANSWERS, log, update);
    UnmarkedUpdate(update);
    FromApiResultLog(log + [Exec(update, Returns(TWO_RECORDS))], update, TWO_RECORDS);
  }

  // ---------------------------------------------------------------- the three paths

  lemma LookupRuns(lookup: Request)
    requires lookup.rpcMethod == "host.get" && Sendable(lookup)
    ensures var log := [Exec(lookup, Returns(TWO_RECORDS))];
            ProcessRequest(PROTECTING, ANSWERS, lookup) ==
              if IsFallbackFor(lookup, "host.delete") then
                ProcessDeleteFallback(PROTECTING, ANSWERS, log, lookup, TWO_RECORDS)
              else if IsFallbackFor(lookup, "host.update") then
                ProcessUpdateFallback(PROTECTING, ANSWERS, log, lookup, TWO_RECORDS)
              else FromApiResult(log, lookup, TWO_RECORDS)
  {
    hide Validate, MarkedPayload, IsMergeableUpdate, ProcessDeleteFallback, ProcessUpdateFallback, FromApiResult;
    hide MutationHostIds, IsHostWrite, IsFallbackFor, ProcessDirectUpdate, Sendable, Fold;
    MethodsDiffer();
    GetIsNoWrite(PROTECTING, lookup);
    SendableIsValid(ANSWERS, [], lookup);
    assert HostGroupResolver.Resolve(false, ANSWERS, [], lookup) == Done([], lookup);
    assert CheckMutationTargets(PROTECTING, ANSWERS, [], lookup) == Done([], None);
    hide HostGroupResolver.Resolve, CheckMutationTargets;
    assert [] + [Exec(lookup, Returns(TWO_RECORDS))] == [Exec(lookup, Returns(TWO_RECORDS))];
  }

  const DELETING := Message("host.get", LOOKUP, Obj([Prop("fallbackForMethod", Str("host.delete"))]))

  const UPDATING :=
    Message("host.get", LOOKUP,
            Obj([Prop("fallbackForMethod", Str("host.update")), Prop("fallbackUpdateParams", UPDATE)]))

  const MERGING := Message("host.update", UPDATE, Undefined)

  lemma LookupIsSendable(meta: Json)
    ensures Sendable(Message("host.get", LOOKUP, meta))
  {
    hide Message, ReadString, Lookup;
    MessageShape("host.get", LOOKUP, meta);
    LookupSingle(Prop("hostids", Arr([Str("7")])), "hostids");
  }

  lemma DeletingShape()
    ensures Sendable(DELETING) && DELETING.rpcMethod == "host.get" && IsFallbackFor(DELETING, "host.delete")
  {
    hide Message, Sendable, Lookup, Fold;
    var meta := Obj([Prop("fallbackForMethod", Str("host.delete"))]);
    MessageShape("host.get", LOOKUP, meta);
    LookupIsSendable(meta);
    LookupSingle(meta.props[0], "fallbackForMethod");
    MethodsDiffer();
  }

  lemma UpdatingShape()
    ensures Sendable(UPDATING) && UPDATING.rpcMethod == "host.get" && IsFallbackFor(UPDATING, "host.update")
    ensures !IsFallbackFor(UPDATING, "host.delete") && UPDATING.fallbackUpdateParams == UPDATE
  {
    hide Message, Sendable, Lookup, Fold;
    var meta := Obj([Prop("fallbackForMethod", Str("host.update")), Prop("fallbackUpdateParams", UPDATE)]);
    assert |"fallbackForMethod"| == 17 && |"fallbackUpdateParams"| == 20;
    MessageShape("host.get", LOOKUP, meta);
    LookupIsSendable(meta);
    LookupAt(meta.props, 0);
    LookupAt(meta.props, 1);
    MethodsDiffer();
  }

  /** The delete fallback deletes a host that a later record of the answer shows as protected. */
  lemma SecondRecordDeleted()
    ensures SentDespiteRecord(ProcessRequest(PROTECTING, ANSWERS, DELETING).log)
  {
    hide Message, Sendable, ProcessRequest, ProcessDeleteFallback, Fold, SentDespiteRecord, ProcessUpdateFallback;
    hide FromApiResult;
    MethodsDiffer();
    DeletingShape();
    LookupRuns(DELETING);
    var log := [Exec(DELETING, Returns(TWO_RECORDS))];
    IdOfSendable(DELETING);
    DeleteIsSent(DELETING, log);
    var delete: Request :| delete.rpcMethod == "host.delete" && delete.params == Arr([Str("7")])
                           && ProcessRequest(PROTECTING, ANSWERS, DELETING).log ==
                              log + [Exec(delete, Returns(TWO_RECORDS))];
    DeleteIsDespite(log + [Exec(delete, Returns(TWO_RECORDS))], DELETING, delete);
  }

  lemma DeleteIsDespite(log: seq<Event>, lookup: Request, delete: Request)
    requires delete.rpcMethod == "host.delete" && delete.params == Arr([Str("7")]) && IsMethod(lookup, "host.get")
    requires log == [Exec(lookup, Returns(TWO_RECORDS)), Exec(delete, Returns(TWO_RECORDS))]
    ensures SentDespiteRecord(log)
  {
    hide Fold, MutationHostIds, SentDespiteRecord;
    MethodsDiffer();
    FirstIds();
    DeleteTargets(delete, "7");
    SentAfterLookup(log, lookup, delete, Returns(TWO_RECORDS));
  }

  lemma IdOfSendable(request: Request)
    requires Sendable(request)
    ensures request.id != Undefined
  {
  }

  /** The merged update after a lookup with this answer. */
  lemma MergedIsSent(request: Request, log: seq<Event>)
    requires request.id != Undefined
    ensures exists update: Request ::
              && update.rpcMethod == "host.update" && update.params == UPDATE
              && SendHostWrite(PROTECTING, ANSWERS, log,
                               Derived(request, None, "host.update", UpdateParams(UPDATE, ReadHostInfo(FIRST)))).log ==
                 log + [Exec(update, Returns(TWO_RECORDS))]
  {
    hide SendHostWrite, Derived, ReadHostInfo, UpdateParams, HostGroupResolver.Consistent;
    FirstMerged();
    var update := Derived(request, None, "host.update", UPDATE);
    DerivedShape(request, None, "host.update", UPDATE);
    DerivedIsConsistent(request, None, "host.update", UPDATE);
    UpdateIsSent(update, log);
  }

  lemma MergedIsDespite(log: seq<Event>, lookup: Request, update: Request)
    requires update.rpcMethod == "host.update" && update.params == UPDATE && IsMethod(lookup, "host.get")
    requires log == [Exec(lookup, Returns(TWO_RECORDS)), Exec(update, Returns(TWO_RECORDS))]
    ensures SentDespiteRecord(log)
  {
    hide Fold, MutationHostIds, SentDespiteRecord;
    MethodsDiffer();
    FirstIds();
    UpdateRead();
    UpdateTargets(update, "7");
    SentAfterLookup(log, lookup, update, Returns(TWO_RECORDS));
  }

  /** So does the update fallback update it. */
  lemma SecondRecordUpdated()
    ensures SentDespiteRecord(ProcessRequest(PROTECTING, ANSWERS, UPDATING).log)
  {
    hide Message, Sendable, ProcessRequest, SendHostWrite, Derived, Fold, SentDespiteRecord, ReadHostInfo;
    hide ReadHostLookupInfos, ProtectedHost, UpdateParams;
    UpdatingShape();
    LookupRuns(UPDATING);
    RecordsRead();
    NamesProtected();
    IdOfSendable(UPDATING);
    var log := [Exec(UPDATING, Returns(TWO_RECORDS))];
    MergedIsSent(UPDATING, log);
    var payload := UpdateParams(UPDATE, ReadHostInfo(FIRST));
    var update: Request :| update.rpcMethod == "host.update" && update.params == UPDATE
                           && SendHostWrite(PROTECTING, ANSWERS, log,
                                            Derived(UPDATING, None, "host.update", payload)).log ==
                              log + [Exec(update, Returns(TWO_RECORDS))];
    MethodsDiffer();
    MergedIsDespite(log + [Exec(update, Returns(TWO_RECORDS))], UPDATING, update);
  }

  lemma MergingShape()
    ensures Sendable(MERGING) && IsMergeableUpdate(MERGING) && HostGroupResolver.Consistent(MERGING)
    ensures MERGING.params == UPDATE && MERGING.id != Undefined && MERGING.rpcMethod == "host.update"
  {
    hide Message, Lookup, Fold, HostGroupResolver.Consistent;
    MessageShape("host.update", UPDATE, Undefined);
    UpdateRead();
    MethodsDiffer();
  }

  lemma LookupById(request: Request)
    requires request.id != Undefined
    ensures Sendable(HostGetByIds(request, ["7"]))
  {
    hide HostGetParams, Derived;
    DerivedShape(request, None, "host.get", HostGetParams(["7"]));
    HostGetIds(["7"]);
    assert HostGetParams(["7"]).Obj? by { ParamsAreObject(["7"]); }
    hide Get;
  }

  lemma ParamsAreObject(hostIds: seq<string>)
    ensures HostGetParams(hostIds).Obj?
  {
  }

  /** And the update of a request of its own is merged and sent. */
  lemma SecondRecordMerged()
    ensures SentDespiteRecord(ProcessRequest(PROTECTING, ANSWERS, MERGING).log)
  {
    hide Message, Sendable, SendHostWrite, Derived, Fold, SentDespiteRecord, ReadHostInfo, Validate, MarkedPayload;
    hide ReadHostLookupInfos, ProtectedHost, UpdateParams, HostGetByIds, IsMergeableUpdate, Get;
    MergingShape();
    UpdateRead();
    FirstIds();
    RecordsRead();
    NamesProtected();
    assert Get(MERGING.params, "groups") == Undefined;
    assert HostGroupResolver.Resolve(false, ANSWERS, [], MERGING) == Done([], MERGING);
    hide HostGroupResolver.Resolve;
    SendableIsValid(ANSWERS, [], MERGING);
    UnmarkedUpdate(MERGING);
    assert ProcessRequest(PROTECTING, ANSWERS, MERGING) == ProcessDirectUpdate(PROTECTING, ANSWERS, [], MERGING);
    hide ProcessRequest;
    var lookup := HostGetByIds(MERGING, ["7"]);
    LookupById(MERGING);
    HostGetShape(MERGING, ["7"]);
    SendableIsValid(ANSWERS, [], lookup);
    var log := [Exec(lookup, Returns(TWO_RECORDS))];
    assert [] + log == log;
    MergedIsSent(MERGING, log);
    var payload := UpdateParams(UPDATE, ReadHostInfo(FIRST));
    var update: Request :| update.rpcMethod == "host.update" && update.params == UPDATE
                           && SendHostWrite(PROTECTING, ANSWERS, log,
                                            Derived(MERGING, None, "host.update", payload)).log ==
                              log + [Exec(update, Returns(TWO_RECORDS))];
    MergedIsDespite(log + [Exec(update, Returns(TWO_RECORDS))], lookup, update);
  }
}
