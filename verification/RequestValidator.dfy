/** Validation of a request before it is sent, with the template compatibility check. */
module RequestValidator {
  import opened Text
  import opened JsonModel
  import opened ZabbixRequest
  import opened ZabbixApi

  /** The settings of the Zabbix client. extendedFieldErrors stands for the checks of status, macros,
      inventory and TLS fields, which may add any errors. */
  datatype Options = Options(
    validateHostGroups: bool, validateTemplates: bool, validateTemplateGroups: bool,
    validateTemplateCompatibility: bool, allowDynamicHostGroupCreate: bool,
    extendedFieldErrors: Json -> seq<string>)

  const GENERIC_METHODS := [
    "maintenance.get", "maintenance.create", "maintenance.update", "maintenance.delete",
    "usermacro.get", "usermacro.create", "usermacro.update", "usermacro.delete",
    "proxy.get", "proxy.create", "proxy.update", "proxy.delete",
    "valuemap.get", "valuemap.create", "valuemap.update", "valuemap.delete"]

  function When(condition: bool, error: string): seq<string> {
    if condition then [error] else []
  }

  function TagErrors(params: Json): seq<string> {
    match Get(params, "tags")
    case Undefined => []
    case Arr(items) =>
      When(exists tag :: tag in items && Missing(ReadString(tag, "tag")), "invalid_tag")
    case _ => ["invalid_tags"]
  }

  function HostCreateErrors(options: Options, params: Json): seq<string> {
    if !params.Obj? then ["missing_params"]
    else
      When(Missing(ReadString(params, "host")), "missing_host")
      + When(ObjectArray(params, "interfaces") == [], "missing_interfaces")
      + When(ObjectArray(params, "groups") == [], "missing_host_group")
      + When(ObjectArray(params, "templates") == [], "missing_template")
      + TagErrors(params) + options.extendedFieldErrors(params)
  }

  function HostUpdateErrors(options: Options, params: Json): seq<string> {
    if !params.Obj? then ["missing_params"]
    else
      When(Missing(ReadString(params, "hostid")), "missing_hostid")
      + TagErrors(params) + options.extendedFieldErrors(params)
  }

  function HostDeleteErrors(params: Json): seq<string> {
    if Items(params) == [] then ["missing_hostid"]
    else When(exists item :: item in Items(params) && Missing(ReadScalar(item)), "invalid_hostid")
  }

  function HostGetErrors(params: Json): seq<string> {
    if !params.Obj? then ["missing_params"]
    else
      When(Items(Get(ObjectOrNothing(Get(params, "filter")), "host")) == [] && Items(Get(params, "hostids")) == [],
           "missing_host_filter")
  }

  function ShapeErrors(options: Options, request: Request): seq<string> {
    if !request.root.Obj? then ["invalid_jsonrpc_payload"]
    else
      var version := When(ReadString(request.root, "jsonrpc") != Some("2.0"), "missing_jsonrpc_version");
      if Blank(request.rpcMethod) then version + ["missing_method"]
      else
        version + When(request.id == Undefined, "missing_request_id")
        + if IsMethod(request, "host.create") then HostCreateErrors(options, request.params)
          else if IsMethod(request, "host.update") then HostUpdateErrors(options, request.params)
          else if IsMethod(request, "host.delete") then HostDeleteErrors(request.params)
          else if IsMethod(request, "host.get") then HostGetErrors(request.params)
          else if Fold(request.rpcMethod) in GENERIC_METHODS then
            When(!request.params.Obj? && !request.params.Arr?, "missing_params")
          else ["unsupported_method"]
  }

  /** The first host group that has neither an id nor, after resolution, any right to be there. */
  function GroupShapeErrors(options: Options, groups: seq<Json>): seq<string> {
    if groups == [] then []
    else if !groups[0].Obj? then ["invalid_host_group"]
    else if !Missing(ReadString(groups[0], "groupid")) then GroupShapeErrors(options, groups[1..])
    else if Missing(ReadString(groups[0], "name")) then ["missing_host_group"]
    else if ReadBool(groups[0], "createIfMissing") && !options.allowDynamicHostGroupCreate then ["auto_expand_disabled"]
    else ["missing_host_group"]
  }

  function IdsOf(params: Json, arrayName: string, idName: string): seq<string> {
    Distinct(NonBlank(Field(idName, ObjectArray(params, arrayName))))
  }

  // ---------------------------------------------------------------- template compatibility

  predicate SharesKey(left: seq<string>, right: seq<string>) {
    exists a, b :: a in left && b in right && !Blank(a) && Same(a, b)
  }

  predicate SharesLink(left: seq<InventoryItem>, right: seq<InventoryItem>) {
    exists a, b :: a in left && b in right && !Blank(a.link) && Fold(a.link) != "0" && Same(a.link, b.link)
  }

  /** Two templates of the selection that Zabbix would refuse together. */
  predicate Clash(left: TemplateInfo, right: TemplateInfo) {
    || ((left.templateId != right.templateId || left.name != right.name)
        && (SharesKey(left.itemKeys, right.itemKeys) || SharesKey(left.ruleKeys, right.ruleKeys)))
    || (!Same(left.templateId, right.templateId) && SharesLink(left.inventory, right.inventory))
  }

  predicate Incompatible(selected: seq<TemplateInfo>) {
    exists left, right :: left in selected && right in selected && Clash(left, right)
  }

  function Selected(ids: seq<string>, templates: map<string, TemplateInfo>): (r: seq<TemplateInfo>)
    ensures forall t :: t in r <==> exists id :: id in ids && Fold(id) in templates && templates[Fold(id)] == t
  {
    if ids == [] then []
    else
      assert ids == [ids[0]] + ids[1..];
      (if Fold(ids[0]) in templates then [templates[Fold(ids[0])]] else []) + Selected(ids[1..], templates)
  }

  function Absent(ids: seq<string>, known: set<string>): (r: seq<string>)
    ensures r == [] <==> forall id :: id in ids ==> Fold(id) in known
  {
    if ids == [] then []
    else
      assert ids == [ids[0]] + ids[1..];
      (if Fold(ids[0]) in known then [] else [ids[0]]) + Absent(ids[1..], known)
  }

  function TemplateErrors(options: Options, ids: seq<string>, templates: map<string, TemplateInfo>): seq<string> {
    var missing := Absent(ids, templates.Keys);
    When(missing != [], "missing_template")
    + When(options.validateTemplateCompatibility && missing == []
           && Incompatible(Selected(ids, templates)), "template_conflict")
    + When(options.validateTemplateGroups && exists id ::
           id in templates && templates[id].groupIds == [], "missing_template_group")
  }

  // ---------------------------------------------------------------- the whole validation

  function ValidateHostGroups(options: Options, oracle: Oracle, log: seq<Event>, request: Request): Run<seq<string>> {
    var ids := IdsOf(request.params, "groups", "groupid");
    if !IsHostWrite(request) || !options.validateHostGroups || ids == [] then Done(log, [])
    else
      var (log, existing) :- GetExistingHostGroupIds(oracle, log, ids);
      Done(log, When(Absent(ids, existing) != [], "missing_host_group"))
  }

  function ValidateTemplates(options: Options, oracle: Oracle, log: seq<Event>, request: Request): Run<seq<string>> {
    var ids := IdsOf(request.params, "templates", "templateid");
    if !IsHostWrite(request) || !options.validateTemplates || ids == [] then Done(log, [])
    else
      var (log, templates) :- GetTemplateInfos(oracle, log, ids);
      Done(log, TemplateErrors(options, ids, templates))
  }

  /** The errors found; the request is valid when there are none. */
  function Validate(options: Options, oracle: Oracle, log: seq<Event>, request: Request): Run<seq<string>> {
    var shape := ShapeErrors(options, request);
    if shape != [] then Done(log, shape)
    else
      var groups := if IsHostWrite(request) then GroupShapeErrors(options, Items(Get(request.params, "groups")))
        else [];
      if groups != [] then Done(log, groups)
      else
        var (log, groupErrors) :- ValidateHostGroups(options, oracle, log, request);
        var (log, templateErrors) :- ValidateTemplates(options, oracle, log, request);
        Done(log, groupErrors + templateErrors)
  }

  lemma ValidateIsQuiet(options: Options, oracle: Oracle, log: seq<Event>, request: Request)
    ensures Quiet(log, Validate(options, oracle, log, request).log)
  {
    hide ShapeErrors, GroupShapeErrors, IdsOf, TemplateErrors;
  }

  /** A template list that was loaded in the attempt and in which no two templates clash. */
  ghost predicate CompatibleTemplates(event: Event, params: Json) {
    && event.LoadTemplates? && event.loaded.Returns?
    && event.templateIds == IdsOf(params, "templates", "templateid")
    && (forall id :: id in event.templateIds ==> Fold(id) in event.loaded.value)
    && !Incompatible(Selected(event.templateIds, event.loaded.value))
  }

  lemma NoTemplateErrors(options: Options, ids: seq<string>, templates: map<string, TemplateInfo>)
    requires options.validateTemplateCompatibility
    ensures TemplateErrors(options, ids, templates) == [] ==>
              (forall id :: id in ids ==> Fold(id) in templates) && !Incompatible(Selected(ids, templates))
  {
    hide Incompatible;
    hide Selected;
  }

  /** A host write is only found valid after its own template list was loaded and found compatible. */
  lemma ValidTemplates(options: Options, oracle: Oracle, log: seq<Event>, request: Request)
    requires IsHostWrite(request) && options.validateTemplates && options.validateTemplateCompatibility
    ensures var run := Validate(options, oracle, log, request);
            run.Done? && run.value == [] && IdsOf(request.params, "templates", "templateid") != [] ==>
              exists i :: |log| <= i < |run.log| && CompatibleTemplates(run.log[i], request.params)
  {
    hide ShapeErrors, GroupShapeErrors, IdsOf, TemplateErrors, Incompatible, Selected;
    var ids := IdsOf(request.params, "templates", "templateid");
    var run := Validate(options, oracle, log, request);
    if run.Done? && run.value == [] && ids != [] {
      var groups := ValidateHostGroups(options, oracle, log, request);
      var after := ValidateTemplates(options, oracle, groups.log, request).log;
      assert run.log == after;
      assert after[|after| - 1].LoadTemplates? && after[|after| - 1].templateIds == ids;
      NoTemplateErrors(options, ids, after[|after| - 1].loaded.value);
      assert CompatibleTemplates(after[|after| - 1], request.params);
    }
  }
}
