/** The request document: reading a message, writing its metadata into a derived request, and
    what survives reading that again. */
module ZabbixRequest {
  import opened Text
  import opened JsonModel

  datatype Request = Request(
    root: Json, params: Json, id: Json, rpcMethod: string, requestId: Option<string>,
    correlationId: Option<string>, entityId: Option<string>, host: Option<string>,
    hostProfile: Option<string>, sourceClass: Option<string>, sourceCardId: Option<string>,
    sourceCode: Option<string>, isMainProfile: bool, rulesVersion: Option<string>, schemaVersion: Option<string>,
    fallbackForMethod: Option<string>, createOnUpdateWhenMissing: bool,
    fallbackUpdateParams: Json, fallbackCreateParams: Json)

  predicate IsMethod(request: Request, name: string) {
    Fold(request.rpcMethod) == name
  }

  predicate IsHostWrite(request: Request) {
    IsMethod(request, "host.create") || IsMethod(request, "host.update")
  }

  function ReadOptionalBool(value: Json, name: string): Option<bool> {
    match Get(value, name)
    case Bool(flag) => Some(flag)
    case Str(text) =>
      var word := Fold(Trim(text));
      if word == "true" then Some(true) else if word == "false" then Some(false) else None
    case _ => None
  }

  function ReadBool(value: Json, name: string): bool {
    ReadOptionalBool(value, name) == Some(true)
  }

  function ObjectOrNothing(value: Json): Json {
    if value.Obj? then value else Undefined
  }

  predicate IsMainProfileName(profile: Option<string>) {
    Missing(profile) || Fold(profile.value) == "default" || Fold(profile.value) == "main"
  }

  function ReadHost(rpcMethod: string, params: Json): Option<string> {
    if !params.Obj? then None
    else if !Missing(ReadString(params, "host")) then ReadString(params, "host")
    else
      var filter := Items(Get(Get(params, "filter"), "host"));
      if Fold(rpcMethod) == "host.get" && filter != [] then ReadScalar(filter[0]) else None
  }

  function Metadata(root: Json): Json {
    ObjectOrNothing(Get(root, "cmdb2monitoring"))
  }

  /** None is the JsonException for a message that is not a JSON object. */
  function Read(key: Option<string>, root: Json, hostOverride: Option<string>): Option<Request> {
    if root.Obj? then Some(ReadObject(key, root, hostOverride)) else None
  }

  function ReadObject(key: Option<string>, root: Json, hostOverride: Option<string>): Request {
    var rpcMethod := TextOf(ReadString(root, "method"));
    var meta, params, id := Metadata(root), Get(root, "params"), Get(root, "id");
    var profile, main := ReadString(meta, "hostProfile"), ReadOptionalBool(meta, "isMainProfile");
    Request(
      root := root, params := params, id := id, rpcMethod := rpcMethod, requestId := ReadScalar(id),
      correlationId := ReadString(meta, "correlationId"),
      entityId := key,
      host := OrElse(hostOverride, OrElse(ReadHost(rpcMethod, params), ReadString(meta, "host"))),
      hostProfile := profile,
      sourceClass := OrElse(ReadString(meta, "sourceClass"), ReadString(meta, "className")),
      sourceCardId := OrElse(ReadString(meta, "sourceCardId"), OrElse(ReadString(meta, "entityId"), key)),
      sourceCode := OrElse(ReadString(meta, "sourceCode"), ReadString(meta, "code")),
      isMainProfile := if main.Some? then main.value else IsMainProfileName(profile),
      rulesVersion := ReadString(meta, "rulesVersion"),
      schemaVersion := ReadString(meta, "schemaVersion"),
      fallbackForMethod := ReadString(meta, "fallbackForMethod"),
      createOnUpdateWhenMissing := ReadBool(meta, "createOnUpdateWhenMissing"),
      fallbackUpdateParams := ObjectOrNothing(Get(meta, "fallbackUpdateParams")),
      fallbackCreateParams := ObjectOrNothing(Get(meta, "fallbackCreateParams")))
  }

  /** The JSON that goes to Zabbix: the message without its metadata. */
  function WirePayload(root: Json): Json
    requires root.Obj?
  {
    if Get(root, "cmdb2monitoring") == Undefined then root else Obj(WithoutMetadata(root.props))
  }

  function WithoutMetadata(props: seq<Prop>): seq<Prop> {
    if props == [] then []
    else (if Fold(props[0].name) == "cmdb2monitoring" then [] else [props[0]]) + WithoutMetadata(props[1..])
  }

  lemma {:induction false} WithoutMetadataLookup(props: seq<Prop>, name: string)
    requires Fold(name) != "cmdb2monitoring"
    ensures Lookup(WithoutMetadata(props), name) == Lookup(props, name)
  {
    if props != [] {
      var rest := WithoutMetadata(props[1..]);
      WithoutMetadataLookup(props[1..], name);
      if Fold(props[0].name) == "cmdb2monitoring" {
        assert WithoutMetadata(props) == [] + rest == rest;
      } else {
        assert ([props[0]] + rest)[1..] == rest;
      }
    }
  }

  /** What is checked is what is sent: method, params and id reach Zabbix as the document shows them,
      and the metadata object does not. */
  lemma WireMatchesDocument(key: Option<string>, root: Json, hostOverride: Option<string>)
    requires root.Obj?
    ensures var request, wire := ReadObject(key, root, hostOverride), WirePayload(root);
            && Get(wire, "params") == request.params
            && Get(wire, "id") == request.id
            && TextOf(ReadString(wire, "method")) == request.rpcMethod
            && Get(wire, "cmdb2monitoring") == Undefined
  {
    assert Fold("params") == "params" && Fold("id") == "id" && Fold("method") == "method";
    WithoutMetadataLookup(root.props, "params");
    WithoutMetadataLookup(root.props, "id");
    WithoutMetadataLookup(root.props, "method");
    MetadataRemoved(root.props);
  }

  lemma {:induction false} MetadataRemoved(props: seq<Prop>)
    ensures Lookup(WithoutMetadata(props), "cmdb2monitoring") == Undefined
  {
    if props != [] {
      var rest := WithoutMetadata(props[1..]);
      MetadataRemoved(props[1..]);
      if Fold(props[0].name) == "cmdb2monitoring" {
        assert WithoutMetadata(props) == [] + rest == rest;
      } else {
        assert Fold("cmdb2monitoring") == "cmdb2monitoring";
        assert ([props[0]] + rest)[1..] == rest;
      }
    }
  }

  // ---------------------------------------------------------------- derived requests

  function OptionalProps(values: seq<(string, Option<string>)>): seq<Prop> {
    if values == [] then []
    else (if Missing(values[0].1) then [] else [Prop(values[0].0, Str(values[0].1.value))]) + OptionalProps(values[1..])
  }

  function MetadataValues(request: Request): seq<(string, Option<string>)> {
    [("entityId", request.entityId), ("sourceCardId", OrElse(request.sourceCardId, request.entityId)),
     ("sourceClass", request.sourceClass), ("sourceCode", request.sourceCode), ("host", request.host),
     ("hostProfile", request.hostProfile), ("rulesVersion", request.rulesVersion),
     ("schemaVersion", request.schemaVersion)]
  }

  function MetadataOf(request: Request, fallbackSource: Option<string>): Json {
    Obj(OptionalProps(MetadataValues(request))
        + [Prop("isMainProfile", Bool(request.isMainProfile))]
        + OptionalProps([("fallbackSource", fallbackSource)]))
  }

  function Envelope(request: Request, fallbackSource: Option<string>, rpcMethod: string, params: Json): Json {
    Obj([Prop("cmdb2monitoring", MetadataOf(request, fallbackSource)), Prop("jsonrpc", Str("2.0")),
         Prop("method", Str(rpcMethod)), Prop("params", params), Prop("id", request.id)])
  }

  /** A request the worker builds from another one and reads back with its entity id and host. */
  function Derived(request: Request, fallbackSource: Option<string>, rpcMethod: string, params: Json): Request {
    ReadObject(request.entityId, Envelope(request, fallbackSource, rpcMethod, params), request.host)
  }

  lemma DerivedShape(request: Request, fallbackSource: Option<string>, rpcMethod: string, params: Json)
    ensures var derived := Derived(request, fallbackSource, rpcMethod, params);
            && derived.root.Obj? && derived.rpcMethod == rpcMethod && derived.params == params
               && derived.id == request.id
            && derived.entityId == request.entityId
            && ReadString(derived.root, "jsonrpc") == Some("2.0")
            && Metadata(derived.root) == MetadataOf(request, fallbackSource)
  {
    var root := Envelope(request, fallbackSource, rpcMethod, params);
    LookupAt(root.props, 0);
    LookupAt(root.props, 1);
    LookupAt(root.props, 2);
    LookupAt(root.props, 3);
    LookupAt(root.props, 4);
  }

  // ---------------------------------------------------------------- source identity

  /** What the binding event is keyed and described by; blank counts as absent. */
  datatype Identity = Identity(
    sourceClass: Option<string>, sourceCardId: Option<string>, sourceCode: Option<string>, hostProfile: Option<string>,
    rulesVersion: Option<string>, schemaVersion: Option<string>, isMainProfile: bool)

  function Visible(value: Option<string>): Option<string> {
    if Missing(value) then None else value
  }

  function IdentityOf(request: Request): Identity {
    Identity(Visible(request.sourceClass), Visible(OrElse(request.sourceCardId, request.entityId)),
             Visible(request.sourceCode), Visible(request.hostProfile),
             Visible(request.rulesVersion), Visible(request.schemaVersion), request.isMainProfile)
  }

  /** The identity with the entity id in place of a blank card id. */
  function CarriedIdentity(request: Request): Identity {
    IdentityOf(request).(sourceCardId := Visible(OrElse(Visible(request.sourceCardId), request.entityId)))
  }

  ghost predicate DistinctNames(values: seq<(string, Option<string>)>) {
    forall i, j :: 0 <= i < j < |values| ==> values[i].0 != values[j].0
  }

  lemma {:induction false} OptionalLookup(values: seq<(string, Option<string>)>, name: string)
    requires forall v :: v in values ==> v.0 != name
    ensures Lookup(OptionalProps(values), name) == Undefined
  {
    if values != [] {
      var rest := OptionalProps(values[1..]);
      OptionalLookup(values[1..], name);
      if Missing(values[0].1) {
        assert OptionalProps(values) == [] + rest == rest;
      } else {
        assert OptionalProps(values)[1..] == rest;
      }
    }
  }

  lemma {:induction false} OptionalLookupAt(values: seq<(string, Option<string>)>, i: nat)
    requires DistinctNames(values) && i < |values|
    ensures Lookup(OptionalProps(values), values[i].0)
            == if Missing(values[i].1) then Undefined else Str(values[i].1.value)
  {
    var rest, name := OptionalProps(values[1..]), values[i].0;
    if i == 0 {
      OptionalLookup(values[1..], name);
    } else {
      OptionalLookupAt(values[1..], i - 1);
    }
    if Missing(values[0].1) {
      assert OptionalProps(values) == [] + rest == rest;
    } else {
      assert OptionalProps(values)[1..] == rest;
    }
  }

  lemma MetadataDistinct(request: Request)
    ensures DistinctNames(MetadataValues(request))
  {
  }

  lemma MetadataText(request: Request, fallbackSource: Option<string>, i: nat)
    requires i < |MetadataValues(request)|
    ensures ReadString(MetadataOf(request, fallbackSource), MetadataValues(request)[i].0)
            == Visible(MetadataValues(request)[i].1)
  {
    var values, name := MetadataValues(request), MetadataValues(request)[i].0;
    MetadataDistinct(request);
    OptionalLookupAt(values, i);
    var flag := Prop("isMainProfile", Bool(request.isMainProfile));
    LookupAppend(OptionalProps(values) + [flag], OptionalProps([("fallbackSource", fallbackSource)]), name);
    LookupAppend(OptionalProps(values), [flag], name);
    LookupSingle(flag, name);
    OptionalLookup([("fallbackSource", fallbackSource)], name);
  }

  lemma MetadataRest(request: Request, fallbackSource: Option<string>, name: string)
    requires name in ["className", "code", "correlationId", "fallbackForMethod", "isMainProfile"]
    ensures Get(MetadataOf(request, fallbackSource), name)
            == if name == "isMainProfile" then Bool(request.isMainProfile) else Undefined
  {
    var flag := Prop("isMainProfile", Bool(request.isMainProfile));
    LookupAppend(OptionalProps(MetadataValues(request)) + [flag], OptionalProps([("fallbackSource", fallbackSource)]),
                 name);
    LookupAppend(OptionalProps(MetadataValues(request)), [flag], name);
    LookupSingle(flag, name);
    OptionalLookup([("fallbackSource", fallbackSource)], name);
    OptionalLookup(MetadataValues(request), name);
  }

  /** Writing the metadata and reading it again conserves the source identity, except that a blank card id
      is replaced by the entity id: the identity is conserved exactly when there is no such replacement. */
  lemma DerivedIdentity(request: Request, fallbackSource: Option<string>, rpcMethod: string, params: Json)
    ensures var derived := Derived(request, fallbackSource, rpcMethod, params);
            && IdentityOf(derived) == CarriedIdentity(request) == CarriedIdentity(derived)
            && (IdentityOf(derived) == IdentityOf(request)
                <==> (Missing(request.sourceCardId) ==> Missing(request.entityId) || request.sourceCardId == None))
    ensures Derived(request, fallbackSource, rpcMethod, params).fallbackForMethod == None
  {
    DerivedShape(request, fallbackSource, rpcMethod, params);
    MetadataText(request, fallbackSource, 0);
    MetadataText(request, fallbackSource, 1);
    MetadataText(request, fallbackSource, 2);
    MetadataText(request, fallbackSource, 3);
    MetadataText(request, fallbackSource, 5);
    MetadataText(request, fallbackSource, 6);
    MetadataText(request, fallbackSource, 7);
    MetadataRest(request, fallbackSource, "className");
    MetadataRest(request, fallbackSource, "code");
    MetadataRest(request, fallbackSource, "isMainProfile");
    MetadataRest(request, fallbackSource, "fallbackForMethod");
  }
}
