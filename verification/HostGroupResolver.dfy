/** Host groups given by name are replaced by their ids, and created when they may be. */
module HostGroupResolver {
  import opened Text
  import opened JsonModel
  import opened ZabbixRequest
  import opened ZabbixApi

  function NamesToResolve(groups: seq<Json>): seq<Option<string>> {
    if groups == [] then []
    else
      (if groups[0].Obj? && Missing(ReadString(groups[0], "groupid")) then [ReadString(groups[0], "name")] else [])
      + NamesToResolve(groups[1..])
  }

  function CreateMissing(
    oracle: Oracle, log: seq<Event>, groups: seq<Json>, resolved: map<string, string>): Run<map<string, string>>
    decreases |groups|
  {
    if groups == [] then Done(log, resolved)
    else
      var name := ReadString(groups[0], "name");
      if Missing(name) || Fold(name.value) in resolved || !ReadBool(groups[0], "createIfMissing") then
        CreateMissing(oracle, log, groups[1..], resolved)
      else
        var (log, id) :- CreateHostGroup(oracle, log, name.value);
        CreateMissing(oracle, log, groups[1..], resolved[Fold(name.value) := id])
  }

  /** The id a group is written with; None when it is written as it is. */
  function ResolvedId(group: Json, resolved: map<string, string>): Option<string> {
    if !Missing(ReadString(group, "groupid")) then ReadString(group, "groupid")
    else
      var name := ReadString(group, "name");
      if !Missing(name) && Fold(name.value) in resolved then Some(resolved[Fold(name.value)]) else None
  }

  function ResolvedGroups(groups: seq<Json>, resolved: map<string, string>, written: set<string>): seq<Json> {
    if groups == [] then []
    else
      var id := ResolvedId(groups[0], resolved);
      if id.None? then [groups[0]] + ResolvedGroups(groups[1..], resolved, written)
      else if Fold(id.value) in written then ResolvedGroups(groups[1..], resolved, written)
      else [KeyOnly("groupid", id.value)] + ResolvedGroups(groups[1..], resolved, written + {Fold(id.value)})
  }

  function RewriteGroups(props: seq<Prop>, resolved: map<string, string>): seq<Prop> {
    if props == [] then []
    else
      [if Fold(props[0].name) == "groups" && props[0].value.Arr?
       then Prop(props[0].name, Arr(ResolvedGroups(props[0].value.items, resolved, {})))
       else props[0]]
      + RewriteGroups(props[1..], resolved)
  }

  function RewriteParams(props: seq<Prop>, resolved: map<string, string>): seq<Prop> {
    if props == [] then []
    else
      [if Fold(props[0].name) == "params" && props[0].value.Obj?
       then Prop(props[0].name, Obj(RewriteGroups(props[0].value.props, resolved)))
       else props[0]]
      + RewriteParams(props[1..], resolved)
  }

  function Resolve(allowCreate: bool, oracle: Oracle, log: seq<Event>, request: Request): Run<Request> {
    var groups := Get(request.params, "groups");
    if !IsHostWrite(request) || !request.root.Obj? || !groups.Arr? then Done(log, request)
    else
      var names := Distinct(NonBlank(NamesToResolve(groups.items)));
      if names == [] then Done(log, request)
      else
        var (log, found) :- GetHostGroupIdsByName(oracle, log, names);
        var (log, resolved) :- if allowCreate then CreateMissing(oracle, log, groups.items, found)
          else Done(log, found);
        Done(log, ReadObject(request.entityId, Obj(RewriteParams(request.root.props, resolved)), request.host))
  }

  lemma {:induction false} CreateMissingIsQuiet(
    oracle: Oracle, log: seq<Event>, groups: seq<Json>, resolved: map<string, string>)
    ensures Quiet(log, CreateMissing(oracle, log, groups, resolved).log)
    decreases |groups|
  {
    if groups != [] {
      var name := ReadString(groups[0], "name");
      if Missing(name) || Fold(name.value) in resolved || !ReadBool(groups[0], "createIfMissing") {
        CreateMissingIsQuiet(oracle, log, groups[1..], resolved);
      } else {
        var run := CreateHostGroup(oracle, log, name.value);
        if run.Done? {
          CreateMissingIsQuiet(oracle, run.log, groups[1..], resolved[Fold(name.value) := run.value]);
        }
      }
    }
  }

  lemma {:induction false} RewriteGroupsLookup(props: seq<Prop>, resolved: map<string, string>, name: string)
    requires Fold(name) != "groups"
    ensures Lookup(RewriteGroups(props, resolved), name) == Lookup(props, name)
  {
    if props != [] {
      RewriteGroupsLookup(props[1..], resolved, name);
    }
  }

  lemma {:induction false} RewriteParamsLookup(props: seq<Prop>, resolved: map<string, string>, name: string)
    ensures Fold(name) != "params" ==> Lookup(RewriteParams(props, resolved), name) == Lookup(props, name)
    ensures var before, after := Lookup(props, name), Lookup(RewriteParams(props, resolved), name);
            && (before.Obj? && Fold(name) == "params" ==> after == Obj(RewriteGroups(before.props, resolved)))
            && (!before.Obj? ==> after == before)
  {
    if props != [] {
      RewriteParamsLookup(props[1..], resolved, name);
    }
  }

  /** A request whose fields are what its own root says. */
  predicate Consistent(request: Request) {
    request.root.Obj?
    && request.(host := None, correlationId := None)
       == ReadObject(request.entityId, request.root, None).(host := None, correlationId := None)
  }

  /** Resolving groups sends nothing through Execute, keeps the method, the source identity and every
      parameter except groups, and leaves a consistent request. */
  lemma ResolveKeeps(allowCreate: bool, oracle: Oracle, log: seq<Event>, request: Request)
    requires Consistent(request)
    ensures var run := Resolve(allowCreate, oracle, log, request);
            && Quiet(log, run.log)
            && (run.Done? ==>
                  && Consistent(run.value)
                  && run.value.rpcMethod == request.rpcMethod && run.value.entityId == request.entityId
                  && run.value.fallbackForMethod == request.fallbackForMethod
                     && run.value.sourceCardId == request.sourceCardId
                  && IdentityOf(run.value) == IdentityOf(request)
                  && (run.value.params.Obj? <==> request.params.Obj?)
                  && (!request.params.Obj? ==> run.value.params == request.params)
                  && forall name :: Fold(name) != "groups" ==> Get(run.value.params, name) == Get(request.params, name))
  {
    var groups := Get(request.params, "groups");
    if IsHostWrite(request) && groups.Arr? {
      var names := Distinct(NonBlank(NamesToResolve(groups.items)));
      if names != [] {
        var found := GetHostGroupIdsByName(oracle, log, names);
        if found.Done? {
          CreateMissingIsQuiet(oracle, found.log, groups.items, found.value);
          var created := if allowCreate then CreateMissing(oracle, found.log, groups.items, found.value)
            else Done(found.log, found.value);
          if created.Done? {
            RewrittenRequest(request, created.value);
          }
        }
      }
    }
  }

  lemma {:induction false} RewriteGroupsArray(props: seq<Prop>, resolved: map<string, string>)
    ensures var before, after := Lookup(props, "groups"), Lookup(RewriteGroups(props, resolved), "groups");
            (after.Arr? <==> before.Arr?) && (after == Undefined <==> before == Undefined)
  {
    hide ResolvedGroups;
    if props != [] {
      RewriteGroupsArray(props[1..], resolved);
    }
  }

  /** Resolving leaves an array of groups an array. */
  lemma ResolveKeepsGroupArray(allowCreate: bool, oracle: Oracle, log: seq<Event>, request: Request)
    requires Consistent(request)
    ensures var run := Resolve(allowCreate, oracle, log, request);
            run.Done? ==> (Get(run.value.params, "groups").Arr? <==> Get(request.params, "groups").Arr?)
  {
    hide RewriteGroups, RewriteParams, CreateMissing, Distinct, NonBlank, NamesToResolve;
    var groups := Get(request.params, "groups");
    if IsHostWrite(request) && groups.Arr? {
      var names := Distinct(NonBlank(NamesToResolve(groups.items)));
      var found := GetHostGroupIdsByName(oracle, log, names);
      if names != [] && found.Done? {
        var created := if allowCreate then CreateMissing(oracle, found.log, groups.items, found.value)
          else Done(found.log, found.value);
        if created.Done? {
          RewrittenRoot(request.root.props, created.value);
          RewriteGroupsArray(request.params.props, created.value);
        }
      }
    }
  }

  lemma RewrittenRoot(props: seq<Prop>, resolved: map<string, string>)
    requires Lookup(props, "params").Obj?
    ensures var after := RewriteParams(props, resolved);
            && Lookup(after, "params") == Obj(RewriteGroups(Lookup(props, "params").props, resolved))
            && Lookup(after, "method") == Lookup(props, "method") && Lookup(after, "id") == Lookup(props, "id")
            && Lookup(after, "cmdb2monitoring") == Lookup(props, "cmdb2monitoring")
  {
    assert Fold("params") == "params" && Fold("method") == "method" && Fold("id") == "id";
    assert Fold("cmdb2monitoring") == "cmdb2monitoring";
    RewriteParamsLookup(props, resolved, "params");
    RewriteParamsLookup(props, resolved, "method");
    RewriteParamsLookup(props, resolved, "id");
    RewriteParamsLookup(props, resolved, "cmdb2monitoring");
  }

  lemma RewrittenRequest(request: Request, resolved: map<string, string>)
    requires Consistent(request) && request.params.Obj?
    ensures var after := ReadObject(request.entityId, Obj(RewriteParams(request.root.props, resolved)), request.host);
            && Consistent(after)
            && after.rpcMethod == request.rpcMethod && after.entityId == request.entityId
            && after.fallbackForMethod == request.fallbackForMethod && after.sourceCardId == request.sourceCardId
            && IdentityOf(after) == IdentityOf(request)
            && after.params.Obj?
            && forall name :: Fold(name) != "groups" ==> Get(after.params, name) == Get(request.params, name)
  {
    RewrittenRoot(request.root.props, resolved);
    hide RewriteParams;
    forall name | Fold(name) != "groups"
      ensures Lookup(RewriteGroups(request.params.props, resolved), name) == Lookup(request.params.props, name)
    {
      RewriteGroupsLookup(request.params.props, resolved, name);
    }
  }
}
