/** The lookup caches of the Zabbix client, against a server that others change at any time. */
module TtlCache {
  import opened Text
  import ZabbixApi

  datatype Group = Group(groupId: string, name: string)

  /** Zabbix at one moment. */
  datatype Server = Server(groups: seq<Group>, templates: seq<ZabbixApi.TemplateInfo>)

  predicate HasGroupId(server: Server, key: string) {
    exists group :: group in server.groups && Fold(group.groupId) == key
  }

  predicate HasGroupName(server: Server, key: string, groupId: string) {
    exists group :: group in server.groups && Fold(group.name) == key && group.groupId == groupId
  }

  predicate HasTemplate(server: Server, key: string, info: ZabbixApi.TemplateInfo) {
    info in server.templates && Fold(info.templateId) == key
  }

  datatype Entry<T> = Entry(value: T, expiresAt: int)

  /** One cache dictionary. What an entry says was true of the server at some time since; entries are written at most
      the latency after the server was asked. */
  class Cache<T> {
    const ttl: int
    ghost const latency: nat
    ghost const truth: (int, string, T) -> bool
    var entries: map<string, Entry<T>>
    ghost var since: map<string, int>

    ghost predicate Valid(now: int)
      reads this
    {
      && since.Keys == entries.Keys && (ttl <= 0 ==> entries == map[])
      && forall key :: key in entries ==>
           && truth(since[key], key, entries[key].value) && since[key] <= now
           && entries[key].expiresAt <= since[key] + latency + ttl
    }

    /** True of the server at a moment less than the time to live, and the latency, before now. */
    ghost predicate TrueLately(key: string, value: T, now: int) {
      exists time :: now - ttl - latency < time <= now && truth(time, key, value)
    }

    constructor (ttl: int, ghost latency: nat, ghost truth: (int, string, T) -> bool)
      ensures this.ttl == ttl && this.latency == latency && this.truth == truth && entries == map[]
      ensures forall now :: Valid(now)
    {
      this.ttl := ttl;
      this.latency := latency;
      this.truth := truth;
      entries := map[];
      since := map[];
    }

    method TryRead(key: string, now: int) returns (value: Option<T>)
      requires Valid(now)
      modifies this
      ensures Valid(now)
      ensures value ==
              if ttl > 0 && !Blank(key) && Fold(key) in old(entries) && old(entries)[Fold(key)].expiresAt > now
              then Some(old(entries)[Fold(key)].value) else None
      ensures value.Some? ==> ttl > 0 && TrueLately(Fold(key), value.value, now)
    {
      hide Blank, Fold;
      if ttl <= 0 || Blank(key) {
        return None;
      }
      if Fold(key) in entries {
        var cached := entries[Fold(key)];
        if cached.expiresAt > now {
          assert truth(since[Fold(key)], Fold(key), cached.value);
          return Some(cached.value);
        }
        entries := entries - {Fold(key)};
        since := since - {Fold(key)};
      }
      value := None;
    }

    method Write(key: string, value: T, ghost at: int, now: int)
      requires Valid(now) && at <= now <= at + latency && truth(at, Fold(key), value)
      modifies this
      ensures Valid(now)
      ensures entries == if ttl <= 0 || Blank(key) then old(entries)
              else old(entries)[Fold(key) := Entry(value, now + ttl)]
    {
      hide Blank, Fold;
      if ttl <= 0 || Blank(key) {
        return;
      }
      entries := entries[Fold(key) := Entry(value, now + ttl)];
      since := since[Fold(key) := at];
    }

    /** The first loop of the three lookups: what the cache knows, and what is left to ask for. */
    method ReadAll(keys: seq<string>, now: int) returns (found: map<string, T>, missing: set<string>)
      requires Valid(now)
      modifies this
      ensures Valid(now) && found.Keys + missing == FoldSet(keys)
      ensures forall key :: key in found ==> ttl > 0 && TrueLately(key, found[key], now)
    {
      hide Blank, Fold, TrueLately, FoldSet, Valid;
      assert FoldSet([]) == {} by { NoKeys(); }
      assert keys[..0] == [];
      found, missing := map[], {};
      for i := 0 to |keys|
        invariant Valid(now) && found.Keys + missing == FoldSet(keys[..i])
        invariant forall key :: key in found ==> ttl > 0 && TrueLately(key, found[key], now)
      {
        var cached := TryRead(keys[i], now);
        assert keys[..i + 1] == keys[..i] + [keys[i]];
        OneMoreKey(keys[..i], keys[i]);
        if cached.Some? {
          found := found[Fold(keys[i]) := cached.value];
        } else {
          missing := missing + {Fold(keys[i])};
        }
      }
      assert keys[..|keys|] == keys;
    }
  }

  lemma NoKeys()
    ensures FoldSet([]) == {}
  {
  }

  lemma OneMoreKey(keys: seq<string>, key: string)
    ensures FoldSet(keys + [key]) == FoldSet(keys) + {Fold(key)}
  {
    hide Fold;
    FoldSetAppend(keys, [key]);
    assert [key][1..] == [];
    assert FoldSet([key]) == {Fold(key)};
  }

  /** What is asked for: the non-blank texts, each once, up to case. */
  function Requested(keys: seq<string>): seq<string> {
    Distinct(NotBlank(keys))
  }

  function NotBlank(keys: seq<string>): seq<string> {
    if keys == [] then [] else (if Blank(keys[0]) then [] else [keys[0]]) + NotBlank(keys[1..])
  }

  predicate Asked(keys: seq<string>, key: string) {
    exists k :: k in keys && !Blank(k) && Fold(k) == key
  }

  lemma {:induction false} NotBlankElements(keys: seq<string>)
    ensures forall k :: k in NotBlank(keys) <==> k in keys && !Blank(k)
  {
    hide Blank;
    if keys != [] {
      assert keys == [keys[0]] + keys[1..];
      NotBlankElements(keys[1..]);
    }
  }

  lemma RequestedElements(keys: seq<string>)
    ensures forall key :: key in FoldSet(Requested(keys)) <==> Asked(keys, key)
  {
    hide Blank, Fold, Distinct, NotBlank, FoldSet;
    NotBlankElements(keys);
    DistinctElements(NotBlank(keys));
    forall key
      ensures key in FoldSet(Requested(keys)) <==> Asked(keys, key)
    {
      if Asked(keys, key) {
        var k :| k in keys && !Blank(k) && Fold(k) == key;
        assert k in NotBlank(keys) && Same(k, k);
        assert Holds(NotBlank(keys), k);
        FoldSetHolds(Requested(keys), k);
      }
      if key in FoldSet(Requested(keys)) {
        var k := FromFoldSet(Requested(keys), key);
      }
    }
  }

  lemma {:induction false} FromFoldSet(keys: seq<string>, key: string) returns (k: string)
    requires key in FoldSet(keys)
    ensures k in keys && Fold(k) == key
  {
    hide Fold;
    if Fold(keys[0]) == key {
      k := keys[0];
    } else {
      k := FromFoldSet(keys[1..], key);
    }
  }

  // ---------------------------------------------------------------- what the server answers

  /** hostgroup.get by id. */
  function GroupsById(groups: seq<Group>, ids: set<string>): seq<Group> {
    if groups == [] then []
    else (if Fold(groups[0].groupId) in ids then [groups[0]] else []) + GroupsById(groups[1..], ids)
  }

  /** hostgroup.get by name. */
  function GroupsByName(groups: seq<Group>, names: set<string>): seq<Group> {
    if groups == [] then []
    else (if Fold(groups[0].name) in names then [groups[0]] else []) + GroupsByName(groups[1..], names)
  }

  /** template.get by id. */
  function TemplatesById(templates: seq<ZabbixApi.TemplateInfo>, ids: set<string>): seq<ZabbixApi.TemplateInfo> {
    if templates == [] then []
    else (if Fold(templates[0].templateId) in ids then [templates[0]] else []) + TemplatesById(templates[1..], ids)
  }

  lemma {:induction false} GroupsByIdElements(groups: seq<Group>, ids: set<string>)
    ensures forall group :: group in GroupsById(groups, ids) <==> group in groups && Fold(group.groupId) in ids
  {
    hide Fold;
    if groups != [] {
      assert groups == [groups[0]] + groups[1..];
      GroupsByIdElements(groups[1..], ids);
    }
  }

  lemma {:induction false} GroupsByNameElements(groups: seq<Group>, names: set<string>)
    ensures forall group :: group in GroupsByName(groups, names) <==> group in groups && Fold(group.name) in names
  {
    hide Fold;
    if groups != [] {
      assert groups == [groups[0]] + groups[1..];
      GroupsByNameElements(groups[1..], names);
    }
  }

  lemma {:induction false} TemplatesByIdElements(templates: seq<ZabbixApi.TemplateInfo>, ids: set<string>)
    ensures forall info :: info in TemplatesById(templates, ids) <==> info in templates && Fold(info.templateId) in ids
  {
    hide Fold;
    if templates != [] {
      assert templates == [templates[0]] + templates[1..];
      TemplatesByIdElements(templates[1..], ids);
    }
  }

  /** When a call read the caches, when the server was asked, and when its answer was cached. */
  datatype Times = Times(start: int, asked: int, cached: int)

  ghost predicate Ordered(times: Times, latency: nat) {
    times.start <= times.asked <= times.cached <= times.asked + latency
  }

  /** The client, with the server as it is at every moment: what others change, and what this client creates. */
  class ZabbixClient {
    const server: int -> Server
    ghost const latency: nat
    const ids: Cache<bool>
    const names: Cache<string>
    const templates: Cache<ZabbixApi.TemplateInfo>

    ghost predicate Valid(now: int)
      reads this, ids, names, templates
    {
      && ids.latency == names.latency == templates.latency == latency && ids.ttl == names.ttl && ids as object != names
      && (forall time, key, value :: ids.truth(time, key, value) <==> HasGroupId(server(time), key))
      && (forall time, key, value :: names.truth(time, key, value) <==> HasGroupName(server(time), key, value))
      && (forall time, key, value :: templates.truth(time, key, value) <==> HasTemplate(server(time), key, value))
      && ids.Valid(now) && names.Valid(now) && templates.Valid(now)
    }

    constructor (server: int -> Server, groupTtl: int, templateTtl: int, ghost latency: nat, now: int)
      ensures Valid(now) && this.server == server && this.latency == latency
      ensures ids.ttl == groupTtl && templates.ttl == templateTtl && fresh(ids) && fresh(names) && fresh(templates)
    {
      this.server := server;
      this.latency := latency;
      ids := new Cache<bool>(groupTtl, latency, (time, key, value) => HasGroupId(server(time), key));
      names := new Cache<string>(groupTtl, latency, (time, key, value) => HasGroupName(server(time), key, value));
      templates := new Cache<ZabbixApi.TemplateInfo>(templateTtl, latency,
                                                     (time, key, value) => HasTemplate(server(time), key, value));
    }

    /** Between calls the caches stay valid, so every call of a run of lookups and creates finds them so. */
    lemma ValidLater(now: int, later: int)
      requires Valid(now) && now <= later
      ensures Valid(later)
    {
    }

    /** The group exists when the server is asked, or the cache says it did lately. */
    ghost predicate KnownId(key: string, times: Times) {
      HasGroupId(server(times.asked), key) || (ids.ttl > 0 && LateId(key, times.start))
    }

    ghost predicate LateId(key: string, now: int) {
      exists time :: now - ids.ttl - latency < time <= now && HasGroupId(server(time), key)
    }

    ghost predicate KnownName(key: string, groupId: string, times: Times) {
      HasGroupName(server(times.asked), key, groupId) || (names.ttl > 0 && LateName(key, groupId, times.start))
    }

    ghost predicate LateName(key: string, groupId: string, now: int) {
      exists time :: now - names.ttl - latency < time <= now && HasGroupName(server(time), key, groupId)
    }

    ghost predicate KnownTemplate(key: string, info: ZabbixApi.TemplateInfo, times: Times) {
      HasTemplate(server(times.asked), key, info) || (templates.ttl > 0 && LateTemplate(key, info, times.start))
    }

    ghost predicate LateTemplate(key: string, info: ZabbixApi.TemplateInfo, now: int) {
      exists time :: now - templates.ttl - latency < time <= now && HasTemplate(server(time), key, info)
    }

    lemma LateIds(key: string, value: bool, now: int)
      requires Valid(now) && ids.TrueLately(key, value, now)
      ensures LateId(key, now)
    {
      var time :| now - ids.ttl - ids.latency < time <= now && ids.truth(time, key, value);
      assert HasGroupId(server(time), key);
    }

    lemma LateNames(key: string, groupId: string, now: int)
      requires Valid(now) && names.TrueLately(key, groupId, now)
      ensures LateName(key, groupId, now)
    {
      var time :| now - names.ttl - names.latency < time <= now && names.truth(time, key, groupId);
      assert HasGroupName(server(time), key, groupId);
    }

    lemma LateTemplates(key: string, info: ZabbixApi.TemplateInfo, now: int)
      requires Valid(now) && templates.TrueLately(key, info, now)
      ensures LateTemplate(key, info, now)
    {
      var time :| now - templates.ttl - templates.latency < time <= now && templates.truth(time, key, info);
      assert HasTemplate(server(time), key, info);
    }

    /** The second loop of GetExistingHostGroupIdsAsync. */
    method StoreIds(answer: seq<Group>, times: Times) returns (found: set<string>)
      requires Valid(times.asked) && Ordered(times, latency)
      requires forall group :: group in answer ==> group in server(times.asked).groups
      modifies ids
      ensures Valid(times.cached) && found == IdsOf(answer)
    {
      hide Fold, Blank, HasGroupName, HasTemplate, HasGroupId;
      found := {};
      for i := 0 to |answer|
        invariant Valid(times.cached) && found == IdsOf(answer[..i])
      {
        assert answer[i] in answer;
        GroupExists(server(times.asked), answer[i]);
        assert answer[..i + 1] == answer[..i] + [answer[i]];
        ids.Write(answer[i].groupId, true, times.asked, times.cached);
        found := found + {Fold(answer[i].groupId)};
      }
      assert answer[..|answer|] == answer;
    }

    /** GetExistingHostGroupIdsAsync: every id asked for that exists now is found; an id that is found exists now or
        did less than the time to live and the latency ago; without a time to live the answer is the server's. */
    method GetExistingHostGroupIds(
      groupIds: seq<string>, times: Times, fails: bool) returns (result: Option<set<string>>)
      requires Valid(times.start) && Ordered(times, latency)
      modifies ids
      ensures Valid(times.cached) && (result.None? ==> fails)
      ensures result.Some? ==> forall key :: Asked(groupIds, key) && HasGroupId(server(times.asked), key) ==>
                key in result.value
      ensures result.Some? ==> forall key :: key in result.value ==> Asked(groupIds, key) && KnownId(key, times)
    {
      hide Fold, Blank, Requested, Asked, HasGroupName, HasTemplate, HasGroupId, FoldSet, LateId;
      var requestedIds := Requested(groupIds);
      RequestedElements(groupIds);
      var cached, missing := ids.ReadAll(requestedIds, times.start);
      forall key | key in cached
        ensures LateId(key, times.start)
      {
        LateIds(key, cached[key], times.start);
      }
      if missing == {} {
        return Some(cached.Keys);
      }
      if fails {
        return None;
      }
      var answer := GroupsById(server(times.asked).groups, missing);
      GroupsByIdElements(server(times.asked).groups, missing);
      AnsweredIds(server(times.asked), missing);
      var found := StoreIds(answer, times);
      result := Some(cached.Keys + found);
    }

    /** The second loop of GetHostGroupIdsByNameAsync: of several groups of one name the last counts. */
    method StoreNames(answer: seq<Group>, times: Times) returns (found: map<string, string>)
      requires Valid(times.asked) && Ordered(times, latency)
      requires forall group :: group in answer ==> group in server(times.asked).groups
      modifies ids, names
      ensures Valid(times.cached)
      ensures forall group :: group in answer && !Blank(group.name) && !Blank(group.groupId) ==>
                Fold(group.name) in found
      ensures forall key :: key in found ==>
                HasGroupName(server(times.asked), key, found[key]) &&
                exists group :: group in answer && Fold(group.name) == key
    {
      hide Fold, Blank, HasGroupName, HasTemplate, HasGroupId;
      found := map[];
      for i := 0 to |answer|
        invariant Valid(times.cached)
        invariant forall j :: 0 <= j < i && !Blank(answer[j].name) && !Blank(answer[j].groupId) ==>
                    Fold(answer[j].name) in found
        invariant forall key :: key in found ==>
                    HasGroupName(server(times.asked), key, found[key]) &&
                    exists group :: group in answer && Fold(group.name) == key
      {
        var group := answer[i];
        assert group in answer;
        GroupExists(server(times.asked), group);
        if !Blank(group.name) && !Blank(group.groupId) {
          found := found[Fold(group.name) := group.groupId];
          names.Write(group.name, group.groupId, times.asked, times.cached);
          ids.Write(group.groupId, true, times.asked, times.cached);
        }
      }
    }

    /** GetHostGroupIdsByNameAsync: every name asked for that a group has now is found; the id found for a name is, or
        was less than the time to live and the latency ago, that of a group of this name. */
    method GetHostGroupIdsByName(
      groupNames: seq<string>, times: Times, fails: bool) returns (result: Option<map<string, string>>)
      requires Valid(times.start) && Ordered(times, latency)
      modifies ids, names
      ensures Valid(times.cached) && (result.None? ==> fails)
      ensures result.Some? ==>
                forall group :: group in server(times.asked).groups ==>
                  !Blank(group.groupId) && Asked(groupNames, Fold(group.name)) ==> Fold(group.name) in result.value
      ensures result.Some? ==>
                forall key :: key in result.value ==> Asked(groupNames, key) && KnownName(key, result.value[key], times)
    {
      hide Fold, Blank, Requested, Asked, HasGroupName, HasTemplate, HasGroupId, FoldSet, LateName;
      var requestedNames := Requested(groupNames);
      RequestedElements(groupNames);
      AskedNotBlank(groupNames);
      var cached, missing := names.ReadAll(requestedNames, times.start);
      forall key | key in cached
        ensures LateName(key, cached[key], times.start)
      {
        LateNames(key, cached[key], times.start);
      }
      if missing == {} {
        return Some(cached);
      }
      if fails {
        return None;
      }
      var answer := GroupsByName(server(times.asked).groups, missing);
      GroupsByNameElements(server(times.asked).groups, missing);
      var found := StoreNames(answer, times);
      result := Some(cached + found);
    }

    /** The second loop of GetTemplateInfosAsync. */
    method StoreTemplates(
      answer: seq<ZabbixApi.TemplateInfo>, times: Times) returns (found: map<string, ZabbixApi.TemplateInfo>)
      requires Valid(times.asked) && Ordered(times, latency)
      requires forall info :: info in answer ==> info in server(times.asked).templates
      modifies templates
      ensures Valid(times.cached)
      ensures forall info :: info in answer && !Blank(info.templateId) ==> Fold(info.templateId) in found
      ensures forall key :: key in found ==>
                HasTemplate(server(times.asked), key, found[key]) &&
                exists info :: info in answer && Fold(info.templateId) == key
    {
      hide Fold, Blank, HasGroupName, HasGroupId, HasTemplate;
      found := map[];
      for i := 0 to |answer|
        invariant Valid(times.cached)
        invariant forall j :: 0 <= j < i && !Blank(answer[j].templateId) ==> Fold(answer[j].templateId) in found
        invariant forall key :: key in found ==>
                    HasTemplate(server(times.asked), key, found[key]) &&
                    exists info :: info in answer && Fold(info.templateId) == key
      {
        var info := answer[i];
        assert info in answer;
        TemplateExists(server(times.asked), info);
        if !Blank(info.templateId) {
          found := found[Fold(info.templateId) := info];
          templates.Write(info.templateId, info, times.asked, times.cached);
        }
      }
    }

    /** GetTemplateInfosAsync, likewise. */
    method GetTemplateInfos(templateIds: seq<string>, times: Times, fails: bool)
      returns (result: Option<map<string, ZabbixApi.TemplateInfo>>)
      requires Valid(times.start) && Ordered(times, latency)
      modifies templates
      ensures Valid(times.cached) && (result.None? ==> fails)
      ensures result.Some? ==>
                forall info :: info in server(times.asked).templates && Asked(templateIds, Fold(info.templateId)) ==>
                  Fold(info.templateId) in result.value
      ensures result.Some? ==>
                forall key :: key in result.value ==>
                    Asked(templateIds, key) && KnownTemplate(key, result.value[key], times)
    {
      hide Fold, Blank, Requested, Asked, HasGroupName, HasTemplate, HasGroupId, FoldSet, LateTemplate;
      var requestedIds := Requested(templateIds);
      RequestedElements(templateIds);
      AskedNotBlank(templateIds);
      var cached, missing := templates.ReadAll(requestedIds, times.start);
      forall key | key in cached
        ensures LateTemplate(key, cached[key], times.start)
      {
        LateTemplates(key, cached[key], times.start);
      }
      if missing == {} {
        return Some(cached);
      }
      if fails {
        return None;
      }
      var answer := TemplatesById(server(times.asked).templates, missing);
      TemplatesByIdElements(server(times.asked).templates, missing);
      var found := StoreTemplates(answer, times);
      result := Some(cached + found);
    }

    /** The cache writes of CreateHostGroupAsync. */
    method StoreGroup(group: Group, times: Times)
      requires Valid(times.asked) && Ordered(times, latency) && group in server(times.asked).groups
      requires !Blank(group.name) && !Blank(group.groupId)
      modifies ids, names
      ensures Valid(times.cached)
      ensures names.entries == if names.ttl <= 0 then old(names.entries)
                               else old(names.entries)[Fold(group.name) :=
                                                       Entry(group.groupId, times.cached + names.ttl)]
      ensures ids.entries == if ids.ttl <= 0 then old(ids.entries)
                             else old(ids.entries)[Fold(group.groupId) := Entry(true, times.cached + ids.ttl)]
    {
      hide Fold, Blank, HasGroupName, HasGroupId, HasTemplate;
      GroupExists(server(times.asked), group);
      names.Write(group.name, group.groupId, times.asked, times.cached);
      ids.Write(group.groupId, true, times.asked, times.cached);
    }

    /** CreateHostGroupAsync, for a group that is there once Zabbix has answered: the next lookup by name or by id finds
        it in the cache. */
    method CreateHostGroup(groupName: string, created: Option<string>, times: Times) returns (result: Option<string>)
      requires Valid(times.start) && Ordered(times, latency)
      requires created.Some? ==> Group(created.value, groupName) in server(times.asked).groups
      modifies ids, names
      ensures Valid(times.cached)
      ensures result == if Blank(groupName) || Missing(created) then None else created
      ensures result.Some? && names.ttl > 0 ==>
                && names.entries == old(names.entries)[Fold(groupName) :=
                                                       Entry(created.value, times.cached + names.ttl)]
                && ids.entries == old(ids.entries)[Fold(created.value) := Entry(true, times.cached + ids.ttl)]
      ensures result.None? ==> names.entries == old(names.entries) && ids.entries == old(ids.entries)
    {
      hide Fold, Blank, HasGroupName, HasGroupId, HasTemplate;
      if Blank(groupName) || Missing(created) {
        return None;
      }
      StoreGroup(Group(created.value, groupName), times);
      result := created;
    }

    /** What every call of a run is answered: all that the server knows when it is asked, and nothing that was not true
        then or lately. */
    ghost predicate Answered(call: Call, reply: Reply) {
      match call
      case FindIds(ids, times, fails) =>
        reply.Ids? &&
        if reply.ids.None? then fails
        else
          && (forall key :: Asked(ids, key) && HasGroupId(server(times.asked), key) ==> key in reply.ids.value)
          && forall key :: key in reply.ids.value ==> Asked(ids, key) && KnownId(key, times)
      case FindNames(names, times, fails) =>
        reply.Names? &&
        if reply.names.None? then fails
        else
          && (forall group :: group in server(times.asked).groups ==>
                !Blank(group.groupId) && Asked(names, Fold(group.name)) ==> Fold(group.name) in reply.names.value)
          && forall key :: key in reply.names.value ==>
               Asked(names, key) && KnownName(key, reply.names.value[key], times)
      case FindTemplates(ids, times, fails) =>
        reply.Templates? &&
        if reply.templates.None? then fails
        else
          && (forall info :: info in server(times.asked).templates ==>
                Asked(ids, Fold(info.templateId)) ==> Fold(info.templateId) in reply.templates.value)
          && forall key :: key in reply.templates.value ==>
               Asked(ids, key) && KnownTemplate(key, reply.templates.value[key], times)
      case Create(name, created, _) =>
        reply == Created(if Blank(name) || Missing(created) then None else created)
    }

    /** One call of a run. */
    method Serve(call: Call) returns (reply: Reply)
      requires Valid(call.times.start) && Ordered(call.times, latency) && Truthful(call, server(call.times.asked))
      modifies ids, names, templates
      ensures Valid(call.times.cached) && Answered(call, reply)
    {
      hide Fold, Blank, Asked, HasGroupName, HasTemplate, HasGroupId, KnownId, KnownName, KnownTemplate;
      match call
      case FindIds(groupIds, times, fails) =>
        var found := GetExistingHostGroupIds(groupIds, times, fails);
        reply := Ids(found);
      case FindNames(groupNames, times, fails) =>
        var found := GetHostGroupIdsByName(groupNames, times, fails);
        reply := Names(found);
      case FindTemplates(templateIds, times, fails) =>
        var found := GetTemplateInfos(templateIds, times, fails);
        reply := Templates(found);
      case Create(name, created, times) =>
        var result := CreateHostGroup(name, created, times);
        reply := Created(result);
    }

    /** A run of lookups and creates, one after the other at any distance. */
    method ServeAll(calls: seq<Call>, now: int) returns (replies: seq<Reply>)
      requires Valid(now) && InTurn(calls, now, latency)
      requires forall i :: 0 <= i < |calls| ==> Truthful(calls[i], server(calls[i].times.asked))
      modifies ids, names, templates
      ensures |replies| == |calls| && forall i :: 0 <= i < |calls| ==> Answered(calls[i], replies[i])
    {
      hide Valid, Answered, Truthful;
      replies := [];
      ghost var time := now;
      for i := 0 to |calls|
        invariant Valid(time) && (i < |calls| ==> time <= calls[i].times.start)
        invariant |replies| == i && forall j :: 0 <= j < i ==> Answered(calls[j], replies[j])
      {
        ValidLater(time, calls[i].times.start);
        var reply := Serve(calls[i]);
        replies := replies + [reply];
        time := calls[i].times.cached;
      }
    }
  }

  datatype Call =
    | FindIds(groupIds: seq<string>, times: Times, fails: bool)
    | FindNames(groupNames: seq<string>, times: Times, fails: bool)
    | FindTemplates(templateIds: seq<string>, times: Times, fails: bool)
    | Create(groupName: string, created: Option<string>, times: Times)

  /** What a call returns; nothing where it failed, or where no group was created. */
  datatype Reply =
    | Ids(ids: Option<set<string>>)
    | Names(names: Option<map<string, string>>)
    | Templates(templates: Option<map<string, ZabbixApi.TemplateInfo>>)
    | Created(groupId: Option<string>)

  /** A group that was created is there once Zabbix has answered. */
  predicate Truthful(call: Call, server: Server) {
    call.Create? && call.created.Some? ==> Group(call.created.value, call.groupName) in server.groups
  }

  /** Every call starts when the one before has ended. */
  ghost predicate InTurn(calls: seq<Call>, now: int, latency: nat) {
    && (forall i :: 0 <= i < |calls| ==> Ordered(calls[i].times, latency))
    && (calls != [] ==> now <= calls[0].times.start)
    && forall i :: 0 < i < |calls| ==> calls[i - 1].times.cached <= calls[i].times.start
  }

  lemma AskedNotBlank(keys: seq<string>)
    ensures forall text :: Asked(keys, Fold(text)) ==> !Blank(text)
  {
    forall text | Asked(keys, Fold(text))
      ensures !Blank(text)
    {
      var k :| k in keys && !Blank(k) && Fold(k) == Fold(text);
      SameBlank(k, text);
    }
  }

  function IdsOf(groups: seq<Group>): set<string> {
    set group | group in groups :: Fold(group.groupId)
  }

  lemma GroupExists(server: Server, group: Group)
    requires group in server.groups
    ensures HasGroupId(server, Fold(group.groupId)) && HasGroupName(server, Fold(group.name), group.groupId)
  {
  }

  lemma TemplateExists(server: Server, info: ZabbixApi.TemplateInfo)
    requires info in server.templates
    ensures HasTemplate(server, Fold(info.templateId), info)
  {
  }

  lemma AnsweredIds(server: Server, ids: set<string>)
    ensures forall key :: key in IdsOf(GroupsById(server.groups, ids)) <==> key in ids && HasGroupId(server, key)
  {
    hide Fold, GroupsById;
    GroupsByIdElements(server.groups, ids);
    forall key | key in ids && HasGroupId(server, key)
      ensures key in IdsOf(GroupsById(server.groups, ids))
    {
      var group :| group in server.groups && Fold(group.groupId) == key;
      assert group in GroupsById(server.groups, ids);
    }
  }
}
