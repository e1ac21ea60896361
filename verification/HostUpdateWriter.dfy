/** The loops of the payload writer, proved to write what the merge functions say. */
module HostUpdateWriter {
  import opened Text
  import opened JsonModel
  import opened HostMerge
  import opened TemplateMerge
  import opened HostUpdate

  lemma Extend<T>(items: seq<T>, i: nat)
    requires i < |items|
    ensures items[..i + 1] == items[..i] + [items[i]]
    ensures items[..i + 1][..i] == items[..i]
  {
  }

  /** The dictionary, order list and remainder the first loop of each merge fills. */
  method CollectDesired(keying: Keying, desired: seq<Json>)
      returns (order: seq<string>, byKey: map<string, Json>, keyless: seq<Json>)
    ensures Index(order, byKey, keyless) == IndexOf(keying, desired)
  {
    order, byKey, keyless := [], map[], [];
    for i := 0 to |desired|
      invariant Index(order, byKey, keyless) == IndexOf(keying, desired[..i])
    {
      Extend(desired, i);
      var key := KeyOf(keying, desired[i]);
      if key.None? {
        keyless := keyless + [desired[i]];
      } else {
        if key.value !in byKey {
          order := order + [key.value];
        }
        byKey := byKey[key.value := desired[i]];
      }
    }
    assert desired[..|desired|] == desired;
  }

  /** The loop over what Zabbix already has. */
  method WriteExisting(keying: Keying, existing: seq<Json>, desired: map<string, Json>, keyOnly: Option<string>)
      returns (written: seq<Json>)
    ensures written == Kept(keying, existing, desired, keyOnly)
  {
    written := [];
    for i := 0 to |existing|
      invariant written == Kept(keying, existing[..i], desired, keyOnly)
    {
      Extend(existing, i);
      KeptAppend(keying, existing[..i], [existing[i]], desired, keyOnly);
      KeptOfOne(keying, existing[i], desired, keyOnly);
      var key := KeyOf(keying, existing[i]);
      if key.Some? && key.value !in desired {
        written := written + [Render(keyOnly, existing[i])];
      }
    }
    assert existing[..|existing|] == existing;
  }

  method WriteMergedArray(
    desiredKeying: Keying, desired: seq<Json>, keying: Keying, existing: seq<Json>, keyOnly: Option<string>)
      returns (written: seq<Json>)
    ensures written == Merged(desiredKeying, desired, keying, existing, keyOnly)
  {
    var order, byKey, keyless := CollectDesired(desiredKeying, desired);
    IndexConsistent(desiredKeying, desired);
    written := WriteExisting(keying, existing, byKey, keyOnly);
    hide IndexOf, KeyOf, Kept;
    ghost var kept := written;
    for i := 0 to |order|
      invariant written == kept + Values(order, byKey)[..i]
    {
      written := written + [byKey[order[i]]];
    }
    written := written + keyless;
  }

  method WriteMergedObjectArrayByKey(
    desired: seq<Json>, existing: seq<Json>, keyName: string, preserveExistingAsKeyOnly: bool)
      returns (written: seq<Json>)
    ensures written == Merged(ByField(keyName), desired, ByField(keyName), existing,
                              if preserveExistingAsKeyOnly then Some(keyName) else None)
  {
    written := WriteMergedArray(ByField(keyName), desired, ByField(keyName), existing,
                                if preserveExistingAsKeyOnly then Some(keyName) else None);
  }

  method WriteMergedTags(desired: seq<Json>, existing: seq<Json>) returns (written: seq<Json>)
    ensures written == MergedTags(desired, existing)
  {
    written := WriteMergedArray(ByTagOrText, desired, ByTag, existing, None);
  }

  method WriteExistingTemplates(
    existing: seq<string>, clear: set<string>, desired: map<string, Json>) returns (written: seq<Json>)
    ensures written == KeptIds(existing, clear + desired.Keys)
  {
    var skip := clear + desired.Keys;
    written := [];
    for i := 0 to |existing|
      invariant written == KeptIds(existing[..i], skip)
    {
      Extend(existing, i);
      KeptIdsAppend(existing[..i], [existing[i]], skip);
      assert [existing[i]][1..] == [];
      if Blank(existing[i]) || Fold(existing[i]) in clear || Fold(existing[i]) in desired {
        continue;
      }
      written := written + [IdObject(existing[i])];
    }
    assert existing[..|existing|] == existing;
  }

  method WriteDesiredTemplates(
    order: seq<string>, byKey: map<string, Json>, clear: set<string>) returns (written: seq<Json>)
    requires forall k :: k in order ==> k in byKey
    ensures written == NotCleared(order, byKey, clear)
  {
    written := [];
    for i := 0 to |order|
      invariant written == NotCleared(order[..i], byKey, clear)
    {
      Extend(order, i);
      NotClearedAppend(order[..i], order[i], byKey, clear);
      if order[i] !in clear {
        written := written + [byKey[order[i]]];
      }
    }
    assert order[..|order|] == order;
  }

  method WriteMergedTemplates(
    desired: seq<Json>, existing: seq<string>, clear: set<string>) returns (written: seq<Json>)
    ensures written == MergedTemplates(desired, existing, clear)
  {
    var order, byKey, keyless := CollectDesired(BY_ID, desired);
    IndexConsistent(BY_ID, desired);
    hide IndexOf, KeyOf, KeptIds;
    var kept := WriteExistingTemplates(existing, clear, byKey);
    var values := WriteDesiredTemplates(order, byKey, clear);
    written := kept + values + keyless;
  }

  lemma {:induction false} NotClearedAppend(
    order: seq<string>, last: string, byKey: map<string, Json>, clear: set<string>)
    requires last in byKey && forall k :: k in order ==> k in byKey
    ensures NotCleared(order + [last], byKey, clear)
            == NotCleared(order, byKey, clear) + if last in clear then [] else [byKey[last]]
  {
    if order == [] {
      assert [] + [last] == [last] && [last][1..] == [];
    } else {
      assert (order + [last])[1..] == order[1..] + [last] && (order + [last])[0] == order[0];
      assert forall k :: k in order + [last] <==> k in order || k == last;
      NotClearedAppend(order[1..], last, byKey, clear);
      var head := if order[0] in clear then [] else [byKey[order[0]]];
      var rest, tail := NotCleared(order[1..], byKey, clear), if last in clear then [] else [byKey[last]];
      assert head + (rest + tail) == (head + rest) + tail;
    }
  }

  method WriteMergedObject(existing: Json, desired: Json) returns (written: Json)
    requires desired.Obj?
    ensures written == MergedObject(existing, desired)
  {
    if !existing.Obj? {
      return desired;
    }
    var names := Names(desired.props);
    var props: seq<Prop> := [];
    for i := 0 to |existing.props|
      invariant props == WithoutNames(existing.props[..i], names)
    {
      Extend(existing.props, i);
      WithoutNamesAppend(existing.props[..i], [existing.props[i]], names);
      assert [existing.props[i]][1..] == [];
      if Fold(existing.props[i].name) !in names {
        props := props + [existing.props[i]];
      }
    }
    assert existing.props[..|existing.props|] == existing.props;
    written := Obj(props + desired.props);
  }

  lemma {:induction false} MergedPropsAppend(left: seq<Prop>, last: Prop, info: HostInfo, clear: set<string>)
    ensures MergedProps(left + [last], info, clear) == MergedProps(left, info, clear) + MergedProp(last, info, clear)
  {
    if left == [] {
      assert [] + [last] == [last] && [last][1..] == [];
    } else {
      assert (left + [last])[1..] == left[1..] + [last];
      MergedPropsAppend(left[1..], last, info, clear);
    }
  }

  /** The property loop of BuildHostUpdateRequestJson. */
  method BuildHostUpdateParams(params: Json, info: HostInfo) returns (written: Json)
    requires params.Obj?
    ensures written == UpdateParams(params, info)
  {
    hide Merged, MergedTemplates, MergedObject, TemplatesClear, WithInterfaceIds, IdSet;
    var props := [Prop("hostid", Str(info.hostId))];
    var clear := IdSet(Items(Get(params, "templates_clear")));
    for i := 0 to |params.props|
      invariant props == [Prop("hostid", Str(info.hostId))] + MergedProps(params.props[..i], info, clear)
    {
      var p := params.props[i];
      var name := Fold(p.name);
      Extend(params.props, i);
      MergedPropsAppend(params.props[..i], p, info, clear);
      if name == "hostid" {
        continue;
      }
      if name == "interfaces" && p.value.Arr? {
        props := props + [Prop("interfaces", Arr(WithInterfaceIds(p.value.items, info.interfaces)))];
      } else if name == "groups" && p.value.Arr? {
        var items := WriteMergedObjectArrayByKey(p.value.items, info.groups, "groupid", true);
        props := props + [Prop("groups", Arr(items))];
      } else if name == "templates" && p.value.Arr? {
        var items := WriteMergedTemplates(p.value.items, info.templateIds, clear);
        props := props + [Prop("templates", Arr(items))];
      } else if name == "tags" && p.value.Arr? {
        var items := WriteMergedTags(p.value.items, info.tags);
        props := props + [Prop("tags", Arr(items))];
      } else if name == "macros" && p.value.Arr? {
        var items := WriteMergedObjectArrayByKey(p.value.items, info.macros, "macro", false);
        props := props + [Prop("macros", Arr(items))];
      } else if name == "inventory" && p.value.Obj? {
        var merged := WriteMergedObject(info.inventory, p.value);
        props := props + [Prop("inventory", merged)];
      } else if name == "templates_clear" && p.value.Arr? {
        var sent := TemplatesClear(info.templateIds, IdSet(p.value.items));
        if sent.Some? {
          props := props + [Prop("templates_clear", Arr(sent.value))];
        }
      } else {
        props := props + [p];
      }
    }
    assert params.props[..|params.props|] == params.props;
    written := Obj(props);
  }
}
