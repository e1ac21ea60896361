/** What the whole host.update payload says, and that sending it again changes nothing. */
module HostUpdateProofs {
  import opened Text
  import opened JsonModel
  import opened HostMerge
  import opened TemplateMerge
  import opened HostUpdate

  ghost predicate UniqueNames(props: seq<Prop>) {
    forall i, j :: 0 <= i < j < |props| ==> Fold(props[i].name) != Fold(props[j].name)
  }

  lemma FoldedLiterals()
    ensures Fold("hostid") == "hostid" && Fold("interfaces") == "interfaces" && Fold("groups") == "groups"
    ensures Fold("templates") == "templates" && Fold("tags") == "tags" && Fold("macros") == "macros"
    ensures Fold("inventory") == "inventory" && Fold("templates_clear") == "templates_clear"
  {
  }

  lemma MergedPropNames(p: Prop, info: HostInfo, clear: set<string>)
    ensures |MergedProp(p, info, clear)| <= 1
    ensures forall x :: x in MergedProp(p, info, clear) ==> Fold(x.name) == Fold(p.name)
  {
    FoldedLiterals();
  }

  lemma {:induction false} AbsentName(props: seq<Prop>, info: HostInfo, clear: set<string>, name: string)
    requires forall p :: p in props ==> Fold(p.name) != Fold(name)
    ensures Lookup(MergedProps(props, info, clear), name) == Undefined
  {
    if props != [] {
      AbsentName(props[1..], info, clear, name);
      var one := MergedProp(props[0], info, clear);
      MergedPropNames(props[0], info, clear);
      LookupAppend(one, MergedProps(props[1..], info, clear), name);
      if one != [] {
        assert one == [one[0]] && one[0] in one;
        LookupSingle(one[0], name);
      }
    }
  }

  lemma {:induction false} PresentName(props: seq<Prop>, info: HostInfo, clear: set<string>, i: nat, name: string)
    requires UniqueNames(props) && i < |props| && Fold(props[i].name) == Fold(name)
    ensures Lookup(MergedProps(props, info, clear), name) == Lookup(MergedProp(props[i], info, clear), name)
  {
    var one, rest := MergedProp(props[0], info, clear), MergedProps(props[1..], info, clear);
    LookupAppend(one, rest, name);
    if i == 0 {
      forall p | p in props[1..]
        ensures Fold(p.name) != Fold(name)
      {
        var j :| 0 <= j < |props[1..]| && props[1..][j] == p;
        assert props[j + 1] == p;
      }
      AbsentName(props[1..], info, clear, name);
    } else {
      PresentName(props[1..], info, clear, i - 1, name);
      MergedPropNames(props[0], info, clear);
      if one != [] {
        assert one == [one[0]] && one[0] in one;
        LookupSingle(one[0], name);
      }
    }
  }

  /** What the payload holds under a name other than hostid: the merged form of the update's property. */
  lemma PayloadProperty(params: Json, info: HostInfo, i: nat, name: string)
    requires params.Obj? && UniqueNames(params.props) && i < |params.props|
    requires Fold(params.props[i].name) == Fold(name) != "hostid"
    ensures Get(UpdateParams(params, info), name)
            == Lookup(MergedProp(params.props[i], info, IdSet(Items(Get(params, "templates_clear")))), name)
  {
    var clear := IdSet(Items(Get(params, "templates_clear")));
    PresentName(params.props, info, clear, i, name);
    LookupAppend([Prop("hostid", Str(info.hostId))], MergedProps(params.props, info, clear), name);
    LookupSingle(Prop("hostid", Str(info.hostId)), name);
    FoldedLiterals();
  }

  /** The update always goes to the host that was read back. */
  lemma PayloadTarget(params: Json, info: HostInfo)
    requires params.Obj?
    ensures ReadString(UpdateParams(params, info), "hostid") == Some(info.hostId)
  {
    var clear := IdSet(Items(Get(params, "templates_clear")));
    var merged := MergedProps(params.props, info, clear);
    NoHostId(params.props, info, clear);
    LookupAppend([Prop("hostid", Str(info.hostId))], merged, "hostid");
    LookupSingle(Prop("hostid", Str(info.hostId)), "hostid");
  }

  lemma {:induction false} NoHostId(props: seq<Prop>, info: HostInfo, clear: set<string>)
    ensures Lookup(MergedProps(props, info, clear), "hostid") == Undefined
  {
    if props != [] {
      NoHostId(props[1..], info, clear);
      FoldedLiterals();
      var one := MergedProp(props[0], info, clear);
      MergedPropNames(props[0], info, clear);
      LookupAppend(one, MergedProps(props[1..], info, clear), "hostid");
      if one != [] {
        assert one == [one[0]] && one[0] in one;
        LookupSingle(one[0], "hostid");
      }
    }
  }

  lemma {:induction false} IdSetIsKeySet(items: seq<Json>)
    ensures IdSet(items) == KeySet(BY_ID, items)
  {
    if items == [] {
      assert NonBlank(Field("templateid", items)) == [];
    } else {
      IdSetIsKeySet(items[1..]);
      IdSetOfCons(items);
    }
  }

  lemma IdSetOfCons(items: seq<Json>)
    requires items != []
    ensures IdSet(items) == (match KeyOf(BY_ID, items[0]) case None => {} case Some(k) => {k}) + IdSet(items[1..])
  {
    var id := ReadString(items[0], "templateid");
    var one, rest := NonBlank([id]), NonBlank(Field("templateid", items[1..]));
    assert items == [items[0]] + items[1..];
    FieldAppend([items[0]], items[1..]);
    assert Field("templateid", [items[0]]) == [id];
    assert [id][1..] == [];
    assert one == if Missing(id) then [] else [id.value];
    forall x
      ensures x in one + rest <==> x in one || x in rest
    {
    }
  }

  /** End of the line for templates: the payload lists exactly the linked and desired templates that are
      not to be cleared, clears exactly the linked ones that are, and never does both to one template. */
  lemma PayloadTemplates(params: Json, info: HostInfo, t: nat, c: nat)
    requires params.Obj? && UniqueNames(params.props) && t < |params.props| && c < |params.props|
    requires params.props[t].name == "templates" && params.props[t].value.Arr?
    requires params.props[c].name == "templates_clear" && params.props[c].value.Arr?
    requires forall x :: x in info.templateIds ==> !Blank(x)
    ensures var sent := UpdateParams(params, info);
            var desired := KeySet(BY_ID, params.props[t].value.items);
            var clear := KeySet(BY_ID, params.props[c].value.items);
            var linked := FoldSet(info.templateIds);
            && KeySet(BY_ID, Items(Get(sent, "templates"))) == (linked + desired) - clear
            && KeySet(BY_ID, Items(Get(sent, "templates_clear"))) == linked * clear
            && (Get(sent, "templates_clear") == Undefined <==> linked * clear == {})
  {
    FoldedLiterals();
    var clear := IdSet(Items(Get(params, "templates_clear")));
    LookupUnique(params.props, c, "templates_clear");
    IdSetIsKeySet(params.props[c].value.items);
    PayloadProperty(params, info, t, "templates");
    PayloadProperty(params, info, c, "templates_clear");
    var templates := Arr(MergedTemplates(params.props[t].value.items, info.templateIds, clear));
    assert MergedProp(params.props[t], info, clear) == [Prop("templates", templates)];
    LookupSingle(Prop("templates", templates), "templates");
    MergedTemplateIds(params.props[t].value.items, info.templateIds, clear);
    TemplatesClearIds(info.templateIds, clear);
    var cleared := TemplatesClear(info.templateIds, clear);
    if cleared.Some? {
      LookupSingle(Prop("templates_clear", Arr(cleared.value)), "templates_clear");
    }
  }

  lemma LookupUnique(props: seq<Prop>, i: nat, name: string)
    requires UniqueNames(props) && i < |props| && props[i].name == name
    ensures Lookup(props, name) == props[i].value
  {
    LookupAt(props, i);
  }

  // ---------------------------------------------------------------- sending the update twice

  /** The host as Zabbix reports it after it replaced the arrays of the payload; how it shows the interfaces is up to
      Zabbix. */
  function AfterUpdate(info: HostInfo, sent: Json, shown: seq<Interface>): HostInfo {
    var templates := if Get(sent, "templates").Arr? then TemplateIds(Get(sent, "templates").items)
      else info.templateIds;
    info.(
      interfaces := shown,
      groups := if Get(sent, "groups").Arr? then ObjectArray(sent, "groups") else info.groups,
      tags := if Get(sent, "tags").Arr? then ObjectArray(sent, "tags") else info.tags,
      macros := if Get(sent, "macros").Arr? then ObjectArray(sent, "macros") else info.macros,
      inventory := if Get(sent, "inventory").Obj? then Get(sent, "inventory") else info.inventory,
      templateIds := Surviving(templates, IdSet(Items(Get(sent, "templates_clear"))))
    )
  }

  ghost predicate ReadBack(info: HostInfo) {
    && (forall x :: x in info.groups ==> x.Obj?)
    && (forall x :: x in info.tags ==> x.Obj?)
    && (forall x :: x in info.macros ==> x.Obj?)
    && DistinctIds(info.templateIds)
  }

  lemma {:induction false} SurvivingAll(ids: seq<string>, skip: set<string>)
    requires FoldSet(ids) !! skip
    ensures Surviving(ids, skip) == ids
  {
    if ids != [] {
      SurvivingAll(ids[1..], skip);
    }
  }

  lemma {:induction false} SurvivingKeys(ids: seq<string>, skip: set<string>)
    ensures FoldSet(Surviving(ids, skip)) == FoldSet(ids) - skip
  {
    if ids != [] {
      var rest := Surviving(ids[1..], skip);
      SurvivingKeys(ids[1..], skip);
      if Fold(ids[0]) in skip {
        assert Surviving(ids, skip) == [] + rest == rest;
      } else {
        assert ([ids[0]] + rest)[1..] == rest;
      }
    }
  }

  /** Under each name the second payload finds the array the first one sent. */
  lemma SentArray(params: Json, info: HostInfo, i: nat)
    requires params.Obj? && UniqueNames(params.props) && i < |params.props|
    requires var n := Fold(params.props[i].name);
             (n in ["groups", "templates", "tags", "macros"] && params.props[i].value.Arr?)
             || (n == "inventory" && params.props[i].value.Obj?)
    ensures var one := MergedProp(params.props[i], info, IdSet(Items(Get(params, "templates_clear"))));
            one == [Prop(Fold(params.props[i].name), Get(UpdateParams(params, info), Fold(params.props[i].name)))]
  {
    FoldedLiterals();
    var p := params.props[i];
    var one := MergedProp(p, info, IdSet(Items(Get(params, "templates_clear"))));
    assert Fold(Fold(p.name)) == Fold(p.name);
    PayloadProperty(params, info, i, Fold(p.name));
    LookupSingle(one[0], Fold(p.name));
    assert one == [one[0]];
  }

  ghost predicate PlainUpdate(params: Json) {
    && params.Obj? && UniqueNames(params.props)
    && forall p :: p in params.props ==>
         Fold(p.name) == "templates_clear" ==> p.name == "templates_clear" && p.value.Arr?
  }

  lemma ReadBackIds(info: HostInfo)
    requires ReadBack(info)
    ensures forall x :: x in info.templateIds ==> !Blank(x)
  {
  }

  lemma IdSetOfNothing()
    ensures IdSet([]) == {}
  {
    assert Field("templateid", []) == [];
  }

  /** The first payload clears exactly the linked templates the update asks to clear. */
  lemma SentClear(params: Json, info: HostInfo)
    requires PlainUpdate(params) && ReadBack(info)
    ensures IdSet(Items(Get(UpdateParams(params, info), "templates_clear")))
            == FoldSet(info.templateIds) * IdSet(Items(Get(params, "templates_clear")))
  {
    FoldedLiterals();
    hide IdSet, TemplatesClear, MergedProps, DistinctIds, KeySet, FoldSet, Blank;
    var clear := IdSet(Items(Get(params, "templates_clear")));
    assert forall x :: x in info.templateIds ==> !Blank(x) by { ReadBackIds(info); }
    TemplatesClearIds(info.templateIds, clear);
    assert IdSet([]) == {} by { IdSetOfNothing(); }
    if c :| 0 <= c < |params.props| && Fold(params.props[c].name) == "templates_clear" {
      var p := params.props[c];
      assert p in params.props;
      LookupUnique(params.props, c, "templates_clear");
      PayloadProperty(params, info, c, "templates_clear");
      var cleared := TemplatesClear(info.templateIds, clear);
      if cleared.Some? {
        LookupSingle(Prop("templates_clear", Arr(cleared.value)), "templates_clear");
        IdSetIsKeySet(cleared.value);
      }
    } else {
      LookupNone(params.props, "templates_clear");
      AbsentName(params.props, info, clear, "templates_clear");
      LookupAppend([Prop("hostid", Str(info.hostId))], MergedProps(params.props, info, clear), "templates_clear");
      LookupSingle(Prop("hostid", Str(info.hostId)), "templates_clear");
    }
  }

  lemma NoTemplatesSent(params: Json, info: HostInfo)
    requires PlainUpdate(params) && Get(UpdateParams(params, info), "templates").Arr?
    ensures exists t ::
              0 <= t < |params.props| && Fold(params.props[t].name) == "templates" && params.props[t].value.Arr?
  {
    FoldedLiterals();
    var clear := IdSet(Items(Get(params, "templates_clear")));
    if t :| 0 <= t < |params.props| && Fold(params.props[t].name) == "templates" {
      PayloadProperty(params, info, t, "templates");
      if !params.props[t].value.Arr? {
        LookupSingle(params.props[t], "templates");
      }
    } else {
      AbsentName(params.props, info, clear, "templates");
      LookupAppend([Prop("hostid", Str(info.hostId))], MergedProps(params.props, info, clear), "templates");
      LookupSingle(Prop("hostid", Str(info.hostId)), "templates");
    }
  }

  /** After the update no template that was to be cleared is linked any more. */
  lemma NoneLeftToClear(params: Json, info: HostInfo, shown: seq<Interface>)
    requires PlainUpdate(params) && ReadBack(info)
    ensures var sent, clear := UpdateParams(params, info), IdSet(Items(Get(params, "templates_clear")));
            && FoldSet(AfterUpdate(info, sent, shown).templateIds) !! clear
            && (Get(sent, "templates").Arr? ==>
                  AfterUpdate(info, sent, shown).templateIds == TemplateIds(Get(sent, "templates").items))
  {
    var sent, clear := UpdateParams(params, info), IdSet(Items(Get(params, "templates_clear")));
    SentClear(params, info);
    var cleared := FoldSet(info.templateIds) * clear;
    if Get(sent, "templates").Arr? {
      NoTemplatesSent(params, info);
      var t :| 0 <= t < |params.props| && Fold(params.props[t].name) == "templates" && params.props[t].value.Arr?;
      SentArray(params, info, t);
      var merged := MergedTemplates(params.props[t].value.items, info.templateIds, clear);
      assert Get(sent, "templates").items == merged;
      MergedTemplateIds(params.props[t].value.items, info.templateIds, clear);
      FieldKeys(merged);
      DistinctFoldSet(NonBlank(Field("templateid", merged)));
      FoldSetWithin(NonBlank(Field("templateid", merged)), KeySet(BY_ID, merged));
      SurvivingAll(TemplateIds(merged), cleared);
    } else {
      SurvivingKeys(info.templateIds, cleared);
    }
  }

  lemma {:induction false} FoldSetWithin(xs: seq<string>, keys: set<string>)
    requires forall x :: x in xs ==> Fold(x) in keys
    ensures FoldSet(xs) <= keys
  {
    if xs != [] {
      FoldSetWithin(xs[1..], keys);
    }
  }

  lemma NothingCleared(ids: seq<string>, clear: set<string>)
    requires FoldSet(ids) !! clear
    ensures TemplatesClear(ids, clear) == None
  {
    ClearedIdsElements(ids, clear);
    assert FoldSet(ClearedIds(ids, clear)) == {};
  }

  lemma PropAgain(params: Json, info: HostInfo, shown: seq<Interface>, i: nat)
    requires PlainUpdate(params) && ReadBack(info) && i < |params.props|
    ensures var clear := IdSet(Items(Get(params, "templates_clear")));
            var p, after := params.props[i], AfterUpdate(info, UpdateParams(params, info), shown);
            Fold(p.name) != "interfaces" ==>
              MergedProp(p, after, clear) ==
                if Fold(p.name) == "templates_clear" then [] else MergedProp(p, info, clear)
  {
    var p, sent := params.props[i], UpdateParams(params, info);
    var name, after := Fold(p.name), AfterUpdate(info, sent, shown);
    var clear := IdSet(Items(Get(params, "templates_clear")));
    assert p in params.props;
    FoldedLiterals();
    if name == "templates_clear" {
      LookupUnique(params.props, i, "templates_clear");
      NoneLeftToClear(params, info, shown);
      NothingCleared(after.templateIds, clear);
    } else if name == "templates" && p.value.Arr? {
      SentArray(params, info, i);
      NoneLeftToClear(params, info, shown);
      MergedTemplatesAgain(p.value.items, info.templateIds, clear);
    } else if name == "groups" && p.value.Arr? {
      SentArray(params, info, i);
      MergedAgain(ByField("groupid"), p.value.items, ByField("groupid"), info.groups, Some("groupid"));
    } else if name == "macros" && p.value.Arr? {
      SentArray(params, info, i);
      MergedAgain(ByField("macro"), p.value.items, ByField("macro"), info.macros, None);
    } else if name == "tags" && p.value.Arr? {
      SentArray(params, info, i);
      MergedAgain(ByTagOrText, p.value.items, ByTag, info.tags, None);
    } else if name == "inventory" && p.value.Obj? {
      SentArray(params, info, i);
      MergedObjectAgain(info.inventory, p.value);
    }
  }

  lemma WithoutNamesOfOne(one: seq<Prop>, name: string, names: set<string>)
    requires |one| <= 1 && forall x :: x in one ==> Fold(x.name) == name
    ensures WithoutNames(one, names) == if name in names then [] else one
  {
    if one != [] {
      assert one == [one[0]] && one[0] in one && one[1..] == [];
    }
  }

  lemma {:induction false} PropsAgain(params: Json, info: HostInfo, shown: seq<Interface>, i: nat)
    requires PlainUpdate(params) && ReadBack(info) && i <= |params.props|
    ensures var clear := IdSet(Items(Get(params, "templates_clear")));
            WithoutNames(MergedProps(params.props[i..], AfterUpdate(info, UpdateParams(params, info), shown), clear),
                         {"interfaces"})
            == WithoutNames(MergedProps(params.props[i..], info, clear), {"interfaces", "templates_clear"})
    decreases |params.props| - i
  {
    assert params.Obj?;
    hide MergedProp, UpdateParams, AfterUpdate, PlainUpdate, ReadBack, IdSet, Get;
    if i < |params.props| {
      var clear, after := IdSet(Items(Get(params, "templates_clear"))),
        AfterUpdate(info, UpdateParams(params, info), shown);
      var name := Fold(params.props[i].name);
      var one, rest := MergedProp(params.props[i], info, clear), MergedProps(params.props[i + 1..], info, clear);
      var next, more := MergedProp(params.props[i], after, clear), MergedProps(params.props[i + 1..], after, clear);
      assert params.props[i..][1..] == params.props[i + 1..];
      PropsAgain(params, info, shown, i + 1);
      PropAgain(params, info, shown, i);
      MergedPropNames(params.props[i], info, clear);
      MergedPropNames(params.props[i], after, clear);
      WithoutNamesAppend(one, rest, {"interfaces", "templates_clear"});
      WithoutNamesAppend(next, more, {"interfaces"});
      WithoutNamesOfOne(one, name, {"interfaces", "templates_clear"});
      WithoutNamesOfOne(next, name, {"interfaces"});
    }
  }

  /** Merging the same update into the host it produced sends the same payload, property by property and element by
      element, but for templates_clear, as nothing is left to clear, and for the ids of the interfaces. */
  lemma PayloadAgain(params: Json, info: HostInfo, shown: seq<Interface>)
    requires PlainUpdate(params) && ReadBack(info)
    ensures var sent := UpdateParams(params, info);
            WithoutNames(UpdateParams(params, AfterUpdate(info, sent, shown)).props, {"interfaces"})
            == WithoutNames(sent.props, {"interfaces", "templates_clear"})
  {
    var sent, clear := UpdateParams(params, info), IdSet(Items(Get(params, "templates_clear")));
    var head := [Prop("hostid", Str(info.hostId))];
    PropsAgain(params, info, shown, 0);
    assert params.props[0..] == params.props;
    FoldedLiterals();
    WithoutNamesAppend(head, MergedProps(params.props, info, clear), {"interfaces", "templates_clear"});
    WithoutNamesAppend(head, MergedProps(params.props, AfterUpdate(info, sent, shown), clear), {"interfaces"});
    WithoutNamesOfOne(head, "hostid", {"interfaces", "templates_clear"});
    WithoutNamesOfOne(head, "hostid", {"interfaces"});
  }

  /** The interfaces an update asks for. */
  function Wanted(items: seq<Json>): seq<Interface> {
    seq(|items|, i requires 0 <= i < |items| => ReadInterface(items[i]))
  }

  /** The payload's interfaces are the update's, with ids among those the host shows. */
  lemma PayloadInterfaces(params: Json, info: HostInfo, t: nat)
    requires PlainUpdate(params) && t < |params.props|
    requires params.props[t].name == "interfaces" && params.props[t].value.Arr?
    ensures Items(Get(UpdateParams(params, info), "interfaces")) ==
              WithInterfaceIds(params.props[t].value.items, info.interfaces)
  {
    FoldedLiterals();
    var written := WithInterfaceIds(params.props[t].value.items, info.interfaces);
    hide WithInterfaceIds;
    PayloadProperty(params, info, t, "interfaces");
    LookupSingle(Prop("interfaces", Arr(written)), "interfaces");
  }

  lemma WrittenInterface(items: seq<Json>, shown: seq<Interface>, i: nat, name: string)
    requires i < |items| && items[i].Obj? && Fold(name) != "interfaceid"
    ensures Get(WithInterfaceIds(items, shown)[i], name) == Get(items[i], name)
  {
    hide WithInterfaceId, Fold;
    InterfaceAuthoritative(items[i], shown, i, name);
  }

  lemma WrittenId(items: seq<Json>, shown: seq<Interface>, i: nat, id: Option<string>)
    requires i < |items| && items[i].Obj? && !Missing(id)
    ensures ReadString(WithInterfaceIds(items, shown)[i], "interfaceid") == id <==>
            FindMatchingInterfaceId(Wanted(items)[i], shown, i) == id
  {
    hide FindMatchingInterfaceId, WithInterfaceId;
    WithInterfaceIdGet(items[i], shown, i, "interfaceid");
  }

  /** The second payload sends every interface as the first one did, and each with the id Zabbix shows for it exactly
      when no two interfaces of the update agree in type, useip, ip, dns and port. */
  lemma InterfacesAgain(params: Json, info: HostInfo, shown: seq<Interface>, place: seq<nat>, t: nat)
    requires PlainUpdate(params) && t < |params.props|
    requires params.props[t].name == "interfaces" && params.props[t].value.Arr?
    requires var items := params.props[t].value.items;
             (forall i :: 0 <= i < |items| ==> items[i].Obj?) && Returned(Wanted(items), shown, place)
    ensures var items := params.props[t].value.items;
            var again := Items(Get(UpdateParams(params, AfterUpdate(info, UpdateParams(params, info), shown)),
                                   "interfaces"));
            && |again| == |items|
            && (forall i, name :: 0 <= i < |items| && Fold(name) != "interfaceid" ==>
                Get(again[i], name) == Get(items[i], name))
            && ((forall i :: 0 <= i < |items| ==> ReadString(again[i], "interfaceid") == shown[place[i]].interfaceId)
                <==> (forall i, j :: 0 <= i < j < |items| ==> !ExactMatch(Wanted(items)[i], Wanted(items)[j])))
  {
    var items, after := params.props[t].value.items, AfterUpdate(info, UpdateParams(params, info), shown);
    PayloadInterfaces(params, after, t);
    WrittenAgain(items, shown, place);
    hide UpdateParams, PlainUpdate, ExactMatch, Returned;
    forall i, name | 0 <= i < |items| && Fold(name) != "interfaceid"
      ensures Get(WithInterfaceIds(items, shown)[i], name) == Get(items[i], name)
    {
      WrittenInterface(items, shown, i, name);
    }
  }

  lemma WrittenAgain(items: seq<Json>, shown: seq<Interface>, place: seq<nat>)
    requires (forall i :: 0 <= i < |items| ==> items[i].Obj?) && Returned(Wanted(items), shown, place)
    ensures (forall i :: 0 <= i < |items| ==>
               ReadString(WithInterfaceIds(items, shown)[i], "interfaceid") == shown[place[i]].interfaceId)
            <==> (forall i, j :: 0 <= i < j < |items| ==> !ExactMatch(Wanted(items)[i], Wanted(items)[j]))
  {
    hide ExactMatch, WithInterfaceId, FindMatchingInterfaceId, ReadInterface, Missing, ReadString;
    InterfacesMatchedAgain(Wanted(items), shown, place);
    forall i | 0 <= i < |items|
      ensures ReadString(WithInterfaceIds(items, shown)[i], "interfaceid") == shown[place[i]].interfaceId <==>
              FindMatchingInterfaceId(Wanted(items)[i], shown, i) == shown[place[i]].interfaceId
    {
      WrittenId(items, shown, i, shown[place[i]].interfaceId);
    }
  }
}
