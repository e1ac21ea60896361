/** The host.update payload built from the desired fields and the host read back from Zabbix. */
module HostUpdate {
  import opened Text
  import opened JsonModel
  import HostMerge
  import TemplateMerge

  datatype Interface = Interface(
    interfaceId: Option<string>, kind: Option<string>, useIp: Option<string>,
    ip: Option<string>, dns: Option<string>, port: Option<string>)

  datatype HostInfo = HostInfo(
    hostId: string, host: Option<string>, name: Option<string>,
    interfaces: seq<Interface>, templateIds: seq<string>,
    groups: seq<Json>, tags: seq<Json>, macros: seq<Json>, inventory: Json)

  // ---------------------------------------------------------------- inventory

  function WithoutNames(props: seq<Prop>, names: set<string>): seq<Prop> {
    if props == [] then []
    else (if Fold(props[0].name) in names then [] else [props[0]]) + WithoutNames(props[1..], names)
  }

  function Names(props: seq<Prop>): set<string> {
    set p | p in props :: Fold(p.name)
  }

  /** Existing fields no desired field names, then the desired fields. */
  function MergedObject(existing: Json, desired: Json): Json
    requires desired.Obj?
  {
    if !existing.Obj? then desired
    else Obj(WithoutNames(existing.props, Names(desired.props)) + desired.props)
  }

  /** The value of a field whose name is compared ignoring case, as Zabbix inventory names are. */
  function LookupFolded(props: seq<Prop>, name: string): Option<Json> {
    if props == [] then None
    else
      var later := LookupFolded(props[1..], name);
      if later.Some? then later
      else if Fold(props[0].name) == name then Some(props[0].value)
      else None
  }

  lemma {:induction false} LookupFoldedAppend(left: seq<Prop>, right: seq<Prop>, name: string)
    ensures LookupFolded(left + right, name) == OrElse(LookupFolded(right, name), LookupFolded(left, name))
  {
    if left == [] {
      assert left + right == right;
    } else {
      assert (left + right)[1..] == left[1..] + right;
      LookupFoldedAppend(left[1..], right, name);
    }
  }

  lemma {:induction false} WithoutNamesLookup(props: seq<Prop>, names: set<string>, name: string)
    ensures LookupFolded(WithoutNames(props, names), name) == if name in names then None else LookupFolded(props, name)
  {
    if props != [] {
      var rest := WithoutNames(props[1..], names);
      WithoutNamesLookup(props[1..], names, name);
      if Fold(props[0].name) in names {
        assert WithoutNames(props, names) == [] + rest == rest;
      } else {
        LookupFoldedAppend([props[0]], rest, name);
        assert [props[0]][1..] == [];
      }
    }
  }

  lemma {:induction false} LookupFoldedNames(props: seq<Prop>, name: string)
    ensures LookupFolded(props, name).Some? <==> name in Names(props)
  {
    if props != [] {
      assert props == [props[0]] + props[1..];
      LookupFoldedNames(props[1..], name);
      assert Names(props) == {Fold(props[0].name)} + Names(props[1..]);
    }
  }

  /** No inventory field is lost and the desired value of a field wins. */
  lemma MergedObjectOverrides(existing: Json, desired: Json, name: string)
    requires existing.Obj? && desired.Obj?
    ensures LookupFolded(MergedObject(existing, desired).props, name)
            == OrElse(LookupFolded(desired.props, name), LookupFolded(existing.props, name))
  {
    var names := Names(desired.props);
    LookupFoldedAppend(WithoutNames(existing.props, names), desired.props, name);
    WithoutNamesLookup(existing.props, names, name);
    LookupFoldedNames(desired.props, name);
  }

  lemma {:induction false} WithoutNamesAppend(left: seq<Prop>, right: seq<Prop>, names: set<string>)
    ensures WithoutNames(left + right, names) == WithoutNames(left, names) + WithoutNames(right, names)
  {
    if left == [] {
      assert left + right == right;
    } else {
      assert (left + right)[1..] == left[1..] + right;
      WithoutNamesAppend(left[1..], right, names);
    }
  }

  lemma {:induction false} WithoutNamesElements(props: seq<Prop>, names: set<string>)
    ensures WithoutNames(WithoutNames(props, names), names) == WithoutNames(props, names)
    ensures (forall p :: p in props ==> Fold(p.name) in names) ==> WithoutNames(props, names) == []
  {
    if props != [] {
      var rest := WithoutNames(props[1..], names);
      WithoutNamesElements(props[1..], names);
      if Fold(props[0].name) in names {
        assert WithoutNames(props, names) == [] + rest == rest;
      } else {
        assert ([props[0]] + rest)[1..] == rest;
        assert props[0] in props;
      }
    }
  }

  lemma MergedObjectAgain(existing: Json, desired: Json)
    requires desired.Obj?
    ensures MergedObject(MergedObject(existing, desired), desired) == MergedObject(existing, desired)
  {
    var names := Names(desired.props);
    WithoutNamesElements(desired.props, names);
    if existing.Obj? {
      var kept := WithoutNames(existing.props, names);
      WithoutNamesAppend(kept, desired.props, names);
      WithoutNamesElements(existing.props, names);
      assert kept + [] == kept;
    } else {
      assert [] + desired.props == desired.props;
    }
  }

  // ---------------------------------------------------------------- interfaces

  function ReadInterface(value: Json): Interface {
    Interface(ReadString(value, "interfaceid"), ReadString(value, "type"), ReadString(value, "useip"),
              ReadString(value, "ip"), ReadString(value, "dns"), ReadString(value, "port"))
  }

  predicate ExactMatch(item: Interface, wanted: Interface) {
    && SameScalar(item.kind, wanted.kind) && SameScalar(item.useIp, wanted.useIp)
    && SameScalar(item.ip, wanted.ip) && SameScalar(item.dns, wanted.dns) && SameScalar(item.port, wanted.port)
  }

  predicate AddressMatch(item: Interface, wanted: Interface) {
    && SameScalar(item.kind, wanted.kind) && SameScalar(item.port, wanted.port)
    && ((!Missing(wanted.ip) && SameScalar(item.ip, wanted.ip))
        || (!Missing(wanted.dns) && SameScalar(item.dns, wanted.dns)))
  }

  function IdOf(found: Option<Interface>): Option<string> {
    if found.Some? then found.value.interfaceId else None
  }

  function FindExact(existing: seq<Interface>, wanted: Interface): Option<Interface> {
    if existing == [] then None
    else if ExactMatch(existing[0], wanted) then Some(existing[0])
    else FindExact(existing[1..], wanted)
  }

  function FindAddress(existing: seq<Interface>, wanted: Interface): Option<Interface> {
    if existing == [] then None
    else if AddressMatch(existing[0], wanted) then Some(existing[0])
    else FindAddress(existing[1..], wanted)
  }

  function FindMatchingInterfaceId(wanted: Interface, existing: seq<Interface>, index: nat): Option<string> {
    var exact := IdOf(FindExact(existing, wanted));
    if !Missing(exact) then exact
    else
      var address := IdOf(FindAddress(existing, wanted));
      if !Missing(address) then address
      else if index == 0 && existing != [] then existing[0].interfaceId
      else None
  }

  function WithInterfaceId(value: Json, existing: seq<Interface>, index: nat): Json {
    if !value.Obj? then value
    else
      var id := FindMatchingInterfaceId(ReadInterface(value), existing, index);
      Obj((if Missing(id) then [] else [Prop("interfaceid", Str(id.value))]) +
          WithoutNames(value.props, {"interfaceid"}))
  }

  function WithInterfaceIds(items: seq<Json>, existing: seq<Interface>): seq<Json> {
    seq(|items|, i requires 0 <= i < |items| => WithInterfaceId(items[i], existing, i))
  }

  lemma {:induction false} WithoutNamesGet(props: seq<Prop>, names: set<string>, name: string)
    ensures Lookup(WithoutNames(props, names), name) == if Fold(name) in names then Undefined else Lookup(props, name)
  {
    if props != [] {
      var rest := WithoutNames(props[1..], names);
      WithoutNamesGet(props[1..], names, name);
      if Fold(props[0].name) in names {
        assert WithoutNames(props, names) == [] + rest == rest;
      } else {
        LookupAppend([props[0]], rest, name);
        LookupSingle(props[0], name);
      }
    }
  }

  lemma {:induction false} FoundInterfaces(existing: seq<Interface>, wanted: Interface)
    ensures FindExact(existing, wanted).Some? ==>
              FindExact(existing, wanted).value in existing && ExactMatch(FindExact(existing, wanted).value, wanted)
    ensures FindExact(existing, wanted).None? ==> forall x :: x in existing ==> !ExactMatch(x, wanted)
    ensures FindAddress(existing, wanted).Some? ==>
              FindAddress(existing, wanted).value in existing
                && AddressMatch(FindAddress(existing, wanted).value, wanted)
  {
    if existing != [] {
      FoundInterfaces(existing[1..], wanted);
    }
  }

  lemma WithInterfaceIdGet(value: Json, existing: seq<Interface>, index: nat, name: string)
    requires value.Obj?
    ensures var id := FindMatchingInterfaceId(ReadInterface(value), existing, index);
            Get(WithInterfaceId(value, existing, index), name)
            == if name == "interfaceid" then (if Missing(id) then Undefined else Str(id.value))
               else if Fold(name) == "interfaceid" then Undefined else Get(value, name)
  {
    var id := FindMatchingInterfaceId(ReadInterface(value), existing, index);
    assert Fold("interfaceid") == "interfaceid";
    var rest := WithoutNames(value.props, {"interfaceid"});
    WithoutNamesGet(value.props, {"interfaceid"}, name);
    if Missing(id) {
      assert [] + rest == rest;
    } else {
      LookupAppend([Prop("interfaceid", Str(id.value))], rest, name);
      LookupSingle(Prop("interfaceid", Str(id.value)), name);
    }
  }

  lemma MatchingIdOrigin(wanted: Interface, existing: seq<Interface>, index: nat)
    ensures var id := FindMatchingInterfaceId(wanted, existing, index);
            !Missing(id) ==>
              exists x :: x in existing && x.interfaceId == id &&
                          (index == 0 || ExactMatch(x, wanted) || AddressMatch(x, wanted))
  {
    FoundInterfaces(existing, wanted);
  }

  /** Interfaces stay as the rules define them: only the id changes, the id is one Zabbix already uses for
      this host, and past the first interface it comes from one with the same type, port and address. */
  lemma InterfaceAuthoritative(value: Json, existing: seq<Interface>, index: nat, name: string)
    requires value.Obj?
    ensures Fold(name) != "interfaceid" ==> Get(WithInterfaceId(value, existing, index), name) == Get(value, name)
    ensures var id := Get(WithInterfaceId(value, existing, index), "interfaceid");
            id != Undefined ==>
              && id.Str?
              && exists x :: x in existing && x.interfaceId == Some(id.text)
                   && (index == 0 || ExactMatch(x, ReadInterface(value)) || AddressMatch(x, ReadInterface(value)))
  {
    assert Fold("interfaceid") == "interfaceid";
    WithInterfaceIdGet(value, existing, index, name);
    WithInterfaceIdGet(value, existing, index, "interfaceid");
    MatchingIdOrigin(ReadInterface(value), existing, index);
  }

  /** Two interfaces can be given one id: the first of the payload falls back to the first existing
      interface, which a later one may match. */
  lemma SharedInterfaceId()
    ensures exists items: seq<Json>, existing: seq<Interface> :: |items| == 2 && items[0] != items[1]
              && Get(WithInterfaceIds(items, existing)[0], "interfaceid") == Str("7")
              && Get(WithInterfaceIds(items, existing)[1], "interfaceid") == Str("7")
  {
    var agent := Obj([Prop("type", Str("1"))]);
    var snmp := Obj([Prop("type", Str("2"))]);
    var existing := [Interface(Some("7"), Some("2"), None, None, None, None)];
    var wanted1, wanted2 := ReadInterface(agent), ReadInterface(snmp);
    LookupSingle(Prop("type", Str("1")), "type");
    LookupSingle(Prop("type", Str("2")), "type");
    assert ReadString(agent, "type") == Some("1") && ReadString(snmp, "type") == Some("2");
    forall n | n in ["useip", "ip", "dns", "port", "interfaceid"]
      ensures ReadString(snmp, n) == None && ReadString(agent, n) == None
    {
      LookupSingle(Prop("type", Str("1")), n);
      LookupSingle(Prop("type", Str("2")), n);
    }
    assert wanted2 == Interface(None, Some("2"), None, None, None, None);
    assert wanted1 == Interface(None, Some("1"), None, None, None, None);
    assert Fold("1")[0] == '1' && Fold("2")[0] == '2';
    assert !SameScalar(Some("2"), Some("1"));
    assert FindExact(existing, wanted2) == Some(existing[0]);
    assert FindExact(existing[1..], wanted1) == None && FindAddress(existing[1..], wanted1) == None;
    assert !IsSpace("7"[0]) && "7"[0] in "7";
    WithInterfaceIdGet(agent, existing, 0, "interfaceid");
    WithInterfaceIdGet(snmp, existing, 1, "interfaceid");
    var items := [agent, snmp];
    assert agent.props[0] != snmp.props[0];
    assert WithInterfaceIds(items, existing)[0] == WithInterfaceId(agent, existing, 0);
    assert WithInterfaceIds(items, existing)[1] == WithInterfaceId(snmp, existing, 1);
  }

  /** The existing interface a wanted one is matched with. */
  function MatchOf(existing: seq<Interface>, wanted: Interface): Option<Interface> {
    OrElse(FindExact(existing, wanted), FindAddress(existing, wanted))
  }

  /** Zabbix gives every interface of a host an id of its own. */
  ghost predicate OwnIds(existing: seq<Interface>) {
    && (forall x :: x in existing ==> !Missing(x.interfaceId))
    && (forall x, y :: x in existing && y in existing && x.interfaceId == y.interfaceId ==> x == y)
  }

  lemma MatchedId(wanted: Interface, existing: seq<Interface>, index: nat)
    requires OwnIds(existing)
    ensures FindMatchingInterfaceId(wanted, existing, index) ==
            match MatchOf(existing, wanted)
            case Some(found) => found.interfaceId
            case None => if index == 0 && existing != [] then existing[0].interfaceId else None
    ensures MatchOf(existing, wanted).Some? ==>
              var found := MatchOf(existing, wanted).value;
              found in existing && SameScalar(found.kind, wanted.kind) && SameScalar(found.port, wanted.port)
  {
    hide SameScalar, Missing;
    FoundInterfaces(existing, wanted);
    NothingIsMissing();
  }

  /** Two interfaces get one id exactly when they are matched with the same existing interface, or when the first of
      the payload matches none and the other one matches the first existing interface, the one the first falls back
      to. */
  lemma SharedIdExactly(first: Interface, second: Interface, existing: seq<Interface>, i: nat, j: nat)
    requires i < j && OwnIds(existing)
    ensures var left, right := FindMatchingInterfaceId(first, existing, i),
            FindMatchingInterfaceId(second, existing, j);
            (!Missing(left) && left == right) <==>
            || (MatchOf(existing, first).Some? && MatchOf(existing, first) == MatchOf(existing, second))
            || (i == 0 && existing != [] && MatchOf(existing, first).None?
                && MatchOf(existing, second) == Some(existing[0]))
  {
    hide Missing, MatchOf, FindMatchingInterfaceId, Fold;
    MatchedId(first, existing, i);
    MatchedId(second, existing, j);
    NothingIsMissing();
    if existing != [] {
      assert existing[0] in existing;
    }
  }

  /** No fallback is needed: an interface by address and one by name that have the name, type and port in common are
      both matched with the existing one, the first by all its fields and the second by its name. */
  lemma SharedIdByName()
    ensures var existing := [Interface(Some("7"), Some("1"), Some("1"), Some("9"), Some("d"), Some("5"))];
            var byAddress := Interface(None, Some("1"), Some("1"), Some("9"), Some("d"), Some("5"));
            var byName := Interface(None, Some("1"), Some("0"), Some(""), Some("d"), Some("5"));
            && !ExactMatch(byAddress, byName)
            && FindMatchingInterfaceId(byAddress, existing, 0) == Some("7")
            && FindMatchingInterfaceId(byName, existing, 1) == Some("7")
  {
    var existing := [Interface(Some("7"), Some("1"), Some("1"), Some("9"), Some("d"), Some("5"))];
    var byAddress := Interface(None, Some("1"), Some("1"), Some("9"), Some("d"), Some("5"));
    var byName := Interface(None, Some("1"), Some("0"), Some(""), Some("d"), Some("5"));
    assert Fold("1")[0] == '1' && Fold("0")[0] == '0';
    assert !SameScalar(Some("1"), Some("0"));
    assert existing[1..] == [];
    assert "d"[0] in "d" && !IsSpace("d"[0]) && "7"[0] in "7" && !IsSpace("7"[0]);
    hide Fold, IsSpace;
    assert FindExact(existing, byAddress) == Some(existing[0]);
    assert FindExact(existing[1..], byName) == None;
    assert FindAddress(existing, byName) == Some(existing[0]);
  }

  // ---------------------------------------------------------------- matching the interfaces again

  /** The two agree in type, useip, ip, dns and port. */
  lemma MatchesAlike(item: Interface, left: Interface, right: Interface)
    requires ExactMatch(item, left)
    ensures ExactMatch(item, right) <==> ExactMatch(left, right)
  {
    hide Fold;
  }

  lemma {:induction false} FoundAlike(existing: seq<Interface>, left: Interface, right: Interface)
    requires ExactMatch(left, right)
    ensures FindExact(existing, left) == FindExact(existing, right)
  {
    if existing != [] {
      assert ExactMatch(existing[0], left) <==> ExactMatch(existing[0], right) by {
        hide Fold;
      }
      hide ExactMatch;
      FoundAlike(existing[1..], left, right);
    }
  }

  /** What Zabbix shows after an update: the interfaces sent, in some order, each with an id no other one has. */
  ghost predicate Returned(wanted: seq<Interface>, shown: seq<Interface>, place: seq<nat>) {
    && |place| == |wanted| == |shown|
    && (forall i :: 0 <= i < |place| ==> place[i] < |shown|)
    && (forall i, j :: 0 <= i < j < |place| ==> place[i] != place[j])
    && (forall k :: 0 <= k < |shown| ==> k in place)
    && (forall i :: 0 <= i < |wanted| ==> ExactMatch(shown[place[i]], wanted[i]))
    && (forall k :: 0 <= k < |shown| ==> !Missing(shown[k].interfaceId))
    && (forall k, l :: 0 <= k < l < |shown| ==> shown[k].interfaceId != shown[l].interfaceId)
  }

  /** Sending the same interfaces again gives each of them the id Zabbix shows for it exactly when no two of them agree
      in type, useip, ip, dns and port. */
  lemma InterfacesMatchedAgain(wanted: seq<Interface>, shown: seq<Interface>, place: seq<nat>)
    requires Returned(wanted, shown, place)
    ensures (forall i :: 0 <= i < |wanted| ==>
               FindMatchingInterfaceId(wanted[i], shown, i) == shown[place[i]].interfaceId)
            <==> (forall i, j :: 0 <= i < j < |wanted| ==> !ExactMatch(wanted[i], wanted[j]))
  {
    hide ExactMatch, Missing, Fold, FindMatchingInterfaceId;
    if forall i, j :: 0 <= i < j < |wanted| ==> !ExactMatch(wanted[i], wanted[j]) {
      forall i | 0 <= i < |wanted|
        ensures FindMatchingInterfaceId(wanted[i], shown, i) == shown[place[i]].interfaceId
      {
        OneMatchesAgain(wanted, shown, place, i);
      }
    } else {
      var i, j :| 0 <= i < j < |wanted| && ExactMatch(wanted[i], wanted[j]);
      FoundAlike(shown, wanted[i], wanted[j]);
      ExactId(shown, wanted[i], i, place[i]);
      ExactId(shown, wanted[j], j, place[j]);
    }
  }

  lemma ExactId(shown: seq<Interface>, wanted: Interface, index: nat, k: nat)
    requires k < |shown| && ExactMatch(shown[k], wanted)
    requires forall l :: 0 <= l < |shown| ==> !Missing(shown[l].interfaceId)
    ensures FindExact(shown, wanted).Some? && FindExact(shown, wanted).value in shown
    ensures ExactMatch(FindExact(shown, wanted).value, wanted)
    ensures FindMatchingInterfaceId(wanted, shown, index) == FindExact(shown, wanted).value.interfaceId
  {
    hide ExactMatch, Missing;
    FoundInterfaces(shown, wanted);
    assert shown[k] in shown;
  }

  lemma OneMatchesAgain(wanted: seq<Interface>, shown: seq<Interface>, place: seq<nat>, i: nat)
    requires Returned(wanted, shown, place) && i < |wanted|
    requires forall i, j :: 0 <= i < j < |wanted| ==> !ExactMatch(wanted[i], wanted[j])
    ensures FindMatchingInterfaceId(wanted[i], shown, i) == shown[place[i]].interfaceId
  {
    hide ExactMatch, Missing, Fold, FindMatchingInterfaceId;
    ExactId(shown, wanted[i], i, place[i]);
    var k :| 0 <= k < |shown| && shown[k] == FindExact(shown, wanted[i]).value;
    assert k in place;
    var j :| 0 <= j < |place| && place[j] == k;
    MatchesAlike(shown[k], wanted[j], wanted[i]);
    MatchesAlike(shown[k], wanted[i], wanted[j]);
  }

  lemma NothingIsMissing()
    ensures Missing(None)
  {
  }

  // ---------------------------------------------------------------- the whole payload

  /** How one property of the update is written. */
  function MergedProp(p: Prop, info: HostInfo, clear: set<string>): seq<Prop> {
    var name := Fold(p.name);
    if name == "hostid" then []
    else if name == "interfaces" && p.value.Arr? then
      [Prop("interfaces", Arr(WithInterfaceIds(p.value.items, info.interfaces)))]
    else if name == "groups" && p.value.Arr? then
      [Prop("groups", Arr(MergedGroups(p.value.items, info.groups)))]
    else if name == "templates" && p.value.Arr? then
      [Prop("templates", Arr(TemplateMerge.MergedTemplates(p.value.items, info.templateIds, clear)))]
    else if name == "tags" && p.value.Arr? then
      [Prop("tags", Arr(MergedTags(p.value.items, info.tags)))]
    else if name == "macros" && p.value.Arr? then
      [Prop("macros", Arr(MergedMacros(p.value.items, info.macros)))]
    else if name == "inventory" && p.value.Obj? then
      [Prop("inventory", MergedObject(info.inventory, p.value))]
    else if name == "templates_clear" && p.value.Arr? then
      var sent := TemplateMerge.TemplatesClear(info.templateIds, IdSet(p.value.items));
      if sent.None? then [] else [Prop("templates_clear", Arr(sent.value))]
    else [p]
  }

  function IdSet(items: seq<Json>): set<string> {
    set id | id in NonBlank(Field("templateid", items)) :: Fold(id)
  }

  function MergedGroups(desired: seq<Json>, existing: seq<Json>): seq<Json> {
    HostMerge.Merged(HostMerge.ByField("groupid"), desired, HostMerge.ByField("groupid"), existing, Some("groupid"))
  }

  function MergedMacros(desired: seq<Json>, existing: seq<Json>): seq<Json> {
    HostMerge.Merged(HostMerge.ByField("macro"), desired, HostMerge.ByField("macro"), existing, None)
  }

  function MergedTags(desired: seq<Json>, existing: seq<Json>): seq<Json> {
    HostMerge.Merged(HostMerge.ByTagOrText, desired, HostMerge.ByTag, existing, None)
  }

  function MergedProps(props: seq<Prop>, info: HostInfo, clear: set<string>): seq<Prop> {
    if props == [] then []
    else MergedProp(props[0], info, clear) + MergedProps(props[1..], info, clear)
  }

  function UpdateParams(params: Json, info: HostInfo): Json
    requires params.Obj?
  {
    Obj([Prop("hostid", Str(info.hostId))]
        + MergedProps(params.props, info, IdSet(Items(Get(params, "templates_clear")))))
  }
}
