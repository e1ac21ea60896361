/** JSON values as System.Text.Json presents them. A missing property reads as Undefined;
    of two properties with one name the later one is found. */
module JsonModel {
  import Text

  datatype Json =
    | Undefined
    | Null
    | Bool(flag: bool)
    | Num(raw: string)
    | Str(text: string)
    | Arr(items: seq<Json>)
    | Obj(props: seq<Prop>)

  datatype Prop = Prop(name: string, value: Json)

  function Lookup(props: seq<Prop>, name: string): Json {
    if props == [] then Undefined
    else
      var later := Lookup(props[1..], name);
      if later != Undefined then later
      else if props[0].name == name then props[0].value
      else Undefined
  }

  function Get(value: Json, name: string): Json {
    if value.Obj? then Lookup(value.props, name) else Undefined
  }

  function ReadScalar(value: Json): Text.Option<string> {
    match value
    case Str(text) => Text.Some(text)
    case Num(raw) => Text.Some(raw)
    case Bool(flag) => Text.Some(if flag then "True" else "False")
    case _ => Text.None
  }

  function ReadString(value: Json, name: string): Text.Option<string> {
    ReadScalar(Get(value, name))
  }

  function Items(value: Json): seq<Json> {
    if value.Arr? then value.items else []
  }

  function Objects(items: seq<Json>): (r: seq<Json>)
    ensures forall x :: x in r <==> x in items && x.Obj?
  {
    if items == [] then []
    else
      assert items == [items[0]] + items[1..];
      (if items[0].Obj? then [items[0]] else []) + Objects(items[1..])
  }

  /** The objects of an array property; nothing when the property is not an array. */
  function ObjectArray(value: Json, name: string): (r: seq<Json>)
    ensures forall x :: x in r ==> x.Obj?
  {
    Objects(Items(Get(value, name)))
  }

  function KeyOnly(name: string, key: string): Json {
    Obj([Prop(name, Str(key))])
  }

  function Field(name: string, items: seq<Json>): seq<Text.Option<string>> {
    seq(|items|, i requires 0 <= i < |items| => ReadString(items[i], name))
  }

  lemma {:induction false} LookupAppend(left: seq<Prop>, right: seq<Prop>, name: string)
    ensures Lookup(left + right, name) ==
            if Lookup(right, name) != Undefined then Lookup(right, name) else Lookup(left, name)
  {
    if left == [] {
      assert left + right == right;
    } else {
      assert (left + right)[1..] == left[1..] + right;
      LookupAppend(left[1..], right, name);
    }
  }

  lemma LookupSingle(p: Prop, name: string)
    ensures Lookup([p], name) == if p.name == name then p.value else Undefined
  {
    assert [p][1..] == [];
  }

  lemma ReadKeyOnly(name: string, key: string)
    ensures ReadString(KeyOnly(name, key), name) == Text.Some(key)
  {
    LookupSingle(Prop(name, Str(key)), name);
  }

  lemma {:induction false} ObjectsAppend(left: seq<Json>, right: seq<Json>)
    ensures Objects(left + right) == Objects(left) + Objects(right)
  {
    if left == [] {
      assert left + right == right;
    } else {
      assert (left + right)[1..] == left[1..] + right;
      ObjectsAppend(left[1..], right);
    }
  }

  lemma {:induction false} ObjectsOfObjects(items: seq<Json>)
    requires forall x :: x in items ==> x.Obj?
    ensures Objects(items) == items
  {
    if items != [] {
      ObjectsOfObjects(items[1..]);
    }
  }

  ghost predicate DistinctPropNames(props: seq<Prop>) {
    forall i, j :: 0 <= i < j < |props| ==> props[i].name != props[j].name
  }

  lemma {:induction false} LookupNone(props: seq<Prop>, name: string)
    requires forall p :: p in props ==> p.name != name
    ensures Lookup(props, name) == Undefined
  {
    if props != [] {
      LookupNone(props[1..], name);
    }
  }

  lemma {:induction false} LookupAt(props: seq<Prop>, i: nat)
    requires DistinctPropNames(props) && i < |props|
    ensures Lookup(props, props[i].name) == props[i].value
  {
    if i == 0 {
      LookupNone(props[1..], props[0].name);
    } else {
      LookupAt(props[1..], i - 1);
    }
  }
}
