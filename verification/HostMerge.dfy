/** The merge loops that turn a desired host.update payload and the host read from Zabbix
    into the payload that is sent. */
module HostMerge {
  import opened Text
  import opened JsonModel

  /** How an array element is identified. Desired tags without a name are identified by their text. */
  datatype Keying = ByField(name: string) | ByTag | ByTagOrText

  function RawText(value: Json): string {
    match value
    case Undefined => ""
    case Null => "null"
    case Bool(flag) => if flag then "true" else "false"
    case Num(raw) => raw
    case Str(text) => "\"" + text + "\""
    case Arr(items) => "[" + RawItems(items) + "]"
    case Obj(props) => "{" + RawProps(props) + "}"
  }

  function RawItems(items: seq<Json>): string {
    if items == [] then "" else RawText(items[0]) + "," + RawItems(items[1..])
  }

  function RawProps(props: seq<Prop>): string {
    if props == [] then ""
    else "\"" + props[0].name + "\":" + RawText(props[0].value) + "," + RawProps(props[1..])
  }

  function TagKey(tag: Json): Option<string> {
    var name := ReadString(tag, "tag");
    if Missing(name) then None
    else Some(Fold(name.value + "\U{1f}" + TextOf(ReadString(tag, "value"))))
  }

  /** The case-folded key of an element; None when the element has none. */
  function KeyOf(keying: Keying, item: Json): Option<string> {
    match keying
    case ByField(name) =>
      var key := ReadString(item, name);
      if Missing(key) then None else Some(Fold(key.value))
    case ByTag => TagKey(item)
    case ByTagOrText =>
      if TagKey(item).Some? then TagKey(item) else Some(Fold("raw:" + RawText(item)))
  }

  /** What the first loop collects: the last element of each key, the keys in order of first
      appearance, and the elements without a key. */
  datatype Index = Index(order: seq<string>, byKey: map<string, Json>, keyless: seq<Json>)

  function IndexOf(keying: Keying, items: seq<Json>): Index {
    if items == [] then Index([], map[], [])
    else AddTo(keying, IndexOf(keying, items[..|items| - 1]), items[|items| - 1])
  }

  function AddTo(keying: Keying, index: Index, item: Json): Index {
    match KeyOf(keying, item)
    case None => index.(keyless := index.keyless + [item])
    case Some(key) =>
      Index(if key in index.byKey then index.order else index.order + [key],
            index.byKey[key := item],
            index.keyless)
  }

  ghost predicate Consistent(keying: Keying, index: Index) {
    && (forall k :: k in index.order <==> k in index.byKey)
    && (forall i, j :: 0 <= i < j < |index.order| ==> index.order[i] != index.order[j])
    && (forall k :: k in index.byKey ==> KeyOf(keying, index.byKey[k]) == Some(k))
    && (forall x :: x in index.keyless ==> KeyOf(keying, x) == None)
  }

  /** The keys a list mentions. */
  ghost function KeySet(keying: Keying, items: seq<Json>): set<string> {
    if items == [] then {}
    else (match KeyOf(keying, items[0]) case None => {} case Some(k) => {k}) + KeySet(keying, items[1..])
  }

  lemma {:induction false} KeySetAppend(keying: Keying, left: seq<Json>, right: seq<Json>)
    ensures KeySet(keying, left + right) == KeySet(keying, left) + KeySet(keying, right)
  {
    if left == [] {
      assert left + right == right;
    } else {
      assert (left + right)[1..] == left[1..] + right;
      KeySetAppend(keying, left[1..], right);
    }
  }

  lemma KeySetOfOne(keying: Keying, item: Json)
    ensures KeySet(keying, [item]) == match KeyOf(keying, item) case None => {} case Some(k) => {k}
  {
    assert [item][1..] == [];
  }

  lemma {:induction false} KeySetIsView(keying: Keying, items: seq<Json>)
    ensures KeySet(keying, items) == IndexOf(keying, items).byKey.Keys
  {
    if items != [] {
      var front, last := items[..|items| - 1], items[|items| - 1];
      assert items == front + [last];
      KeySetIsView(keying, front);
      KeySetAppend(keying, front, [last]);
      KeySetOfOne(keying, last);
    }
  }

  lemma {:induction false} IndexConsistent(keying: Keying, items: seq<Json>)
    ensures Consistent(keying, IndexOf(keying, items))
  {
    if items != [] {
      IndexConsistent(keying, items[..|items| - 1]);
    }
  }

  lemma UpdateOfSum(left: map<string, Json>, right: map<string, Json>, key: string, item: Json)
    ensures (left + right)[key := item] == left + right[key := item]
  {
  }

  lemma {:induction false} IndexAppend(keying: Keying, left: seq<Json>, right: seq<Json>)
    ensures IndexOf(keying, left + right).byKey == IndexOf(keying, left).byKey + IndexOf(keying, right).byKey
    ensures IndexOf(keying, left + right).keyless == IndexOf(keying, left).keyless + IndexOf(keying, right).keyless
  {
    if right == [] {
      assert left + right == left;
    } else {
      var front, last := right[..|right| - 1], right[|right| - 1];
      assert (left + right)[..|left + right| - 1] == left + front && (left + right)[|left + right| - 1] == last;
      IndexAppend(keying, left, front);
      var l, f := IndexOf(keying, left), IndexOf(keying, front);
      match KeyOf(keying, last)
      case None =>
        assert l.keyless + f.keyless + [last] == l.keyless + (f.keyless + [last]);
      case Some(k) =>
        UpdateOfSum(l.byKey, f.byKey, k, last);
    }
  }

  /** The keys of a list, with repetitions, in order. */
  ghost function KeyList(keying: Keying, items: seq<Json>): seq<string> {
    if items == [] then []
    else match KeyOf(keying, items[0])
      case None => KeyList(keying, items[1..])
      case Some(k) => [k] + KeyList(keying, items[1..])
  }

  lemma {:induction false} KeyListAppend(keying: Keying, left: seq<Json>, right: seq<Json>)
    ensures KeyList(keying, left + right) == KeyList(keying, left) + KeyList(keying, right)
  {
    if left == [] {
      assert left + right == right;
    } else {
      assert (left + right)[1..] == left[1..] + right;
      KeyListAppend(keying, left[1..], right);
    }
  }

  // ---------------------------------------------------------------- arrays merged by key

  /** The existing element as it is written back: whole, or reduced to its key. */
  function Render(keyOnly: Option<string>, item: Json): Json {
    match keyOnly
    case None => item
    case Some(name) => KeyOnly(name, TextOf(ReadString(item, name)))
  }

  function Kept(keying: Keying, existing: seq<Json>, desired: map<string, Json>, keyOnly: Option<string>): seq<Json> {
    if existing == [] then []
    else
      var key := KeyOf(keying, existing[0]);
      (if key.None? || key.value in desired then [] else [Render(keyOnly, existing[0])])
      + Kept(keying, existing[1..], desired, keyOnly)
  }

  function Values(order: seq<string>, byKey: map<string, Json>): seq<Json>
    requires forall k :: k in order ==> k in byKey
  {
    seq(|order|, i requires 0 <= i < |order| => byKey[order[i]])
  }

  /** Existing elements no desired key overrides, then the desired ones, then the desired ones without a key. */
  function Merged(
    desiredKeying: Keying, desired: seq<Json>, keying: Keying, existing: seq<Json>,
    keyOnly: Option<string>): seq<Json> {
    var index := IndexOf(desiredKeying, desired);
    IndexConsistent(desiredKeying, desired);
    Kept(keying, existing, index.byKey, keyOnly) + Values(index.order, index.byKey) + index.keyless
  }

  /** The keyings the source combines: an element with a key keeps it in the other keying. */
  predicate Compatible(desiredKeying: Keying, keying: Keying, keyOnly: Option<string>) {
    && (desiredKeying == keying || (desiredKeying == ByTagOrText && keying == ByTag))
    && (keyOnly.Some? ==> keying == ByField(keyOnly.value))
  }

  /** The dictionary view of a list: each key with its last element. */
  ghost function View(keying: Keying, items: seq<Json>): map<string, Json> {
    IndexOf(keying, items).byKey
  }

  ghost function RenderedView(keyOnly: Option<string>, view: map<string, Json>): map<string, Json> {
    map k | k in view :: Render(keyOnly, view[k])
  }

  lemma RenderKeepsKey(keying: Keying, keyOnly: Option<string>, item: Json)
    requires keyOnly.Some? ==> keying == ByField(keyOnly.value)
    requires KeyOf(keying, item).Some?
    ensures KeyOf(keying, Render(keyOnly, item)) == KeyOf(keying, item)
    ensures Render(keyOnly, Render(keyOnly, item)) == Render(keyOnly, item)
  {
    if keyOnly.Some? {
      ReadKeyOnly(keyOnly.value, TextOf(ReadString(item, keyOnly.value)));
    }
  }

  lemma {:induction false} KeptAppend(
    keying: Keying, left: seq<Json>, right: seq<Json>, desired: map<string, Json>, keyOnly: Option<string>)
    ensures Kept(keying, left + right, desired, keyOnly)
            == Kept(keying, left, desired, keyOnly) + Kept(keying, right, desired, keyOnly)
  {
    hide KeyOf, Render;
    if left == [] {
      assert left + right == right;
    } else {
      assert (left + right)[1..] == left[1..] + right;
      KeptAppend(keying, left[1..], right, desired, keyOnly);
    }
  }

  lemma ViewOfOne(keying: Keying, item: Json)
    ensures View(keying, [item]) == match KeyOf(keying, item) case None => map[] case Some(k) => map[k := item]
  {
    assert [item] == [] + [item] && [item][..|[item]| - 1] == [];
    assert IndexOf(keying, []) == Index([], map[], []);
    assert IndexOf(keying, [item]) == AddTo(keying, Index([], map[], []), item);
  }

  lemma KeptOfOne(keying: Keying, item: Json, desired: map<string, Json>, keyOnly: Option<string>)
    ensures Kept(keying, [item], desired, keyOnly)
            == match KeyOf(keying, item)
               case None => []
               case Some(k) => if k in desired then [] else [Render(keyOnly, item)]
  {
    assert [item][1..] == [];
  }

  lemma RenderedViewUpdate(
    keyOnly: Option<string>, view: map<string, Json>, key: string, item: Json, overridden: set<string>)
    ensures RenderedView(keyOnly, view[key := item]) - overridden
            == if key in overridden then RenderedView(keyOnly, view) - overridden
               else (RenderedView(keyOnly, view) - overridden)[key := Render(keyOnly, item)]
  {
  }

  /** What is kept of the existing elements has the existing elements' view, outside the desired keys. */
  lemma {:induction false} KeptView(
    keying: Keying, existing: seq<Json>, desired: map<string, Json>, keyOnly: Option<string>)
    requires keyOnly.Some? ==> keying == ByField(keyOnly.value)
    ensures View(keying, Kept(keying, existing, desired, keyOnly))
            == RenderedView(keyOnly, View(keying, existing)) - desired.Keys
  {
    if existing != [] {
      var front, last := existing[..|existing| - 1], existing[|existing| - 1];
      assert existing == front + [last];
      KeptView(keying, front, desired, keyOnly);
      KeptAppend(keying, front, [last], desired, keyOnly);
      KeptOfOne(keying, last, desired, keyOnly);
      var keptFront := Kept(keying, front, desired, keyOnly);
      match KeyOf(keying, last)
      case None =>
        assert keptFront + [] == keptFront;
      case Some(k) =>
        RenderedViewUpdate(keyOnly, View(keying, front), k, last, desired.Keys);
        if k in desired {
          assert keptFront + [] == keptFront;
        } else {
          var rendered := Render(keyOnly, last);
          RenderKeepsKey(keying, keyOnly, last);
          assert (keptFront + [rendered])[..|keptFront|] == keptFront;
        }
    }
  }

  lemma ValuesView(keying: Keying, order: seq<string>, byKey: map<string, Json>)
    requires forall k :: k in order ==> k in byKey && KeyOf(keying, byKey[k]) == Some(k)
    ensures View(keying, Values(order, byKey)) == map k | k in order :: byKey[k]
  {
    if order != [] {
      var front, last := order[..|order| - 1], order[|order| - 1];
      assert order == front + [last];
      ValuesView(keying, front, byKey);
      assert Values(order, byKey) == Values(front, byKey) + [byKey[last]];
      ViewOfOne(keying, byKey[last]);
      IndexAppend(keying, Values(front, byKey), [byKey[last]]);
      hide IndexOf, KeyOf;
    }
  }

  lemma {:induction false} KeylessView(keying: Keying, items: seq<Json>)
    requires forall x :: x in items ==> KeyOf(keying, x) == None
    ensures View(keying, items) == map[]
  {
    if items != [] {
      KeylessView(keying, items[..|items| - 1]);
    }
  }

  lemma {:induction false} KeptElements(
    keying: Keying, existing: seq<Json>, desired: map<string, Json>, keyOnly: Option<string>)
    requires keyOnly.Some? ==> keying == ByField(keyOnly.value)
    ensures forall x :: x in Kept(keying, existing, desired, keyOnly) ==>
              KeyOf(keying, x).Some? && KeyOf(keying, x).value !in desired && Render(keyOnly, x) == x
    ensures (forall x :: x in existing ==> x.Obj?) ==>
              forall x :: x in Kept(keying, existing, desired, keyOnly) ==> x.Obj?
  {
    if existing != [] {
      KeptElements(keying, existing[1..], desired, keyOnly);
      if KeyOf(keying, existing[0]).Some? {
        RenderKeepsKey(keying, keyOnly, existing[0]);
      }
    }
  }

  lemma {:induction false} ViewsAgree(left: Keying, right: Keying, items: seq<Json>)
    requires forall x :: x in items ==> KeyOf(left, x) == KeyOf(right, x)
    ensures View(left, items) == View(right, items)
  {
    if items != [] {
      ViewsAgree(left, right, items[..|items| - 1]);
    }
  }

  /** The three parts of a merged array and what their elements are keyed by. */
  lemma MergedParts(
    desiredKeying: Keying, desired: seq<Json>, keying: Keying, existing: seq<Json>, keyOnly: Option<string>)
      returns (kept: seq<Json>, values: seq<Json>, index: Index)
    requires Compatible(desiredKeying, keying, keyOnly)
    ensures index == IndexOf(desiredKeying, desired) && Consistent(desiredKeying, index)
    ensures kept == Kept(keying, existing, index.byKey, keyOnly) && values == Values(index.order, index.byKey)
    ensures Merged(desiredKeying, desired, keying, existing, keyOnly) == kept + values + index.keyless
    ensures forall x :: x in kept ==>
              && KeyOf(keying, x).Some? && KeyOf(keying, x).value !in index.byKey && Render(keyOnly, x) == x
              && KeyOf(desiredKeying, x) == KeyOf(keying, x)
    ensures forall x :: x in values ==>
              KeyOf(desiredKeying, x).Some? && KeyOf(desiredKeying, x).value in index.byKey
  {
    index := IndexOf(desiredKeying, desired);
    IndexConsistent(desiredKeying, desired);
    kept, values := Kept(keying, existing, index.byKey, keyOnly), Values(index.order, index.byKey);
    KeptElements(keying, existing, index.byKey, keyOnly);
  }

  lemma OverrideOutside(base: map<string, Json>, top: map<string, Json>)
    ensures (base - top.Keys) + top + map[] == base + top
  {
  }

  /** The merged array refines a keyed override: every existing key survives, and the last desired
      element of a key wins over the existing one. */
  lemma MergedOverrides(
    desiredKeying: Keying, desired: seq<Json>, keying: Keying, existing: seq<Json>, keyOnly: Option<string>)
    requires Compatible(desiredKeying, keying, keyOnly)
    ensures View(desiredKeying, Merged(desiredKeying, desired, keying, existing, keyOnly))
            == RenderedView(keyOnly, View(keying, existing)) + View(desiredKeying, desired)
  {
    var kept, values, index := MergedParts(desiredKeying, desired, keying, existing, keyOnly);
    assert View(desiredKeying, kept) == RenderedView(keyOnly, View(keying, existing)) - index.byKey.Keys by {
      ViewsAgree(desiredKeying, keying, kept);
      KeptView(keying, existing, index.byKey, keyOnly);
    }
    assert View(desiredKeying, values) == index.byKey by {
      ValuesView(desiredKeying, index.order, index.byKey);
      assert (map k | k in index.order :: index.byKey[k]) == index.byKey;
    }
    IndexAppend(desiredKeying, kept + values, index.keyless);
    IndexAppend(desiredKeying, kept, values);
    KeylessView(desiredKeying, index.keyless);
    OverrideOutside(RenderedView(keyOnly, View(keying, existing)), index.byKey);
  }

  ghost function Outside(keys: seq<string>, desired: map<string, Json>): seq<string> {
    if keys == [] then []
    else (if keys[0] in desired then [] else [keys[0]]) + Outside(keys[1..], desired)
  }

  lemma {:induction false} OutsideElements(keys: seq<string>, desired: map<string, Json>)
    ensures forall k :: k in Outside(keys, desired) ==> k !in desired
  {
    if keys != [] {
      OutsideElements(keys[1..], desired);
    }
  }

  lemma KeyListOfCons(keying: Keying, item: Json, rest: seq<Json>)
    ensures KeyList(keying, [item] + rest)
            == (match KeyOf(keying, item) case None => [] case Some(k) => [k]) + KeyList(keying, rest)
  {
    assert ([item] + rest)[1..] == rest;
  }

  lemma OutsideOfCons(key: string, rest: seq<string>, desired: map<string, Json>)
    ensures Outside([key] + rest, desired) == (if key in desired then [] else [key]) + Outside(rest, desired)
  {
    assert ([key] + rest)[1..] == rest;
  }

  lemma {:induction false} KeptKeyList(
    keying: Keying, existing: seq<Json>, desired: map<string, Json>, keyOnly: Option<string>)
    requires keyOnly.Some? ==> keying == ByField(keyOnly.value)
    ensures KeyList(keying, Kept(keying, existing, desired, keyOnly)) == Outside(KeyList(keying, existing), desired)
  {
    if existing != [] {
      KeptKeyList(keying, existing[1..], desired, keyOnly);
      var key, rest := KeyOf(keying, existing[0]), Kept(keying, existing[1..], desired, keyOnly);
      if key.None? || key.value in desired {
        assert Kept(keying, existing, desired, keyOnly) == rest;
      } else {
        RenderKeepsKey(keying, keyOnly, existing[0]);
        KeyListOfCons(keying, Render(keyOnly, existing[0]), rest);
      }
      if key.Some? {
        OutsideOfCons(key.value, KeyList(keying, existing[1..]), desired);
      }
    }
  }

  lemma {:induction false} KeyListsAgree(left: Keying, right: Keying, items: seq<Json>)
    requires forall x :: x in items ==> KeyOf(left, x) == KeyOf(right, x)
    ensures KeyList(left, items) == KeyList(right, items)
  {
    if items != [] {
      KeyListsAgree(left, right, items[1..]);
    }
  }

  lemma {:induction false} ValuesKeyList(keying: Keying, order: seq<string>, byKey: map<string, Json>)
    requires forall k :: k in order ==> k in byKey && KeyOf(keying, byKey[k]) == Some(k)
    ensures KeyList(keying, Values(order, byKey)) == order
  {
    if order != [] {
      assert Values(order, byKey)[1..] == Values(order[1..], byKey);
      ValuesKeyList(keying, order[1..], byKey);
    }
  }

  lemma {:induction false} KeylessKeyList(keying: Keying, items: seq<Json>)
    requires forall x :: x in items ==> KeyOf(keying, x) == None
    ensures KeyList(keying, items) == []
  {
    if items != [] {
      KeylessKeyList(keying, items[1..]);
    }
  }

  /** No key appears twice exactly when Zabbix itself reported no key twice among those no desired element overrides. */
  lemma MergedKeysDistinct(
    desiredKeying: Keying, desired: seq<Json>, keying: Keying, existing: seq<Json>, keyOnly: Option<string>)
    requires Compatible(desiredKeying, keying, keyOnly)
    ensures NoRepeats(KeyList(desiredKeying, Merged(desiredKeying, desired, keying, existing, keyOnly)))
            <==> NoRepeats(Outside(KeyList(keying, existing), View(desiredKeying, desired)))
  {
    var kept, values, index := MergedParts(desiredKeying, desired, keying, existing, keyOnly);
    var outside := Outside(KeyList(keying, existing), index.byKey);
    assert KeyList(desiredKeying, kept) == outside by {
      KeyListsAgree(desiredKeying, keying, kept);
      KeptKeyList(keying, existing, index.byKey, keyOnly);
    }
    KeyListAppend(desiredKeying, kept + values, index.keyless);
    KeyListAppend(desiredKeying, kept, values);
    KeylessKeyList(desiredKeying, index.keyless);
    ValuesKeyList(desiredKeying, index.order, index.byKey);
    OutsideElements(KeyList(keying, existing), index.byKey);
    SumRepeats(outside, index.order);
    assert outside + index.order + [] == outside + index.order;
  }

  lemma SumRepeats(left: seq<string>, right: seq<string>)
    requires forall k :: k in left ==> k !in right
    requires NoRepeats(right)
    ensures NoRepeats(left + right) <==> NoRepeats(left)
  {
    if NoRepeats(left + right) {
      forall i, j | 0 <= i < j < |left|
        ensures left[i] != left[j]
      {
        assert (left + right)[i] == left[i] && (left + right)[j] == left[j];
      }
    }
    if NoRepeats(left) {
      var both := left + right;
      forall i, j | 0 <= i < j < |both|
        ensures both[i] != both[j]
      {
        if i < |left| <= j {
          assert both[i] in left && both[j] in right;
        } else if |left| <= i {
          assert both[i] == right[i - |left|] && both[j] == right[j - |left|];
        }
      }
    }
  }

  lemma {:induction false} KeptAgain(
    keying: Keying, items: seq<Json>, desired: map<string, Json>, keyOnly: Option<string>)
    requires forall x :: x in items ==>
               KeyOf(keying, x).Some? && KeyOf(keying, x).value !in desired && Render(keyOnly, x) == x
    ensures Kept(keying, items, desired, keyOnly) == items
  {
    hide KeyOf, Render;
    if items != [] {
      KeptAgain(keying, items[1..], desired, keyOnly);
    }
  }

  lemma {:induction false} KeptNothing(
    keying: Keying, items: seq<Json>, desired: map<string, Json>, keyOnly: Option<string>)
    requires forall x :: x in items && KeyOf(keying, x).Some? ==> KeyOf(keying, x).value in desired
    ensures Kept(keying, items, desired, keyOnly) == []
  {
    hide KeyOf, Render;
    if items != [] {
      KeptNothing(keying, items[1..], desired, keyOnly);
    }
  }

  /** When the update replaced the array, reading the host again and merging the same update
      once more gives the same array, element by element. */
  lemma MergedAgain(
    desiredKeying: Keying, desired: seq<Json>, keying: Keying, existing: seq<Json>, keyOnly: Option<string>)
    requires Compatible(desiredKeying, keying, keyOnly)
    requires forall x :: x in existing ==> x.Obj?
    ensures var merged := Merged(desiredKeying, desired, keying, existing, keyOnly);
            Merged(desiredKeying, desired, keying, Objects(merged), keyOnly) == merged
  {
    var kept, values, index := MergedParts(desiredKeying, desired, keying, existing, keyOnly);
    KeptElements(keying, existing, index.byKey, keyOnly);
    ObjectsAppend(kept + values, index.keyless);
    ObjectsAppend(kept, values);
    ObjectsOfObjects(kept);
    var vs, us := Objects(values), Objects(index.keyless);
    assert Kept(keying, kept + vs + us, index.byKey, keyOnly) == kept by {
      KeptAppend(keying, kept + vs, us, index.byKey, keyOnly);
      KeptAppend(keying, kept, vs, index.byKey, keyOnly);
      KeptAgain(keying, kept, index.byKey, keyOnly);
      KeptNothing(keying, vs, index.byKey, keyOnly);
      KeptNothing(keying, us, index.byKey, keyOnly);
      assert kept + [] + [] == kept;
    }
  }
}
