/** Templates of a host.update: linked templates are kept unless cleared, desired ones added,
    and templates_clear is narrowed to what is linked. */
module TemplateMerge {
  import opened Text
  import opened JsonModel
  import opened HostMerge

  const BY_ID := ByField("templateid")

  function IdObject(id: string): Json {
    KeyOnly("templateid", id)
  }

  /** The template ids of a list of JSON objects, in order of first appearance. */
  function TemplateIds(items: seq<Json>): seq<string> {
    Distinct(NonBlank(Field("templateid", items)))
  }

  ghost predicate DistinctIds(ids: seq<string>) {
    && (forall x :: x in ids ==> !Blank(x))
    && (forall i, j :: 0 <= i < j < |ids| ==> !Same(ids[i], ids[j]))
  }

  function KeptIds(existing: seq<string>, skip: set<string>): seq<Json> {
    if existing == [] then []
    else
      (if Blank(existing[0]) || Fold(existing[0]) in skip then [] else [IdObject(existing[0])])
      + KeptIds(existing[1..], skip)
  }

  function NotCleared(order: seq<string>, byKey: map<string, Json>, clear: set<string>): seq<Json>
    requires forall k :: k in order ==> k in byKey
  {
    if order == [] then []
    else (if order[0] in clear then [] else [byKey[order[0]]]) + NotCleared(order[1..], byKey, clear)
  }

  function MergedTemplates(desired: seq<Json>, existing: seq<string>, clear: set<string>): seq<Json> {
    var index := IndexOf(BY_ID, desired);
    IndexConsistent(BY_ID, desired);
    KeptIds(existing, clear + index.byKey.Keys) + NotCleared(index.order, index.byKey, clear) + index.keyless
  }

  /** The linked templates that are asked to be cleared. */
  function ClearedIds(existing: seq<string>, requested: set<string>): seq<string> {
    if existing == [] then []
    else (if Fold(existing[0]) in requested then [existing[0]] else []) + ClearedIds(existing[1..], requested)
  }

  /** The templates_clear array that is sent; None when the property is left out. */
  function TemplatesClear(existing: seq<string>, requested: set<string>): Option<seq<Json>> {
    var ids := Distinct(ClearedIds(existing, requested));
    if ids == [] then None else Some(IdObjects(ids))
  }

  function IdObjects(ids: seq<string>): seq<Json> {
    seq(|ids|, i requires 0 <= i < |ids| => IdObject(ids[i]))
  }

  lemma KeyOfId(id: string)
    ensures KeyOf(BY_ID, IdObject(id)) == if Blank(id) then None else Some(Fold(id))
  {
    ReadKeyOnly("templateid", id);
  }

  lemma {:induction false} KeptIdsKeys(existing: seq<string>, skip: set<string>)
    requires forall x :: x in existing ==> !Blank(x)
    ensures KeySet(BY_ID, KeptIds(existing, skip)) == FoldSet(existing) - skip
  {
    if existing != [] {
      KeptIdsKeys(existing[1..], skip);
      if Fold(existing[0]) !in skip {
        KeyOfId(existing[0]);
        KeySetOfOne(BY_ID, IdObject(existing[0]));
        KeySetAppend(BY_ID, [IdObject(existing[0])], KeptIds(existing[1..], skip));
      } else {
        assert KeptIds(existing, skip) == [] + KeptIds(existing[1..], skip) == KeptIds(existing[1..], skip);
      }
    }
  }

  ghost function ToSet(order: seq<string>): set<string> {
    if order == [] then {} else {order[0]} + ToSet(order[1..])
  }

  lemma {:induction false} ToSetIn(order: seq<string>)
    ensures forall k :: k in ToSet(order) <==> k in order
  {
    if order != [] {
      ToSetIn(order[1..]);
    }
  }

  lemma {:induction false} NotClearedKeys(order: seq<string>, byKey: map<string, Json>, clear: set<string>)
    requires forall k :: k in order ==> k in byKey && KeyOf(BY_ID, byKey[k]) == Some(k)
    ensures KeySet(BY_ID, NotCleared(order, byKey, clear)) == ToSet(order) - clear
  {
    if order != [] {
      var rest := NotCleared(order[1..], byKey, clear);
      NotClearedKeys(order[1..], byKey, clear);
      if order[0] !in clear {
        KeySetOfOne(BY_ID, byKey[order[0]]);
        KeySetAppend(BY_ID, [byKey[order[0]]], rest);
      } else {
        assert NotCleared(order, byKey, clear) == [] + rest == rest;
      }
    }
  }

  lemma {:induction false} NotClearedElements(order: seq<string>, byKey: map<string, Json>, clear: set<string>)
    requires forall k :: k in order ==> k in byKey
    ensures forall k :: k in order && k !in clear ==> byKey[k] in NotCleared(order, byKey, clear)
  {
    if order != [] {
      NotClearedElements(order[1..], byKey, clear);
    }
  }

  lemma {:induction false} KeylessKeys(items: seq<Json>)
    requires forall x :: x in items ==> KeyOf(BY_ID, x) == None
    ensures KeySet(BY_ID, items) == {}
  {
    if items != [] {
      KeylessKeys(items[1..]);
    }
  }

  /** The parts of the merged templates with the keys each mentions. */
  lemma TemplateParts(desired: seq<Json>, existing: seq<string>, clear: set<string>)
      returns (kept: seq<Json>, values: seq<Json>, keyless: seq<Json>)
    requires forall x :: x in existing ==> !Blank(x)
    ensures MergedTemplates(desired, existing, clear) == kept + values + keyless
    ensures kept == KeptIds(existing, clear + KeySet(BY_ID, desired))
    ensures KeySet(BY_ID, kept) == FoldSet(existing) - (clear + KeySet(BY_ID, desired))
    ensures KeySet(BY_ID, values) == KeySet(BY_ID, desired) - clear
    ensures forall k :: k in View(BY_ID, desired) && k !in clear ==> View(BY_ID, desired)[k] in values
    ensures KeySet(BY_ID, keyless) == {}
  {
    var index := IndexOf(BY_ID, desired);
    IndexConsistent(BY_ID, desired);
    KeySetIsView(BY_ID, desired);
    kept, values := KeptIds(existing, clear + index.byKey.Keys), NotCleared(index.order, index.byKey, clear);
    keyless := index.keyless;
    KeptIdsKeys(existing, clear + index.byKey.Keys);
    NotClearedKeys(index.order, index.byKey, clear);
    NotClearedElements(index.order, index.byKey, clear);
    ToSetIn(index.order);
    assert ToSet(index.order) == index.byKey.Keys;
    KeylessKeys(keyless);
  }

  /** The templates sent are exactly the linked and the desired ones, without the cleared ones;
      a desired one is sent as the update states it last. */
  lemma MergedTemplateIds(desired: seq<Json>, existing: seq<string>, clear: set<string>)
    requires forall x :: x in existing ==> !Blank(x)
    ensures KeySet(BY_ID, MergedTemplates(desired, existing, clear))
            == (FoldSet(existing) + KeySet(BY_ID, desired)) - clear
    ensures forall k :: k in View(BY_ID, desired) && k !in clear ==>
              View(BY_ID, desired)[k] in MergedTemplates(desired, existing, clear)
  {
    var kept, values, keyless := TemplateParts(desired, existing, clear);
    KeySetAppend(BY_ID, kept + values, keyless);
    KeySetAppend(BY_ID, kept, values);
  }

  // ---------------------------------------------------------------- every template once

  ghost function Minus(keys: seq<string>, skip: set<string>): seq<string> {
    if keys == [] then []
    else if keys[0] in skip then Minus(keys[1..], skip)
    else [keys[0]] + Minus(keys[1..], skip)
  }

  ghost function Folded(ids: seq<string>): seq<string> {
    seq(|ids|, i requires 0 <= i < |ids| => Fold(ids[i]))
  }

  lemma {:induction false} MinusElements(keys: seq<string>, skip: set<string>)
    ensures forall k :: k in Minus(keys, skip) <==> k in keys && k !in skip
  {
    if keys != [] {
      assert keys == [keys[0]] + keys[1..];
      MinusElements(keys[1..], skip);
    }
  }

  lemma {:induction false} MinusOnce(keys: seq<string>, skip: set<string>)
    requires NoRepeats(keys)
    ensures NoRepeats(Minus(keys, skip))
  {
    if keys != [] {
      assert forall i, j :: 0 <= i < j < |keys[1..]| ==> keys[1..][i] == keys[i + 1] && keys[1..][j] == keys[j + 1];
      MinusOnce(keys[1..], skip);
      MinusElements(keys[1..], skip);
    }
  }

  lemma {:induction false} KeptIdsKeyList(existing: seq<string>, skip: set<string>)
    requires forall x :: x in existing ==> !Blank(x)
    ensures KeyList(BY_ID, KeptIds(existing, skip)) == Minus(Folded(existing), skip)
  {
    if existing != [] {
      KeptIdsKeyList(existing[1..], skip);
      assert Folded(existing)[1..] == Folded(existing[1..]);
      var rest := KeptIds(existing[1..], skip);
      if Fold(existing[0]) in skip {
        assert KeptIds(existing, skip) == [] + rest == rest;
      } else {
        KeyOfId(existing[0]);
        KeyListOfCons(BY_ID, IdObject(existing[0]), rest);
      }
    }
  }

  lemma {:induction false} NotClearedKeyList(order: seq<string>, byKey: map<string, Json>, clear: set<string>)
    requires forall k :: k in order ==> k in byKey && KeyOf(BY_ID, byKey[k]) == Some(k)
    ensures KeyList(BY_ID, NotCleared(order, byKey, clear)) == Minus(order, clear)
  {
    hide KeyOf;
    if order != [] {
      NotClearedKeyList(order[1..], byKey, clear);
      var rest := NotCleared(order[1..], byKey, clear);
      if order[0] in clear {
        assert NotCleared(order, byKey, clear) == [] + rest == rest;
      } else {
        assert ([byKey[order[0]]] + rest)[1..] == rest;
      }
    }
  }

  /** No template is sent twice. */
  lemma MergedTemplatesOnce(desired: seq<Json>, existing: seq<string>, clear: set<string>)
    requires DistinctIds(existing)
    ensures NoRepeats(KeyList(BY_ID, MergedTemplates(desired, existing, clear)))
  {
    var index := IndexOf(BY_ID, desired);
    IndexConsistent(BY_ID, desired);
    var skip := clear + index.byKey.Keys;
    var kept, values := KeptIds(existing, skip), NotCleared(index.order, index.byKey, clear);
    KeptIdsKeyList(existing, skip);
    NotClearedKeyList(index.order, index.byKey, clear);
    KeylessKeyList(BY_ID, index.keyless);
    hide KeptIds, NotCleared, KeyOf, Fold;
    KeyListAppend(BY_ID, kept + values, index.keyless);
    KeyListAppend(BY_ID, kept, values);
    var left, right := Minus(Folded(existing), skip), Minus(index.order, clear);
    MinusOnce(Folded(existing), skip);
    MinusOnce(index.order, clear);
    MinusElements(Folded(existing), skip);
    MinusElements(index.order, clear);
    SumRepeats(left, right);
    assert left + right + [] == left + right;
  }

  // ---------------------------------------------------------------- merging the same update again

  lemma {:induction false} NonBlankAppend(left: seq<Option<string>>, right: seq<Option<string>>)
    ensures NonBlank(left + right) == NonBlank(left) + NonBlank(right)
  {
    if left == [] {
      assert left + right == right;
    } else {
      assert (left + right)[1..] == left[1..] + right;
      NonBlankAppend(left[1..], right);
    }
  }

  lemma FieldAppend(left: seq<Json>, right: seq<Json>)
    ensures NonBlank(Field("templateid", left + right))
            == NonBlank(Field("templateid", left)) + NonBlank(Field("templateid", right))
  {
    assert Field("templateid", left + right) == Field("templateid", left) + Field("templateid", right);
    NonBlankAppend(Field("templateid", left), Field("templateid", right));
  }

  lemma {:induction false} DistinctOfDistinct(xs: seq<string>)
    requires DistinctIds(xs)
    ensures Distinct(xs) == xs
  {
    if xs != [] {
      var front, last := xs[..|xs| - 1], xs[|xs| - 1];
      DistinctOfDistinct(front);
      assert !Holds(front, last);
    }
  }

  lemma {:induction false} DistinctAppend(left: seq<string>, right: seq<string>) returns (rest: seq<string>)
    ensures Distinct(left + right) == Distinct(left) + rest
    ensures forall x :: x in rest ==> x in right
  {
    if right == [] {
      assert left + right == left;
      rest := [];
    } else {
      var front, last := right[..|right| - 1], right[|right| - 1];
      assert (left + right)[..|left + right| - 1] == left + front;
      rest := DistinctAppend(left, front);
      if !Holds(Distinct(left + front), last) {
        rest := rest + [last];
      }
    }
  }

  lemma {:induction false} KeptIdsAppend(left: seq<string>, right: seq<string>, skip: set<string>)
    ensures KeptIds(left + right, skip) == KeptIds(left, skip) + KeptIds(right, skip)
  {
    if left == [] {
      assert left + right == right;
    } else {
      assert (left + right)[1..] == left[1..] + right;
      KeptIdsAppend(left[1..], right, skip);
    }
  }

  lemma {:induction false} KeptIdsNothing(ids: seq<string>, skip: set<string>)
    requires forall x :: x in ids ==> Fold(x) in skip
    ensures KeptIds(ids, skip) == []
  {
    if ids != [] {
      KeptIdsNothing(ids[1..], skip);
    }
  }

  /** The ids that survive the skip set. */
  function Surviving(ids: seq<string>, skip: set<string>): (r: seq<string>)
    ensures forall x :: x in r ==> x in ids && Fold(x) !in skip
  {
    if ids == [] then []
    else (if Fold(ids[0]) in skip then [] else [ids[0]]) + Surviving(ids[1..], skip)
  }

  lemma {:induction false} SurvivingDistinct(ids: seq<string>, skip: set<string>)
    requires DistinctIds(ids)
    ensures DistinctIds(Surviving(ids, skip))
  {
    if ids != [] {
      SurvivingDistinct(ids[1..], skip);
    }
  }

  lemma ReadBackOne(id: string)
    requires !Blank(id)
    ensures NonBlank(Field("templateid", [IdObject(id)])) == [id]
  {
    ReadKeyOnly("templateid", id);
    assert Field("templateid", [IdObject(id)]) == [Some(id)];
    assert [Some(id)][1..] == [];
  }

  lemma {:induction false} KeptIdsReadBack(ids: seq<string>, skip: set<string>)
    requires forall x :: x in ids ==> !Blank(x)
    ensures NonBlank(Field("templateid", KeptIds(ids, skip))) == Surviving(ids, skip)
  {
    if ids != [] {
      var rest := KeptIds(ids[1..], skip);
      KeptIdsReadBack(ids[1..], skip);
      if Fold(ids[0]) in skip {
        assert KeptIds(ids, skip) == [] + rest == rest;
      } else {
        FieldAppend([IdObject(ids[0])], rest);
        ReadBackOne(ids[0]);
      }
    }
  }

  lemma {:induction false} KeptSurviving(ids: seq<string>, skip: set<string>)
    requires forall x :: x in ids ==> !Blank(x)
    ensures KeptIds(Surviving(ids, skip), skip) == KeptIds(ids, skip)
  {
    if ids != [] {
      KeptSurviving(ids[1..], skip);
      var rest := Surviving(ids[1..], skip);
      if Fold(ids[0]) in skip {
        assert Surviving(ids, skip) == [] + rest == rest;
        assert KeptIds(ids, skip) == [] + KeptIds(ids[1..], skip) == KeptIds(ids[1..], skip);
      } else {
        assert ([ids[0]] + rest)[1..] == rest;
      }
    }
  }

  lemma {:induction false} FieldKeys(items: seq<Json>)
    ensures forall x :: x in NonBlank(Field("templateid", items)) ==> Fold(x) in KeySet(BY_ID, items)
  {
    if items != [] {
      FieldKeys(items[1..]);
      assert Field("templateid", items)[1..] == Field("templateid", items[1..]);
    }
  }

  /** Reading the updated host and merging the same update again sends the same templates. */
  lemma MergedTemplatesAgain(desired: seq<Json>, existing: seq<string>, clear: set<string>)
    requires DistinctIds(existing)
    ensures var merged := MergedTemplates(desired, existing, clear);
            MergedTemplates(desired, TemplateIds(merged), clear) == merged
  {
    var kept, values, keyless := TemplateParts(desired, existing, clear);
    var skip := clear + KeySet(BY_ID, desired);
    var merged := MergedTemplates(desired, existing, clear);
    assert KeptIds(TemplateIds(merged), skip) == kept by {
      assert merged == kept + (values + keyless);
      KeySetAppend(BY_ID, values, keyless);
      ReadBackKept(existing, skip, values + keyless);
    }
    KeySetIsView(BY_ID, desired);
    hide IndexOf, KeyOf, KeySet, KeptIds, TemplateIds;
  }

  /** The templates kept from the host are read back as kept, whatever follows them mentions only skipped ones. */
  lemma ReadBackKept(existing: seq<string>, skip: set<string>, tail: seq<Json>)
    requires DistinctIds(existing) && KeySet(BY_ID, tail) <= skip
    ensures KeptIds(TemplateIds(KeptIds(existing, skip) + tail), skip) == KeptIds(existing, skip)
  {
    hide KeySet, KeyOf, KeptIds, Distinct, NonBlank, Field;
    var surviving := Surviving(existing, skip);
    FieldAppend(KeptIds(existing, skip), tail);
    KeptIdsReadBack(existing, skip);
    KeptSurviving(existing, skip);
    SurvivingDistinct(existing, skip);
    DistinctOfDistinct(surviving);
    var rest := DistinctAppend(surviving, NonBlank(Field("templateid", tail)));
    FieldKeys(tail);
    KeptIdsAppend(surviving, rest, skip);
    KeptIdsNothing(rest, skip);
  }

  lemma {:induction false} ClearedIdsElements(existing: seq<string>, requested: set<string>)
    ensures forall x :: x in ClearedIds(existing, requested) <==> x in existing && Fold(x) in requested
    ensures FoldSet(ClearedIds(existing, requested)) == FoldSet(existing) * requested
  {
    if existing != [] {
      ClearedIdsElements(existing[1..], requested);
      FoldSetAppend(if Fold(existing[0]) in requested then [existing[0]] else [], ClearedIds(existing[1..], requested));
      assert FoldSet([existing[0]]) == {Fold(existing[0])} + FoldSet([]);
    }
  }

  lemma {:induction false} IdObjectsKeys(ids: seq<string>)
    requires forall x :: x in ids ==> !Blank(x)
    ensures KeySet(BY_ID, IdObjects(ids)) == FoldSet(ids)
  {
    if ids != [] {
      IdObjectsKeys(ids[1..]);
      KeyOfId(ids[0]);
      assert IdObjects(ids)[1..] == IdObjects(ids[1..]);
    }
  }

  lemma {:induction false} DistinctFoldSet(xs: seq<string>)
    ensures FoldSet(Distinct(xs)) == FoldSet(xs)
  {
    if xs != [] {
      var front, last := xs[..|xs| - 1], xs[|xs| - 1];
      assert xs == front + [last];
      DistinctFoldSet(front);
      FoldSetAppend(front, [last]);
      FoldSetHolds(Distinct(front), last);
      FoldSetAppend(Distinct(front), [last]);
      assert FoldSet([last]) == {Fold(last)} + FoldSet([]);
    }
  }

  ghost function ClearedKeys(sent: Option<seq<Json>>): set<string> {
    match sent case None => {} case Some(items) => KeySet(BY_ID, items)
  }

  /** templates_clear names exactly the linked templates that are to be cleared, and is left out when there are none. */
  lemma TemplatesClearIds(existing: seq<string>, requested: set<string>)
    requires forall x :: x in existing ==> !Blank(x)
    ensures ClearedKeys(TemplatesClear(existing, requested)) == FoldSet(existing) * requested
    ensures TemplatesClear(existing, requested) == None <==> FoldSet(existing) * requested == {}
  {
    var ids := ClearedIds(existing, requested);
    ClearedIdsElements(existing, requested);
    DistinctFoldSet(ids);
    DistinctElements(ids);
    IdObjectsKeys(Distinct(ids));
    if Distinct(ids) != [] {
      assert Fold(Distinct(ids)[0]) in FoldSet(Distinct(ids));
    }
  }

  /** After the update nothing is left to clear. */
  lemma NothingToClearAgain(desired: seq<Json>, existing: seq<string>, clear: set<string>)
    requires forall x :: x in existing ==> !Blank(x)
    ensures TemplatesClear(TemplateIds(MergedTemplates(desired, existing, clear)), clear) == None
  {
    var merged := MergedTemplates(desired, existing, clear);
    MergedTemplateIds(desired, existing, clear);
    FieldKeys(merged);
    DistinctElements(NonBlank(Field("templateid", merged)));
    ClearedIdsElements(TemplateIds(merged), clear);
    var ids := ClearedIds(TemplateIds(merged), clear);
    assert forall x :: x in ids ==> Fold(x) in KeySet(BY_ID, merged);
    assert ids == [];
  }
}
